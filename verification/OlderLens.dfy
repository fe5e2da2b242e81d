/** The older lens: no snapshot pointer and no cached counter.  It counts the deltas at HEAD
    afresh for every commit, so its journal bound holds for any number of instances. */
module OlderLens {
  import opened Basics
  import opened Texts
  import opened Codec
  import opened Kernel
  import opened ProllyTree
  import opened OlderTree
  import opened History
  import opened Commits
  import opened CommitStore
  import opened Refs
  import opened LensSteps

  const OLDER_THRESHOLD: nat := 4  // COMPACTION_THRESHOLD

  /** The commits that rest on more than four deltas. */
  ghost function Deep(vs: Versions): set<Bytes>
    requires WellFormed(vs)
  {
    set h | h in vs && Journal(vs, h) > OLDER_THRESHOLD
  }

  ghost predicate Shallow(vs: Versions)
    requires WellFormed(vs)
  {
    Deep(vs) == {}
  }

  lemma ShallowAt(vs: Versions, h: Bytes)
    requires WellFormed(vs) && Shallow(vs) && h in vs
    ensures Journal(vs, h) <= OLDER_THRESHOLD
  {
    assert h !in Deep(vs);
  }

  /** HEAD and the branches are commits. */
  ghost predicate RefsKnown(vs: Versions, roots: Roots, name: string) {
    && (HeadRef(name) in roots ==> roots[HeadRef(name)] in vs)
    && (forall b :: BranchRef(name, b) in roots ==> HeadRef(name) in roots && roots[BranchRef(name, b)] in vs)
  }

  /** What all older lenses on a collection rely on. */
  ghost predicate OlderRepo(k: MemoryKernel<Bytes, Bytes, Ref>, ledger: Ledger, name: string)
    reads k, ledger
  {
    SoundStore(k, ledger) && Shallow(ledger.versions) && RefsKnown(ledger.versions, k.roots, name)
  }

  lemma ShallowExtended(vs: Versions, ws: Versions, h: Bytes, v: Version)
    requires WellFormed(vs) && Shallow(vs) && WellFormed(ws) && Grown(vs, ws) && ws == vs[h := v]
    requires v.snapshot || (v.parent.Some? && v.parent.value in vs && Journal(vs, v.parent.value) < OLDER_THRESHOLD)
    ensures Shallow(ws)
  {
    assert Linked(ws, h);
    if !v.snapshot { NearestGrown(vs, ws, v.parent.value); }
    forall g | g in ws ensures Journal(ws, g) <= OLDER_THRESHOLD {
      if g in vs {
        ShallowAt(vs, g);
        NearestGrown(vs, ws, g);
      }
    }
  }

  /** `lookup`, with its safety valve: `cut` says that the walk was given up. */
  method LookupWithValve(k: MemoryKernel<Bytes, Bytes, Ref>, ledger: Ledger, name: string, key: Bytes)
    returns (r: Option<Bytes>, steps: nat, cut: bool)
    requires SoundStore(k, ledger) && (HeadRef(name) in k.roots ==> k.roots[HeadRef(name)] in ledger.versions)
    ensures !cut ==> r == Get(StateAt(ledger.versions, Head(k.roots, name)), key)
    ensures cut ==> HeadJournal(ledger.versions, Head(k.roots, name)) > OLDER_THRESHOLD + 1
    ensures Shallow(ledger.versions) ==> !cut && steps <= OLDER_THRESHOLD + 1
  {
    steps, cut := 0, false;
    var head := k.Resolve(HeadRef(name));
    if head.None? { return None, 0, false; }
    if Shallow(ledger.versions) { ShallowAt(ledger.versions, head.value); }
    var current := head;
    while current.Some?
      invariant current.Some? && current.value in ledger.versions && steps <= OLDER_THRESHOLD + 1
      invariant Journal(ledger.versions, head.value) == steps + Journal(ledger.versions, current.value)
      invariant Get(ledger.versions[current.value].state, key) == Get(ledger.versions[head.value].state, key)
      decreases ledger.versions[current.value].depth
    {
      assert Linked(ledger.versions, current.value);
      var c := LoadCommit(k, ledger, current.value);
      steps := steps + 1;
      if c.HasDelta() {
        GetApply(ledger.versions[c.parent.value].state, c.plus, Elements(c.minus), key);
        if key in c.plus { return Some(c.plus[key]), steps, false; }
        if key in c.minus { return None, steps, false; }
      } else {
        r := LookupTree(k, c.snapshot.value, key, ledger.versions[current.value].state);
        return r, steps, false;
      }
      current := c.parent;
      if steps > OLDER_THRESHOLD + 1 {
        return None, steps, true;
      }
    }
  }

  /** The older builder: what it stores is the tree of what remains of the state. */
  method BuildOlder(k: MemoryKernel<Bytes, Bytes, Ref>, s: State) returns (r: Option<Bytes>)
    requires k.Valid() && Sha(k.hash) && Storable(s)
    modifies k
    ensures k.Valid() && k.roots == old(k.roots) && Grown(old(k.blobs), k.blobs)
    ensures k.collisionFree ==> old(k.collisionFree)
    ensures r.Some? <==> forall key :: key in s ==> TextFits(key)
    ensures r.Some? ==> |r.value| == HASH_LEN && Storable(Remaining(k.hash, s))
    ensures r.Some? && k.collisionFree ==>
              TreeAt(k.hash, k.blobs, r.value, Remaining(k.hash, s)) && r.value != k.nil
  {
    KeysFitAll(s);
    r := OlderBuild(k, s);
    if r.Some? {
      OlderStoresRemaining(k.hash, s);
      KeysFitAll(Remaining(k.hash, s));
      RootAddress(k.hash, OlderMapTree(k.hash, s));
    }
  }

  /** HEAD after a commit, and the active branch. */
  function MovedOlder(roots: Roots, name: string, h: Bytes, branch: Option<string>): (after: Roots)
    ensures Head(after, name) == Some(h)
    ensures branch.Some? ==> BranchRef(name, branch.value) in after && after[BranchRef(name, branch.value)] == h
    ensures forall r :: r != HeadRef(name) && (branch.Some? ==> r != BranchRef(name, branch.value)) ==>
              (r in after <==> r in roots) && (r in roots ==> after[r] == roots[r])
  {
    var moved := roots[HeadRef(name) := h];
    if branch.Some? then moved[BranchRef(name, branch.value) := h] else moved
  }

  lemma RefsKnownGrown(vs: Versions, ws: Versions, roots: Roots, name: string)
    requires RefsKnown(vs, roots, name) && Grown(vs, ws)
    ensures RefsKnown(ws, roots, name)
  {
  }

  lemma RefsKnownMoved(ws: Versions, roots: Roots, name: string, h: Bytes, branch: Option<string>)
    requires RefsKnown(ws, roots, name) && h in ws
    ensures RefsKnown(ws, MovedOlder(roots, name, h, branch), name)
  {
    var moved := MovedOlder(roots, name, h, branch);
    forall b | BranchRef(name, b) in moved ensures moved[BranchRef(name, b)] in ws {
      if branch != Some(b) { assert BranchRef(name, b) in roots; }
    }
  }

  /** Builds the tree of `full` with the older builder and writes a snapshot commit. */
  method WriteOlderSnapshot(k: MemoryKernel<Bytes, Bytes, Ref>, ledger: Ledger, parent: Option<Bytes>,
                            full: State, note: Note)
    returns (r: Option<Bytes>)
    requires SoundStore(k, ledger) && (parent.Some? ==> parent.value in ledger.versions)
    requires Storable(full) && |note.timestamp| == 8
    modifies k, ledger
    ensures k.Valid() && k.roots == old(k.roots)
    ensures r.Some? <==> SnapshotFits(full, note.message, note.index)
    ensures r.None? ==> ledger.versions == old(ledger.versions)
    ensures r.Some? ==>
              && r.value in k.blobs
              && ledger.versions ==
                 old(ledger.versions)[r.value := SnapshotVersion(old(ledger.versions), parent, None,
                                                                 Remaining(k.hash, full), note)]
    ensures k.collisionFree ==> SoundStore(k, ledger) && Grown(old(ledger.versions), ledger.versions)
  {
    if parent.Some? { StoredAddress(k, ledger.versions, parent.value); }
    ghost var vs, before := ledger.versions, k.blobs;
    var root := BuildOlder(k, full);
    if k.collisionFree { ConsistentGrown(k.hash, before, k.blobs, vs); }
    if root.None? { return None; }
    r := StoreSnapshot(k, ledger, parent, None, root.value, Remaining(k.hash, full), note);
  }

  /** One new commit has become HEAD, on whatever HEAD was. */
  ghost predicate AdvancedOlder(vs: Versions, roots: Roots, ws: Versions, after: Roots, name: string,
                                h: Bytes, v: Version, branch: Option<string>)
  {
    ws == vs[h := v] && Grown(vs, ws) && after == MovedOlder(roots, name, h, branch)
  }

  lemma HasAdvanced(vs: Versions, roots: Roots, ws: Versions, after: Roots, name: string,
                    h: Bytes, v: Version, branch: Option<string>)
    requires ws == vs[h := v] && Grown(vs, ws) && after == MovedOlder(roots, name, h, branch)
    ensures AdvancedOlder(vs, roots, ws, after, name, h, v, branch)
  {
  }

  /** The version that a commit adds when it counts the deltas at HEAD. */
  ghost function RecountedVersion(vs: Versions, head: Option<Bytes>, plus: State, minus: set<Bytes>,
                                  note: Note): Version
    requires WellFormed(vs) && (head.Some? ==> head.value in vs)
  {
    StagedVersion(vs, head, plus, minus, HeadJournal(vs, head), OLDER_THRESHOLD, note)
  }

  /** What a commit stores: a snapshot keeps what the older builder leaves of the state. */
  ghost function Stored(hash: Digest, v: Version): Version {
    if v.snapshot then v.(state := Remaining(hash, v.state)) else v
  }

  /** Something is staged, and what the commit writes fits the layout. */
  predicate CanCommit(v: Version, plus: State, minus: set<Bytes>) {
    && (plus != map[] || minus != {})
    && if v.snapshot then SnapshotFits(v.state, v.note.message, v.note.index)
       else DeltaFits(plus, minus) && NoteFits(v.note.message, v.note.index)
  }

  /** Writes the whole new state as a snapshot. */
  method WriteWhole(k: MemoryKernel<Bytes, Bytes, Ref>, ledger: Ledger, parent: Option<Bytes>,
                    plus: State, minus: set<Bytes>, note: Note, ghost v: Version)
    returns (r: Option<Bytes>)
    requires SoundStore(k, ledger) && (parent.Some? ==> parent.value in ledger.versions)
    requires v == CommitVersion(ledger.versions, parent, Apply(StateAt(ledger.versions, parent), plus, minus), true,
                                note)
    requires Storable(plus) && |note.timestamp| == 8
    modifies k, ledger
    ensures k.Valid() && k.roots == old(k.roots)
    ensures r.Some? <==> SnapshotFits(v.state, note.message, note.index)
    ensures r.None? ==> ledger.versions == old(ledger.versions)
    ensures r.Some? ==> r.value in k.blobs && ledger.versions == old(ledger.versions)[r.value := Stored(k.hash, v)]
    ensures k.collisionFree ==> SoundStore(k, ledger) && Grown(old(ledger.versions), ledger.versions)
  {
    var full := FullState(k, ledger, parent);
    var removed := Listing(minus);
    full := ApplyDelta(full, plus, removed);
    assert SnapshotVersion(ledger.versions, parent, None, Remaining(k.hash, full), note) == Stored(k.hash, v);
    r := WriteOlderSnapshot(k, ledger, parent, full, note);
  }

  /** Writes the staged changes: the deltas at HEAD are counted in the store. */
  method WriteRecounted(k: MemoryKernel<Bytes, Bytes, Ref>, ledger: Ledger, ghost name: string,
                        parent: Option<Bytes>, plus: State, minus: set<Bytes>,
                        note: Note, ghost v: Version)
    returns (r: Option<Bytes>)
    requires OlderRepo(k, ledger, name) && (parent.Some? ==> parent.value in ledger.versions)
    requires v == RecountedVersion(ledger.versions, parent, plus, minus, note)
    requires Storable(plus) && plus.Keys !! minus && |note.timestamp| == 8
    modifies k, ledger
    ensures k.Valid() && k.roots == old(k.roots)
    ensures r.None? ==> ledger.versions == old(ledger.versions)
    ensures r.Some? <==> CanCommit(v, plus, minus)
    ensures r.Some? ==> r.value in k.blobs
    ensures r.Some? ==> ledger.versions == old(ledger.versions)[r.value := Stored(k.hash, v)]
    ensures k.collisionFree ==>
              && OlderRepo(k, ledger, name) && Grown(old(ledger.versions), ledger.versions)
              && (r.Some? ==> r.value in ledger.versions)
  {
    ghost var vs := ledger.versions;
    if plus == map[] && minus == {} { return None; }
    var count := CountDeltas(k, ledger, parent, OLDER_THRESHOLD);
    if count >= OLDER_THRESHOLD || parent.None? {
      r := WriteWhole(k, ledger, parent, plus, minus, note, v);
    } else {
      assert CommitVersion(vs, parent, Apply(StateAt(vs, parent), plus, minus), false, note) == v;
      r := WriteStaged(k, ledger, parent, false, plus, minus, note);
    }
    if r.Some? && k.collisionFree {
      ShallowExtended(vs, ledger.versions, r.value, Stored(k.hash, v));
      RefsKnownGrown(vs, ledger.versions, k.roots, name);
    }
  }

  /** Moves HEAD, and the active branch if there is one, to a stored commit. */
  method PublishOlder(k: MemoryKernel<Bytes, Bytes, Ref>, ledger: Ledger, name: string, h: Bytes,
                      branch: Option<string>)
    requires k.Valid() && h in k.blobs && (k.collisionFree ==> OlderRepo(k, ledger, name) && h in ledger.versions)
    modifies k`roots
    ensures k.Valid() && (k.collisionFree ==> OlderRepo(k, ledger, name))
    ensures k.roots == MovedOlder(old(k.roots), name, h, branch)
  {
    if k.collisionFree { RefsKnownMoved(ledger.versions, k.roots, name, h, branch); }
    MoveHead(k, name, h, branch);
  }

  /** The part of a commit that other instances see. */
  method CommitRecounted(k: MemoryKernel<Bytes, Bytes, Ref>, ledger: Ledger, name: string,
                         plus: State, minus: set<Bytes>, branch: Option<string>,
                         note: Note, ghost v: Version)
    returns (r: Option<Bytes>)
    requires OlderRepo(k, ledger, name) && Storable(plus) && plus.Keys !! minus && |note.timestamp| == 8
    requires v == RecountedVersion(ledger.versions, Head(k.roots, name), plus, minus, note)
    modifies k, ledger
    ensures k.Valid() && (k.collisionFree ==> OlderRepo(k, ledger, name))
    ensures r.Some? <==> CanCommit(v, plus, minus)
    ensures r.None? ==> ledger.versions == old(ledger.versions) && k.roots == old(k.roots)
    ensures r.Some? && k.collisionFree ==>
              AdvancedOlder(old(ledger.versions), old(k.roots), ledger.versions, k.roots, name, r.value,
                            Stored(k.hash, v), branch)
  {
    ghost var vs, roots := ledger.versions, k.roots;
    var parent := k.Resolve(HeadRef(name));
    r := WriteRecounted(k, ledger, name, parent, plus, minus, note, v);
    if r.Some? {
      PublishOlder(k, ledger, name, r.value, branch);
      if k.collisionFree {
        HasAdvanced(vs, roots, ledger.versions, k.roots, name, r.value, Stored(k.hash, v), branch);
      }
    }
  }

  /** The part of a merge that other instances see: a snapshot of what the older builder
      leaves of the union, the branch winning, with HEAD as its only parent. */
  method CommitUnion(k: MemoryKernel<Bytes, Bytes, Ref>, ledger: Ledger, name: string, other: Bytes,
                     note: Note, ghost v: Version)
    returns (r: Option<Bytes>)
    requires OlderRepo(k, ledger, name) && other in ledger.versions && |note.timestamp| == 8
    requires v == UnionVersion(ledger.versions, Head(k.roots, name), other, note)
    modifies k, ledger
    ensures k.Valid() && (k.collisionFree ==> OlderRepo(k, ledger, name))
    ensures r.Some? <==> SnapshotFits(v.state, note.message, note.index)
    ensures r.None? ==> ledger.versions == old(ledger.versions) && k.roots == old(k.roots)
    ensures r.Some? && k.collisionFree ==>
              AdvancedOlder(old(ledger.versions), old(k.roots), ledger.versions, k.roots, name, r.value,
                            Stored(k.hash, v), None)
  {
    ghost var vs := ledger.versions;
    var head := k.Resolve(HeadRef(name));
    var current := FullState(k, ledger, head);
    var theirs := FullState(k, ledger, Some(other));
    r := WriteOlderSnapshot(k, ledger, head, current + theirs, note);
    if r.Some? {
      if k.collisionFree {
        ShallowExtended(vs, ledger.versions, r.value, Stored(k.hash, v));
        RefsKnownGrown(vs, ledger.versions, k.roots, name);
      }
      PublishOlder(k, ledger, name, r.value, None);
    }
  }

  /** The version that a merge adds. */
  ghost function UnionVersion(vs: Versions, head: Option<Bytes>, other: Bytes, note: Note): Version
    requires (head.Some? ==> head.value in vs) && other in vs
  {
    SnapshotVersion(vs, head, None, StateAt(vs, head) + vs[other].state, note)
  }

  /** Puts HEAD on an existing commit. */
  method PutHead(k: MemoryKernel<Bytes, Bytes, Ref>, ledger: Ledger, name: string, h: Bytes) returns (index: nat)
    requires OlderRepo(k, ledger, name) && h in ledger.versions
    modifies k`roots
    ensures OlderRepo(k, ledger, name) && k.roots == old(k.roots)[HeadRef(name) := h]
    ensures index == ledger.versions[h].note.index + 1
  {
    HeadStored(k, ledger, h);
    PublishOlder(k, ledger, name, h, None);
    index := ComputeIndex(k, ledger, name);
  }

  class OlderLens {
    const kernel: MemoryKernel<Bytes, Bytes, Ref>
    const ledger: Ledger
    const name: string
    var stagedAdd: State
    var stagedDel: set<Bytes>
    var commitIndex: nat
    var activeBranch: Option<string>

    ghost predicate Local()
      reads this
    {
      stagedAdd.Keys !! stagedDel && Storable(stagedAdd)
    }

    constructor (kernel: MemoryKernel<Bytes, Bytes, Ref>, ledger: Ledger, name: string)
      requires OlderRepo(kernel, ledger, name)
      ensures this.kernel == kernel && this.ledger == ledger && this.name == name
      ensures Local() && stagedAdd == map[] && stagedDel == {} && activeBranch == None
      ensures commitIndex == NextIndex(ledger.versions, kernel.roots, name)
    {
      this.kernel, this.ledger, this.name := kernel, ledger, name;
      stagedAdd, stagedDel, activeBranch := map[], {}, None;
      var index := ComputeIndex(kernel, ledger, name);
      commitIndex := index;
    }

    method Stage(key: Bytes, blobHash: Bytes)
      requires Local() && |blobHash| == HASH_LEN
      modifies this`stagedAdd, this`stagedDel
      ensures Local() && stagedAdd == old(stagedAdd)[key := blobHash] && stagedDel == old(stagedDel) - {key}
    {
      stagedAdd, stagedDel := stagedAdd[key := blobHash], stagedDel - {key};
    }

    method StageDelete(key: Bytes)
      requires Local()
      modifies this`stagedAdd, this`stagedDel
      ensures Local() && stagedDel == old(stagedDel) + {key} && stagedAdd == old(stagedAdd) - {key}
    {
      stagedAdd, stagedDel := stagedAdd - {key}, stagedDel + {key};
    }

    /** What an operation leaves in the instance. */
    method Settle(index: nat, branch: Option<string>)
      modifies this`stagedAdd, this`stagedDel, this`commitIndex, this`activeBranch
      ensures Local() && stagedAdd == map[] && stagedDel == {} && commitIndex == index && activeBranch == branch
    {
      stagedAdd, stagedDel, commitIndex, activeBranch := map[], {}, index, branch;
    }

    /** Commits what is staged, whatever other instances have committed since, and however
        large the state: still no commit rests on more than four deltas. */
    method Commit(message: Bytes, timestamp: Bytes) returns (r: Option<Bytes>)
      requires Local() && OlderRepo(kernel, ledger, name) && |timestamp| == 8
      modifies this`stagedAdd, this`stagedDel, this`commitIndex, this`activeBranch, kernel, ledger
      ensures Local() && activeBranch == old(activeBranch)
      ensures kernel.Valid() && (kernel.collisionFree ==> OlderRepo(kernel, ledger, name))
      ensures r.Some? <==> old(CanCommit(RecountedVersion(ledger.versions, Head(kernel.roots, name),
                                                          stagedAdd, stagedDel,
                                                          Note(message, timestamp, commitIndex)),
                                         stagedAdd, stagedDel))
      ensures r.None? ==>
                && unchanged(this)
                && ledger.versions == old(ledger.versions)
                && kernel.roots == old(kernel.roots)
      ensures r.Some? ==> stagedAdd == map[] && stagedDel == {} && commitIndex == old(commitIndex) + 1
      ensures r.Some? && kernel.collisionFree ==>
                AdvancedOlder(old(ledger.versions), old(kernel.roots), ledger.versions, kernel.roots, name, r.value,
                              Stored(kernel.hash, RecountedVersion(old(ledger.versions), Head(old(kernel.roots), name),
                                                                   old(stagedAdd), old(stagedDel),
                                                                   Note(message, timestamp, old(commitIndex)))),
                              activeBranch)
    {
      r := CommitRecounted(kernel, ledger, name, stagedAdd, stagedDel, activeBranch,
                           Note(message, timestamp, commitIndex),
                           RecountedVersion(ledger.versions, Head(kernel.roots, name), stagedAdd, stagedDel,
                                            Note(message, timestamp, commitIndex)));
      if r.Some? { Settle(commitIndex + 1, activeBranch); }
    }

    /** With any number of instances, the valve of `lookup` never fires. */
    method Lookup(key: Bytes) returns (r: Option<Bytes>)
      requires OlderRepo(kernel, ledger, name)
      ensures r == Get(StateAt(ledger.versions, Head(kernel.roots, name)), key)
    {
      var steps, cut;
      r, steps, cut := LookupWithValve(kernel, ledger, name, key);
    }

    method ReadAll() returns (s: State)
      requires OlderRepo(kernel, ledger, name)
      ensures s == StateAt(ledger.versions, Head(kernel.roots, name))
    {
      var head := kernel.Resolve(HeadRef(name));
      s := FullState(kernel, ledger, head);
    }

    /** The first-parent line of HEAD; as no commit has two parents, no line is a merge. */
    method History(limit: int) returns (log: seq<LogEntry>)
      requires OlderRepo(kernel, ledger, name)
      ensures log == LogOf(ledger.versions, Head(kernel.roots, name), if limit > 0 then limit else 0)
    {
      log := Log(kernel, ledger, name, limit);
    }

    /** Puts a branch on HEAD; fails when there is no commit yet. */
    method Branch(branch: string) returns (ok: bool)
      requires OlderRepo(kernel, ledger, name)
      modifies kernel`roots
      ensures OlderRepo(kernel, ledger, name)
      ensures ok <==> HeadRef(name) in old(kernel.roots)
      ensures kernel.roots == if ok then old(kernel.roots)[BranchRef(name, branch) := old(kernel.roots)[HeadRef(name)]]
                              else old(kernel.roots)
    {
      var head := kernel.Resolve(HeadRef(name));
      if head.None? { return false; }
      ok := kernel.Reference(BranchRef(name, branch), head.value);
    }

    /** Puts HEAD on a branch, which becomes active; fails when there is no such branch. */
    method Checkout(branch: string) returns (ok: bool)
      requires OlderRepo(kernel, ledger, name)
      modifies this`stagedAdd, this`stagedDel, this`commitIndex, this`activeBranch, kernel`roots
      ensures OlderRepo(kernel, ledger, name)
      ensures ok <==> BranchRef(name, branch) in old(kernel.roots)
      ensures !ok ==> unchanged(this) && kernel.roots == old(kernel.roots)
      ensures ok ==>
                var h := old(kernel.roots)[BranchRef(name, branch)];
                && kernel.roots == old(kernel.roots)[HeadRef(name) := h]
                && stagedAdd == map[] && stagedDel == {} && activeBranch == Some(branch)
                && commitIndex == ledger.versions[h].note.index + 1
    {
      var h := kernel.Resolve(BranchRef(name, branch));
      if h.None? { return false; }
      var index := PutHead(kernel, ledger, name, h.value);
      Settle(index, Some(branch));
      return true;
    }

    /** Moves HEAD `steps` first parents back, stopping at the root, and leaves no branch
        active; fails when there is no commit. */
    method Undo(steps: int) returns (r: Option<Bytes>)
      requires OlderRepo(kernel, ledger, name)
      modifies this`stagedAdd, this`stagedDel, this`commitIndex, this`activeBranch, kernel`roots
      ensures OlderRepo(kernel, ledger, name)
      ensures r.Some? <==> HeadRef(name) in old(kernel.roots)
      ensures r.None? ==> unchanged(this) && kernel.roots == old(kernel.roots)
      ensures r.Some? ==>
                && r.value == Ancestor(ledger.versions, old(kernel.roots)[HeadRef(name)],
                                       if steps > 0 then steps else 0)
                && kernel.roots == old(kernel.roots)[HeadRef(name) := r.value]
                && stagedAdd == map[] && stagedDel == {} && activeBranch == None
                && commitIndex == ledger.versions[r.value].note.index + 1
    {
      var head := kernel.Resolve(HeadRef(name));
      if head.None? { return None; }
      var h := WalkBack(kernel, ledger, head.value, steps);
      var index := PutHead(kernel, ledger, name, h);
      Settle(index, None);
      return Some(h);
    }

    /** Merges a branch into HEAD; what is staged stays staged, and the active branch does
        not move. */
    method Merge(branch: string, message: Bytes, timestamp: Bytes) returns (r: Option<Bytes>)
      requires OlderRepo(kernel, ledger, name) && |timestamp| == 8
      modifies this`commitIndex, kernel, ledger
      ensures kernel.Valid() && (kernel.collisionFree ==> OlderRepo(kernel, ledger, name))
      ensures r.Some? <==>
                && BranchRef(name, branch) in old(kernel.roots)
                && SnapshotFits(UnionVersion(old(ledger.versions), Head(old(kernel.roots), name),
                                             old(kernel.roots)[BranchRef(name, branch)],
                                             Note(message, timestamp, old(commitIndex))).state,
                                message, old(commitIndex))
      ensures r.None? ==>
                unchanged(this) && ledger.versions == old(ledger.versions) && kernel.roots == old(kernel.roots)
      ensures r.Some? ==> commitIndex == old(commitIndex) + 1
      ensures r.Some? && kernel.collisionFree ==>
                AdvancedOlder(old(ledger.versions), old(kernel.roots), ledger.versions, kernel.roots, name, r.value,
                              Stored(kernel.hash, UnionVersion(old(ledger.versions), Head(old(kernel.roots), name),
                                                               old(kernel.roots)[BranchRef(name, branch)],
                                                               Note(message, timestamp, old(commitIndex)))),
                              None)
    {
      var other := kernel.Resolve(BranchRef(name, branch));
      if other.None? { return None; }
      r := CommitUnion(kernel, ledger, name, other.value, Note(message, timestamp, commitIndex),
                       UnionVersion(ledger.versions, Head(kernel.roots, name), other.value,
                                    Note(message, timestamp, commitIndex)));
      if r.Some? { commitIndex := commitIndex + 1; }
    }
  }
}
