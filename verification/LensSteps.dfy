/** The parts of a lens operation that other lenses see: what it reads from the store, what
    it writes, and how it moves the references. */
module LensSteps {
  import opened Basics
  import opened Texts
  import opened Codec
  import opened Kernel
  import opened ProllyTree
  import opened History
  import opened Commits
  import opened CommitStore
  import opened Refs

  /** A store without collisions whose ledger is consistent. */
  ghost predicate SoundStore(k: MemoryKernel<Bytes, Bytes, Ref>, ledger: Ledger)
    reads k, ledger
  {
    && k.Valid() && Sha(k.hash) && k.nil == NIL && k.collisionFree
    && Consistent(k.hash, k.blobs, ledger.versions)
  }

  /** What all lenses on a collection rely on. */
  ghost predicate Repo(k: MemoryKernel<Bytes, Bytes, Ref>, ledger: Ledger, name: string)
    reads k, ledger
  {
    SoundStore(k, ledger) && RefsOk(ledger.versions, k.roots, name)
  }

  lemma StateStorable(hash: Digest, blobs: Store, vs: Versions, h: Bytes)
    requires Consistent(hash, blobs, vs) && h in vs
    ensures Storable(vs[h].state)
  {
    StoredVersion(hash, blobs, vs, h);
  }

  /** The program writes a snapshot on the first commit and when the journal is full. */
  predicate WritesSnapshot(head: Option<Bytes>, deltaCount: nat, threshold: nat) {
    head.None? || deltaCount >= threshold
  }

  /** The version that `commit` adds. */
  ghost function CommitVersion(vs: Versions, head: Option<Bytes>, s: State, snapshot: bool, note: Note): Version
    requires head.Some? ==> head.value in vs
  {
    Version(head, None, s, snapshot, DepthAfter(vs, head), note)
  }

  /** The version that committing the staged changes on top of HEAD adds. */
  ghost function StagedVersion(vs: Versions, head: Option<Bytes>, plus: State, minus: set<Bytes>,
                               deltaCount: nat, threshold: nat, note: Note): Version
    requires head.Some? ==> head.value in vs
  {
    CommitVersion(vs, head, Apply(StateAt(vs, head), plus, minus), WritesSnapshot(head, deltaCount, threshold), note)
  }

  lemma HeadStored(k: MemoryKernel<Bytes, Bytes, Ref>, ledger: Ledger, h: Bytes)
    requires SoundStore(k, ledger) && h in ledger.versions
    ensures h in k.blobs
  {
    StoredVersion(k.hash, k.blobs, ledger.versions, h);
  }

  /** The index of the next commit: one more than HEAD's. */
  ghost function NextIndex(vs: Versions, roots: Roots, name: string): nat
    requires HeadRef(name) in roots ==> roots[HeadRef(name)] in vs
  {
    if HeadRef(name) in roots then vs[roots[HeadRef(name)]].note.index + 1 else 0
  }

  /** What counting the deltas at HEAD yields: the journal length, up to the cap. */
  ghost function CappedJournal(vs: Versions, roots: Roots, name: string, threshold: nat): nat
    requires WellFormed(vs) && (HeadRef(name) in roots ==> roots[HeadRef(name)] in vs)
  {
    if HeadRef(name) in roots then
      var n := Journal(vs, roots[HeadRef(name)]);
      if n <= threshold + 1 then n else threshold + 2
    else 0
  }

  /** The number of deltas between HEAD and the snapshot it rests on. */
  ghost function HeadJournal(vs: Versions, head: Option<Bytes>): nat
    requires WellFormed(vs) && (head.Some? ==> head.value in vs)
  {
    if head.Some? then Journal(vs, head.value) else 0
  }

  /** `_compute_index` */
  method ComputeIndex(k: MemoryKernel<Bytes, Bytes, Ref>, ledger: Ledger, name: string) returns (index: nat)
    requires SoundStore(k, ledger) && (HeadRef(name) in k.roots ==> k.roots[HeadRef(name)] in ledger.versions)
    ensures index == NextIndex(ledger.versions, k.roots, name)
  {
    var h := k.Resolve(HeadRef(name));
    if h.None? { return 0; }
    var c := LoadCommit(k, ledger, h.value);
    return c.index + 1;
  }

  /** `_compute_full_state` */
  method FullState(k: MemoryKernel<Bytes, Bytes, Ref>, ledger: Ledger, parent: Option<Bytes>) returns (s: State)
    requires SoundStore(k, ledger) && (parent.Some? ==> parent.value in ledger.versions)
    ensures s == StateAt(ledger.versions, parent) && Storable(s)
  {
    if parent.None? { return map[]; }
    StateStorable(k.hash, k.blobs, ledger.versions, parent.value);
    s := ReadState(k, ledger, parent.value);
  }

  /** The state a commit starts from. */
  ghost function StateAt(vs: Versions, parent: Option<Bytes>): State
    requires parent.Some? ==> parent.value in vs
  {
    match parent case None => map[] case Some(p) => vs[p].state
  }

  /** What a commit writes fits the layout: a snapshot packs the whole new state, a delta
      only what is staged. */
  predicate Packs(snapshot: bool, s: State, plus: State, minus: set<Bytes>, message: Bytes, index: nat) {
    && NoteFits(message, index)
    && if snapshot then forall k :: k in Apply(s, plus, minus) ==> TextFits(k) else DeltaFits(plus, minus)
  }

  /** As above, for a snapshot of a given state. */
  predicate SnapshotFits(s: State, message: Bytes, index: nat) {
    NoteFits(message, index) && forall k :: k in s ==> TextFits(k)
  }

  /** Writes the staged changes on top of `parent`, as a snapshot or as a delta. */
  method WriteStaged(k: MemoryKernel<Bytes, Bytes, Ref>, ledger: Ledger, parent: Option<Bytes>, snapshot: bool,
                     plus: State, minus: set<Bytes>, note: Note)
    returns (r: Option<Bytes>)
    requires SoundStore(k, ledger) && (parent.Some? ==> parent.value in ledger.versions)
    requires Storable(plus) && plus.Keys !! minus && (plus != map[] || minus != {}) && |note.timestamp| == 8
    requires parent.None? ==> snapshot
    modifies k, ledger
    ensures k.Valid() && k.roots == old(k.roots)
    ensures r.Some? <==> Packs(snapshot, StateAt(old(ledger.versions), parent), plus, minus, note.message, note.index)
    ensures r.None? ==> ledger.versions == old(ledger.versions)
    ensures r.Some? ==> r.value in k.blobs
    ensures k.collisionFree ==> SoundStore(k, ledger) && Grown(old(ledger.versions), ledger.versions)
    ensures r.Some? ==>
              var vs := old(ledger.versions);
              var s := Apply(StateAt(vs, parent), plus, minus);
              ledger.versions == vs[r.value := CommitVersion(vs, parent, s, snapshot, note)]
  {
    ghost var vs := ledger.versions;
    if snapshot {
      var full := FullState(k, ledger, parent);
      var removed := Listing(minus);
      full := ApplyDelta(full, plus, removed);
      assert SnapshotVersion(vs, parent, None, full, note)
             == CommitVersion(vs, parent, Apply(StateAt(vs, parent), plus, minus), true, note);
      r := WriteSnapshot(k, ledger, parent, None, full, note);
    } else {
      StateStorable(k.hash, k.blobs, ledger.versions, parent.value);
      assert DeltaVersion(vs, parent.value, plus, minus, note)
             == CommitVersion(vs, parent, Apply(StateAt(vs, parent), plus, minus), false, note);
      r := WriteDelta(k, ledger, parent.value, plus, minus, note);
    }
  }

  /** Moves HEAD, and the active branch if there is one. */
  method MoveHead(k: MemoryKernel<Bytes, Bytes, Ref>, name: string, h: Bytes, branch: Option<string>)
    requires k.Valid() && h in k.blobs
    modifies k`roots
    ensures k.Valid()
    ensures k.roots == var moved := old(k.roots)[HeadRef(name) := h];
                       if branch.Some? then moved[BranchRef(name, branch.value) := h] else moved
  {
    var ok := k.Reference(HeadRef(name), h);
    if branch.Some? {
      ok := k.Reference(BranchRef(name, branch.value), h);
    }
  }

  /** Publishes a written commit: the snapshot pointer if it is a snapshot, HEAD, and the
      active branch. */
  method PublishCommit(k: MemoryKernel<Bytes, Bytes, Ref>, ledger: Ledger, name: string, h: Bytes, snapshot: bool,
                       branch: Option<string>, ghost vs: Versions)
    requires k.Valid() && h in k.blobs
    requires k.collisionFree ==>
               var ws := ledger.versions;
               && WellFormed(vs) && WellFormed(ws) && Grown(vs, ws) && RefsOk(vs, k.roots, name)
               && h in ws && ws[h].snapshot == snapshot && (!snapshot ==> ws[h].parent == Head(k.roots, name))
    modifies k`roots
    ensures k.Valid()
    ensures k.collisionFree ==>
              && WellFormed(ledger.versions) && RefsOk(ledger.versions, k.roots, name)
              && k.roots == Moved(old(k.roots), name, h, Nearest(ledger.versions, h), branch)
  {
    ghost var roots := k.roots;
    if snapshot {
      var ok := k.Reference(SnapRef(name), h);
    }
    MoveHead(k, name, h, branch);
    if k.collisionFree {
      if snapshot {
        SnapshotMoves(ledger.versions, roots, name, h);
      } else {
        DeltaMoves(vs, ledger.versions, roots, name, h);
      }
      MovedOk(vs, ledger.versions, roots, name, h, branch);
    }
  }

  /** The part of a commit that other lenses see. */
  method CommitStaged(k: MemoryKernel<Bytes, Bytes, Ref>, ledger: Ledger, name: string, parent: Option<Bytes>,
                      snapshot: bool, plus: State, minus: set<Bytes>, branch: Option<string>,
                      note: Note, ghost v: Version)
    returns (r: Option<Bytes>)
    requires Repo(k, ledger, name) && parent == Head(k.roots, name) && (parent.None? ==> snapshot)
    requires v == CommitVersion(ledger.versions, parent, Apply(StateAt(ledger.versions, parent), plus, minus),
                                snapshot, note)
    requires Storable(plus) && plus.Keys !! minus && (plus != map[] || minus != {}) && |note.timestamp| == 8
    modifies k, ledger
    ensures k.Valid()
    ensures r.Some? <==> Packs(snapshot, StateAt(old(ledger.versions), parent), plus, minus, note.message, note.index)
    ensures r.None? ==> ledger.versions == old(ledger.versions) && k.roots == old(k.roots)
    ensures k.collisionFree ==> Repo(k, ledger, name)
    ensures r.Some? && k.collisionFree ==>
              Advanced(old(ledger.versions), old(k.roots), ledger.versions, k.roots, name, r.value, v, branch)
  {
    ghost var vs := ledger.versions;
    r := WriteStaged(k, ledger, parent, snapshot, plus, minus, note);
    if r.Some? {
      PublishCommit(k, ledger, name, r.value, snapshot, branch, vs);
    }
  }

  /** Commits the staged changes on top of HEAD. */
  method CommitOnHead(k: MemoryKernel<Bytes, Bytes, Ref>, ledger: Ledger, name: string, plus: State, minus: set<Bytes>,
                      deltaCount: nat, threshold: nat, branch: Option<string>,
                      note: Note)
    returns (r: Option<Bytes>, snapshot: bool)
    requires Repo(k, ledger, name) && Storable(plus) && plus.Keys !! minus && (plus != map[] || minus != {})
    requires |note.timestamp| == 8
    modifies k, ledger
    ensures k.Valid()
    ensures snapshot == WritesSnapshot(Head(old(k.roots), name), deltaCount, threshold)
    ensures r.Some? <==> Packs(snapshot, StateAt(old(ledger.versions), Head(old(k.roots), name)), plus, minus,
                               note.message, note.index)
    ensures r.None? ==> ledger.versions == old(ledger.versions) && k.roots == old(k.roots)
    ensures k.collisionFree ==> Repo(k, ledger, name)
    ensures r.Some? && k.collisionFree ==>
              Advanced(old(ledger.versions), old(k.roots), ledger.versions, k.roots, name, r.value,
                       StagedVersion(old(ledger.versions), Head(old(k.roots), name), plus, minus, deltaCount,
                                     threshold, note),
                       branch)
  {
    var parent := k.Resolve(HeadRef(name));
    snapshot := WritesSnapshot(parent, deltaCount, threshold);
    r := CommitStaged(k, ledger, name, parent, snapshot, plus, minus, branch, note,
                      StagedVersion(ledger.versions, parent, plus, minus, deltaCount, threshold, note));
  }

  /** Writes `s` as a snapshot commit and makes it HEAD. */
  method CommitSnapshot(k: MemoryKernel<Bytes, Bytes, Ref>, ledger: Ledger, name: string, parent: Option<Bytes>,
                        second: Option<Bytes>, s: State, branch: Option<string>,
                        note: Note, ghost v: Version)
    returns (r: Option<Bytes>)
    requires Repo(k, ledger, name) && (parent.Some? ==> parent.value in ledger.versions)
    requires IsHash(second) && Storable(s) && |note.timestamp| == 8
    requires v == SnapshotVersion(ledger.versions, parent, second, s, note)
    modifies k, ledger
    ensures k.Valid()
    ensures r.Some? <==> SnapshotFits(s, note.message, note.index)
    ensures r.None? ==> ledger.versions == old(ledger.versions) && k.roots == old(k.roots)
    ensures k.collisionFree ==> Repo(k, ledger, name)
    ensures r.Some? && k.collisionFree ==>
              Advanced(old(ledger.versions), old(k.roots), ledger.versions, k.roots, name, r.value, v, branch)
  {
    ghost var vs := ledger.versions;
    r := WriteSnapshot(k, ledger, parent, second, s, note);
    if k.collisionFree { RefsOkGrown(vs, ledger.versions, k.roots, name); }
    if r.Some? {
      PublishCommit(k, ledger, name, r.value, true, branch, vs);
    }
  }

  /** Sets the snapshot pointer of an older store that has none. */
  method SetSnapshotPointer(k: MemoryKernel<Bytes, Bytes, Ref>, ledger: Ledger, name: string)
    requires SoundStore(k, ledger) && OlderRefsOk(ledger.versions, k.roots, name)
    modifies k`roots
    ensures Repo(k, ledger, name)
    ensures k.roots == if HeadRef(name) in old(k.roots)
                       then old(k.roots)[SnapRef(name) := Nearest(ledger.versions, old(k.roots)[HeadRef(name)])]
                       else old(k.roots)
  {
    var snap := k.Resolve(SnapRef(name));
    if snap.None? {
      var head := k.Resolve(HeadRef(name));
      if head.Some? {
        SnapSet(ledger.versions, k.roots, name);
        var s := FindLatestSnapshot(k, ledger, head.value);
        HeadStored(k, ledger, s);
        var ok := k.Reference(SnapRef(name), s);
      }
    } else {
      assert k.roots[SnapRef(name) := snap.value] == k.roots;
    }
  }

  /** Follows first parents, stopping at the root. */
  method WalkBack(k: MemoryKernel<Bytes, Bytes, Ref>, ledger: Ledger, h: Bytes, steps: int) returns (a: Bytes)
    requires SoundStore(k, ledger) && h in ledger.versions
    ensures a == Ancestor(ledger.versions, h, if steps > 0 then steps else 0)
  {
    a := h;
    var i := 0;
    while i < steps
      invariant 0 <= i && (steps > 0 ==> i <= steps) && (steps <= 0 ==> i == 0)
      invariant a == Ancestor(ledger.versions, h, i)
    {
      var c := LoadCommit(k, ledger, a);
      AncestorStep(ledger.versions, h, i);
      if c.parent.None? {
        AncestorPastRoot(ledger.versions, h, i, steps);
        return;
      }
      a := c.parent.value;
      i := i + 1;
    }
  }

  /** Puts HEAD on an existing commit and recomputes what depends on it. */
  method ResetHead(k: MemoryKernel<Bytes, Bytes, Ref>, ledger: Ledger, name: string, h: Bytes, threshold: nat)
    returns (count: nat, index: nat)
    requires Repo(k, ledger, name) && h in ledger.versions
    modifies k`roots
    ensures Repo(k, ledger, name)
    ensures Reset(ledger.versions, old(k.roots), k.roots, name, h)
    ensures count == CappedJournal(ledger.versions, k.roots, name, threshold)
    ensures index == ledger.versions[h].note.index + 1
  {
    MovedOk(ledger.versions, ledger.versions, k.roots, name, h, None);
    HeadStored(k, ledger, h);
    ghost var roots := k.roots;
    var ok := k.Reference(HeadRef(name), h);
    var snap := FindLatestSnapshot(k, ledger, h);
    HeadStored(k, ledger, snap);
    ok := k.Reference(SnapRef(name), snap);
    assert k.roots == Moved(roots, name, h, snap, None);
    count := CountDeltas(k, ledger, Some(h), threshold);
    index := ComputeIndex(k, ledger, name);
  }

  // ---------- reading ----------

  lemma GetApply(s: State, plus: State, minus: set<Bytes>, key: Bytes)
    requires plus.Keys !! minus
    ensures Get(Apply(s, plus, minus), key)
            == if key in plus then Some(plus[key]) else if key in minus then None else Get(s, key)
  {}

  /** Reading a delta's additions before its deletions is right for every state and key
      exactly when no key is both added and deleted. */
  lemma AddsFirstIff(plus: State, minus: set<Bytes>)
    ensures plus.Keys !! minus <==>
              forall s: State, key :: Get(Apply(s, plus, minus), key)
                == if key in plus then Some(plus[key]) else if key in minus then None else Get(s, key)
  {
    if key :| key in minus && key in plus {
      var s: State := map[];
      assert Get(Apply(s, plus, minus), key) == None;
    }
  }

  /** Looks for `key` in the deltas above the snapshot, newest first. */
  method SearchJournal(k: MemoryKernel<Bytes, Bytes, Ref>, ledger: Ledger, head: Bytes, snap: Bytes, key: Bytes)
    returns (hit: Option<Option<Bytes>>)
    requires SoundStore(k, ledger) && head in ledger.versions && snap == Nearest(ledger.versions, head)
    ensures hit.Some? ==> hit.value == Get(ledger.versions[head].state, key)
    ensures hit.None? ==> Get(ledger.versions[snap].state, key) == Get(ledger.versions[head].state, key)
  {
    var current := Some(head);
    while current.Some? && current.value != snap
      invariant current.Some? && current.value in ledger.versions
      invariant snap == Nearest(ledger.versions, current.value)
      invariant Get(ledger.versions[current.value].state, key) == Get(ledger.versions[head].state, key)
      decreases ledger.versions[current.value].depth
    {
      assert Linked(ledger.versions, current.value);
      var c := LoadCommit(k, ledger, current.value);
      if c.HasDelta() {
        GetApply(ledger.versions[c.parent.value].state, c.plus, Elements(c.minus), key);
        if key in c.plus { return Some(Some(c.plus[key])); }
        if key in c.minus { return Some(None); }
      }
      current := c.parent;
    }
    return None;
  }

  /** `_lookup_from_head`: walks the journal from HEAD without the snapshot pointer. */
  method LookupFromHead(k: MemoryKernel<Bytes, Bytes, Ref>, ledger: Ledger, head: Option<Bytes>, key: Bytes)
    returns (r: Option<Bytes>)
    requires SoundStore(k, ledger) && (head.Some? ==> head.value in ledger.versions)
    ensures r == Get(StateAt(ledger.versions, head), key)
  {
    if head.None? { return None; }
    var current := head;
    while current.Some?
      invariant current.Some? && current.value in ledger.versions
      invariant Get(ledger.versions[current.value].state, key) == Get(ledger.versions[head.value].state, key)
      decreases ledger.versions[current.value].depth
    {
      assert Linked(ledger.versions, current.value);
      var c := LoadCommit(k, ledger, current.value);
      if c.HasDelta() {
        GetApply(ledger.versions[c.parent.value].state, c.plus, Elements(c.minus), key);
        if key in c.plus { return Some(c.plus[key]); }
        if key in c.minus { return None; }
      } else {
        if c.snapshot.Some? {
          r := LookupTree(k, c.snapshot.value, key, ledger.versions[current.value].state);
          return;
        }
        return None;
      }
      current := c.parent;
    }
    return None;
  }

  /** `lookup`: the journal first, then the tree of the snapshot. */
  method LookupCurrent(k: MemoryKernel<Bytes, Bytes, Ref>, ledger: Ledger, name: string, key: Bytes)
    returns (r: Option<Bytes>)
    requires Repo(k, ledger, name)
    ensures r == Get(StateAt(ledger.versions, Head(k.roots, name)), key)
  {
    var snap := k.Resolve(SnapRef(name));
    var head := k.Resolve(HeadRef(name));
    if snap.Some? && head.Some? && head != snap {
      var hit := SearchJournal(k, ledger, head.value, snap.value, key);
      if hit.Some? { return hit.value; }
    }
    if snap.Some? {
      var c := LoadCommit(k, ledger, snap.value);
      if c.snapshot.Some? {
        r := LookupTree(k, c.snapshot.value, key, ledger.versions[snap.value].state);
        return;
      }
    }
    r := LookupFromHead(k, ledger, head, key);
  }

  /** The deltas between HEAD and the snapshot, newest first. */
  method JournalDeltas(k: MemoryKernel<Bytes, Bytes, Ref>, ledger: Ledger, head: Option<Bytes>, snap: Bytes)
    returns (deltas: seq<Delta>)
    requires SoundStore(k, ledger) && head.Some? && head.value in ledger.versions
    requires snap == Nearest(ledger.versions, head.value)
    ensures Replay(ledger.versions[snap].state, deltas) == ledger.versions[head.value].state
    ensures |deltas| == Journal(ledger.versions, head.value)
  {
    deltas := [];
    var current := head;
    while current.Some? && current.value != snap
      invariant current.Some? && current.value in ledger.versions
      invariant snap == Nearest(ledger.versions, current.value)
      invariant Replay(ledger.versions[current.value].state, deltas) == ledger.versions[head.value].state
      invariant |deltas| + Journal(ledger.versions, current.value) == Journal(ledger.versions, head.value)
      decreases ledger.versions[current.value].depth
    {
      assert Linked(ledger.versions, current.value);
      var c := LoadCommit(k, ledger, current.value);
      if c.HasDelta() {
        ReplayOlder(ledger.versions[c.parent.value].state, deltas, Delta(c.plus, c.minus));
        deltas := deltas + [Delta(c.plus, c.minus)];
      }
      current := c.parent;
    }
  }

  /** `read_all`: the tree of the snapshot, then the journal replayed on it. */
  method ReadCurrent(k: MemoryKernel<Bytes, Bytes, Ref>, ledger: Ledger, name: string) returns (state: State)
    requires Repo(k, ledger, name)
    ensures state == StateAt(ledger.versions, Head(k.roots, name))
  {
    var snap := k.Resolve(SnapRef(name));
    var head := k.Resolve(HeadRef(name));
    if snap.Some? {
      var c := LoadCommit(k, ledger, snap.value);
      if c.snapshot.Some? {
        state := ReadTree(k, c.snapshot.value, ledger.versions[snap.value].state);
        var deltas := JournalDeltas(k, ledger, head, snap.value);
        state := ReplayAll(state, deltas);
        return;
      }
    }
    state := FullState(k, ledger, head);
  }

  /** Reads one line of the history, and the parent to go on with. */
  method ReadLine(k: MemoryKernel<Bytes, Bytes, Ref>, ledger: Ledger, h: Bytes)
    returns (line: LogEntry, parent: Option<Bytes>)
    requires Consistent(k.hash, k.blobs, ledger.versions) && h in ledger.versions
    ensures line == LineOf(h, ledger.versions[h]) && parent == ledger.versions[h].parent
  {
    var c := LoadCommit(k, ledger, h);
    var kind := if c.second.Some? then MergeCommit else if c.snapshot.Some? then SnapshotCommit else DeltaCommit;
    return LogEntry(Short(h), Note(c.message, c.timestamp, c.index), kind, ShortSecond(c.second)), c.parent;
  }

  lemma LogStep(vs: Versions, h: Bytes, n: nat)
    requires WellFormed(vs) && h in vs && n > 0
    ensures var p := vs[h].parent;
            && (p.Some? ==> p.value in vs)
            && LogOf(vs, Some(h), n) == [LineOf(h, vs[h])] + LogOf(vs, p, n - 1)
  {
    assert Linked(vs, h);
  }

  /** `history`: the first-parent line of HEAD, newest first, at most `limit` commits. */
  method Log(k: MemoryKernel<Bytes, Bytes, Ref>, ledger: Ledger, name: string, limit: int) returns (log: seq<LogEntry>)
    requires SoundStore(k, ledger) && (HeadRef(name) in k.roots ==> k.roots[HeadRef(name)] in ledger.versions)
    ensures log == LogOf(ledger.versions, Head(k.roots, name), if limit > 0 then limit else 0)
  {
    var head := k.Resolve(HeadRef(name));
    log := [];
    ghost var n := if limit > 0 then limit else 0;
    var current := head;
    while current.Some? && |log| < limit
      invariant |log| <= n && (current.Some? ==> current.value in ledger.versions)
      invariant LogOf(ledger.versions, head, n) == log + LogOf(ledger.versions, current, n - |log|)
      decreases n - |log|
    {
      LogStep(ledger.versions, current.value, n - |log|);
      var line, parent := ReadLine(k, ledger, current.value);
      log, current := log + [line], parent;
    }
  }
}
