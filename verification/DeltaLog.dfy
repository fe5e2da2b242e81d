/** `DeltaViewBase`: a log of JSON delta commits with a snapshot every 64 commits and skip
    pointers, written by one instance. */
module DeltaLog {
  import opened Basics
  import opened Kernel
  import opened JsonDocs
  import opened DeltaHistory
  import opened DeltaReads

  /** The name of a reference. */
  function LogName(r: Ref): string {
    match r
    case HeadRef(c) => c
    case SnapRef(c) => c + "__snapshot"
    case BranchRef(c, b) => c + ("__branch__" + b)
  }

  /** HEAD and the branches of one log never clash. */
  lemma LogNamesDistinct(r: Ref, q: Ref)
    requires r.collection == q.collection && !r.SnapRef? && !q.SnapRef? && LogName(r) == LogName(q)
    ensures r == q
  {
    var n := |r.collection|;
    if r.BranchRef? && q.BranchRef? {
      assert LogName(r)[n..] == "__branch__" + r.branch && LogName(q)[n..] == "__branch__" + q.branch;
      assert ("__branch__" + r.branch)[10..] == r.branch && ("__branch__" + q.branch)[10..] == q.branch;
    }
  }

  function HeadOf(roots: DocRoots, name: string): Option<Hash> {
    if HeadRef(name) in roots then Some(roots[HeadRef(name)]) else None
  }

  /** HEAD and the branches of the log are commits. */
  ghost predicate RefsCommits(docs: Docs, roots: DocRoots, name: string) {
    && (HeadRef(name) in roots ==> IsCommit(docs, roots[HeadRef(name)]))
    && (forall b :: BranchRef(name, b) in roots ==> HeadRef(name) in roots && IsCommit(docs, roots[BranchRef(name, b)]))
  }

  ghost predicate LogRepo(k: DocKernel, name: string)
    reads k
  {
    SoundDocs(k) && RefsCommits(k.blobs, k.roots, name)
  }

  function IndexAfter(docs: Docs, head: Option<Hash>): nat
    requires head.Some? ==> IsCommit(docs, head.value)
  {
    if head.None? then 0 else docs[head.value].index + 1
  }

  /** Whether a commit compacts. */
  predicate Compacts(index: nat) {
    index > 0 && index % INTERVAL == 0
  }

  /** `_compute_index` */
  method ComputeIndex(k: DocKernel, name: string) returns (index: nat)
    requires LogRepo(k, name)
    ensures index == IndexAfter(k.blobs, HeadOf(k.roots, name))
  {
    var h := k.Resolve(HeadRef(name));
    if h.None? { return 0; }
    var c := LoadDoc(k, h.value);
    return c.index + 1;
  }

  // ---------- writing ----------

  /** A written document is what is read back, and nothing else changes. */
  method WriteDoc(k: DocKernel, d: Doc) returns (h: Hash)
    requires SoundDocs(k) && !d.CommitDoc?
    modifies k
    ensures k.Valid() && k.roots == old(k.roots) && Grown(old(k.blobs), k.blobs) && h in k.blobs
    ensures k.collisionFree ==> SoundDocs(k) && k.blobs[h] == d
  {
    ghost var docs := k.blobs;
    h := k.Write(d);
    if k.collisionFree {
      ChainedGrown(docs, k.blobs);
      SoundGrown(docs, k.blobs);
    }
  }

  /** What the new commit must satisfy so that the log stays sound; `s` is the state it
      stands for. */
  ghost predicate Fits(docs: Docs, c: Doc, s: Table) {
    && Chained(docs) && c.CommitDoc?
    && (match c.parent case None => c.index == 0 case Some(p) => IsCommit(docs, p) && c.index == docs[p].index + 1)
    && (c.snapshot.Some? ==> IsSnapshot(docs, c.snapshot.value) && Entries(docs, c.snapshot.value) == s)
    && (c.snapshot.Some? <==> c.merged.Some? || Compacts(c.index))
    && ToTable(c.plus).Keys !! Names(c.minus)
    && (c.merged.Some? ==> IsCommit(docs, c.merged.value) && c.plus == [] && c.minus == [])
    && (c.merged.None? ==> s == Applied(StateAtHead(docs, c.parent), ToTable(c.plus), Names(c.minus)))
    && c.skip == (if c.index > INTERVAL && c.index % INTERVAL == 0
                  then AtIndex(docs, c.parent.value, c.index - INTERVAL - 1) else None)
  }

  lemma AddedIsSound(docs: Docs, more: Docs, h: Hash, s: Table)
    requires Sound(docs) && h in more && Fits(docs, more[h], s) && more == docs[h := more[h]] && Grown(docs, more)
    ensures Sound(more) && Meaning(more, h) == s
  {
    ChainedGrown(docs, more);
    LinkedAt(more, h);
    var c := more[h];
    if c.parent.Some? {
      MeaningGrown(docs, more, c.parent.value);
      AtIndexGrown(docs, more, c.parent.value, c.index - INTERVAL - 1);
    }
    SoundGrown(docs, more);
  }

  /** A commit whose index is not the one after its parent's makes the log unsound. */
  lemma StaleIsUnsound(docs: Docs, h: Hash)
    requires IsCommit(docs, h)
    requires docs[h].parent.Some? ==> IsCommit(docs, docs[h].parent.value)
    requires docs[h].index != IndexAfter(docs, docs[h].parent)
    ensures !Sound(docs)
  {
    if Sound(docs) { LinkedAt(docs, h); }
  }

  /** Writes a commit: with the index that its parent calls for the log stays sound, with any
      other it does not. */
  method WriteCommit(k: DocKernel, c: Doc, ghost s: Table) returns (h: Hash)
    requires SoundDocs(k) && c.CommitDoc? && (c.parent.Some? ==> IsCommit(k.blobs, c.parent.value))
    requires c.index == IndexAfter(k.blobs, c.parent) ==> Fits(k.blobs, c, s)
    modifies k
    ensures k.Valid() && k.roots == old(k.roots) && Grown(old(k.blobs), k.blobs) && h in k.blobs
    ensures k.collisionFree ==> k.blobs[h] == c && (SoundDocs(k) <==> c.index == IndexAfter(old(k.blobs), c.parent))
    ensures SoundDocs(k) ==> Meaning(k.blobs, h) == s
  {
    ghost var docs := k.blobs;
    h := k.Write(c);
    if k.collisionFree {
      assert k.blobs == docs[h := c];
      if c.index == IndexAfter(docs, c.parent) {
        AddedIsSound(docs, k.blobs, h, s);
      } else {
        StaleIsUnsound(k.blobs, h);
      }
    }
  }

  /** The pairs of a table in some order. */
  method PairsOf(t: Table) returns (ps: Pairs)
    ensures ToTable(ps) == t
  {
    ps := [];
    var todo := t.Keys;
    while todo != {}
      invariant todo <= t.Keys && ToTable(ps) == t - todo
    {
      var key :| key in todo;
      assert (ps + [(key, t[key])])[..|ps|] == ps;
      assert (t - todo)[key := t[key]] == t - (todo - {key});
      ps := ps + [(key, t[key])];
      todo := todo - {key};
    }
  }

  method NamesOf(s: set<string>) returns (ss: seq<string>)
    ensures Names(ss) == s
  {
    ss := [];
    var todo := s;
    while todo != {}
      invariant todo <= s && Names(ss) == s - todo
    {
      var key :| key in todo;
      assert Names(ss + [key]) == Names(ss) + {key};
      ss := ss + [key];
      todo := todo - {key};
    }
  }

  /** `_compute_full_state`: puts the name on the commit, reads, and puts it back. */
  method FullState(k: DocKernel, name: string, parent: Option<Hash>) returns (state: Table)
    requires LogRepo(k, name) && (parent.Some? ==> parent == HeadOf(k.roots, name))
    modifies k`roots
    ensures LogRepo(k, name) && k.roots == old(k.roots)
    ensures state == StateAtHead(k.blobs, parent)
  {
    if parent.None? { return map[]; }
    var original := k.Resolve(HeadRef(name));
    var ok := k.Reference(HeadRef(name), parent.value);
    var head := k.Resolve(HeadRef(name));
    state := ReadStateFrom(k, head);
    ok := k.Reference(HeadRef(name), original.value);
    assert k.roots == old(k.roots);
  }

  /** The skip pointer of the next commit: 64 steps back from its parent. */
  method SkipFor(k: DocKernel, parent: Option<Hash>, index: nat) returns (skip: Option<Hash>)
    requires SoundDocs(k) && (parent.Some? ==> IsCommit(k.blobs, parent.value))
    ensures index == IndexAfter(k.blobs, parent) ==>
              skip == if index > INTERVAL && index % INTERVAL == 0
                      then AtIndex(k.blobs, parent.value, index - INTERVAL - 1) else None
  {
    skip := None;
    if index > 0 && index % INTERVAL == 0 && parent.Some? {
      skip := WalkBack(k, parent.value, INTERVAL);
    }
  }

  /** HEAD after a commit, and the active branch if there is one. */
  function MovedHead(roots: DocRoots, name: string, h: Hash, branch: Option<string>): (after: DocRoots)
    ensures HeadOf(after, name) == Some(h)
    ensures branch.Some? ==> BranchRef(name, branch.value) in after && after[BranchRef(name, branch.value)] == h
    ensures forall r :: r != HeadRef(name) && (branch.Some? ==> r != BranchRef(name, branch.value)) ==>
              (r in after <==> r in roots) && (r in roots ==> after[r] == roots[r])
  {
    var moved := roots[HeadRef(name) := h];
    if branch.Some? then moved[BranchRef(name, branch.value) := h] else moved
  }

  /** One new commit `h`, standing for the state `s`, has become HEAD; every stored document
      is as before. */
  ghost predicate Appended(docs: Docs, roots: DocRoots, more: Docs, after: DocRoots, name: string,
                           h: Hash, s: Table, merged: Option<Hash>, branch: Option<string>)
  {
    && Grown(docs, more) && Chained(more) && IsCommit(more, h) && Meaning(more, h) == s
    && more[h].parent == HeadOf(roots, name) && more[h].merged == merged
    && after == MovedHead(roots, name, h, branch)
  }

  lemma RefsAdvanced(docs: Docs, more: Docs, roots: DocRoots, name: string, h: Hash, branch: Option<string>)
    requires RefsCommits(docs, roots, name) && Grown(docs, more) && IsCommit(more, h)
    ensures RefsCommits(more, MovedHead(roots, name, h, branch), name)
  {
    var after := MovedHead(roots, name, h, branch);
    forall b | BranchRef(name, b) in after ensures IsCommit(more, after[BranchRef(name, b)]) {
      if branch != Some(b) { assert BranchRef(name, b) in roots; }
    }
  }

  /** Moves HEAD, and the active branch if there is one, to a stored commit. */
  method Publish(k: DocKernel, name: string, h: Hash, branch: Option<string>, ghost docs: Docs)
    requires k.Valid() && h in k.blobs
    requires SoundDocs(k) ==> RefsCommits(docs, k.roots, name) && Grown(docs, k.blobs) && IsCommit(k.blobs, h)
    modifies k`roots
    ensures k.Valid() && k.roots == MovedHead(old(k.roots), name, h, branch)
    ensures LogRepo(k, name) <==> old(SoundDocs(k))
  {
    if SoundDocs(k) { RefsAdvanced(docs, k.blobs, k.roots, name, h, branch); }
    var ok := k.Reference(HeadRef(name), h);
    if branch.Some? {
      ok := k.Reference(BranchRef(name, branch.value), h);
    }
  }

  /** Writes a snapshot of the state that a compacting commit will stand for. */
  method WriteSnapshot(k: DocKernel, t: Table) returns (h: Hash)
    requires SoundDocs(k)
    modifies k
    ensures k.Valid() && k.roots == old(k.roots) && Grown(old(k.blobs), k.blobs)
    ensures k.collisionFree ==> SoundDocs(k) && IsSnapshot(k.blobs, h) && Entries(k.blobs, h) == t
  {
    var pairs := PairsOf(t);
    h := WriteDoc(k, SnapshotDoc(pairs));
  }

  lemma StillFits(docs: Docs, more: Docs, parent: Option<Hash>)
    requires Chained(docs) && Chained(more) && Grown(docs, more) && (parent.Some? ==> IsCommit(docs, parent.value))
    ensures IndexAfter(more, parent) == IndexAfter(docs, parent)
    ensures StateAtHead(more, parent) == StateAtHead(docs, parent)
  {
    if parent.Some? { MeaningGrown(docs, more, parent.value); }
  }

  /** What a commit says about itself. */
  predicate Says(c: Doc, message: string, timestamp: string, index: nat) {
    c.CommitDoc? && c.message == message && c.timestamp == timestamp && c.index == index
  }

  /** The stored part of a commit. */
  method WriteStaged(k: DocKernel, name: string, plus: Table, minus: set<string>,
                     message: string, timestamp: string, index: nat)
    returns (h: Option<Hash>)
    requires LogRepo(k, name) && plus.Keys !! minus
    modifies k
    ensures k.Valid() && k.roots == old(k.roots) && Grown(old(k.blobs), k.blobs)
    ensures h.Some? ==> h.value in k.blobs
    ensures k.collisionFree ==>
              && h.Some? && IsCommit(k.blobs, h.value)
              && (SoundDocs(k) <==> index == old(IndexAfter(k.blobs, HeadOf(k.roots, name))))
              && k.blobs[h.value].parent == old(HeadOf(k.roots, name))
              && k.blobs[h.value].merged.None? && Says(k.blobs[h.value], message, timestamp, index)
    ensures SoundDocs(k) ==>
              Meaning(k.blobs, h.value) == Applied(old(StateAtHead(k.blobs, HeadOf(k.roots, name))), plus, minus)
  {
    var parent := k.Resolve(HeadRef(name));
    var added := PairsOf(plus);
    var removed := NamesOf(minus);
    ghost var docs := k.blobs;
    var snapshot: Option<Hash> := None;
    if Compacts(index) {
      var full := FullState(k, name, parent);
      full := ApplyPairs(full, added, removed);
      var s := WriteSnapshot(k, full);
      if !k.collisionFree { return None; }
      snapshot := Some(s);
    }
    StillFits(docs, k.blobs, parent);
    var skip := SkipFor(k, parent, index);
    var c := CommitDoc(parent, None, skip, added, removed, snapshot, timestamp, message, index);
    var r := WriteCommit(k, c, Applied(StateAtHead(docs, parent), plus, minus));
    return Some(r);
  }

  /** The stored part of a merge: a snapshot of the union, the branch winning. */
  method WriteMerge(k: DocKernel, name: string, other: Hash, message: string, timestamp: string, index: nat)
    returns (h: Option<Hash>)
    requires LogRepo(k, name) && IsCommit(k.blobs, other)
    modifies k
    ensures k.Valid() && k.roots == old(k.roots) && Grown(old(k.blobs), k.blobs)
    ensures h.Some? ==> h.value in k.blobs
    ensures k.collisionFree ==>
              && h.Some? && IsCommit(k.blobs, h.value)
              && (SoundDocs(k) <==> index == old(IndexAfter(k.blobs, HeadOf(k.roots, name))))
              && k.blobs[h.value].parent == old(HeadOf(k.roots, name))
              && k.blobs[h.value].merged == Some(other) && Says(k.blobs[h.value], message, timestamp, index)
    ensures SoundDocs(k) ==>
              Meaning(k.blobs, h.value) == old(StateAtHead(k.blobs, HeadOf(k.roots, name)))
                                           + old(Meaning(k.blobs, other))
  {
    var parent := k.Resolve(HeadRef(name));
    var current := ReadStateFrom(k, parent);
    var theirs := ReadStateFrom(k, Some(other));
    ghost var docs := k.blobs;
    var s := WriteSnapshot(k, current + theirs);
    if !k.collisionFree { return None; }
    StillFits(docs, k.blobs, parent);
    var skip := SkipFor(k, parent, index);
    var c := CommitDoc(parent, Some(other), skip, [], [], Some(s), timestamp, message, index);
    var r := WriteCommit(k, c, current + theirs);
    return Some(r);
  }

  /** `undo`'s walk: first parents, stopping at the root. */
  method StepBack(k: DocKernel, h: Hash, steps: int) returns (a: Hash)
    requires SoundDocs(k) && IsCommit(k.blobs, h)
    ensures var i := k.blobs[h].index;
            Some(a) == AtIndex(k.blobs, h, if steps <= 0 then i else if steps <= i then i - steps else 0)
  {
    a := h;
    ghost var top := k.blobs[h].index;
    var i := 0;
    while i < steps
      invariant 0 <= i <= top && (steps <= 0 ==> i == 0) && (steps > 0 ==> i <= steps)
      invariant Some(a) == AtIndex(k.blobs, h, top - i)
    {
      LinkedAt(k.blobs, a);
      var c := LoadDoc(k, a);
      if c.parent.None? { return; }
      AtIndexVia(k.blobs, h, top - i, top - i - 1);
      a := c.parent.value;
      i := i + 1;
    }
  }

  class DeltaView {
    const kernel: DocKernel
    const name: string
    var stagedAdd: Table
    var stagedDel: set<string>
    var commitIndex: nat
    var activeBranch: Option<string>

    ghost predicate Local()
      reads this
    {
      stagedAdd.Keys !! stagedDel
    }

    /** The store is sound; another instance may have committed since. */
    ghost predicate Usable()
      reads this, kernel
    {
      Local() && LogRepo(kernel, name)
    }

    /** The cached index is the one HEAD calls for. */
    ghost predicate UpToDate()
      reads this, kernel
      requires Usable()
    {
      commitIndex == IndexAfter(kernel.blobs, HeadOf(kernel.roots, name))
    }

    ghost predicate Valid()
      reads this, kernel
    {
      Usable() && UpToDate()
    }

    constructor (kernel: DocKernel, name: string)
      requires LogRepo(kernel, name)
      ensures this.kernel == kernel && this.name == name
      ensures Valid() && stagedAdd == map[] && stagedDel == {} && activeBranch == None
    {
      this.kernel, this.name := kernel, name;
      stagedAdd, stagedDel, activeBranch := map[], {}, None;
      var index := ComputeIndex(kernel, name);
      commitIndex := index;
    }

    method Stage(key: string, blobHash: Hash)
      requires Local()
      modifies this`stagedAdd, this`stagedDel
      ensures Local() && stagedAdd == old(stagedAdd)[key := blobHash] && stagedDel == old(stagedDel) - {key}
    {
      stagedAdd := stagedAdd[key := blobHash];
      stagedDel := stagedDel - {key};
    }

    method StageDelete(key: string)
      requires Local()
      modifies this`stagedAdd, this`stagedDel
      ensures Local() && stagedDel == old(stagedDel) + {key} && stagedAdd == old(stagedAdd) - {key}
    {
      stagedDel := stagedDel + {key};
      stagedAdd := stagedAdd - {key};
    }

    /** What an operation leaves in the instance. */
    method Settle(index: nat, branch: Option<string>)
      modifies this`stagedAdd, this`stagedDel, this`commitIndex, this`activeBranch
      ensures Local() && stagedAdd == map[] && stagedDel == {} && commitIndex == index && activeBranch == branch
    {
      stagedAdd, stagedDel, commitIndex, activeBranch := map[], {}, index, branch;
    }

    /** Commits what is staged; fails exactly when nothing is.  The log stays sound exactly
        when the cached index is up to date. */
    method Commit(message: string, timestamp: string) returns (h: Option<Hash>)
      requires Usable()
      modifies this`stagedAdd, this`stagedDel, this`commitIndex, this`activeBranch, kernel
      ensures Local() && kernel.Valid() && activeBranch == old(activeBranch)
      ensures old(stagedAdd) == map[] && old(stagedDel) == {} ==>
                h.None? && unchanged(this) && kernel.blobs == old(kernel.blobs) && kernel.roots == old(kernel.roots)
      ensures kernel.collisionFree && (old(stagedAdd) != map[] || old(stagedDel) != {}) ==>
                && h.Some? && stagedAdd == map[] && stagedDel == {} && HeadOf(kernel.roots, name) == h
                && h.value in kernel.blobs && Says(kernel.blobs[h.value], message, timestamp, old(commitIndex))
                && (Usable() <==> old(UpToDate())) && (Valid() <==> old(UpToDate()))
      ensures kernel.collisionFree && (old(stagedAdd) != map[] || old(stagedDel) != {}) && old(UpToDate()) ==>
                Appended(old(kernel.blobs), old(kernel.roots), kernel.blobs, kernel.roots, name, h.value,
                         old(Applied(StateAtHead(kernel.blobs, HeadOf(kernel.roots, name)), stagedAdd, stagedDel)),
                         None, activeBranch)
      ensures kernel.collisionFree && (old(stagedAdd) != map[] || old(stagedDel) != {}) && old(UpToDate()) ==>
                Updated(old(StateAtHead(kernel.blobs, HeadOf(kernel.roots, name))),
                        StateAtHead(kernel.blobs, HeadOf(kernel.roots, name)), old(stagedAdd), old(stagedDel))
    {
      if stagedAdd == map[] && stagedDel == {} { return None; }
      AppliedUpdates(StateAtHead(kernel.blobs, HeadOf(kernel.roots, name)), stagedAdd, stagedDel);
      ghost var docs := kernel.blobs;
      h := WriteStaged(kernel, name, stagedAdd, stagedDel, message, timestamp, commitIndex);
      if h.None? { return; }
      Publish(kernel, name, h.value, activeBranch, docs);
      Settle(commitIndex + 1, activeBranch);
    }

    method Lookup(key: string) returns (r: Option<Hash>, loaded: nat, snapshots: nat)
      requires Usable()
      ensures r == TableGet(StateAtHead(kernel.blobs, HeadOf(kernel.roots, name)), key)
      ensures loaded <= INTERVAL && snapshots <= 1
    {
      var head := kernel.Resolve(HeadRef(name));
      r, loaded, snapshots := LookupFrom(kernel, head, key);
    }

    method ReadAll() returns (state: Table)
      requires Usable()
      ensures state == StateAtHead(kernel.blobs, HeadOf(kernel.roots, name))
    {
      var head := kernel.Resolve(HeadRef(name));
      state := ReadStateFrom(kernel, head);
    }

    /** The first-parent line of HEAD, newest first. */
    method History(limit: int) returns (log: seq<LogLine>)
      requires Usable()
      ensures HeadOf(kernel.roots, name).None? ==> log == []
      ensures HeadOf(kernel.roots, name).Some? ==>
                var h := HeadOf(kernel.roots, name).value;
                var top := kernel.blobs[h].index;
                && |log| == (if limit < 0 then 0 else if limit <= top then limit else top + 1)
                && forall i :: 0 <= i < |log| ==>
                     var a := AtIndex(kernel.blobs, h, top - i).value;
                     log[i] == LogLine(Twelve(a), kernel.blobs[a].message, kernel.blobs[a].timestamp, top - i)
    {
      var head := kernel.Resolve(HeadRef(name));
      log := LogFrom(kernel, head, limit);
    }

    /** `loaded` counts the commits read. */
    method HistoryToIndex(target: int) returns (r: Option<Hash>, loaded: nat)
      requires Usable()
      ensures HeadOf(kernel.roots, name).None? ==> r == None && loaded == 0
      ensures HeadOf(kernel.roots, name).Some? ==>
                var h := HeadOf(kernel.roots, name).value;
                && r == (if Overshot(kernel.blobs[h].index, target) then None else AtIndex(kernel.blobs, h, target))
                && loaded == Reads(kernel.blobs[h].index, target)
    {
      var head := kernel.Resolve(HeadRef(name));
      r, loaded := ToIndex(kernel, head, target);
    }

    /** Puts a branch on HEAD; fails when there is no commit yet. */
    method Branch(branch: string) returns (ok: bool)
      requires Usable()
      modifies kernel`roots
      ensures Usable() && UpToDate() == old(UpToDate())
      ensures ok <==> HeadRef(name) in old(kernel.roots)
      ensures kernel.roots == if ok then old(kernel.roots)[BranchRef(name, branch) := old(kernel.roots)[HeadRef(name)]]
                              else old(kernel.roots)
    {
      var head := kernel.Resolve(HeadRef(name));
      if head.None? { return false; }
      ok := kernel.Reference(BranchRef(name, branch), head.value);
    }

    /** Puts HEAD on a branch, which becomes active; fails when there is no such branch. */
    method Checkout(branch: string) returns (ok: bool)
      requires Usable()
      modifies this`stagedAdd, this`stagedDel, this`commitIndex, this`activeBranch, kernel`roots
      ensures Usable() && (ok ==> UpToDate())
      ensures ok <==> BranchRef(name, branch) in old(kernel.roots)
      ensures !ok ==> unchanged(this) && kernel.roots == old(kernel.roots)
      ensures ok ==> kernel.roots == old(kernel.roots)[HeadRef(name) := old(kernel.roots)[BranchRef(name, branch)]]
                     && stagedAdd == map[] && stagedDel == {} && activeBranch == Some(branch)
    {
      var h := kernel.Resolve(BranchRef(name, branch));
      if h.None? { return false; }
      Publish(kernel, name, h.value, None, kernel.blobs);
      var index := ComputeIndex(kernel, name);
      Settle(index, Some(branch));
      return true;
    }

    /** Moves HEAD back, stopping at the root.  Unlike the later lens, it leaves the active
        branch active. */
    method Undo(steps: int) returns (r: Option<Hash>)
      requires Usable()
      modifies this`stagedAdd, this`stagedDel, this`commitIndex, this`activeBranch, kernel`roots
      ensures Usable() && (r.Some? ==> UpToDate()) && activeBranch == old(activeBranch)
      ensures r.Some? <==> HeadRef(name) in old(kernel.roots)
      ensures r.None? ==> unchanged(this) && kernel.roots == old(kernel.roots)
      ensures r.Some? ==>
                var h := old(kernel.roots)[HeadRef(name)];
                var i := kernel.blobs[h].index;
                && r == AtIndex(kernel.blobs, h, if steps <= 0 then i else if steps <= i then i - steps else 0)
                && kernel.roots == old(kernel.roots)[HeadRef(name) := r.value]
                && stagedAdd == map[] && stagedDel == {}
    {
      var head := kernel.Resolve(HeadRef(name));
      if head.None? { return None; }
      var h := StepBack(kernel, head.value, steps);
      Publish(kernel, name, h, None, kernel.blobs);
      var index := ComputeIndex(kernel, name);
      Settle(index, activeBranch);
      return Some(h);
    }

    /** Merges a branch into HEAD; what is staged stays staged and the active branch stays
        where it is.  The log stays sound exactly when the cached index is up to date. */
    method Merge(branch: string, message: string, timestamp: string) returns (h: Option<Hash>)
      requires Usable()
      modifies this`commitIndex, kernel
      ensures Local() && kernel.Valid()
      ensures kernel.collisionFree ==> (h.Some? <==> BranchRef(name, branch) in old(kernel.roots))
      ensures kernel.collisionFree && h.Some? ==>
                && HeadOf(kernel.roots, name) == h && h.value in kernel.blobs
                && Says(kernel.blobs[h.value], message, timestamp, old(commitIndex))
                && (Usable() <==> old(UpToDate())) && (Valid() <==> old(UpToDate()))
      ensures BranchRef(name, branch) !in old(kernel.roots) ==>
                h.None? && unchanged(this) && kernel.blobs == old(kernel.blobs) && kernel.roots == old(kernel.roots)
      ensures kernel.collisionFree && h.Some? && old(UpToDate()) ==>
                var other := old(kernel.roots)[BranchRef(name, branch)];
                Appended(old(kernel.blobs), old(kernel.roots), kernel.blobs, kernel.roots, name, h.value,
                         old(StateAtHead(kernel.blobs, HeadOf(kernel.roots, name)))
                         + old(Meaning(kernel.blobs, kernel.roots[BranchRef(name, branch)])),
                         Some(other), None)
    {
      var other := kernel.Resolve(BranchRef(name, branch));
      if other.None? { return None; }
      ghost var docs := kernel.blobs;
      h := WriteMerge(kernel, name, other.value, message, timestamp, commitIndex);
      if h.None? { return; }
      Publish(kernel, name, h.value, None, docs);
      commitIndex := commitIndex + 1;
    }
  }

  /** Two instances of one log: a commit through the first leaves the cached index of the
      second behind, and a commit through that makes the log unsound. */
  method TwoInstances(a: DeltaView, b: DeltaView, message: string, timestamp: string)
    returns (first: Option<Hash>, second: Option<Hash>)
    requires a != b && a.kernel == b.kernel && a.name == b.name && a.Valid() && b.Valid()
    requires (a.stagedAdd != map[] || a.stagedDel != {}) && (b.stagedAdd != map[] || b.stagedDel != {})
    modifies a, b, a.kernel
    ensures a.kernel.collisionFree ==> first.Some? && second.Some? && !LogRepo(a.kernel, a.name)
  {
    ghost var docs := a.kernel.blobs;
    ghost var head := HeadOf(a.kernel.roots, a.name);
    first := a.Commit(message, timestamp);
    second := None;
    if !a.kernel.collisionFree { return; }
    LinkedAt(a.kernel.blobs, first.value);
    assert IndexAfter(a.kernel.blobs, first) == IndexAfter(docs, head) + 1;
    second := b.Commit(message, timestamp);
  }
}
