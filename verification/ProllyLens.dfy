/** `ProllyLensBase`: a collection with staged writes, a bounded delta journal, snapshot
    commits, a snapshot pointer, branches, undo and two-parent merges. */
module ProllyLens {
  import opened Basics
  import opened Codec
  import opened Kernel
  import opened ProllyTree
  import opened History
  import opened CommitStore
  import opened Refs
  import opened LensSteps

  class Lens {
    const kernel: MemoryKernel<Bytes, Bytes, Ref>
    const ledger: Ledger
    const name: string
    const threshold: nat  // COMPACTION_THRESHOLD
    var stagedAdd: State
    var stagedDel: set<Bytes>
    var commitIndex: nat
    var activeBranch: Option<string>
    var deltaCount: nat

    /** Staged additions and deletions never overlap. */
    ghost predicate Local()
      reads this
    {
      threshold >= 1 && stagedAdd.Keys !! stagedDel && Storable(stagedAdd)
    }

    ghost predicate Valid()
      reads this, kernel, ledger
    {
      Local() && Repo(kernel, ledger, name)
    }

    /** `__init__`: sets the snapshot pointer of an older store that has none. */
    constructor (kernel: MemoryKernel<Bytes, Bytes, Ref>, ledger: Ledger, name: string, threshold: nat)
      requires SoundStore(kernel, ledger) && OlderRefsOk(ledger.versions, kernel.roots, name) && threshold >= 1
      modifies kernel`roots
      ensures this.kernel == kernel && this.ledger == ledger && this.name == name && this.threshold == threshold
      ensures Valid() && stagedAdd == map[] && stagedDel == {} && activeBranch == None
      ensures commitIndex == NextIndex(ledger.versions, kernel.roots, name)
      ensures deltaCount == CappedJournal(ledger.versions, kernel.roots, name, threshold)
      ensures kernel.roots == if HeadRef(name) in old(kernel.roots)
                              then old(kernel.roots)[
                                     SnapRef(name) := Nearest(ledger.versions, old(kernel.roots)[HeadRef(name)])]
                              else old(kernel.roots)
    {
      this.kernel, this.ledger, this.name, this.threshold := kernel, ledger, name, threshold;
      stagedAdd, stagedDel, activeBranch := map[], {}, None;
      var index := ComputeIndex(kernel, ledger, name);
      SetSnapshotPointer(kernel, ledger, name);
      var head := kernel.Resolve(HeadRef(name));
      var count := CountDeltas(kernel, ledger, head, threshold);
      commitIndex, deltaCount := index, count;
    }

    method Stage(key: Bytes, blobHash: Bytes)
      requires Local() && |blobHash| == HASH_LEN
      modifies this`stagedAdd, this`stagedDel
      ensures Local()
      ensures stagedAdd == old(stagedAdd)[key := blobHash] && stagedDel == old(stagedDel) - {key}
    {
      stagedAdd := stagedAdd[key := blobHash];
      stagedDel := stagedDel - {key};
    }

    method StageDelete(key: Bytes)
      requires Local()
      modifies this`stagedAdd, this`stagedDel
      ensures Local()
      ensures stagedDel == old(stagedDel) + {key} && stagedAdd == old(stagedAdd) - {key}
    {
      stagedDel := stagedDel + {key};
      stagedAdd := stagedAdd - {key};
    }

    predicate HasStaged()
      reads this
    {
      stagedAdd != map[] || stagedDel != {}
    }

    /** What a commit leaves in the lens. */
    method Settle(snapshot: bool)
      requires Local()
      modifies this`stagedAdd, this`stagedDel, this`commitIndex, this`deltaCount
      ensures Local() && stagedAdd == map[] && stagedDel == {} && commitIndex == old(commitIndex) + 1
      ensures deltaCount == if snapshot then 0 else old(deltaCount) + 1
    {
      deltaCount := if snapshot then 0 else deltaCount + 1;
      stagedAdd, stagedDel := map[], {};
      commitIndex := commitIndex + 1;
    }

    /** Commits what is staged.  Fails, changing nothing a reader can see, when nothing is
        staged or a field does not fit; otherwise the new state is HEAD's with the staged
        additions and then the staged deletions applied. */
    method Commit(message: Bytes, timestamp: Bytes) returns (r: Option<Bytes>)
      requires Valid() && |timestamp| == 8
      modifies this`stagedAdd, this`stagedDel, this`commitIndex, this`deltaCount, kernel, ledger
      ensures kernel.Valid() && Local()
      ensures r.Some? <==> old(HasStaged())
                           && old(Packs(WritesSnapshot(Head(kernel.roots, name), deltaCount, threshold),
                                        StateAt(ledger.versions, Head(kernel.roots, name)),
                                        stagedAdd, stagedDel, message, commitIndex))
      ensures r.None? ==>
                && unchanged(this)
                && kernel.roots == old(kernel.roots)
                && ledger.versions == old(ledger.versions)
      ensures kernel.collisionFree ==> Valid()
      ensures r.Some? && kernel.collisionFree ==>
                Advanced(old(ledger.versions), old(kernel.roots), ledger.versions, kernel.roots, name,
                         r.value, old(StagedVersion(ledger.versions, Head(kernel.roots, name), stagedAdd, stagedDel,
                                                    deltaCount, threshold,
                                                    Note(message, timestamp, commitIndex))), activeBranch)
      ensures r.Some? ==>
                && stagedAdd == map[] && stagedDel == {}
                && commitIndex == old(commitIndex) + 1
                && deltaCount == if WritesSnapshot(Head(old(kernel.roots), name), old(deltaCount), threshold)
                                 then 0 else old(deltaCount) + 1
    {
      if !HasStaged() { return None; }
      var snapshot;
      r, snapshot := CommitOnHead(kernel, ledger, name, stagedAdd, stagedDel, deltaCount, threshold, activeBranch,
                                  Note(message, timestamp, commitIndex));
      if r.None? { return; }
      Settle(snapshot);
    }

    /** The value of a key at HEAD. */
    method Lookup(key: Bytes) returns (r: Option<Bytes>)
      requires Valid()
      ensures r == Get(StateAt(ledger.versions, Head(kernel.roots, name)), key)
    {
      r := LookupCurrent(kernel, ledger, name, key);
    }

    /** The whole state at HEAD. */
    method ReadAll() returns (state: State)
      requires Valid()
      ensures state == StateAt(ledger.versions, Head(kernel.roots, name))
    {
      state := ReadCurrent(kernel, ledger, name);
    }

    /** `read_state_at_commit`: the whole state at any commit. */
    method ReadAt(h: Bytes) returns (state: State)
      requires Valid() && h in ledger.versions
      ensures state == ledger.versions[h].state
    {
      state := ReadState(kernel, ledger, h);
    }

    /** Puts a branch on HEAD; fails when there is no commit yet. */
    method Branch(branch: string) returns (ok: bool)
      requires Valid()
      modifies kernel`roots
      ensures Valid()
      ensures ok <==> HeadRef(name) in old(kernel.roots)
      ensures kernel.roots == if ok then old(kernel.roots)[BranchRef(name, branch) := old(kernel.roots)[HeadRef(name)]]
                              else old(kernel.roots)
    {
      var head := kernel.Resolve(HeadRef(name));
      if head.None? { return false; }
      BranchOk(ledger.versions, kernel.roots, name, branch);
      ok := kernel.Reference(BranchRef(name, branch), head.value);
    }

    /** What `checkout` and `undo` leave in the lens. */
    method Rewind(count: nat, index: nat, branch: Option<string>)
      requires Local()
      modifies this`stagedAdd, this`stagedDel, this`commitIndex, this`deltaCount, this`activeBranch
      ensures Local() && stagedAdd == map[] && stagedDel == {}
      ensures deltaCount == count && commitIndex == index && activeBranch == branch
    {
      deltaCount := count;
      stagedAdd, stagedDel := map[], {};
      commitIndex := index;
      activeBranch := branch;
    }

    /** Puts HEAD on a branch, which becomes active; fails when there is no such branch. */
    method Checkout(branch: string) returns (ok: bool)
      requires Valid()
      modifies this`stagedAdd, this`stagedDel, this`commitIndex, this`deltaCount, this`activeBranch, kernel`roots
      ensures Valid()
      ensures ok <==> BranchRef(name, branch) in old(kernel.roots)
      ensures !ok ==> unchanged(this) && kernel.roots == old(kernel.roots)
      ensures ok ==>
                var h := old(kernel.roots)[BranchRef(name, branch)];
                && Reset(ledger.versions, old(kernel.roots), kernel.roots, name, h)
                && stagedAdd == map[] && stagedDel == {} && activeBranch == Some(branch)
                && commitIndex == ledger.versions[h].note.index + 1
                && deltaCount == CappedJournal(ledger.versions, kernel.roots, name, threshold)
    {
      var h := kernel.Resolve(BranchRef(name, branch));
      if h.None? { return false; }
      var count, index := ResetHead(kernel, ledger, name, h.value, threshold);
      Rewind(count, index, Some(branch));
      return true;
    }

    /** Moves HEAD `steps` first parents back, stopping at the root, and leaves no branch
        active; fails when there is no commit.  A `steps` of zero or less moves nothing. */
    method Undo(steps: int) returns (r: Option<Bytes>)
      requires Valid()
      modifies this`stagedAdd, this`stagedDel, this`commitIndex, this`deltaCount, this`activeBranch, kernel`roots
      ensures Valid()
      ensures r.Some? <==> HeadRef(name) in old(kernel.roots)
      ensures r.None? ==> unchanged(this) && kernel.roots == old(kernel.roots)
      ensures r.Some? ==>
                && r.value == Ancestor(ledger.versions, old(kernel.roots)[HeadRef(name)],
                                       if steps > 0 then steps else 0)
                && Reset(ledger.versions, old(kernel.roots), kernel.roots, name, r.value)
                && stagedAdd == map[] && stagedDel == {} && activeBranch == None
                && commitIndex == ledger.versions[r.value].note.index + 1
                && deltaCount == CappedJournal(ledger.versions, kernel.roots, name, threshold)
    {
      var head := kernel.Resolve(HeadRef(name));
      if head.None? { return None; }
      var h := WalkBack(kernel, ledger, head.value, steps);
      var count, index := ResetHead(kernel, ledger, name, h, threshold);
      Rewind(count, index, None);
      return Some(h);
    }

    /** The union of HEAD's state and the branch's, the branch winning. */
    ghost function Union(branch: string): State
      requires Valid() && BranchRef(name, branch) in kernel.roots
      reads this, kernel, ledger
    {
      StateAt(ledger.versions, Head(kernel.roots, name)) + ledger.versions[kernel.roots[BranchRef(name, branch)]].state
    }

    /** The union of HEAD's state and that of `other`, which wins. */
    method ReadUnion(other: Bytes) returns (merged: State)
      requires Valid() && other in ledger.versions
      ensures merged == StateAt(ledger.versions, Head(kernel.roots, name)) + ledger.versions[other].state
      ensures Storable(merged) && |other| == HASH_LEN
    {
      var head := kernel.Resolve(HeadRef(name));
      if head.Some? { StateStorable(kernel.hash, kernel.blobs, ledger.versions, head.value); }
      StateStorable(kernel.hash, kernel.blobs, ledger.versions, other);
      StoredAddress(kernel, ledger.versions, other);
      var current := ReadAll();
      var theirs := ReadAt(other);
      merged := current + theirs;
    }

    /** Merges a branch into HEAD with a two-parent snapshot commit.  What is staged stays
        staged, and the active branch does not move. */
    method Merge(branch: string, message: Bytes, timestamp: Bytes) returns (r: Option<Bytes>)
      requires Valid() && |timestamp| == 8
      modifies this`commitIndex, this`deltaCount, kernel, ledger
      ensures kernel.Valid() && Local()
      ensures r.Some? <==> BranchRef(name, branch) in old(kernel.roots)
                           && SnapshotFits(old(Union(branch)), message, old(commitIndex))
      ensures r.None? ==>
                && unchanged(this)
                && kernel.roots == old(kernel.roots)
                && ledger.versions == old(ledger.versions)
      ensures kernel.collisionFree ==> Valid()
      ensures r.Some? ==> commitIndex == old(commitIndex) + 1 && deltaCount == 0
      ensures r.Some? && kernel.collisionFree ==>
                var vs, roots := old(ledger.versions), old(kernel.roots);
                Advanced(vs, roots, ledger.versions, kernel.roots, name, r.value,
                         SnapshotVersion(vs, Head(roots, name), Some(roots[BranchRef(name, branch)]),
                                         old(Union(branch)), Note(message, timestamp, old(commitIndex))),
                         None)
    {
      var other := kernel.Resolve(BranchRef(name, branch));
      if other.None? { return None; }
      var merged := ReadUnion(other.value);
      var parent := kernel.Resolve(HeadRef(name));
      r := CommitSnapshot(kernel, ledger, name, parent, other, merged, None,
                          Note(message, timestamp, commitIndex),
                          SnapshotVersion(ledger.versions, parent, other, merged,
                                          Note(message, timestamp, commitIndex)));
      if r.Some? {
        deltaCount, commitIndex := 0, commitIndex + 1;
      }
    }

    /** Commits what is staged on top of `parent`, whatever HEAD is, as a snapshot that also
        records `second`. */
    method CreateMergeCommit(parent: Option<Bytes>, second: Option<Bytes>, message: Bytes, timestamp: Bytes)
      returns (r: Option<Bytes>)
      requires Valid() && |timestamp| == 8
      requires (parent.Some? ==> parent.value in ledger.versions) && IsHash(second)
      modifies this`stagedAdd, this`stagedDel, this`commitIndex, this`deltaCount, kernel, ledger
      ensures kernel.Valid() && Local()
      ensures r.Some? <==> second.Some? && old(HasStaged())
                           && SnapshotFits(old(Apply(StateAt(ledger.versions, parent), stagedAdd, stagedDel)),
                                           message, old(commitIndex))
      ensures r.None? ==>
                && unchanged(this)
                && kernel.roots == old(kernel.roots)
                && ledger.versions == old(ledger.versions)
      ensures kernel.collisionFree ==> Valid()
      ensures r.Some? ==>
                && stagedAdd == map[] && stagedDel == {}
                && commitIndex == old(commitIndex) + 1 && deltaCount == 0
      ensures r.Some? && kernel.collisionFree ==>
                Advanced(old(ledger.versions), old(kernel.roots), ledger.versions, kernel.roots, name, r.value,
                         old(SnapshotVersion(ledger.versions, parent, second,
                                             Apply(StateAt(ledger.versions, parent), stagedAdd, stagedDel),
                                             Note(message, timestamp, commitIndex))),
                         activeBranch)
    {
      if second.None? || !HasStaged() { return None; }
      var full := FullState(kernel, ledger, parent);
      var removed := Listing(stagedDel);
      full := ApplyDelta(full, stagedAdd, removed);
      r := CommitSnapshot(kernel, ledger, name, parent, second, full, activeBranch,
                          Note(message, timestamp, commitIndex),
                          SnapshotVersion(ledger.versions, parent, second, full,
                                          Note(message, timestamp, commitIndex)));
      if r.Some? { Settle(true); }
    }

    /** The first-parent line of HEAD. */
    method History(limit: int) returns (log: seq<LogEntry>)
      requires Valid()
      ensures log == LogOf(ledger.versions, Head(kernel.roots, name), if limit > 0 then limit else 0)
    {
      log := Log(kernel, ledger, name, limit);
    }
  }
}
