/** The meaning of the commits of the JSON delta log: first-parent depth, state, and the
    ancestor at an index. */
module DeltaHistory {
  import opened Basics
  import opened Kernel
  import opened JsonDocs

  const INTERVAL: nat := 64  // COMPACTION_INTERVAL and SKIP_INTERVAL

  type Table = map<string, Hash>

  function ToTable(ps: Pairs): Table {
    if ps == [] then map[] else ToTable(ps[..|ps| - 1])[ps[|ps| - 1].0 := ps[|ps| - 1].1]
  }

  function Names(ss: seq<string>): set<string> {
    set s | s in ss
  }

  /** Applies a delta: additions first, then deletions. */
  function Applied(t: Table, plus: Table, minus: set<string>): Table {
    (t + plus) - minus
  }

  function TableGet(t: Table, key: string): Option<Hash> {
    if key in t then Some(t[key]) else None
  }

  /** `after` is `before` with the names in `minus` gone, those in `plus` set, and all others
      as they were. */
  ghost predicate Updated(before: Table, after: Table, plus: Table, minus: set<string>) {
    && (forall key :: key in plus ==> TableGet(after, key) == Some(plus[key]))
    && (forall key :: key in minus ==> TableGet(after, key) == None)
    && (forall key :: key !in plus && key !in minus ==> TableGet(after, key) == TableGet(before, key))
  }

  lemma AppliedUpdates(t: Table, plus: Table, minus: set<string>)
    requires plus.Keys !! minus
    ensures Updated(t, Applied(t, plus, minus), plus, minus)
  {
  }

  predicate IsCommit(docs: Docs, h: Hash) {
    h in docs && docs[h].CommitDoc?
  }

  predicate IsSnapshot(docs: Docs, h: Hash) {
    h in docs && docs[h].SnapshotDoc?
  }

  /** A commit's parent is a commit one index below; the blobs it names are there. */
  predicate Linked(docs: Docs, h: Hash)
    requires IsCommit(docs, h)
  {
    var c := docs[h];
    && (match c.parent
        case None => c.index == 0
        case Some(p) => IsCommit(docs, p) && c.index == docs[p].index + 1)
    && (c.snapshot.Some? ==> IsSnapshot(docs, c.snapshot.value))
    && (c.merged.Some? ==> IsCommit(docs, c.merged.value) && c.snapshot.Some? && c.plus == [] && c.minus == [])
    && ToTable(c.plus).Keys !! Names(c.minus)
  }

  /** The commits that are not linked. */
  ghost function Loose(docs: Docs): set<Hash> {
    set h | h in docs && docs[h].CommitDoc? && !Linked(docs, h)
  }

  ghost predicate Chained(docs: Docs) {
    Loose(docs) == {}
  }

  lemma LinkedAt(docs: Docs, h: Hash)
    requires Chained(docs) && IsCommit(docs, h)
    ensures Linked(docs, h)
  {
    assert h !in Loose(docs);
  }

  function Entries(docs: Docs, s: Hash): Table
    requires IsSnapshot(docs, s)
  {
    ToTable(docs[s].entries)
  }

  /** The state at a commit, without regard to compaction: the parent's state with the delta
      applied, or what a merge recorded. */
  ghost function Meaning(docs: Docs, h: Hash): Table
    requires Chained(docs) && IsCommit(docs, h)
    decreases docs[h].index
  {
    LinkedAt(docs, h);
    var c := docs[h];
    if c.merged.Some? then Entries(docs, c.snapshot.value)
    else Applied(if c.parent.None? then map[] else Meaning(docs, c.parent.value), ToTable(c.plus), Names(c.minus))
  }

  /** The first-parent ancestor with index `t`. */
  ghost function AtIndex(docs: Docs, h: Hash, t: int): (r: Option<Hash>)
    requires Chained(docs) && IsCommit(docs, h)
    ensures r.Some? <==> 0 <= t <= docs[h].index
    ensures r.Some? ==> IsCommit(docs, r.value) && docs[r.value].index == t
    decreases docs[h].index
  {
    LinkedAt(docs, h);
    if docs[h].index == t then Some(h)
    else if docs[h].index < t || docs[h].parent.None? then None
    else AtIndex(docs, docs[h].parent.value, t)
  }

  lemma {:induction false} AtIndexVia(docs: Docs, h: Hash, m: nat, t: int)
    requires Chained(docs) && IsCommit(docs, h) && t <= m <= docs[h].index
    ensures AtIndex(docs, AtIndex(docs, h, m).value, t) == AtIndex(docs, h, t)
    decreases docs[h].index
  {
    LinkedAt(docs, h);
    if m < docs[h].index { AtIndexVia(docs, docs[h].parent.value, m, t); }
  }

  /** Snapshots and skip pointers say what they should: a compacting commit, one at every
      positive multiple of 64, carries the full state; a skip pointer leads 65 commits back,
      and there is none at index 64. */
  ghost predicate Faithful(docs: Docs, h: Hash)
    requires Chained(docs) && IsCommit(docs, h)
  {
    LinkedAt(docs, h);
    var c := docs[h];
    && (c.snapshot.Some? ==> Entries(docs, c.snapshot.value) == Meaning(docs, h))
    && (c.snapshot.Some? <==> c.merged.Some? || (c.index > 0 && c.index % INTERVAL == 0))
    && c.skip == (if c.index > INTERVAL && c.index % INTERVAL == 0
                  then AtIndex(docs, h, c.index - INTERVAL - 1) else None)
  }

  ghost function Unfaithful(docs: Docs): set<Hash>
    requires Chained(docs)
  {
    set h | h in docs && docs[h].CommitDoc? && !Faithful(docs, h)
  }

  /** What the log keeps true of all stored commits. */
  ghost predicate Sound(docs: Docs) {
    Chained(docs) && Unfaithful(docs) == {}
  }

  lemma FaithfulAt(docs: Docs, h: Hash)
    requires Sound(docs) && IsCommit(docs, h)
    ensures Linked(docs, h) && Faithful(docs, h)
  {
    LinkedAt(docs, h);
    assert h !in Unfaithful(docs);
  }

  // ---------- growing ----------

  lemma {:induction false} MeaningGrown(docs: Docs, more: Docs, h: Hash)
    requires Chained(docs) && Chained(more) && Grown(docs, more) && IsCommit(docs, h)
    ensures Meaning(more, h) == Meaning(docs, h)
    decreases docs[h].index
  {
    LinkedAt(docs, h);
    LinkedAt(more, h);
    if docs[h].merged.None? && docs[h].parent.Some? { MeaningGrown(docs, more, docs[h].parent.value); }
  }

  lemma {:induction false} AtIndexGrown(docs: Docs, more: Docs, h: Hash, t: int)
    requires Chained(docs) && Chained(more) && Grown(docs, more) && IsCommit(docs, h)
    ensures AtIndex(more, h, t) == AtIndex(docs, h, t)
    decreases docs[h].index
  {
    LinkedAt(docs, h);
    if docs[h].parent.Some? { AtIndexGrown(docs, more, docs[h].parent.value, t); }
  }

  /** Adding a document that is linked and faithful keeps the log sound. */
  lemma ChainedGrown(docs: Docs, more: Docs)
    requires Chained(docs) && Grown(docs, more)
    requires forall h :: h in more && h !in docs && more[h].CommitDoc? ==> Linked(more, h)
    ensures Chained(more)
  {
    forall h | IsCommit(more, h) ensures Linked(more, h) {
      if h in docs { LinkedAt(docs, h); }
    }
  }

  lemma SoundGrown(docs: Docs, more: Docs)
    requires Sound(docs) && Chained(more) && Grown(docs, more)
    requires forall h :: IsCommit(more, h) && h !in docs ==> Faithful(more, h)
    ensures Sound(more)
  {
    forall h | IsCommit(more, h) ensures Faithful(more, h) {
      if h in docs {
        FaithfulAt(docs, h);
        MeaningGrown(docs, more, h);
        AtIndexGrown(docs, more, h, docs[h].index - INTERVAL - 1);
      }
    }
  }

  /** A part of a sound log that keeps what its commits name is sound. */
  lemma SoundShrunk(kept: Docs, docs: Docs)
    requires Sound(docs) && Grown(kept, docs)
    requires forall h :: IsCommit(kept, h) ==> Linked(kept, h)
    ensures Sound(kept)
  {
    assert Chained(kept);
    forall h | IsCommit(kept, h) ensures Faithful(kept, h) {
      FaithfulShrunk(kept, docs, h);
    }
  }

  lemma FaithfulShrunk(kept: Docs, docs: Docs, h: Hash)
    requires Sound(docs) && Chained(kept) && Grown(kept, docs) && IsCommit(kept, h)
    ensures Faithful(kept, h)
  {
    LinkedAt(kept, h);
    FaithfulAt(docs, h);
    MeaningGrown(kept, docs, h);
    AtIndexGrown(kept, docs, h, docs[h].index - INTERVAL - 1);
  }
}
