/** With two lenses the cached delta counter can be stale, and then the journal outgrows the
    threshold. */
module StaleCounters {
  import opened Basics
  import opened Texts
  import opened Codec
  import opened Kernel
  import opened History
  import opened Refs
  import opened LensSteps
  import opened ProllyLens

  const TIME: Bytes := [0, 0, 0, 0, 0, 0, 0, 0]

  /** Every key of HEAD's state fits the layout. */
  ghost predicate ShortKeys(vs: Versions, head: Option<Bytes>)
    requires head.Some? ==> head.value in vs
  {
    forall key :: key in StateAt(vs, head) ==> TextFits(key)
  }

  /** HEAD rests on `n` deltas, and its number is below `m`. */
  ghost predicate RestsOn(vs: Versions, head: Option<Bytes>, n: nat, m: nat) {
    && WellFormed(vs) && (head.Some? ==> head.value in vs) && HeadJournal(vs, head) == n && ShortKeys(vs, head)
    && (head.Some? ==> vs[head.value].note.index < m)
  }

  lemma OneByte(byte: Byte)
    requires byte < 0x80
    ensures TextFits([byte])
  {
    assert [byte][CharLength([byte])..] == [];
  }

  lemma OneFits(snapshot: bool, vs: Versions, head: Option<Bytes>, n: nat, m: nat, plus: State, byte: Byte, index: nat)
    requires RestsOn(vs, head, n, m) && byte < 0x80 && plus == map[[byte] := NIL] && index < 5
    ensures Packs(snapshot, StateAt(vs, head), plus, {}, [], index)
  {
    OneByte(byte);
    assert |plus| == 1;
  }

  lemma OneAdded(vs: Versions, roots: Roots, ws: Versions, after: Roots, name: string, h: Bytes, n: nat, m: nat,
                 plus: State, byte: Byte, count: nat, threshold: nat, note: Note, branch: Option<string>)
    requires RestsOn(vs, Head(roots, name), n, m) && byte < 0x80 && plus == map[[byte] := NIL]
    requires Advanced(vs, roots, ws, after, name, h,
                      StagedVersion(vs, Head(roots, name), plus, {}, count, threshold, note), branch)
    ensures Head(after, name) == Some(h)
    ensures RestsOn(ws, Some(h), if WritesSnapshot(Head(roots, name), count, threshold) then 0 else n + 1,
                    note.index + 1)
  {
    assert Linked(ws, h);
    OneByte(byte);
    if Head(roots, name).Some? { NearestGrown(vs, ws, Head(roots, name).value); }
  }

  /** Commits one short key. */
  method CommitOne(lens: Lens, byte: Byte, ghost n: nat, ghost m: nat) returns (r: Option<Bytes>)
    requires byte < 0x80 && lens.Valid() && lens.commitIndex < 5 && lens.stagedAdd == map[] && lens.stagedDel == {}
    requires RestsOn(lens.ledger.versions, Head(lens.kernel.roots, lens.name), n, m)
    modifies lens, lens.kernel, lens.ledger
    ensures r.Some? && lens.stagedAdd == map[] && lens.stagedDel == {} && lens.commitIndex == old(lens.commitIndex) + 1
    ensures lens.kernel.collisionFree ==> lens.Valid() && Head(lens.kernel.roots, lens.name) == r
    ensures var snapshot := WritesSnapshot(Head(old(lens.kernel.roots), lens.name), old(lens.deltaCount),
                                           lens.threshold);
            && lens.deltaCount == (if snapshot then 0 else old(lens.deltaCount) + 1)
            && (lens.kernel.collisionFree ==>
                  RestsOn(lens.ledger.versions, r, if snapshot then 0 else n + 1, lens.commitIndex))
  {
    ghost var vs, roots, count, index := lens.ledger.versions, lens.kernel.roots, lens.deltaCount, lens.commitIndex;
    ghost var plus: State := map[[byte] := NIL];
    lens.Stage([byte], NIL);
    assert [byte] in plus && lens.stagedAdd == plus && lens.stagedDel == {};
    OneFits(WritesSnapshot(Head(roots, lens.name), count, lens.threshold), vs, Head(roots, lens.name), n, m, plus,
            byte, index);
    r := lens.Commit([], TIME);
    if lens.kernel.collisionFree {
      OneAdded(vs, roots, lens.ledger.versions, lens.kernel.roots, lens.name, r.value, n, m, plus, byte,
               count, lens.threshold, Note([], TIME, index), lens.activeBranch);
    }
  }

  /** Opens a lens on a collection whose HEAD is a snapshot, or which is empty. */
  method Open(k: MemoryKernel<Bytes, Bytes, Ref>, ledger: Ledger, name: string, ghost m: nat) returns (lens: Lens)
    requires Repo(k, ledger, name) && RestsOn(ledger.versions, Head(k.roots, name), 0, m)
    modifies k`roots
    ensures fresh(lens) && lens.Valid() && lens.kernel == k && lens.ledger == ledger && lens.name == name
    ensures lens.threshold == 1 && lens.deltaCount == 0 && lens.commitIndex <= m
    ensures Head(k.roots, name).None? ==> lens.commitIndex == 0
    ensures lens.stagedAdd == map[] && lens.stagedDel == {}
    ensures Head(k.roots, name) == old(Head(k.roots, name))
  {
    lens := new Lens(k, ledger, name, 1);
  }

  /** HEAD is a snapshot and both lenses count no deltas: a commit through each puts HEAD on
      two. */
  method Outgrow(a: Lens, b: Lens)
    requires a != b && a.kernel == b.kernel && a.ledger == b.ledger && a.name == b.name && a.Valid() && b.Valid()
    requires a.threshold == b.threshold == 1 && a.deltaCount == b.deltaCount == 0
    requires a.commitIndex == 1 && b.commitIndex <= 1 && Head(a.kernel.roots, a.name).Some?
    requires a.stagedAdd == map[] && a.stagedDel == {} && b.stagedAdd == map[] && b.stagedDel == {}
    requires RestsOn(a.ledger.versions, Head(a.kernel.roots, a.name), 0, 1)
    modifies a, b, a.kernel, a.ledger
    ensures a.kernel.collisionFree ==>
              && Repo(a.kernel, a.ledger, a.name)
              && RestsOn(a.ledger.versions, Head(a.kernel.roots, a.name), 2, 2)
  {
    var h := CommitOne(a, 2, 0, 1);
    if !a.kernel.collisionFree { return; }
    h := CommitOne(b, 3, 1, 2);
  }

  /** On an empty collection, with the shipped threshold of one: `a` commits a snapshot, `b`
      opens and counts no deltas, `a` commits a delta, and `b`, still counting none, commits
      another.  HEAD then rests on two deltas. */
  method TwoLenses(k: MemoryKernel<Bytes, Bytes, Ref>, ledger: Ledger, name: string) returns (a: Lens, b: Lens)
    requires Repo(k, ledger, name) && HeadRef(name) !in k.roots
    modifies k, ledger
    ensures k.collisionFree ==> Repo(k, ledger, name) && RestsOn(ledger.versions, Head(k.roots, name), 2, 2)
  {
    RestsOnNothing(ledger.versions);
    a := Open(k, ledger, name, 0);
    b := a;
    var h := CommitOne(a, 1, 0, 0);
    if !k.collisionFree { return; }
    b := Open(k, ledger, name, 1);
    Outgrow(a, b);
  }

  lemma RestsOnNothing(vs: Versions)
    requires WellFormed(vs)
    ensures RestsOn(vs, None, 0, 0)
  {}
}
