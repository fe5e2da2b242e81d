/** Any number of lenses on one collection, interleaving whole operations, refine the plain
    versioned map. */
module LensRuns {
  import opened Basics
  import opened Codec
  import opened Kernel
  import opened ProllyTree
  import opened History
  import opened CommitStore
  import opened Refs
  import opened LensSteps
  import opened ProllyLens
  import V = VersionedMap

  function PointOf(v: Version): V.Point {
    V.Point(v.parent, v.second, v.state, v.note, KindOf(v))
  }

  ghost function BranchNames(roots: Roots, name: string): set<string> {
    set r | r in roots && r.BranchRef? && r.collection == name :: r.branch
  }

  /** What the ledger and the references mean: snapshots, depths and the snapshot pointer
      are forgotten. */
  ghost function WorldOf(vs: Versions, roots: Roots, name: string): V.World {
    V.World(
      map h | h in vs :: PointOf(vs[h]),
      Head(roots, name),
      map b | b in BranchNames(roots, name) :: BranchTip(roots, name, b))
  }

  ghost function BranchTip(roots: Roots, name: string, b: string): Bytes
    requires b in BranchNames(roots, name)
  {
    roots[BranchRef(name, b)]
  }

  lemma BranchKnown(roots: Roots, name: string, b: string)
    ensures b in BranchNames(roots, name) <==> BranchRef(name, b) in roots
  {
    if BranchRef(name, b) in roots { assert BranchRef(name, b).branch == b; }
  }

  lemma WorldMoved(vs: Versions, roots: Roots, name: string, h: Bytes, snap: Bytes)
    ensures WorldOf(vs, Moved(roots, name, h, snap, None), name) == WorldOf(vs, roots, name).(head := Some(h))
  {
    var after := Moved(roots, name, h, snap, None);
    forall b ensures b in BranchNames(after, name) <==> b in BranchNames(roots, name) {
      BranchKnown(roots, name, b);
      BranchKnown(after, name, b);
    }
    assert WorldOf(vs, after, name).branches == WorldOf(vs, roots, name).branches;
  }

  lemma WorldBranched(vs: Versions, roots: Roots, name: string, branch: string, h: Bytes)
    ensures var w := WorldOf(vs, roots, name);
            WorldOf(vs, roots[BranchRef(name, branch) := h], name) == w.(branches := w.branches[branch := h])
  {
    var after := roots[BranchRef(name, branch) := h];
    forall b ensures b in BranchNames(after, name) <==> b == branch || b in BranchNames(roots, name) {
      BranchKnown(roots, name, b);
      BranchKnown(after, name, b);
    }
    assert WorldOf(vs, after, name).branches == WorldOf(vs, roots, name).branches[branch := h];
  }

  lemma WorldAdvanced(vs: Versions, roots: Roots, ws: Versions, after: Roots, name: string,
                      h: Bytes, v: Version, branch: Option<string>)
    requires Advanced(vs, roots, ws, after, name, h, v, branch)
    ensures WorldOf(ws, after, name) == V.Publish(WorldOf(vs, roots, name), h, PointOf(v), branch)
    ensures V.Adds(WorldOf(vs, roots, name), h, PointOf(v))
  {
    assert WorldOf(ws, roots, name).commits == WorldOf(vs, roots, name).commits[h := PointOf(v)];
    WorldMoved(ws, roots, name, h, Nearest(ws, h));
    if branch.Some? {
      WorldBranched(ws, Moved(roots, name, h, Nearest(ws, h), None), name, branch.value, h);
    }
  }

  lemma {:induction false} AncestorIsBack(vs: Versions, roots: Roots, name: string, h: Bytes, n: nat)
    requires WellFormed(vs) && h in vs
    ensures V.Back(WorldOf(vs, roots, name).commits, h, n) == Ancestor(vs, h, n)
    decreases n
  {
    assert Linked(vs, h);
    if n > 0 && vs[h].parent.Some? { AncestorIsBack(vs, roots, name, vs[h].parent.value, n - 1); }
  }

  lemma {:induction false} LogIsLog(vs: Versions, roots: Roots, name: string, h: Option<Bytes>, n: nat)
    requires WellFormed(vs) && (h.Some? ==> h.value in vs)
    ensures V.Log(WorldOf(vs, roots, name).commits, h, n) == LogOf(vs, h, n)
    decreases n
  {
    if n > 0 && h.Some? {
      assert Linked(vs, h.value);
      LogIsLog(vs, roots, name, vs[h.value].parent, n - 1);
    }
  }

  // ---------- the journal bound ----------

  /** No commit rests on more than `K` deltas, and the lens has counted HEAD's right. */
  ghost predicate Counted(vs: Versions, head: Option<Bytes>, count: nat, threshold: nat) {
    && WellFormed(vs) && (head.Some? ==> head.value in vs)
    && (forall h {:trigger Journal(vs, h)} :: h in vs ==> Journal(vs, h) <= threshold)
    && count == HeadJournal(vs, head)
  }

  /** A commit on a counted HEAD keeps the bound: a snapshot starts a new journal, a delta
      is written only while there is room. */
  lemma CountedAdvanced(vs: Versions, head: Option<Bytes>, count: nat, threshold: nat, ws: Versions, h: Bytes,
                        v: Version)
    requires Counted(vs, head, count, threshold)
    requires ws == vs[h := v] && Grown(vs, ws) && WellFormed(ws)
    requires v.snapshot || (v.parent == head && count < threshold)
    ensures Counted(ws, Some(h), if v.snapshot then 0 else count + 1, threshold)
  {
    assert Linked(ws, h);
    if !v.snapshot { NearestGrown(vs, ws, head.value); }
    forall g | g in ws && g != h ensures Journal(ws, g) <= threshold {
      NearestGrown(vs, ws, g);
    }
  }

  lemma CountedReset(vs: Versions, head: Option<Bytes>, count: nat, threshold: nat, roots: Roots, name: string,
                     h: Bytes)
    requires Counted(vs, head, count, threshold) && h in vs && Head(roots, name) == Some(h)
    ensures Counted(vs, Some(h), CappedJournal(vs, roots, name, threshold), threshold)
  {
    assert Journal(vs, h) <= threshold;
  }

  /** Exactly when a commit through a lens whose count is `count` keeps the bound. */
  lemma BoundKeptExactly(vs: Versions, roots: Roots, name: string, count: nat, threshold: nat,
                         ws: Versions, after: Roots, h: Bytes, plus: State, minus: set<Bytes>, note: Note,
                         branch: Option<string>)
    requires WellFormed(vs) && (Head(roots, name).Some? ==> Head(roots, name).value in vs)
    requires Advanced(vs, roots, ws, after, name, h,
                      StagedVersion(vs, Head(roots, name), plus, minus, count, threshold, note), branch)
    ensures Journal(ws, h) <= threshold <==> count >= threshold || HeadJournal(vs, Head(roots, name)) < threshold
  {
    assert Linked(ws, h);
    if Head(roots, name).Some? { NearestGrown(vs, ws, Head(roots, name).value); }
  }

  // ---------- one operation ----------

  ghost function WorldAt(lens: Lens): V.World
    reads lens.kernel, lens.ledger
  {
    WorldOf(lens.ledger.versions, lens.kernel.roots, lens.name)
  }

  ghost function ClientAt(lens: Lens): V.Client
    reads lens
  {
    V.Client(lens.stagedAdd, lens.stagedDel, lens.commitIndex, lens.activeBranch)
  }

  ghost predicate CountedAt(lens: Lens)
    reads lens, lens.kernel, lens.ledger
  {
    Counted(lens.ledger.versions, Head(lens.kernel.roots, lens.name), lens.deltaCount, lens.threshold)
  }

  // ---------- the steps, on values ----------

  lemma CommitSteps(vs: Versions, roots: Roots, ws: Versions, after: Roots, name: string, h: Bytes, c: V.Client,
                    count: nat, threshold: nat, message: Bytes, timestamp: Bytes)
    requires WellFormed(vs) && (Head(roots, name).Some? ==> Head(roots, name).value in vs) && V.HasStaged(c)
    requires Advanced(vs, roots, ws, after, name, h,
                      StagedVersion(vs, Head(roots, name), c.plus, c.minus, count, threshold,
                                    Note(message, timestamp, c.index)),
                      c.branch)
    ensures V.Step(WorldOf(vs, roots, name), c, V.Commit(message, timestamp), V.Moved(h),
                   WorldOf(ws, after, name), V.Client(map[], {}, c.index + 1, c.branch))
    ensures Counted(vs, Head(roots, name), count, threshold) ==>
              Counted(ws, Head(after, name),
                      if WritesSnapshot(Head(roots, name), count, threshold) then 0 else count + 1, threshold)
  {
    var v := StagedVersion(vs, Head(roots, name), c.plus, c.minus, count, threshold,
                           Note(message, timestamp, c.index));
    WorldAdvanced(vs, roots, ws, after, name, h, v, c.branch);
    if Counted(vs, Head(roots, name), count, threshold) {
      CountedAdvanced(vs, Head(roots, name), count, threshold, ws, h, v);
    }
  }

  lemma CommitFails(vs: Versions, roots: Roots, name: string, c: V.Client, snapshot: bool, message: Bytes,
                    timestamp: Bytes)
    requires Head(roots, name).Some? ==> Head(roots, name).value in vs
    requires !V.HasStaged(c) || !Packs(snapshot, StateAt(vs, Head(roots, name)), c.plus, c.minus, message, c.index)
    ensures var w := WorldOf(vs, roots, name); V.Step(w, c, V.Commit(message, timestamp), V.Failed, w, c)
  {
  }

  function Answered(r: Option<Bytes>): V.Answer {
    if r.Some? then V.Moved(r.value) else V.Failed
  }

  /** Whether a commit succeeds or not, it is a step. */
  lemma CommitOutcome(vs: Versions, roots: Roots, ws: Versions, after: Roots, name: string, r: Option<Bytes>,
                      w: V.World, c: V.Client, w': V.World, c': V.Client, count: nat, threshold: nat,
                      snapshot: bool, v: Version, message: Bytes, timestamp: Bytes)
    requires w == WorldOf(vs, roots, name) && w' == WorldOf(ws, after, name)
    requires WellFormed(vs) && (Head(roots, name).Some? ==> Head(roots, name).value in vs)
    requires snapshot == WritesSnapshot(Head(roots, name), count, threshold)
    requires v == StagedVersion(vs, Head(roots, name), c.plus, c.minus, count, threshold,
                                Note(message, timestamp, c.index))
    requires r.None? ==>
               && (!V.HasStaged(c)
                   || !Packs(snapshot, StateAt(vs, Head(roots, name)), c.plus, c.minus, message, c.index))
               && ws == vs && after == roots && c' == c
    requires r.Some? ==>
               && V.HasStaged(c) && c' == V.Client(map[], {}, c.index + 1, c.branch)
               && Advanced(vs, roots, ws, after, name, r.value, v, c.branch)
    ensures V.Step(w, c, V.Commit(message, timestamp), Answered(r), w', c')
    ensures r.Some? && Counted(vs, Head(roots, name), count, threshold) ==>
              Counted(ws, Head(after, name), if snapshot then 0 else count + 1, threshold)
  {
    if r.Some? {
      CommitSteps(vs, roots, ws, after, name, r.value, c, count, threshold, message, timestamp);
    } else {
      CommitFails(vs, roots, name, c, snapshot, message, timestamp);
    }
  }

  ghost predicate RefsSound(vs: Versions, roots: Roots, name: string) {
    WellFormed(vs) && RefsOk(vs, roots, name)
  }

  lemma RewindSteps(vs: Versions, roots: Roots, after: Roots, name: string, h: Bytes, c: V.Client,
                    branch: Option<string>, count: nat, threshold: nat)
    requires RefsSound(vs, roots, name) && Reset(vs, roots, after, name, h)
    ensures V.Rewound(WorldOf(vs, roots, name), c, h, branch, WorldOf(vs, after, name),
                      V.Client(map[], {}, vs[h].note.index + 1, branch))
    ensures Counted(vs, Head(roots, name), count, threshold) ==>
              Counted(vs, Head(after, name), CappedJournal(vs, after, name, threshold), threshold)
  {
    WorldMoved(vs, roots, name, h, Nearest(vs, h));
    if Counted(vs, Head(roots, name), count, threshold) {
      CountedReset(vs, Head(roots, name), count, threshold, after, name, h);
    }
  }

  lemma CheckoutSteps(vs: Versions, roots: Roots, after: Roots, name: string, b: string, c: V.Client,
                      count: nat, threshold: nat)
    requires RefsSound(vs, roots, name) && BranchRef(name, b) in roots
    requires Reset(vs, roots, after, name, roots[BranchRef(name, b)])
    ensures V.Step(WorldOf(vs, roots, name), c, V.Checkout(b), V.Done, WorldOf(vs, after, name),
                   V.Client(map[], {}, vs[roots[BranchRef(name, b)]].note.index + 1, Some(b)))
    ensures Counted(vs, Head(roots, name), count, threshold) ==>
              Counted(vs, Head(after, name), CappedJournal(vs, after, name, threshold), threshold)
  {
    BranchKnown(roots, name, b);
    RewindSteps(vs, roots, after, name, roots[BranchRef(name, b)], c, Some(b), count, threshold);
  }

  lemma UndoSteps(vs: Versions, roots: Roots, after: Roots, name: string, steps: int, c: V.Client,
                  count: nat, threshold: nat)
    requires RefsSound(vs, roots, name) && HeadRef(name) in roots
    requires Reset(vs, roots, after, name, Ancestor(vs, roots[HeadRef(name)], if steps > 0 then steps else 0))
    ensures var h := Ancestor(vs, roots[HeadRef(name)], if steps > 0 then steps else 0);
            V.Step(WorldOf(vs, roots, name), c, V.Undo(steps), V.Moved(h), WorldOf(vs, after, name),
                   V.Client(map[], {}, vs[h].note.index + 1, None))
    ensures Counted(vs, Head(roots, name), count, threshold) ==>
              Counted(vs, Head(after, name), CappedJournal(vs, after, name, threshold), threshold)
  {
    var n := if steps > 0 then steps else 0;
    AncestorIsBack(vs, roots, name, roots[HeadRef(name)], n);
    RewindSteps(vs, roots, after, name, Ancestor(vs, roots[HeadRef(name)], n), c, None, count, threshold);
  }

  lemma MergeSteps(vs: Versions, roots: Roots, ws: Versions, after: Roots, name: string, b: string, h: Bytes,
                   c: V.Client, count: nat, threshold: nat, message: Bytes, timestamp: Bytes)
    requires RefsSound(vs, roots, name) && BranchRef(name, b) in roots && roots[BranchRef(name, b)] != NIL
    requires SnapshotFits(StateAt(vs, Head(roots, name)) + vs[roots[BranchRef(name, b)]].state, message, c.index)
    requires Advanced(vs, roots, ws, after, name, h,
                      SnapshotVersion(vs, Head(roots, name), Some(roots[BranchRef(name, b)]),
                                      StateAt(vs, Head(roots, name)) + vs[roots[BranchRef(name, b)]].state,
                             Note(message, timestamp, c.index)),
                      None)
    ensures V.Step(WorldOf(vs, roots, name), c, V.Merge(b, message, timestamp), V.Moved(h),
                   WorldOf(ws, after, name), c.(index := c.index + 1))
    ensures Counted(vs, Head(roots, name), count, threshold) ==> Counted(ws, Head(after, name), 0, threshold)
  {
    BranchKnown(roots, name, b);
    var v := SnapshotVersion(vs, Head(roots, name), Some(roots[BranchRef(name, b)]),
                             StateAt(vs, Head(roots, name)) + vs[roots[BranchRef(name, b)]].state,
                             Note(message, timestamp, c.index));
    WorldAdvanced(vs, roots, ws, after, name, h, v, None);
    if Counted(vs, Head(roots, name), count, threshold) {
      CountedAdvanced(vs, Head(roots, name), count, threshold, ws, h, v);
    }
  }

  lemma MergeFails(vs: Versions, roots: Roots, name: string, b: string, c: V.Client, message: Bytes, timestamp: Bytes)
    requires RefsSound(vs, roots, name)
    requires BranchRef(name, b) in roots ==>
               !SnapshotFits(StateAt(vs, Head(roots, name)) + vs[roots[BranchRef(name, b)]].state, message, c.index)
    ensures var w := WorldOf(vs, roots, name); V.Step(w, c, V.Merge(b, message, timestamp), V.Failed, w, c)
  {
    BranchKnown(roots, name, b);
  }

  /** The commit that a target names. */
  function Named(roots: Roots, name: string, t: V.Target): Option<Bytes> {
    match t
    case Nothing => None
    case CurrentHead => Head(roots, name)
    case TipOf(b) => if BranchRef(name, b) in roots then Some(roots[BranchRef(name, b)]) else None
    case Known(h) => Some(h)
    case AnswerOf(_) => None
  }

  /** A commit named by its address is one that was committed. */
  predicate Refers(t: V.Target, known: set<Bytes>) {
    t.Known? ==> t.commit in known
  }

  lemma NamedCommit(vs: Versions, roots: Roots, name: string, t: V.Target)
    requires RefsSound(vs, roots, name) && Refers(t, vs.Keys)
    ensures V.CommitOf(WorldOf(vs, roots, name), t) == Named(roots, name, t)
    ensures Named(roots, name, t).Some? ==> Named(roots, name, t).value in vs
    ensures V.StateOf(WorldOf(vs, roots, name), Named(roots, name, t)) == StateAt(vs, Named(roots, name, t))
  {
    if t.TipOf? { BranchKnown(roots, name, t.branch); }
  }

  lemma MergeOntoSteps(vs: Versions, roots: Roots, ws: Versions, after: Roots, name: string,
                       parent: V.Target, second: V.Target, p: Option<Bytes>, q: Option<Bytes>, h: Bytes,
                       c: V.Client, count: nat, threshold: nat, message: Bytes, timestamp: Bytes)
    requires RefsSound(vs, roots, name) && V.HasStaged(c) && Refers(parent, vs.Keys) && Refers(second, vs.Keys)
    requires p == Named(roots, name, parent) && q == Named(roots, name, second)
    requires (p.Some? ==> p.value in vs) && q.Some? && q.value != NIL
    requires SnapshotFits(Apply(StateAt(vs, p), c.plus, c.minus), message, c.index)
    requires Advanced(vs, roots, ws, after, name, h,
                      SnapshotVersion(vs, p, q, Apply(StateAt(vs, p), c.plus, c.minus),
                                      Note(message, timestamp, c.index)),
                      c.branch)
    ensures V.Step(WorldOf(vs, roots, name), c, V.MergeOnto(parent, second, message, timestamp), V.Moved(h),
                   WorldOf(ws, after, name), V.Client(map[], {}, c.index + 1, c.branch))
    ensures Counted(vs, Head(roots, name), count, threshold) ==> Counted(ws, Head(after, name), 0, threshold)
  {
    NamedCommit(vs, roots, name, parent);
    NamedCommit(vs, roots, name, second);
    var v := SnapshotVersion(vs, p, q, Apply(StateAt(vs, p), c.plus, c.minus), Note(message, timestamp, c.index));
    WorldAdvanced(vs, roots, ws, after, name, h, v, c.branch);
    if Counted(vs, Head(roots, name), count, threshold) {
      CountedAdvanced(vs, Head(roots, name), count, threshold, ws, h, v);
    }
  }

  lemma MergeOntoFails(vs: Versions, roots: Roots, name: string, parent: V.Target, second: V.Target,
                       p: Option<Bytes>, q: Option<Bytes>, c: V.Client, message: Bytes, timestamp: Bytes)
    requires RefsSound(vs, roots, name) && Refers(parent, vs.Keys) && Refers(second, vs.Keys)
    requires p == Named(roots, name, parent) && q == Named(roots, name, second)
    requires p.Some? ==> p.value in vs
    requires !V.HasStaged(c) || q.None? || !SnapshotFits(Apply(StateAt(vs, p), c.plus, c.minus), message, c.index)
    ensures var w := WorldOf(vs, roots, name);
            V.Step(w, c, V.MergeOnto(parent, second, message, timestamp), V.Failed, w, c)
  {
    NamedCommit(vs, roots, name, parent);
    NamedCommit(vs, roots, name, second);
  }

  // ---------- the steps, on the store ----------

  method DoCommit(lens: Lens, message: Bytes, timestamp: Bytes) returns (answer: V.Answer)
    requires lens.Valid() && |timestamp| == 8
    modifies lens, lens.kernel, lens.ledger
    ensures lens.kernel.Valid() && lens.Local()
    ensures lens.kernel.collisionFree ==>
              && lens.Valid() && (old(CountedAt(lens)) ==> CountedAt(lens))
              && V.Step(old(WorldAt(lens)), old(ClientAt(lens)), V.Commit(message, timestamp), answer,
                        WorldAt(lens), ClientAt(lens))
  {
    ghost var vs, roots, c, count := lens.ledger.versions, lens.kernel.roots, ClientAt(lens), lens.deltaCount;
    ghost var w, snapshot := WorldAt(lens), WritesSnapshot(Head(roots, lens.name), count, lens.threshold);
    ghost var v := StagedVersion(vs, Head(roots, lens.name), c.plus, c.minus, count, lens.threshold,
                                     Note(message, timestamp, c.index));
    var r := lens.Commit(message, timestamp);
    answer := Answered(r);
    if lens.kernel.collisionFree {
      CommitOutcome(vs, roots, lens.ledger.versions, lens.kernel.roots, lens.name, r,
                    w, c, WorldAt(lens), ClientAt(lens), count, lens.threshold, snapshot, v, message, timestamp);
    }
  }

  method DoCheckout(lens: Lens, branch: string) returns (answer: V.Answer)
    requires lens.Valid()
    modifies lens, lens.kernel, lens.ledger
    ensures lens.Valid() && (old(CountedAt(lens)) ==> CountedAt(lens))
    ensures V.Step(old(WorldAt(lens)), old(ClientAt(lens)), V.Checkout(branch), answer, WorldAt(lens), ClientAt(lens))
  {
    ghost var vs, roots, c, count := lens.ledger.versions, lens.kernel.roots, ClientAt(lens), lens.deltaCount;
    BranchKnown(roots, lens.name, branch);
    var ok := lens.Checkout(branch);
    if !ok { return V.Failed; }
    CheckoutSteps(vs, roots, lens.kernel.roots, lens.name, branch, c, count, lens.threshold);
    return V.Done;
  }

  method DoUndo(lens: Lens, steps: int) returns (answer: V.Answer)
    requires lens.Valid()
    modifies lens, lens.kernel, lens.ledger
    ensures lens.Valid() && (old(CountedAt(lens)) ==> CountedAt(lens))
    ensures V.Step(old(WorldAt(lens)), old(ClientAt(lens)), V.Undo(steps), answer, WorldAt(lens), ClientAt(lens))
  {
    ghost var vs, roots, c, count := lens.ledger.versions, lens.kernel.roots, ClientAt(lens), lens.deltaCount;
    var r := lens.Undo(steps);
    if r.None? { return V.Failed; }
    UndoSteps(vs, roots, lens.kernel.roots, lens.name, steps, c, count, lens.threshold);
    return V.Moved(r.value);
  }

  method DoBranch(lens: Lens, branch: string) returns (answer: V.Answer)
    requires lens.Valid()
    modifies lens, lens.kernel, lens.ledger
    ensures lens.Valid() && (old(CountedAt(lens)) ==> CountedAt(lens))
    ensures V.Step(old(WorldAt(lens)), old(ClientAt(lens)), V.Branch(branch), answer, WorldAt(lens), ClientAt(lens))
  {
    ghost var vs, roots := lens.ledger.versions, lens.kernel.roots;
    var ok := lens.Branch(branch);
    if !ok { return V.Failed; }
    WorldBranched(vs, roots, lens.name, branch, roots[HeadRef(lens.name)]);
    return V.Done;
  }

  method DoMerge(lens: Lens, branch: string, message: Bytes, timestamp: Bytes) returns (answer: V.Answer)
    requires lens.Valid() && |timestamp| == 8
    modifies lens, lens.kernel, lens.ledger
    ensures lens.kernel.Valid() && lens.Local()
    ensures lens.kernel.collisionFree ==>
              && lens.Valid() && (old(CountedAt(lens)) ==> CountedAt(lens))
              && V.Step(old(WorldAt(lens)), old(ClientAt(lens)), V.Merge(branch, message, timestamp), answer,
                        WorldAt(lens), ClientAt(lens))
  {
    ghost var vs, roots, c, count := lens.ledger.versions, lens.kernel.roots, ClientAt(lens), lens.deltaCount;
    if BranchRef(lens.name, branch) in lens.kernel.roots {
      StoredAddress(lens.kernel, vs, roots[BranchRef(lens.name, branch)]);
    }
    var r := lens.Merge(branch, message, timestamp);
    if !lens.kernel.collisionFree { return V.Failed; }
    if r.None? {
      MergeFails(vs, roots, lens.name, branch, c, message, timestamp);
      return V.Failed;
    }
    MergeSteps(vs, roots, lens.ledger.versions, lens.kernel.roots, lens.name, branch, r.value, c,
               count, lens.threshold, message, timestamp);
    return V.Moved(r.value);
  }

  /** Resolves a target through the kernel. */
  method Find(lens: Lens, t: V.Target) returns (r: Option<Bytes>)
    requires lens.Valid() && Refers(t, lens.ledger.versions.Keys)
    ensures r == Named(lens.kernel.roots, lens.name, t)
    ensures r.Some? ==> r.value in lens.ledger.versions
    ensures IsHash(r) && (r.Some? ==> r.value != NIL)
  {
    NamedCommit(lens.ledger.versions, lens.kernel.roots, lens.name, t);
    match t {
      case Nothing => r := None;
      case CurrentHead => r := lens.kernel.Resolve(HeadRef(lens.name));
      case TipOf(b) => r := lens.kernel.Resolve(BranchRef(lens.name, b));
      case Known(h) => r := Some(h);
      case AnswerOf(_) => r := None;
    }
    if r.Some? { StoredAddress(lens.kernel, lens.ledger.versions, r.value); }
  }

  method DoMergeOnto(lens: Lens, parent: V.Target, second: V.Target, message: Bytes, timestamp: Bytes)
    returns (answer: V.Answer)
    requires lens.Valid() && |timestamp| == 8
    requires Refers(parent, lens.ledger.versions.Keys) && Refers(second, lens.ledger.versions.Keys)
    modifies lens, lens.kernel, lens.ledger
    ensures lens.kernel.Valid() && lens.Local()
    ensures lens.kernel.collisionFree ==>
              && lens.Valid() && (old(CountedAt(lens)) ==> CountedAt(lens))
              && V.Step(old(WorldAt(lens)), old(ClientAt(lens)), V.MergeOnto(parent, second, message, timestamp),
                        answer, WorldAt(lens), ClientAt(lens))
  {
    var p := Find(lens, parent);
    var q := Find(lens, second);
    answer := MergeFound(lens, parent, second, p, q, message, timestamp);
  }

  /** As above, with the targets found. */
  method MergeFound(lens: Lens, ghost parent: V.Target, ghost second: V.Target, p: Option<Bytes>, q: Option<Bytes>,
                    message: Bytes, timestamp: Bytes)
    returns (answer: V.Answer)
    requires lens.Valid() && |timestamp| == 8
    requires Refers(parent, lens.ledger.versions.Keys) && Refers(second, lens.ledger.versions.Keys)
    requires p == Named(lens.kernel.roots, lens.name, parent) && q == Named(lens.kernel.roots, lens.name, second)
    requires (p.Some? ==> p.value in lens.ledger.versions) && IsHash(q) && (q.Some? ==> q.value != NIL)
    modifies lens, lens.kernel, lens.ledger
    ensures lens.kernel.Valid() && lens.Local()
    ensures lens.kernel.collisionFree ==>
              && lens.Valid() && (old(CountedAt(lens)) ==> CountedAt(lens))
              && V.Step(old(WorldAt(lens)), old(ClientAt(lens)), V.MergeOnto(parent, second, message, timestamp),
                        answer, WorldAt(lens), ClientAt(lens))
  {
    ghost var vs, roots, c, count := lens.ledger.versions, lens.kernel.roots, ClientAt(lens), lens.deltaCount;
    var r := lens.CreateMergeCommit(p, q, message, timestamp);
    if !lens.kernel.collisionFree { return V.Failed; }
    if r.None? {
      MergeOntoFails(vs, roots, lens.name, parent, second, p, q, c, message, timestamp);
      return V.Failed;
    }
    MergeOntoSteps(vs, roots, lens.ledger.versions, lens.kernel.roots, lens.name, parent, second, p, q, r.value, c,
                   count, lens.threshold, message, timestamp);
    return V.Moved(r.value);
  }

  /** Hashes and timestamps have the widths the caller promises. */
  predicate Typed(op: V.Op) {
    match op
    case Stage(_, hash) => |hash| == HASH_LEN
    case Commit(_, timestamp) => |timestamp| == 8
    case Merge(_, _, timestamp) => |timestamp| == 8
    case MergeOnto(_, _, _, timestamp) => |timestamp| == 8
    case _ => true
  }

  /** The commits that an operation names by address were committed. */
  predicate OpRefers(op: V.Op, known: set<Bytes>) {
    && (op.ReadAt? ==> Refers(op.target, known))
    && (op.MergeOnto? ==> Refers(op.parent, known) && Refers(op.second, known))
  }

  method DoRead(lens: Lens, op: V.Op) returns (answer: V.Answer)
    requires lens.Valid() && (op.Lookup? || op.ReadAll? || op.ReadAt? || op.History?)
    requires OpRefers(op, lens.ledger.versions.Keys)
    ensures V.Step(WorldAt(lens), ClientAt(lens), op, answer, WorldAt(lens), ClientAt(lens))
  {
    match op {
      case Lookup(key) =>
        NamedCommit(lens.ledger.versions, lens.kernel.roots, lens.name, V.CurrentHead);
        var r := lens.Lookup(key);
        answer := V.Found(r);
      case ReadAll =>
        NamedCommit(lens.ledger.versions, lens.kernel.roots, lens.name, V.CurrentHead);
        var state := lens.ReadAll();
        answer := V.Contents(state);
      case ReadAt(t) =>
        NamedCommit(lens.ledger.versions, lens.kernel.roots, lens.name, t);
        var h := Find(lens, t);
        var state := FullState(lens.kernel, lens.ledger, h);
        answer := V.Contents(state);
      case History(limit) =>
        LogIsLog(lens.ledger.versions, lens.kernel.roots, lens.name, Head(lens.kernel.roots, lens.name),
                 if limit > 0 then limit else 0);
        var log := lens.History(limit);
        answer := V.Lines(log);
    }
  }

  method DoStage(lens: Lens, op: V.Op) returns (answer: V.Answer)
    requires lens.Local() && Typed(op) && (op.Stage? || op.StageDelete?)
    modifies lens
    ensures lens.Local() && lens.deltaCount == old(lens.deltaCount)
    ensures var w := WorldAt(lens); V.Step(w, old(ClientAt(lens)), op, answer, w, ClientAt(lens))
  {
    match op {
      case Stage(key, hash) => lens.Stage(key, hash);
      case StageDelete(key) => lens.StageDelete(key);
    }
    return V.Done;
  }

  /** One operation, whichever it is. */
  method Perform(lens: Lens, op: V.Op) returns (answer: V.Answer)
    requires lens.Valid() && Typed(op) && OpRefers(op, lens.ledger.versions.Keys)
    modifies lens, lens.kernel, lens.ledger
    ensures lens.kernel.Valid() && lens.Local()
    ensures lens.kernel.collisionFree ==>
              && lens.Valid() && (old(CountedAt(lens)) ==> CountedAt(lens))
              && V.Step(old(WorldAt(lens)), old(ClientAt(lens)), op, answer, WorldAt(lens), ClientAt(lens))
  {
    match op {
      case Commit(message, timestamp) => answer := DoCommit(lens, message, timestamp);
      case Branch(b) => answer := DoBranch(lens, b);
      case Checkout(b) => answer := DoCheckout(lens, b);
      case Undo(n) => answer := DoUndo(lens, n);
      case Merge(b, message, timestamp) => answer := DoMerge(lens, b, message, timestamp);
      case MergeOnto(p, q, message, timestamp) => answer := DoMergeOnto(lens, p, q, message, timestamp);
      case Stage(_, _) => answer := DoStage(lens, op);
      case StageDelete(_) => answer := DoStage(lens, op);
      case _ => answer := DoRead(lens, op);
    }
  }

  /** Journal first and then the tree, the tree and then the journal, and the walks that
      ignore the snapshot pointer all tell the same. */
  method ReadsAgree(lens: Lens, key: Bytes)
    returns (byPointer: Option<Bytes>, byWalk: Option<Bytes>, all: State, byState: State)
    requires lens.Valid()
    ensures byPointer == byWalk == Get(all, key)
    ensures all == byState
  {
    byPointer := lens.Lookup(key);
    all := lens.ReadAll();
    var head := lens.kernel.Resolve(HeadRef(lens.name));
    byWalk := LookupFromHead(lens.kernel, lens.ledger, head, key);
    byState := FullState(lens.kernel, lens.ledger, head);
  }

  // ---------- runs ----------

  ghost function Clients(lenses: seq<Lens>): (cs: seq<V.Client>)
    reads lenses
    ensures |cs| == |lenses| && forall i :: 0 <= i < |cs| ==> cs[i] == ClientAt(lenses[i])
  {
    if lenses == [] then [] else Clients(lenses[..|lenses| - 1]) + [ClientAt(lenses[|lenses| - 1])]
  }

  /** Distinct lenses on the collection `name` of one store. */
  ghost predicate Together(lenses: seq<Lens>, k: MemoryKernel<Bytes, Bytes, Ref>, ledger: Ledger, name: string)
    reads lenses
  {
    && (forall i, j :: 0 <= i < j < |lenses| ==> lenses[i] != lenses[j])
    && (forall i :: 0 <= i < |lenses| ==>
          lenses[i].kernel == k && lenses[i].ledger == ledger && lenses[i].name == name && lenses[i].Local())
  }

  /** What a script means by a target, when the `i`-th event is to come. */
  function ResolvedTarget(t: V.Target, answers: seq<V.Answer>, i: nat): V.Target
    requires i <= |answers|
  {
    if t.AnswerOf? then
      if t.event < i && answers[t.event].Moved? then V.Known(answers[t.event].commit) else V.Nothing
    else t
  }

  function Resolved(op: V.Op, answers: seq<V.Answer>, i: nat): V.Op
    requires i <= |answers|
  {
    match op
    case ReadAt(t) => V.ReadAt(ResolvedTarget(t, answers, i))
    case MergeOnto(p, q, message, timestamp) =>
      V.MergeOnto(ResolvedTarget(p, answers, i), ResolvedTarget(q, answers, i), message, timestamp)
    case _ => op
  }

  function EventAt(script: seq<(nat, V.Op)>, answers: seq<V.Answer>, i: nat): V.Event
    requires i < |answers| <= |script|
  {
    V.Event(script[i].0, Resolved(script[i].1, answers, i), answers[i])
  }

  function Events(script: seq<(nat, V.Op)>, answers: seq<V.Answer>): (es: seq<V.Event>)
    requires |answers| <= |script|
    ensures |es| == |answers|
    ensures forall i :: 0 <= i < |es| ==> es[i] == EventAt(script, answers, i)
  {
    seq(|answers|, i requires 0 <= i < |answers| => EventAt(script, answers, i))
  }

  ghost function SystemAt(lenses: seq<Lens>, k: MemoryKernel<Bytes, Bytes, Ref>, ledger: Ledger, name: string): V.System
    reads lenses, k, ledger
  {
    V.System(WorldOf(ledger.versions, k.roots, name), Clients(lenses))
  }

  /** One lens acts among others. */
  method Turn(lenses: seq<Lens>, k: MemoryKernel<Bytes, Bytes, Ref>, ledger: Ledger, name: string,
              who: nat, op: V.Op)
    returns (answer: V.Answer)
    requires Together(lenses, k, ledger, name) && Repo(k, ledger, name) && who < |lenses| && Typed(op)
    requires OpRefers(op, ledger.versions.Keys)
    modifies lenses, k, ledger
    ensures k.collisionFree ==>
              && Together(lenses, k, ledger, name) && Repo(k, ledger, name)
              && V.Acts(old(SystemAt(lenses, k, ledger, name)), V.Event(who, op, answer),
                        SystemAt(lenses, k, ledger, name))
              && (|lenses| == 1 && old(CountedAt(lenses[0])) ==> CountedAt(lenses[0]))
  {
    answer := Perform(lenses[who], op);
  }

  lemma EventsGrow(script: seq<(nat, V.Op)>, answers: seq<V.Answer>, answer: V.Answer)
    requires |answers| < |script|
    ensures Events(script, answers + [answer])
            == Events(script, answers)
               + [V.Event(script[|answers|].0, Resolved(script[|answers|].1, answers, |answers|), answer)]
  {}

  lemma TraceGrows(states: seq<V.System>, events: seq<V.Event>, e: V.Event, t: V.System)
    requires V.Trace(states, events) && V.Acts(states[|events|], e, t)
    ensures V.Trace(states + [t], events + [e])
  {}

  /** All commits answered so far are known. */
  predicate AnswersIn(answers: seq<V.Answer>, known: set<Bytes>) {
    forall i :: 0 <= i < |answers| && answers[i].Moved? ==> answers[i].commit in known
  }

  /** The operations of a script are typed, by clients that exist, and name by address only
      commits that are known at its start. */
  predicate Playable(script: seq<(nat, V.Op)>, clients: nat, known: set<Bytes>) {
    forall i :: 0 <= i < |script| ==>
      script[i].0 < clients && Typed(script[i].1) && OpRefers(script[i].1, known)
  }

  /** What a run has kept so far: the trace of the plain versioned map. */
  ghost predicate Followed(script: seq<(nat, V.Op)>, answers: seq<V.Answer>, states: seq<V.System>,
                           known: set<Bytes>)
  {
    && |answers| <= |script| && V.Trace(states, Events(script, answers))
    && known <= states[|answers|].world.commits.Keys
    && AnswersIn(answers, states[|answers|].world.commits.Keys)
  }

  lemma FollowedOn(script: seq<(nat, V.Op)>, answers: seq<V.Answer>, states: seq<V.System>, known: set<Bytes>,
                   answer: V.Answer, t: V.System)
    requires Followed(script, answers, states, known) && |answers| < |script|
    requires V.Acts(states[|answers|],
                    V.Event(script[|answers|].0, Resolved(script[|answers|].1, answers, |answers|), answer), t)
    ensures Followed(script, answers + [answer], states + [t], known)
  {
    var e := V.Event(script[|answers|].0, Resolved(script[|answers|].1, answers, |answers|), answer);
    EventsGrow(script, answers, answer);
    TraceGrows(states, Events(script, answers), e, t);
    V.AnswersKnown(states[|answers|], e, t);
  }

  /** The next operation of a script is typed, by a client that exists, and names known commits. */
  lemma NextTurn(script: seq<(nat, V.Op)>, answers: seq<V.Answer>, states: seq<V.System>, known: set<Bytes>,
                 clients: nat, vs: Versions, roots: Roots, name: string)
    requires Followed(script, answers, states, known) && |answers| < |script| && Playable(script, clients, known)
    requires states[|answers|].world == WorldOf(vs, roots, name)
    ensures var (who, op) := script[|answers|];
            who < clients && Typed(Resolved(op, answers, |answers|))
            && OpRefers(Resolved(op, answers, |answers|), vs.Keys)
  {
    assert states[|answers|].world.commits.Keys == vs.Keys;
  }

  /** Whatever the lenses do, in whatever order, every answer is the one the plain versioned
      map gives.  `states` are the states of that map; they follow the whole script unless a
      collision was met. */
  method Run(lenses: seq<Lens>, k: MemoryKernel<Bytes, Bytes, Ref>, ledger: Ledger, name: string,
             script: seq<(nat, V.Op)>)
    returns (answers: seq<V.Answer>, ghost states: seq<V.System>)
    requires Together(lenses, k, ledger, name) && Repo(k, ledger, name)
    requires Playable(script, |lenses|, ledger.versions.Keys)
    modifies lenses, k, ledger
    ensures |answers| <= |script| && V.Trace(states, Events(script, answers))
    ensures states[0] == old(SystemAt(lenses, k, ledger, name))
    ensures k.collisionFree ==>
              && |answers| == |script| && Together(lenses, k, ledger, name) && Repo(k, ledger, name)
              && states[|script|] == SystemAt(lenses, k, ledger, name)
    ensures k.collisionFree && |lenses| == 1 && old(CountedAt(lenses[0])) ==> CountedAt(lenses[0])
  {
    ghost var known := ledger.versions.Keys;
    answers := [];
    states := [SystemAt(lenses, k, ledger, name)];
    while |answers| < |script|
      invariant Followed(script, answers, states, known)
      invariant states[0] == old(SystemAt(lenses, k, ledger, name))
      invariant Together(lenses, k, ledger, name) && Repo(k, ledger, name)
      invariant states[|answers|] == SystemAt(lenses, k, ledger, name)
      invariant |lenses| == 1 && old(CountedAt(lenses[0])) ==> CountedAt(lenses[0])
    {
      var (who, op) := script[|answers|];
      op := Resolved(op, answers, |answers|);
      NextTurn(script, answers, states, known, |lenses|, ledger.versions, k.roots, name);
      var answer := Turn(lenses, k, ledger, name, who, op);
      if !k.collisionFree { return; }
      ghost var now := SystemAt(lenses, k, ledger, name);
      FollowedOn(script, answers, states, known, answer, now);
      answers, states := answers + [answer], states + [now];
    }
  }

  /** Opens `n` lenses on a new collection of a new store. */
  method Open(hash: Bytes -> Bytes, name: string, threshold: nat, n: nat)
    returns (lenses: seq<Lens>, k: MemoryKernel<Bytes, Bytes, Ref>, ledger: Ledger)
    requires Sha(hash) && threshold >= 1
    ensures fresh(k) && fresh(ledger) && (forall lens :: lens in lenses ==> fresh(lens)) && |lenses| == n
    ensures Together(lenses, k, ledger, name) && Repo(k, ledger, name) && k.hash == hash
    ensures ledger.versions == map[] && k.roots == map[] && k.blobs == map[]
    ensures forall i :: 0 <= i < n ==>
              && lenses[i].threshold == threshold && lenses[i].deltaCount == 0
              && ClientAt(lenses[i]) == V.Client(map[], {}, 0, None)
  {
    k := new MemoryKernel<Bytes, Bytes, Ref>(hash, NIL);
    ledger := new Ledger();
    lenses := [];
    while |lenses| < n
      invariant |lenses| <= n && fresh(k) && fresh(ledger) && (forall lens :: lens in lenses ==> fresh(lens))
      invariant Together(lenses, k, ledger, name) && Repo(k, ledger, name) && k.hash == hash
      invariant ledger.versions == map[] && k.roots == map[] && k.blobs == map[]
      invariant forall i :: 0 <= i < |lenses| ==>
          && lenses[i].threshold == threshold && lenses[i].deltaCount == 0
          && ClientAt(lenses[i]) == V.Client(map[], {}, 0, None)
    {
      var lens := new Lens(k, ledger, name, threshold);
      lenses := lenses + [lens];
    }
  }

  /** A run from nothing: `n` lenses on a new store play a script.  With one lens no commit
      ever rests on more than `threshold` deltas, and the cached count stays true. */
  method RunFromNothing(hash: Bytes -> Bytes, name: string, threshold: nat, n: nat, script: seq<(nat, V.Op)>)
    returns (answers: seq<V.Answer>, lenses: seq<Lens>, k: MemoryKernel<Bytes, Bytes, Ref>, ledger: Ledger,
             ghost states: seq<V.System>)
    requires Sha(hash) && threshold >= 1 && Playable(script, n, {})
    ensures |lenses| == n && |answers| <= |script| && V.Trace(states, Events(script, answers))
    ensures states[0].world == V.World(map[], None, map[])
    ensures forall c :: c in states[0].clients ==> c == V.Client(map[], {}, 0, None)
    ensures k.collisionFree ==>
              && |answers| == |script| && Repo(k, ledger, name) && Together(lenses, k, ledger, name)
              && states[|script|] == SystemAt(lenses, k, ledger, name)
    ensures k.collisionFree && n == 1 ==> lenses[0].threshold == threshold && CountedAt(lenses[0])
  {
    lenses, k, ledger := Open(hash, name, threshold, n);
    assert WorldOf(ledger.versions, k.roots, name) == V.World(map[], None, map[]);
    answers, states := Run(lenses, k, ledger, name, script);
  }
}
