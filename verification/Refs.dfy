/** The references of one collection. */
module Refs {
  import opened Basics
  import opened Kernel
  import opened History

  function Prefix(collection: string): string {
    "collections/" + collection + "/"
  }

  /** The name under which the kernel keeps a reference. */
  function NameOf(r: Ref): string {
    match r
    case HeadRef(c) => Prefix(c) + "HEAD"
    case SnapRef(c) => Prefix(c) + "snapshot"
    case BranchRef(c, b) => Prefix(c) + ("branches/" + b)
  }

  /** The references of one collection never clash. */
  lemma RefsDistinct(r: Ref, q: Ref)
    requires r.collection == q.collection && NameOf(r) == NameOf(q)
    ensures r == q
  {
    var n := |Prefix(r.collection)|;
    var x, y := NameOf(r)[n..], NameOf(q)[n..];
    assert x == y;
    match r
    case HeadRef(_) => assert x == "HEAD" && x[0] == 'H';
    case SnapRef(_) => assert x == "snapshot" && x[0] == 's';
    case BranchRef(_, b) =>
      assert x == "branches/" + b && x[0] == 'b';
      assert x[9..] == b;
      if q.BranchRef? { assert y[9..] == q.branch; }
  }

  type Roots = map<Ref, Bytes>

  /** The snapshot pointer is HEAD's nearest snapshot ancestor; branches point at commits. */
  ghost predicate RefsOk(vs: Versions, roots: Roots, name: string)
    requires WellFormed(vs)
  {
    && (HeadRef(name) in roots <==> SnapRef(name) in roots)
    && (HeadRef(name) in roots ==>
          roots[HeadRef(name)] in vs && roots[SnapRef(name)] == Nearest(vs, roots[HeadRef(name)]))
    && (forall b :: BranchRef(name, b) in roots ==> HeadRef(name) in roots && roots[BranchRef(name, b)] in vs)
  }

  /** As above, for a store whose snapshot pointer may not have been set yet. */
  ghost predicate OlderRefsOk(vs: Versions, roots: Roots, name: string)
    requires WellFormed(vs)
  {
    && (SnapRef(name) in roots ==> HeadRef(name) in roots)
    && (HeadRef(name) in roots ==> roots[HeadRef(name)] in vs)
    && (SnapRef(name) in roots ==> roots[SnapRef(name)] == Nearest(vs, roots[HeadRef(name)]))
    && (forall b :: BranchRef(name, b) in roots ==> HeadRef(name) in roots && roots[BranchRef(name, b)] in vs)
  }

  lemma SnapSet(vs: Versions, roots: Roots, name: string)
    requires WellFormed(vs) && OlderRefsOk(vs, roots, name) && HeadRef(name) in roots
    ensures RefsOk(vs, roots[SnapRef(name) := Nearest(vs, roots[HeadRef(name)])], name)
  {
  }

  /** HEAD moves to `h`, the snapshot pointer to `s`, and the active branch follows. */
  function Moved(roots: Roots, name: string, h: Bytes, s: Bytes, branch: Option<string>): Roots {
    var moved := roots[SnapRef(name) := s][HeadRef(name) := h];
    if branch.Some? then moved[BranchRef(name, branch.value) := h] else moved
  }

  lemma MovedOk(vs: Versions, ws: Versions, roots: Roots, name: string, h: Bytes, branch: Option<string>)
    requires WellFormed(vs) && WellFormed(ws) && Grown(vs, ws) && h in ws
    requires RefsOk(vs, roots, name)
    ensures RefsOk(ws, Moved(roots, name, h, Nearest(ws, h), branch), name)
  {
    var moved := Moved(roots, name, h, Nearest(ws, h), branch);
    forall b | BranchRef(name, b) in moved ensures moved[BranchRef(name, b)] in ws {
      if branch != Some(b) { assert BranchRef(name, b) in roots; }
    }
  }

  lemma BranchOk(vs: Versions, roots: Roots, name: string, branch: string)
    requires WellFormed(vs) && RefsOk(vs, roots, name) && HeadRef(name) in roots
    ensures RefsOk(vs, roots[BranchRef(name, branch) := roots[HeadRef(name)]], name)
  {
    var after := roots[BranchRef(name, branch) := roots[HeadRef(name)]];
    forall b | BranchRef(name, b) in after ensures after[BranchRef(name, b)] in vs {
      if b != branch { assert BranchRef(name, b) in roots; }
    }
  }

  lemma RefsOkGrown(vs: Versions, ws: Versions, roots: Roots, name: string)
    requires WellFormed(vs) && WellFormed(ws) && Grown(vs, ws) && RefsOk(vs, roots, name)
    ensures RefsOk(ws, roots, name)
  {
    if HeadRef(name) in roots { NearestGrown(vs, ws, roots[HeadRef(name)]); }
  }

  function Head(roots: Roots, name: string): Option<Bytes> {
    if HeadRef(name) in roots then Some(roots[HeadRef(name)]) else None
  }

  /** One new commit `h`, standing for `v`, has become HEAD (and the tip of `branch`);
      every earlier version is as before. */
  ghost predicate Advanced(vs: Versions, roots: Roots, ws: Versions, after: Roots, name: string,
                           h: Bytes, v: Version, branch: Option<string>)
  {
    && ws == vs[h := v] && Grown(vs, ws) && WellFormed(ws)
    && after == Moved(roots, name, h, Nearest(ws, h), branch)
  }

  /** HEAD has been put on an existing commit. */
  ghost predicate Reset(vs: Versions, roots: Roots, after: Roots, name: string, h: Bytes)
    requires WellFormed(vs)
  {
    h in vs && after == Moved(roots, name, h, Nearest(vs, h), None)
  }

  lemma SnapshotMoves(ws: Versions, roots: Roots, name: string, h: Bytes)
    requires WellFormed(ws) && h in ws && ws[h].snapshot
    ensures roots[SnapRef(name) := h][HeadRef(name) := h] == Moved(roots, name, h, Nearest(ws, h), None)
  {}

  /** A delta commit leaves the snapshot pointer where it is. */
  lemma DeltaMoves(vs: Versions, ws: Versions, roots: Roots, name: string, h: Bytes)
    requires WellFormed(vs) && WellFormed(ws) && Grown(vs, ws) && RefsOk(vs, roots, name)
    requires h in ws && !ws[h].snapshot && ws[h].parent == Head(roots, name)
    ensures HeadRef(name) in roots
    ensures roots[HeadRef(name) := h] == Moved(roots, name, h, Nearest(ws, h), None)
  {
    assert Linked(ws, h);
    NearestGrown(vs, ws, roots[HeadRef(name)]);
    assert roots[SnapRef(name) := roots[SnapRef(name)]] == roots;
  }
}
