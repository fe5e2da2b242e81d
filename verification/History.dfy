/** The history that the lenses of a store have written: the versioned map that readers
    are meant to see, kept as a ledger beside the store. */
module History {
  import opened Basics
  import opened Kernel

  type State = map<Bytes, Bytes>

  /** What a commit says about itself. */
  datatype Note = Note(message: Bytes, timestamp: Bytes, index: nat)

  /** One commit: its parents, the full state at it, how it is stored, and its note. */
  datatype Version = Version(
    parent: Option<Bytes>, second: Option<Bytes>, state: State,
    snapshot: bool, depth: nat, note: Note)

  type Versions = map<Bytes, Version>

  datatype Kind = SnapshotCommit | DeltaCommit | MergeCommit

  /** One line of the history of a collection. */
  datatype LogEntry = LogEntry(commit: Bytes, note: Note, kind: Kind, second: Option<Bytes>)

  function KindOf(v: Version): (kind: Kind)
    ensures kind == MergeCommit <==> v.second.Some?
    ensures kind == DeltaCommit <==> v.second.None? && !v.snapshot
  {
    if v.second.Some? then MergeCommit else if v.snapshot then SnapshotCommit else DeltaCommit
  }

  function ShortSecond(h: Option<Bytes>): Option<Bytes> {
    if h.Some? then Some(Short(h.value)) else None
  }

  function LineOf(h: Bytes, v: Version): LogEntry {
    LogEntry(Short(h), v.note, KindOf(v), ShortSecond(v.second))
  }

  /** The commits written so far, by address.  Shared by all lenses on a store. */
  class Ledger {
    ghost var versions: Versions

    constructor ()
      ensures versions == map[]
    {
      versions := map[];
    }
  }

  /** A root commit is a snapshot; every other commit is one step deeper than its parent. */
  ghost predicate Linked(vs: Versions, h: Bytes)
    requires h in vs
  {
    match vs[h].parent
    case None => vs[h].snapshot && vs[h].depth == 0
    case Some(p) => p in vs && vs[h].depth == vs[p].depth + 1
  }

  ghost predicate WellFormed(vs: Versions) {
    forall h {:trigger Linked(vs, h)} :: h in vs ==> Linked(vs, h)
  }

  /** Applies a delta: additions first, then deletions. */
  function Apply(s: State, plus: State, minus: set<Bytes>): State {
    (s + plus) - minus
  }

  function Elements(ks: seq<Bytes>): set<Bytes> {
    set k | k in ks
  }

  lemma ElementsAppend(ks: seq<Bytes>, k: Bytes)
    ensures Elements(ks + [k]) == Elements(ks) + {k}
  {
    forall x ensures x in ks + [k] <==> x in ks || x == k {
      assert x in ks + [k] <==> x in ks || x in [k];
    }
  }

  /** The nearest commit on the first-parent line that carries a snapshot. */
  ghost function Nearest(vs: Versions, h: Bytes): (s: Bytes)
    requires WellFormed(vs) && h in vs
    ensures s in vs && vs[s].snapshot
    decreases vs[h].depth
  {
    assert Linked(vs, h);
    if vs[h].snapshot then h else Nearest(vs, vs[h].parent.value)
  }

  /** The number of delta commits above the nearest snapshot. */
  ghost function Journal(vs: Versions, h: Bytes): nat
    requires WellFormed(vs) && h in vs
    decreases vs[h].depth
  {
    assert Linked(vs, h);
    if vs[h].snapshot then 0 else 1 + Journal(vs, vs[h].parent.value)
  }

  /** The `n`-th first-parent ancestor, stopping at the root. */
  ghost function Ancestor(vs: Versions, h: Bytes, n: nat): (a: Bytes)
    requires WellFormed(vs) && h in vs
    ensures a in vs
    decreases n
  {
    assert Linked(vs, h);
    if n == 0 || vs[h].parent.None? then h else Ancestor(vs, vs[h].parent.value, n - 1)
  }

  /** The lines of `h` and its first-parent ancestors, newest first, at most `n` of them. */
  ghost function LogOf(vs: Versions, h: Option<Bytes>, n: nat): seq<LogEntry>
    requires WellFormed(vs) && (h.Some? ==> h.value in vs)
    decreases n
  {
    if n == 0 || h.None? then []
    else
      assert Linked(vs, h.value);
      [LineOf(h.value, vs[h.value])] + LogOf(vs, vs[h.value].parent, n - 1)
  }

  /** The log goes back step by step, and stops early only at the root. */
  lemma {:induction false} LogAt(vs: Versions, h: Bytes, n: nat)
    requires WellFormed(vs) && h in vs
    ensures |LogOf(vs, Some(h), n)| == if n <= vs[h].depth then n else vs[h].depth + 1
    ensures forall i :: 0 <= i < |LogOf(vs, Some(h), n)| ==>
              var a := Ancestor(vs, h, i); LogOf(vs, Some(h), n)[i] == LineOf(a, vs[a])
    decreases n
  {
    assert Linked(vs, h);
    if n > 0 && vs[h].parent.Some? {
      var p, log := vs[h].parent.value, LogOf(vs, Some(h), n);
      LogAt(vs, p, n - 1);
      forall i | 0 <= i < |log| ensures var a := Ancestor(vs, h, i); log[i] == LineOf(a, vs[a]) {
        if i > 0 { assert log[i] == LogOf(vs, Some(p), n - 1)[i - 1]; }
      }
    }
  }

  lemma {:induction false} NearestGrown(vs: Versions, ws: Versions, h: Bytes)
    requires WellFormed(vs) && WellFormed(ws) && Grown(vs, ws) && h in vs
    ensures Nearest(ws, h) == Nearest(vs, h) && Journal(ws, h) == Journal(vs, h)
    decreases vs[h].depth
  {
    assert Linked(vs, h);
    if !vs[h].snapshot { NearestGrown(vs, ws, vs[h].parent.value); }
  }

  /** One more step back is one step back from where the first steps led. */
  lemma {:induction false} AncestorStep(vs: Versions, h: Bytes, n: nat)
    requires WellFormed(vs) && h in vs
    ensures var a := Ancestor(vs, h, n);
            Ancestor(vs, h, n + 1) == match vs[a].parent case None => a case Some(p) => p
    decreases n
  {
    assert Linked(vs, h);
    if n > 0 && vs[h].parent.Some? { AncestorStep(vs, vs[h].parent.value, n - 1); }
  }

  lemma {:induction false} AncestorPastRoot(vs: Versions, h: Bytes, n: nat, m: nat)
    requires WellFormed(vs) && h in vs && n <= m && vs[Ancestor(vs, h, n)].parent.None?
    ensures Ancestor(vs, h, m) == Ancestor(vs, h, n)
    decreases m - n
  {
    if n < m {
      AncestorStep(vs, h, n);
      AncestorPastRoot(vs, h, n + 1, m);
    }
  }
}
