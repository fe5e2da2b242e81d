/** Zone maps and pruning predicates: which row groups a scan may skip. */
module Pruning {
  import opened Basics

  type Column = string

  /** Each column has one totally ordered type, here the integers. */
  datatype Cell = Null | Val(x: int)

  type Row = map<Column, Cell>

  /** The value of a column in a row, if there is one. */
  function CellOf(row: Row, col: Column): Option<int> {
    if col in row && row[col].Val? then Some(row[col].x) else None
  }

  /** `Other` is any operator that pruning does not know. */
  datatype Op =
    | Eq(v: int) | Ne(v: int) | Lt(v: int) | Le(v: int) | Gt(v: int) | Ge(v: int)
    | In(vs: seq<int>) | NotIn(vs: seq<int>) | Other(test: int -> bool)

  predicate Satisfies(x: int, op: Op) {
    match op
    case Eq(v) => x == v
    case Ne(v) => x != v
    case Lt(v) => x < v
    case Le(v) => x <= v
    case Gt(v) => x > v
    case Ge(v) => x >= v
    case In(vs) => x in vs
    case NotIn(vs) => x !in vs
    case Other(test) => test(x)
  }

  datatype ColumnPredicate = ColumnPredicate(column: Column, op: Op)

  datatype Combine = And | Or

  datatype Predicate = Predicate(preds: seq<ColumnPredicate>, combine: Combine)

  /** Null and missing values match no predicate. */
  predicate Matches(row: Row, p: ColumnPredicate) {
    CellOf(row, p.column).Some? && Satisfies(CellOf(row, p.column).value, p.op)
  }

  /** The exact row filter. */
  predicate Accepts(p: Predicate, row: Row) {
    match p.combine
    case And => forall i :: 0 <= i < |p.preds| ==> Matches(row, p.preds[i])
    case Or => exists i :: 0 <= i < |p.preds| && Matches(row, p.preds[i])
  }

  // ---------- statistics ----------

  datatype ChunkStats = ChunkStats(min: Option<int>, max: Option<int>, nullCount: nat, rowCount: nat, index: nat)

  type ColumnChunks = map<Column, seq<ChunkStats>>

  datatype ZoneMap = ZoneMap(min: map<Column, int>, max: map<Column, int>, nullCount: map<Column, nat>, rowCount: nat,
                             chunks: Option<ColumnChunks>)

  function Smaller(a: Option<int>, b: Option<int>): Option<int> {
    if a.None? then b else if b.None? || a.value <= b.value then a else b
  }

  function Larger(a: Option<int>, b: Option<int>): Option<int> {
    if a.None? then b else if b.None? || a.value >= b.value then a else b
  }

  /** The smallest value of a column. */
  function MinIn(rows: seq<Row>, col: Column): Option<int> {
    if rows == [] then None else Smaller(MinIn(rows[..|rows| - 1], col), CellOf(rows[|rows| - 1], col))
  }

  function MaxIn(rows: seq<Row>, col: Column): Option<int> {
    if rows == [] then None else Larger(MaxIn(rows[..|rows| - 1], col), CellOf(rows[|rows| - 1], col))
  }

  /** How many rows have an explicit null in the column. */
  function NullsIn(rows: seq<Row>, col: Column): nat {
    if rows == [] then 0
    else NullsIn(rows[..|rows| - 1], col) + if col in rows[|rows| - 1] && rows[|rows| - 1][col].Null? then 1 else 0
  }

  /** How many rows have no value in the column: an explicit null, or none at all. */
  function ValuelessIn(rows: seq<Row>, col: Column): nat {
    if rows == [] then 0
    else ValuelessIn(rows[..|rows| - 1], col) + if CellOf(rows[|rows| - 1], col).None? then 1 else 0
  }

  /** The positions of the first `n` rows that have an explicit null in the column. */
  ghost function NullsAt(rows: seq<Row>, col: Column, n: nat): set<nat>
    requires n <= |rows|
  {
    set i: nat | i < n && col in rows[i] && rows[i][col] == Null
  }

  /** Those that have no value in it. */
  ghost function ValuelessAt(rows: seq<Row>, col: Column, n: nat): set<nat>
    requires n <= |rows|
  {
    set i: nat | i < n && (col in rows[i] ==> rows[i][col] == Null)
  }

  /** The counts are numbers of positions. */
  lemma {:induction false} NullsCounted(rows: seq<Row>, col: Column, n: nat)
    requires n <= |rows|
    ensures NullsIn(rows[..n], col) == |NullsAt(rows, col, n)|
    decreases n
  {
    if n > 0 {
      NullsCounted(rows, col, n - 1);
      assert rows[..n][..n - 1] == rows[..n - 1];
      var added := if col in rows[n - 1] && rows[n - 1][col] == Null then {n - 1} else {};
      assert NullsAt(rows, col, n) == NullsAt(rows, col, n - 1) + added;
    }
  }

  lemma {:induction false} ValuelessCounted(rows: seq<Row>, col: Column, n: nat)
    requires n <= |rows|
    ensures ValuelessIn(rows[..n], col) == |ValuelessAt(rows, col, n)|
    decreases n
  {
    if n > 0 {
      ValuelessCounted(rows, col, n - 1);
      assert rows[..n][..n - 1] == rows[..n - 1];
      var added := if col in rows[n - 1] ==> rows[n - 1][col] == Null then {n - 1} else {};
      assert ValuelessAt(rows, col, n) == ValuelessAt(rows, col, n - 1) + added;
    }
  }

  predicate IsMin(rows: seq<Row>, col: Column, m: Option<int>) {
    && (forall i :: 0 <= i < |rows| && CellOf(rows[i], col).Some? ==> m.Some? && m.value <= CellOf(rows[i], col).value)
    && (m.Some? ==> exists i :: 0 <= i < |rows| && CellOf(rows[i], col) == m)
  }

  predicate IsMax(rows: seq<Row>, col: Column, m: Option<int>) {
    && (forall i :: 0 <= i < |rows| && CellOf(rows[i], col).Some? ==> m.Some? && m.value >= CellOf(rows[i], col).value)
    && (m.Some? ==> exists i :: 0 <= i < |rows| && CellOf(rows[i], col) == m)
  }

  /** The statistics are attained bounds. */
  lemma {:induction false} MinIsMin(rows: seq<Row>, col: Column)
    ensures IsMin(rows, col, MinIn(rows, col))
    decreases |rows|
  {
    if rows != [] {
      var last := |rows| - 1;
      MinIsMin(rows[..last], col);
      if MinIn(rows, col).Some? && MinIn(rows, col) != CellOf(rows[last], col) {
        var i :| 0 <= i < last && CellOf(rows[..last][i], col) == MinIn(rows[..last], col);
        assert CellOf(rows[i], col) == MinIn(rows, col);
      }
    }
  }

  lemma {:induction false} MaxIsMax(rows: seq<Row>, col: Column)
    ensures IsMax(rows, col, MaxIn(rows, col))
    decreases |rows|
  {
    if rows != [] {
      var last := |rows| - 1;
      MaxIsMax(rows[..last], col);
      if MaxIn(rows, col).Some? && MaxIn(rows, col) != CellOf(rows[last], col) {
        var i :| 0 <= i < last && CellOf(rows[..last][i], col) == MaxIn(rows[..last], col);
        assert CellOf(rows[i], col) == MaxIn(rows, col);
      }
    }
  }

  // ---------- row-group pruning ----------

  function Least(vs: seq<int>): (m: int)
    requires vs != []
    ensures m in vs && forall x :: x in vs ==> m <= x
  {
    if |vs| == 1 then vs[0] else
      assert vs == [vs[0]] + vs[1..];
      var m := Least(vs[1..]);
      if vs[0] <= m then vs[0] else m
  }

  function Greatest(vs: seq<int>): (m: int)
    requires vs != []
    ensures m in vs && forall x :: x in vs ==> m >= x
  {
    if |vs| == 1 then vs[0] else
      assert vs == [vs[0]] + vs[1..];
      var m := Greatest(vs[1..]);
      if vs[0] >= m then vs[0] else m
  }

  /** `evaluate_against_zone`, for known bounds. */
  predicate ZoneMightMatch(op: Op, lo: int, hi: int, noNulls: bool) {
    match op
    case Eq(v) => !(v < lo || v > hi)
    case Ne(v) => !(lo == hi == v && noNulls)
    case Lt(v) => !(lo >= v)
    case Le(v) => !(lo > v)
    case Gt(v) => !(hi <= v)
    case Ge(v) => !(hi < v)
    case In(vs) => vs != [] && !(Greatest(vs) < lo || Least(vs) > hi)
    case NotIn(_) => true
    case Other(_) => true
  }

  predicate MightMatch(p: ColumnPredicate, zm: ZoneMap) {
    if p.column !in zm.min || p.column !in zm.max then true
    else ZoneMightMatch(p.op, zm.min[p.column], zm.max[p.column],
                        p.column !in zm.nullCount || zm.nullCount[p.column] == 0)
  }

  predicate CanPrune(p: Predicate, zm: ZoneMap) {
    p.preds != [] &&
    match p.combine
    case And => exists i :: 0 <= i < |p.preds| && !MightMatch(p.preds[i], zm)
    case Or => forall i :: 0 <= i < |p.preds| ==> !MightMatch(p.preds[i], zm)
  }

  /** The bounds of a zone map hold for the rows. */
  predicate Covers(zm: ZoneMap, rows: seq<Row>) {
    forall col, i :: col in zm.min && col in zm.max && 0 <= i < |rows| && CellOf(rows[i], col).Some? ==>
      zm.min[col] <= CellOf(rows[i], col).value <= zm.max[col]
  }

  lemma ZoneSound(op: Op, lo: int, hi: int, noNulls: bool, x: int)
    requires lo <= x <= hi && Satisfies(x, op)
    ensures ZoneMightMatch(op, lo, hi, noNulls)
  {}

  /** Some value between the bounds satisfies the operator. */
  ghost predicate SomeSatisfies(op: Op, lo: int, hi: int) {
    exists x :: lo <= x <= hi && Satisfies(x, op)
  }

  /** What bounds rule out, for every operator.  Equality and the orderings are exact.  An
      inequality is ruled out only when no value is null.  A list of values is ruled out
      only when it lies all below or all above the bounds, or is empty. */
  lemma ZoneExact(op: Op, lo: int, hi: int, noNulls: bool)
    requires lo <= hi
    ensures !op.Ne? && !op.In? && !op.NotIn? && !op.Other? ==>
              (ZoneMightMatch(op, lo, hi, noNulls) <==> SomeSatisfies(op, lo, hi))
    ensures op.Ne? ==> (ZoneMightMatch(op, lo, hi, noNulls) <==> !noNulls || SomeSatisfies(op, lo, hi))
    ensures op.In? ==> (!ZoneMightMatch(op, lo, hi, noNulls) <==>
                          (forall x :: x in op.vs ==> x < lo) || (forall x :: x in op.vs ==> x > hi))
    ensures op.NotIn? || op.Other? ==> ZoneMightMatch(op, lo, hi, noNulls)
  {
    match op
    case Eq(v) => if lo <= v <= hi { assert Satisfies(v, op); }
    case Ne(v) => assert Satisfies(lo, op) || Satisfies(hi, op) || lo == hi == v;
    case Lt(v) => assert lo < v ==> Satisfies(lo, op);
    case Le(v) => assert lo <= v ==> Satisfies(lo, op);
    case Gt(v) => assert hi > v ==> Satisfies(hi, op);
    case Ge(v) => assert hi >= v ==> Satisfies(hi, op);
    case In(vs) =>
      if vs != [] {
        var least, greatest := Least(vs), Greatest(vs);
        assert least in vs && greatest in vs;
      }
    case _ =>
  }

  /** The zone map knows the bounds of the column, and they rule the operator out. */
  predicate Excludes(p: ColumnPredicate, zm: ZoneMap) {
    && p.column in zm.min && p.column in zm.max
    && !ZoneMightMatch(p.op, zm.min[p.column], zm.max[p.column],
                       p.column in zm.nullCount ==> zm.nullCount[p.column] == 0)
  }

  /** When a row group is pruned: one excluded side is enough for a conjunction, a disjunction
      takes all, and without sides nothing is pruned. */
  lemma PruneExactly(p: Predicate, zm: ZoneMap)
    ensures p.combine == And ==> (CanPrune(p, zm) <==> exists i :: 0 <= i < |p.preds| && Excludes(p.preds[i], zm))
    ensures p.combine == Or ==>
              (CanPrune(p, zm) <==> p.preds != [] && forall i :: 0 <= i < |p.preds| ==> Excludes(p.preds[i], zm))
  {
  }

  /** A pruned row group holds no row that the filter accepts. */
  lemma PruneSound(p: Predicate, zm: ZoneMap, rows: seq<Row>, i: nat)
    requires Covers(zm, rows) && CanPrune(p, zm) && i < |rows|
    ensures !Accepts(p, rows[i])
  {
    forall k | 0 <= k < |p.preds| && Matches(rows[i], p.preds[k]) ensures MightMatch(p.preds[k], zm) {
      var col := p.preds[k].column;
      if col in zm.min && col in zm.max {
        ZoneSound(p.preds[k].op, zm.min[col], zm.max[col], col !in zm.nullCount || zm.nullCount[col] == 0,
                  CellOf(rows[i], col).value);
      }
    }
  }

  /** For the orderings, and for attained bounds, a single predicate prunes exactly when no
      row matches. */
  lemma OrderedPruneExact(p: ColumnPredicate, zm: ZoneMap, rows: seq<Row>)
    requires p.op.Lt? || p.op.Le? || p.op.Gt? || p.op.Ge?
    requires p.column in zm.min && p.column in zm.max
    requires IsMin(rows, p.column, Some(zm.min[p.column])) && IsMax(rows, p.column, Some(zm.max[p.column]))
    ensures MightMatch(p, zm) <==> exists i :: 0 <= i < |rows| && Matches(rows[i], p)
  {
    var col := p.column;
    if MightMatch(p, zm) {
      var i :| 0 <= i < |rows| && CellOf(rows[i], col) == Some(zm.min[col]);
      var j :| 0 <= j < |rows| && CellOf(rows[j], col) == Some(zm.max[col]);
      assert Matches(rows[i], p) || Matches(rows[j], p);
    }
  }

  // ---------- column-chunk pruning ----------

  /** `_chunk_might_match` */
  predicate ChunkMightMatch(c: ChunkStats, op: Op) {
    if c.min.None? || c.max.None? then true else
      match op
      case Eq(v) => !(v < c.min.value || v > c.max.value)
      case Lt(v) => !(c.min.value >= v)
      case Le(v) => !(c.min.value > v)
      case Gt(v) => !(c.max.value <= v)
      case Ge(v) => !(c.max.value < v)
      case In(vs) => vs != [] && !(Greatest(vs) < c.min.value || Least(vs) > c.max.value)
      case _ => true
  }

  /** What the bounds of a chunk rule out: as for a row group, but never an inequality, and
      nothing without bounds. */
  lemma ChunkExact(c: ChunkStats, op: Op)
    requires c.min.Some? && c.max.Some? ==> c.min.value <= c.max.value
    ensures c.min.None? || c.max.None? ==> ChunkMightMatch(c, op)
    ensures c.min.Some? && c.max.Some? ==>
              (ChunkMightMatch(c, op) <==> op.Ne? || ZoneMightMatch(op, c.min.value, c.max.value, false))
  {
  }

  /** The rows of the `k`-th chunk. */
  function ChunkRows(rows: seq<Row>, size: nat, k: nat): seq<Row>
    requires size > 0
  {
    var start := if k * size <= |rows| then k * size else |rows|;
    var end := if (k + 1) * size <= |rows| then (k + 1) * size else |rows|;
    assert start <= end;
    rows[start..end]
  }

  /** How many chunks of `size` rows `n` rows take, the last one perhaps not full. */
  function ChunkCount(n: nat, size: nat): nat
    requires size > 0
    decreases n
  {
    if n == 0 then 0 else 1 + ChunkCount(if n > size then n - size else 0, size)
  }

  lemma {:induction false} ChunksHoldAll(n: nat, size: nat)
    requires size > 0
    ensures ChunkCount(n, size) * size >= n
    decreases n
  {
    if n > 0 {
      var rest := if n > size then n - size else 0;
      ChunksHoldAll(rest, size);
      assert ChunkCount(n, size) * size == size + ChunkCount(rest, size) * size;
    }
  }

  /** The statistics of the `k`-th chunk of a column. */
  function StatsOf(rows: seq<Row>, col: Column, size: nat, k: nat): ChunkStats
    requires size > 0
  {
    var part := ChunkRows(rows, size, k);
    ChunkStats(MinIn(part, col), MaxIn(part, col), ValuelessIn(part, col), |part|, k)
  }

  /** Every chunk of every column has its true statistics. */
  ghost predicate ChunksTrue(chunks: ColumnChunks, rows: seq<Row>, size: nat)
    requires size > 0
  {
    forall col :: col in chunks ==>
      && |chunks[col]| == ChunkCount(|rows|, size)
      && forall k :: 0 <= k < |chunks[col]| ==> chunks[col][k] == StatsOf(rows, col, size, k)
  }

  /** A pruned chunk holds no row that matches. */
  lemma ChunkSound(rows: seq<Row>, size: nat, k: nat, p: ColumnPredicate, i: nat)
    requires size > 0 && i < |ChunkRows(rows, size, k)|
    requires !ChunkMightMatch(StatsOf(rows, p.column, size, k), p.op)
    ensures !Matches(ChunkRows(rows, size, k)[i], p)
  {
    var part := ChunkRows(rows, size, k);
    MinIsMin(part, p.column);
    MaxIsMax(part, p.column);
  }
}
