/** `PruningReader`: a scan that skips row groups by zone map and column chunks by chunk
    statistics, and then filters rows. */
module PruningReader {
  import opened Basics
  import opened Pruning
  import opened ZoneMapIndex

  // ---------- what a scan should yield ----------

  /** The rows that a filter keeps, in order. */
  function Kept(rows: seq<Row>, filter: Row -> bool): seq<Row> {
    if rows == [] then []
    else Kept(rows[..|rows| - 1], filter) + if filter(rows[|rows| - 1]) then [rows[|rows| - 1]] else []
  }

  predicate HasData(blobs: Blobs, e: Listed) {
    e.data in blobs && blobs[e.data].DataBlob?
  }

  function RowsOf(blobs: Blobs, e: Listed, decode: Bytes -> seq<Row>): seq<Row>
    requires HasData(blobs, e)
  {
    decode(blobs[e.data].bytes)
  }

  /** The statistics of a row group are true of its rows. */
  ghost predicate Accurate(blobs: Blobs, e: Listed, decode: Bytes -> seq<Row>, size: nat)
    requires size > 0
  {
    && HasData(blobs, e) && Covers(e.zm, RowsOf(blobs, e, decode))
    && (e.zm.chunks.Some? ==> ChunksTrue(e.zm.chunks.value, RowsOf(blobs, e, decode), size))
  }

  ghost predicate AllAccurate(blobs: Blobs, list: seq<Listed>, decode: Bytes -> seq<Row>, size: nat)
    requires size > 0
  {
    forall i :: 0 <= i < |list| ==> Accurate(blobs, list[i], decode, size)
  }

  /** Every row group decoded in full and filtered, in key order. */
  function FullScan(blobs: Blobs, list: seq<Listed>, decode: Bytes -> seq<Row>, filter: Row -> bool): seq<Row>
    requires forall i :: 0 <= i < |list| ==> HasData(blobs, list[i])
  {
    if list == [] then []
    else FullScan(blobs, list[..|list| - 1], decode, filter) + Kept(RowsOf(blobs, list[|list| - 1], decode), filter)
  }

  /** The filter lets only rows through that the predicate accepts. */
  ghost predicate Implies(filter: Row -> bool, p: Option<Predicate>) {
    p.Some? ==> forall r :: filter(r) ==> Accepts(p.value, r)
  }

  /** The predicate itself as a row filter. */
  function Accepting(p: Predicate): Row -> bool {
    r => Accepts(p, r)
  }

  function Both(filter: Row -> bool, p: Predicate): Row -> bool {
    r => filter(r) && Accepts(p, r)
  }

  // ---------- filtering ----------

  lemma {:induction false} KeptAppend(a: seq<Row>, b: seq<Row>, filter: Row -> bool)
    ensures Kept(a + b, filter) == Kept(a, filter) + Kept(b, filter)
    decreases |b|
  {
    if b == [] {
      assert a + b == a;
    } else {
      assert (a + b)[..|a + b| - 1] == a + b[..|b| - 1];
      KeptAppend(a, b[..|b| - 1], filter);
    }
  }

  lemma {:induction false} KeptNone(rows: seq<Row>, filter: Row -> bool)
    requires forall i :: 0 <= i < |rows| ==> !filter(rows[i])
    ensures Kept(rows, filter) == []
    decreases |rows|
  {
    if rows != [] { KeptNone(rows[..|rows| - 1], filter); }
  }

  lemma {:induction false} KeptTwice(rows: seq<Row>, filter: Row -> bool, p: Predicate)
    ensures Kept(Kept(rows, filter), Accepting(p)) == Kept(rows, Both(filter, p))
    decreases |rows|
  {
    if rows != [] {
      var init, last := rows[..|rows| - 1], rows[|rows| - 1];
      KeptTwice(init, filter, p);
      if filter(last) {
        KeptAppend(Kept(init, filter), [last], Accepting(p));
        KeptOne(last, Accepting(p));
      } else {
        assert Kept(rows, filter) == Kept(init, filter);
      }
    }
  }

  lemma KeptOne(row: Row, filter: Row -> bool)
    ensures Kept([row], filter) == if filter(row) then [row] else []
  {
    assert [row][..0] == [];
  }

  /** Skipping the row groups that the predicate prunes loses nothing. */
  lemma {:induction false} SkippedGroups(blobs: Blobs, list: seq<Listed>, decode: Bytes -> seq<Row>,
                                         filter: Row -> bool, p: Option<Predicate>, size: nat)
    requires size > 0 && AllAccurate(blobs, list, decode, size) && Implies(filter, p)
    ensures AllAccurate(blobs, Unpruned(list, p), decode, size)
    ensures FullScan(blobs, Unpruned(list, p), decode, filter) == FullScan(blobs, list, decode, filter)
    decreases |list|
  {
    if list != [] {
      var init, last := list[..|list| - 1], list[|list| - 1];
      SkippedGroups(blobs, init, decode, filter, p, size);
      var rows := RowsOf(blobs, last, decode);
      if Pruned(p, last.zm) {
        forall i | 0 <= i < |rows| ensures !filter(rows[i]) { PruneSound(p.value, last.zm, rows, i); }
        KeptNone(rows, filter);
        assert Unpruned(list, p) == Unpruned(init, p);
      } else {
        assert Unpruned(list, p)[..|Unpruned(init, p)|] == Unpruned(init, p);
      }
    }
  }

  // ---------- column chunks ----------

  /** The operator to check chunks of a named column with: that of the last predicate on it. */
  function ChunkOps(preds: seq<ColumnPredicate>, columns: seq<Column>): (ops: map<Column, Op>)
    ensures forall col :: col in ops ==> col in columns && ColumnPredicate(col, ops[col]) in preds
  {
    if preds == [] then map[] else
      var last := preds[|preds| - 1];
      var ops := ChunkOps(preds[..|preds| - 1], columns);
      if last.column in columns then ops[last.column := last.op] else ops
  }

  function OpsFor(p: Option<Predicate>, columns: seq<Column>): map<Column, Op> {
    if p.None? then map[] else ChunkOps(p.value.preds, columns)
  }

  lemma {:induction false} NoColumns(preds: seq<ColumnPredicate>)
    ensures ChunkOps(preds, []) == map[]
  {
    if preds != [] { NoColumns(preds[..|preds| - 1]); }
  }

  method ChunkPredicates(p: Option<Predicate>, columns: seq<Column>) returns (ops: map<Column, Op>)
    ensures ops == OpsFor(p, columns)
    ensures forall col, op :: col in ops && ops[col] == op <==> LastNamed(p, columns, col, op)
  {
    forall col, op ensures col in OpsFor(p, columns) && OpsFor(p, columns)[col] == op <==>
        LastNamed(p, columns, col, op)
    {
      OpsNamed(p, columns, col, op);
    }
    ops := map[];
    if p.None? { return; }
    if columns == [] {
      NoColumns(p.value.preds);
      return;
    }
    for i := 0 to |p.value.preds|
      invariant ops == ChunkOps(p.value.preds[..i], columns)
    {
      var pred := p.value.preds[i];
      assert p.value.preds[..i + 1][..i] == p.value.preds[..i];
      if pred.column in columns { ops := ops[pred.column := pred.op]; }
    }
    assert p.value.preds[..|p.value.preds|] == p.value.preds;
  }

  /** Some chunk with this index might match the operator. */
  predicate MightSurvive(stats: seq<ChunkStats>, op: Op, k: nat) {
    exists i :: 0 <= i < |stats| && stats[i].index == k && ChunkMightMatch(stats[i], op)
  }

  /** The chunk might match on every predicate column, outside `todo`, that has statistics. */
  predicate SurvivesSo(chunks: ColumnChunks, ops: map<Column, Op>, todo: set<Column>, k: nat) {
    forall col :: col in ops && col !in todo && col in chunks ==> MightSurvive(chunks[col], ops[col], k)
  }

  predicate Survives(chunks: ColumnChunks, ops: map<Column, Op>, k: nat) {
    SurvivesSo(chunks, ops, {}, k)
  }

  /** `prune_column_chunks` */
  method PruneColumn(stats: seq<ChunkStats>, op: Op) returns (surviving: set<nat>)
    ensures forall k :: k in surviving <==> MightSurvive(stats, op, k)
  {
    surviving := {};
    for i := 0 to |stats|
      invariant forall k :: k in surviving <==>
          exists j :: 0 <= j < i && stats[j].index == k && ChunkMightMatch(stats[j], op)
    {
      if ChunkMightMatch(stats[i], op) { surviving := surviving + {stats[i].index}; }
    }
  }

  lemma SurvivesStep(chunks: ColumnChunks, ops: map<Column, Op>, todo: set<Column>, col: Column, k: nat)
    requires col in todo && col in ops
    ensures SurvivesSo(chunks, ops, todo - {col}, k) <==>
              SurvivesSo(chunks, ops, todo, k) && (col in chunks ==> MightSurvive(chunks[col], ops[col], k))
  {}

  /** The chunks that survive all predicate columns; nothing when no column has statistics. */
  method ComputeSurviving(chunks: ColumnChunks, ops: map<Column, Op>) returns (s: Option<set<nat>>)
    ensures s.None? ==> forall col :: col in ops ==> col !in chunks
    ensures s.Some? ==> forall k :: k in s.value <==> Survives(chunks, ops, k)
    ensures s.Some? ==> exists col :: col in ops && col in chunks
  {
    s := None;
    var todo := ops.Keys;
    while todo != {}
      invariant todo <= ops.Keys
      invariant s.None? ==> forall col :: col in ops && col !in todo ==> col !in chunks
      invariant s.Some? ==> forall k :: k in s.value <==> SurvivesSo(chunks, ops, todo, k)
      invariant s.Some? ==> exists col :: col in ops && col in chunks
    {
      var col :| col in todo;
      forall k: nat ensures SurvivesSo(chunks, ops, todo - {col}, k) <==>
          SurvivesSo(chunks, ops, todo, k) && (col in chunks ==> MightSurvive(chunks[col], ops[col], k))
      {
        SurvivesStep(chunks, ops, todo, col, k);
      }
      if col in chunks {
        var surviving := PruneColumn(chunks[col], ops[col]);
        s := Some(if s.None? then surviving else s.value * surviving);
      }
      todo := todo - {col};
    }
  }

  /** The rows of the chunks below `n` that are in `s`, in order. */
  function RowSlice(rows: seq<Row>, s: set<nat>, size: nat, n: nat): seq<Row>
    requires size > 0
  {
    if n == 0 then []
    else RowSlice(rows, s, size, n - 1) + if n - 1 in s then ChunkRows(rows, size, n - 1) else []
  }

  /** `_slice_rows_by_chunks`, for a set of indices below `bound` that is not empty.  The
      program visits the indices in order; counting up and testing does the same. */
  method SliceRows(rows: seq<Row>, s: set<nat>, size: nat, bound: nat) returns (out: seq<Row>)
    requires size > 0 && s != {} && forall k :: k in s ==> k < bound
    ensures out == RowSlice(rows, s, size, bound)
  {
    if rows == [] {
      SliceNothing(s, size, bound);
      return rows;
    }
    out := [];
    for k := 0 to bound
      invariant out == RowSlice(rows, s, size, k)
    {
      if k in s {
        var start := if k * size <= |rows| then k * size else |rows|;
        var end := if k * size + size <= |rows| then k * size + size else |rows|;
        assert (k + 1) * size == k * size + size;
        if start < end { out := out + rows[start..end]; }
      }
    }
  }

  lemma {:induction false} SliceNothing(s: set<nat>, size: nat, n: nat)
    requires size > 0
    ensures RowSlice([], s, size, n) == []
  {
    if n > 0 { SliceNothing(s, size, n - 1); }
  }

  /** The rows of the first `n` chunks. */
  function FirstChunks(rows: seq<Row>, size: nat, n: nat): seq<Row>
    requires size > 0
  {
    if n == 0 then [] else FirstChunks(rows, size, n - 1) + ChunkRows(rows, size, n - 1)
  }

  function Cut(k: nat, rows: seq<Row>): (r: nat)
    ensures r <= |rows|
  {
    if k <= |rows| then k else |rows|
  }

  lemma CutSplits(rows: seq<Row>, a: nat, b: nat)
    requires a <= b
    ensures rows[..Cut(b, rows)] == rows[..Cut(a, rows)] + rows[Cut(a, rows)..Cut(b, rows)]
  {}

  lemma {:induction false} ChunksJoin(rows: seq<Row>, size: nat, n: nat)
    requires size > 0
    ensures FirstChunks(rows, size, n) == rows[..Cut(n * size, rows)]
    decreases n
  {
    if n == 0 {
      assert rows[..0] == [];
    } else {
      ChunksJoin(rows, size, n - 1);
      var a, b := (n - 1) * size, n * size;
      assert a <= b;
      CutSplits(rows, a, b);
      assert ChunkRows(rows, size, n - 1) == rows[Cut(a, rows)..Cut(b, rows)];
    }
  }

  lemma KeptStep(a: seq<Row>, b: seq<Row>, part: seq<Row>, taken: bool, filter: Row -> bool)
    requires Kept(a, filter) == Kept(b, filter) && (!taken ==> Kept(part, filter) == [])
    ensures Kept(a + if taken then part else [], filter) == Kept(b + part, filter)
  {
    KeptAppend(a, part, filter);
    KeptAppend(b, part, filter);
    assert a + [] == a;
  }

  /** Dropping chunks without accepted rows loses nothing. */
  lemma {:induction false} SkippedChunks(rows: seq<Row>, s: set<nat>, size: nat, n: nat, filter: Row -> bool)
    requires size > 0
    requires forall k {:trigger k in s} :: 0 <= k < n && k !in s ==> Kept(ChunkRows(rows, size, k), filter) == []
    ensures Kept(RowSlice(rows, s, size, n), filter) == Kept(FirstChunks(rows, size, n), filter)
    decreases n
  {
    if n > 0 {
      SkippedChunks(rows, s, size, n - 1, filter);
      KeptStep(RowSlice(rows, s, size, n - 1), FirstChunks(rows, size, n - 1), ChunkRows(rows, size, n - 1),
               n - 1 in s, filter);
    }
  }

  // ---------- which predicates chunk pruning is right for ----------

  /** A chunk whose only value is `x` is read. */
  predicate ReadsPoint(op: Op, x: int) {
    ChunkMightMatch(ChunkStats(Some(x), Some(x), 0, 1, 0), op)
  }

  /** Operators that chunk pruning does not act on. */
  predicate NeverPrunes(op: Op) {
    op.Ne? || op.NotIn? || op.Other?
  }

  lemma PrunesSome(op: Op) returns (x: int)
    requires !NeverPrunes(op)
    ensures !ReadsPoint(op, x)
  {
    match op {
      case Eq(v) => x := v + 1;
      case Lt(v) => x := v;
      case Le(v) => x := v + 1;
      case Gt(v) => x := v;
      case Ge(v) => x := v - 1;
      case In(vs) => x := if vs == [] then 0 else Greatest(vs) + 1;
    }
  }

  lemma ReadsWider(c: ChunkStats, op: Op, x: int)
    requires ReadsPoint(op, x) && c.min.Some? && c.max.Some? && c.min.value <= x <= c.max.value
    ensures ChunkMightMatch(c, op)
  {}

  /** Which predicates can do with the chunks that survive on all named columns.  Any
      conjunction can.  A disjunction can when each side that some value satisfies leaves the
      other columns alone, and all such values are read on its own column. */
  ghost predicate ChunkSafe(p: Predicate, ops: map<Column, Op>) {
    p.combine.Or? ==>
      forall j, x :: 0 <= j < |p.preds| && Satisfies(x, p.preds[j].op) ==> SideSafe(p.preds[j].column, x, ops)
  }

  predicate SideSafe(column: Column, x: int, ops: map<Column, Op>) {
    && (column in ops ==> ReadsPoint(ops[column], x))
    && forall col :: col in ops && col != column ==> NeverPrunes(ops[col])
  }

  /** An accepted row keeps its chunk, on every column. */
  lemma AcceptedIsRead(rows: seq<Row>, ops: map<Column, Op>, size: nat, k: nat, p: Predicate, i: nat, col: Column)
    requires size > 0 && i < |ChunkRows(rows, size, k)| && Accepts(p, ChunkRows(rows, size, k)[i])
    requires ChunkSafe(p, ops) && col in ops && ColumnPredicate(col, ops[col]) in p.preds
    ensures ChunkMightMatch(StatsOf(rows, col, size, k), ops[col])
  {
    var part := ChunkRows(rows, size, k);
    MinIsMin(part, col);
    MaxIsMax(part, col);
    if p.combine.And? {
      var j :| 0 <= j < |p.preds| && p.preds[j] == ColumnPredicate(col, ops[col]);
      assert Matches(part[i], p.preds[j]);
    } else {
      var j :| 0 <= j < |p.preds| && Matches(part[i], p.preds[j]);
      var x := CellOf(part[i], p.preds[j].column).value;
      assert SideSafe(p.preds[j].column, x, ops);
      if col == p.preds[j].column { ReadsWider(StatsOf(rows, col, size, k), ops[col], x); }
    }
  }

  /** A chunk that does not survive holds no row that the filter keeps. */
  lemma PrunedChunk(rows: seq<Row>, chunks: ColumnChunks, ops: map<Column, Op>, size: nat, k: nat,
                    p: Predicate, filter: Row -> bool)
    requires size > 0 && ChunksTrue(chunks, rows, size) && !Survives(chunks, ops, k)
    requires forall col :: col in ops ==> ColumnPredicate(col, ops[col]) in p.preds
    requires ChunkSafe(p, ops) && Implies(filter, Some(p))
    requires forall col :: col in chunks ==> k < |chunks[col]|
    ensures Kept(ChunkRows(rows, size, k), filter) == []
  {
    var col :| col in ops && col in chunks && !MightSurvive(chunks[col], ops[col], k);
    var part := ChunkRows(rows, size, k);
    assert chunks[col][k] == StatsOf(rows, col, size, k);
    forall i | 0 <= i < |part| ensures !filter(part[i]) {
      if filter(part[i]) { AcceptedIsRead(rows, ops, size, k, p, i, col); }
    }
    KeptNone(part, filter);
  }

  /** The indices of the chunks that survive. */
  function Survivors(chunks: ColumnChunks, ops: map<Column, Op>, n: nat): set<nat> {
    set k: nat | k < n && Survives(chunks, ops, k)
  }

  /** The rows that a read of a row group decodes and keeps: those in surviving chunks. */
  function SurvivingRows(rows: seq<Row>, chunks: ColumnChunks, ops: map<Column, Op>, size: nat): seq<Row>
    requires size > 0
  {
    var n := ChunkCount(|rows|, size);
    RowSlice(rows, Survivors(chunks, ops, n), size, n)
  }

  lemma AllChunks(rows: seq<Row>, size: nat)
    requires size > 0
    ensures FirstChunks(rows, size, ChunkCount(|rows|, size)) == rows
  {
    ChunksHoldAll(|rows|, size);
    ChunksJoin(rows, size, ChunkCount(|rows|, size));
    assert rows[..|rows|] == rows;
  }

  /** Reading only the surviving chunks keeps the same rows. */
  lemma SurvivorsEnough(rows: seq<Row>, chunks: ColumnChunks, ops: map<Column, Op>, size: nat,
                        p: Predicate, filter: Row -> bool)
    requires size > 0 && ChunksTrue(chunks, rows, size)
    requires forall col :: col in ops ==> ColumnPredicate(col, ops[col]) in p.preds
    requires ChunkSafe(p, ops) && Implies(filter, Some(p))
    ensures Kept(SurvivingRows(rows, chunks, ops, size), filter) == Kept(rows, filter)
  {
    var n := ChunkCount(|rows|, size);
    var s := Survivors(chunks, ops, n);
    forall k | 0 <= k < n && k !in s ensures Kept(ChunkRows(rows, size, k), filter) == [] {
      PrunedChunk(rows, chunks, ops, size, k, p, filter);
    }
    SkippedChunks(rows, s, size, n, filter);
    AllChunks(rows, size);
  }

  /** When no named column has statistics, every chunk survives. */
  lemma {:induction false} NothingPruned(rows: seq<Row>, chunks: ColumnChunks, ops: map<Column, Op>, size: nat)
    requires size > 0 && forall col :: col in ops ==> col !in chunks
    ensures SurvivingRows(rows, chunks, ops, size) == rows
  {
    var n := ChunkCount(|rows|, size);
    SliceAll(rows, Survivors(chunks, ops, n), size, n);
    AllChunks(rows, size);
  }

  lemma {:induction false} SliceAll(rows: seq<Row>, s: set<nat>, size: nat, n: nat)
    requires size > 0 && forall k: nat :: k < n ==> k in s
    ensures RowSlice(rows, s, size, n) == FirstChunks(rows, size, n)
  {
    if n > 0 { SliceAll(rows, s, size, n - 1); }
  }

  /** With the predicate as the filter, no read of any row group with true statistics loses
      a row. */
  ghost predicate NoneLost(p: Predicate, ops: map<Column, Op>) {
    forall rows, chunks, size: nat :: size > 0 && ChunksTrue(chunks, rows, size) ==>
      Kept(SurvivingRows(rows, chunks, ops, size), Accepting(p)) == Kept(rows, Accepting(p))
  }

  /** A row group of one row, accepted although some named column rules out its chunk. */
  lemma LosesRow(p: Predicate, ops: map<Column, Op>, row: Row, col: Column)
    requires Accepts(p, row) && col in ops && CellOf(row, col).Some? && !ReadsPoint(ops[col], CellOf(row, col).value)
    ensures !NoneLost(p, ops)
  {
    var rows := [row];
    var chunks: ColumnChunks := map[col := [StatsOf(rows, col, 1, 0)]];
    assert ChunkCount(1, 1) == 1 + ChunkCount(0, 1);
    assert rows[..0] == [] && rows[0..1] == rows;
    assert ChunkRows(rows, 1, 0) == rows && MinIn(rows, col) == MaxIn(rows, col) == CellOf(row, col);
    assert !Survives(chunks, ops, 0) by {
      assert !MightSurvive(chunks[col], ops[col], 0);
    }
    assert Survivors(chunks, ops, 1) == {};
    SliceEmpty(rows, 1, 1);
    assert SurvivingRows(rows, chunks, ops, 1) == [];
    KeptOne(row, Accepting(p));
    assert ChunksTrue(chunks, rows, 1);
  }

  /** Exactly the predicates for which skipping chunks on the named columns loses nothing. */
  lemma ChunkSafeExact(p: Predicate, columns: seq<Column>)
    ensures NoneLost(p, ChunkOps(p.preds, columns)) <==> ChunkSafe(p, ChunkOps(p.preds, columns))
  {
    var ops := ChunkOps(p.preds, columns);
    if ChunkSafe(p, ops) {
      forall rows, chunks, size: nat | size > 0 && ChunksTrue(chunks, rows, size)
        ensures Kept(SurvivingRows(rows, chunks, ops, size), Accepting(p)) == Kept(rows, Accepting(p))
      {
        SurvivorsEnough(rows, chunks, ops, size, p, Accepting(p));
      }
    } else {
      var j, x :| 0 <= j < |p.preds| && Satisfies(x, p.preds[j].op) && !SideSafe(p.preds[j].column, x, ops);
      var own := p.preds[j].column;
      if own in ops && !ReadsPoint(ops[own], x) {
        var row: Row := map[own := Val(x)];
        assert Matches(row, p.preds[j]);
        LosesRow(p, ops, row, own);
      } else {
        var col :| col in ops && col != own && !NeverPrunes(ops[col]);
        var y := PrunesSome(ops[col]);
        var row: Row := map[own := Val(x), col := Val(y)];
        assert Matches(row, p.preds[j]);
        LosesRow(p, ops, row, col);
      }
    }
  }

  lemma SurvivorsBelow(rows: seq<Row>, chunks: ColumnChunks, ops: map<Column, Op>, size: nat, k: nat)
    requires size > 0 && ChunksTrue(chunks, rows, size) && Survives(chunks, ops, k)
    requires exists col :: col in ops && col in chunks
    ensures k < ChunkCount(|rows|, size)
  {
    var col :| col in ops && col in chunks;
    var i :| 0 <= i < |chunks[col]| && chunks[col][i].index == k;
    assert chunks[col][i] == StatsOf(rows, col, size, i);
  }

  // ---------- the reader ----------

  function ChunksOf(zm: ZoneMap): ColumnChunks {
    if zm.chunks.Some? then zm.chunks.value else map[]
  }

  /** The rows of a row group that lie in surviving chunks. */
  function GroupRows(blobs: Blobs, e: Listed, decode: Bytes -> seq<Row>, ops: map<Column, Op>, size: nat): seq<Row>
    requires size > 0 && HasData(blobs, e)
  {
    SurvivingRows(RowsOf(blobs, e, decode), ChunksOf(e.zm), ops, size)
  }

  /** One surviving row group: its chunks, its rows, and the filter. */
  method ReadGroup(k: ZoneKernel, e: Listed, decode: Bytes -> seq<Row>, ops: map<Column, Op>, filter: Row -> bool,
                   size: nat)
    returns (out: seq<Row>)
    requires size > 0 && Accurate(k.blobs, e, decode, size)
    ensures out == Kept(GroupRows(k.blobs, e, decode, ops, size), filter)
  {
    ghost var all := RowsOf(k.blobs, e, decode);
    ghost var n := ChunkCount(|all|, size);
    var surviving: Option<set<nat>> := None;
    if ops != map[] && e.zm.chunks.Some? {
      surviving := ComputeSurviving(e.zm.chunks.value, ops);
    }
    if surviving.None? {
      NothingPruned(all, ChunksOf(e.zm), ops, size);
    } else {
      SurvivorsAre(all, e.zm.chunks.value, ops, size, surviving.value);
      if surviving.value == {} {
        SliceEmpty(all, size, n);
        return [];
      }
    }
    var blob := k.ReadBlob(e.data);
    var rows := decode(blob.value.bytes);
    if surviving.Some? {
      rows := SliceRows(rows, surviving.value, size, ChunkCount(|rows|, size));
    }
    out := FilterRows(rows, filter);
  }

  /** The indices that survive are those of chunks of the row group. */
  lemma SurvivorsAre(rows: seq<Row>, chunks: ColumnChunks, ops: map<Column, Op>, size: nat, s: set<nat>)
    requires size > 0 && ChunksTrue(chunks, rows, size) && (forall k :: k in s <==> Survives(chunks, ops, k))
    requires exists col :: col in ops && col in chunks
    ensures s == Survivors(chunks, ops, ChunkCount(|rows|, size))
  {
    forall k | k in s ensures k < ChunkCount(|rows|, size) {
      SurvivorsBelow(rows, chunks, ops, size, k);
    }
  }

  lemma {:induction false} SliceEmpty(rows: seq<Row>, size: nat, n: nat)
    requires size > 0
    ensures RowSlice(rows, {}, size, n) == []
  {
    if n > 0 { SliceEmpty(rows, size, n - 1); }
  }

  method FilterRows(rows: seq<Row>, filter: Row -> bool) returns (out: seq<Row>)
    ensures out == Kept(rows, filter)
  {
    out := [];
    for i := 0 to |rows|
      invariant out == Kept(rows[..i], filter)
    {
      assert rows[..i + 1][..i] == rows[..i];
      if filter(rows[i]) { out := out + [rows[i]]; }
    }
    assert rows[..|rows|] == rows;
  }

  /** Every row group read with chunk pruning and filtered, in key order. */
  function PrunedScan(blobs: Blobs, list: seq<Listed>, decode: Bytes -> seq<Row>, ops: map<Column, Op>,
                      filter: Row -> bool, size: nat): seq<Row>
    requires size > 0 && forall i :: 0 <= i < |list| ==> HasData(blobs, list[i])
  {
    if list == [] then []
    else PrunedScan(blobs, list[..|list| - 1], decode, ops, filter, size)
         + Kept(GroupRows(blobs, list[|list| - 1], decode, ops, size), filter)
  }

  /** Skipping chunks loses nothing when the predicate can do with it. */
  lemma {:induction false} SkippedInGroups(blobs: Blobs, list: seq<Listed>, decode: Bytes -> seq<Row>,
                                           columns: seq<Column>, filter: Row -> bool,
                                           p: Option<Predicate>, size: nat)
    requires size > 0 && AllAccurate(blobs, list, decode, size) && Implies(filter, p)
    requires p.Some? ==> ChunkSafe(p.value, OpsFor(p, columns))
    ensures PrunedScan(blobs, list, decode, OpsFor(p, columns), filter, size) == FullScan(blobs, list, decode, filter)
    decreases |list|
  {
    if list != [] {
      var last := list[|list| - 1];
      SkippedInGroups(blobs, list[..|list| - 1], decode, columns, filter, p, size);
      assert Accurate(blobs, last, decode, size);
      if p.Some? {
        SurvivorsEnough(RowsOf(blobs, last, decode), ChunksOf(last.zm), OpsFor(p, columns), size, p.value, filter);
      } else {
        NothingPruned(RowsOf(blobs, last, decode), ChunksOf(last.zm), OpsFor(p, columns), size);
      }
    }
  }

  lemma {:induction false} FilteredScan(blobs: Blobs, list: seq<Listed>, decode: Bytes -> seq<Row>,
                                        ops: map<Column, Op>, filter: Row -> bool, p: Predicate, size: nat)
    requires size > 0 && forall i :: 0 <= i < |list| ==> HasData(blobs, list[i])
    ensures Kept(PrunedScan(blobs, list, decode, ops, filter, size), Accepting(p))
            == PrunedScan(blobs, list, decode, ops, Both(filter, p), size)
    decreases |list|
  {
    if list != [] {
      var init, rows := list[..|list| - 1], GroupRows(blobs, list[|list| - 1], decode, ops, size);
      FilteredScan(blobs, init, decode, ops, filter, p, size);
      KeptAppend(PrunedScan(blobs, init, decode, ops, filter, size), Kept(rows, filter), Accepting(p));
      KeptTwice(rows, filter, p);
    }
  }

  /** The rows are those of a full scan and filter. */
  ghost predicate FullyScanned(blobs: Blobs, zones: seq<Listed>, decode: Bytes -> seq<Row>, filter: Row -> bool,
                               out: seq<Row>)
  {
    (forall i :: 0 <= i < |zones| ==> HasData(blobs, zones[i])) && out == FullScan(blobs, zones, decode, filter)
  }

  lemma {:induction false} UnprunedAccurate(blobs: Blobs, list: seq<Listed>, decode: Bytes -> seq<Row>,
                                            p: Option<Predicate>, size: nat)
    requires size > 0 && AllAccurate(blobs, list, decode, size)
    ensures AllAccurate(blobs, Unpruned(list, p), decode, size)
    decreases |list|
  {
    if list != [] { UnprunedAccurate(blobs, list[..|list| - 1], decode, p, size); }
  }

  // ---------- which rows a scan yields ----------

  /** `op` is the operator of the last predicate on a column, and the column is named. */
  ghost predicate LastNamed(p: Option<Predicate>, columns: seq<Column>, col: Column, op: Op) {
    p.Some? && col in columns && exists i :: LastIs(p.value.preds, col, op, i)
  }

  /** On some named column that has statistics, the last predicate rules out the `k`-th chunk. */
  ghost predicate RuledOut(zm: ZoneMap, p: Option<Predicate>, columns: seq<Column>, k: nat) {
    && zm.chunks.Some?
    && exists col, op :: LastNamed(p, columns, col, op) && col in zm.chunks.value && k < |zm.chunks.value[col]|
                         && !ChunkMightMatch(zm.chunks.value[col][k], op)
  }

  ghost predicate LastIs(preds: seq<ColumnPredicate>, col: Column, op: Op, i: nat) {
    i < |preds| && preds[i] == ColumnPredicate(col, op) && forall j :: i < j < |preds| ==> preds[j].column != col
  }

  lemma {:induction false} OpsThere(preds: seq<ColumnPredicate>, columns: seq<Column>, i: nat)
    requires i < |preds| && preds[i].column in columns
    ensures preds[i].column in ChunkOps(preds, columns)
    decreases |preds|
  {
    if i < |preds| - 1 { OpsThere(preds[..|preds| - 1], columns, i); }
  }

  lemma {:induction false} OpsLast(preds: seq<ColumnPredicate>, columns: seq<Column>, col: Column) returns (i: nat)
    requires col in ChunkOps(preds, columns)
    ensures LastIs(preds, col, ChunkOps(preds, columns)[col], i)
    decreases |preds|
  {
    var n := |preds| - 1;
    if preds[n].column == col {
      i := n;
    } else {
      i := OpsLast(preds[..n], columns, col);
      LastStill(preds, col, ChunkOps(preds, columns)[col], i);
    }
  }

  lemma LastStill(preds: seq<ColumnPredicate>, col: Column, op: Op, i: nat)
    requires preds != [] && preds[|preds| - 1].column != col && LastIs(preds[..|preds| - 1], col, op, i)
    ensures LastIs(preds, col, op, i)
  {
    var init := preds[..|preds| - 1];
    forall j | i < j < |preds| ensures preds[j].column != col { if j < |init| { assert init[j] == preds[j]; } }
  }

  /** The operators that a scan checks chunks with. */
  lemma OpsNamed(p: Option<Predicate>, columns: seq<Column>, col: Column, op: Op)
    ensures col in OpsFor(p, columns) && OpsFor(p, columns)[col] == op <==> LastNamed(p, columns, col, op)
  {
    if p.Some? {
      var preds := p.value.preds;
      if col in OpsFor(p, columns) {
        var i := OpsLast(preds, columns, col);
        if j :| LastIs(preds, col, op, j) { assert i == j; }
      } else if i :| col in columns && LastIs(preds, col, op, i) {
        OpsThere(preds, columns, i);
      }
    }
  }

  lemma SurvivesExactly(rows: seq<Row>, zm: ZoneMap, p: Option<Predicate>, columns: seq<Column>, size: nat, k: nat)
    requires size > 0 && k < ChunkCount(|rows|, size)
    requires zm.chunks.Some? ==> ChunksTrue(zm.chunks.value, rows, size)
    ensures Survives(ChunksOf(zm), OpsFor(p, columns), k) <==> !RuledOut(zm, p, columns, k)
  {
    var chunks, ops := ChunksOf(zm), OpsFor(p, columns);
    forall col | col in chunks
      ensures k < |chunks[col]|
      ensures forall op :: MightSurvive(chunks[col], op, k) <==> ChunkMightMatch(chunks[col][k], op)
    {
      forall i | 0 <= i < |chunks[col]| ensures chunks[col][i].index == i {
        assert chunks[col][i] == StatsOf(rows, col, size, i);
      }
    }
    if !Survives(chunks, ops, k) {
      var col :| col in ops && col in chunks && !MightSurvive(chunks[col], ops[col], k);
      OpsNamed(p, columns, col, ops[col]);
    }
    if RuledOut(zm, p, columns, k) {
      var col, op :| LastNamed(p, columns, col, op) && col in chunks && k < |chunks[col]|
                     && !ChunkMightMatch(chunks[col][k], op);
      OpsNamed(p, columns, col, op);
    }
  }

  /** `out` is the rows at the wanted positions from `lo` to `hi`, in order; `at` says where. */
  ghost predicate Picks(rows: seq<Row>, out: seq<Row>, at: seq<nat>, lo: nat, hi: nat, wanted: set<nat>) {
    && |at| == |out| && (forall a, b :: 0 <= a < b < |at| ==> at[a] < at[b])
    && (forall t :: 0 <= t < |at| ==> lo <= at[t] < hi && at[t] < |rows| && at[t] in wanted && out[t] == rows[at[t]])
    && (forall i :: i in wanted && lo <= i < hi ==> i in at)
  }

  lemma PicksJoin(rows: seq<Row>, a: seq<Row>, b: seq<Row>, at: seq<nat>, bt: seq<nat>, lo: nat, mid: nat, hi: nat,
                  wanted: set<nat>)
    requires lo <= mid <= hi && Picks(rows, a, at, lo, mid, wanted) && Picks(rows, b, bt, mid, hi, wanted)
    ensures Picks(rows, a + b, at + bt, lo, hi, wanted)
  {
    var both := at + bt;
    forall i | i in wanted && lo <= i < hi ensures i in both {
      if i < mid { assert i in at; } else { assert i in bt; }
    }
  }

  lemma KeptLast(rows: seq<Row>, filter: Row -> bool, lo: nat, hi: nat)
    requires lo < hi <= |rows|
    ensures Kept(rows[lo..hi], filter) == Kept(rows[lo..hi - 1], filter) + Kept([rows[hi - 1]], filter)
  {
    assert rows[lo..hi] == rows[lo..hi - 1] + [rows[hi - 1]];
    KeptAppend(rows[lo..hi - 1], [rows[hi - 1]], filter);
  }

  lemma PicksOne(rows: seq<Row>, filter: Row -> bool, i: nat, wanted: set<nat>) returns (at: seq<nat>)
    requires i < |rows| && (i in wanted <==> filter(rows[i]))
    ensures Picks(rows, Kept([rows[i]], filter), at, i, i + 1, wanted)
  {
    KeptOne(rows[i], filter);
    at := if filter(rows[i]) then [i] else [];
  }

  lemma {:induction false} PicksKept(rows: seq<Row>, filter: Row -> bool, lo: nat, hi: nat, wanted: set<nat>)
    returns (at: seq<nat>)
    requires lo <= hi <= |rows| && forall i :: lo <= i < hi ==> (i in wanted <==> filter(rows[i]))
    ensures Picks(rows, Kept(rows[lo..hi], filter), at, lo, hi, wanted)
    decreases hi - lo
  {
    at := [];
    if lo < hi {
      var init := PicksKept(rows, filter, lo, hi - 1, wanted);
      var last := PicksOne(rows, filter, hi - 1, wanted);
      KeptLast(rows, filter, lo, hi);
      PicksJoin(rows, Kept(rows[lo..hi - 1], filter), Kept([rows[hi - 1]], filter), init, last, lo, hi - 1, hi, wanted);
      at := init + last;
    }
  }

  lemma Multiples(a: nat, b: nat, size: nat)
    requires a <= b
    ensures a * size <= b * size
  {
    assert b * size == a * size + (b - a) * size;
  }

  lemma Euclid(i: nat, size: nat)
    requires size > 0
    ensures i == (i / size) * size + i % size && 0 <= i % size < size
  {}

  lemma InChunk(i: nat, size: nat, k: nat)
    requires size > 0 && k * size <= i < (k + 1) * size
    ensures i / size == k
  {
    var q := i / size;
    Euclid(i, size);
    assert (q + 1) * size == q * size + size;
    if q < k { Multiples(q + 1, k, size); }
    if q > k { Multiples(k + 1, q, size); }
  }

  /** The `k`-th chunk is the rows from `lo` to `hi`. */
  lemma ChunkBounds(rows: seq<Row>, size: nat, k: nat) returns (lo: nat, hi: nat)
    requires size > 0
    ensures lo == Cut(k * size, rows) && hi == Cut((k + 1) * size, rows) && lo <= hi
    ensures ChunkRows(rows, size, k) == rows[lo..hi] && forall i :: lo <= i < hi ==> i / size == k
  {
    Multiples(k, k + 1, size);
    lo, hi := Cut(k * size, rows), Cut((k + 1) * size, rows);
    forall i | lo <= i < hi ensures i / size == k { InChunk(i, size, k); }
  }

  /** The positions of a row group that are in a chunk of `s` and pass the filter. */
  ghost function Passing(rows: seq<Row>, s: set<nat>, size: nat, filter: Row -> bool): set<nat>
    requires size > 0
  {
    set i | 0 <= i < |rows| && i / size in s && filter(rows[i])
  }

  lemma KeptSlice(rows: seq<Row>, s: set<nat>, size: nat, k: nat, filter: Row -> bool)
    requires size > 0
    ensures Kept(RowSlice(rows, s, size, k + 1), filter)
            == Kept(RowSlice(rows, s, size, k), filter) + if k in s then Kept(ChunkRows(rows, size, k), filter) else []
  {
    var part := if k in s then ChunkRows(rows, size, k) else [];
    KeptAppend(RowSlice(rows, s, size, k), part, filter);
  }

  lemma PicksNext(rows: seq<Row>, before: seq<Row>, init: seq<nat>, s: set<nat>, size: nat, k: nat,
                  filter: Row -> bool, lo: nat, hi: nat)
    returns (at: seq<nat>)
    requires size > 0 && lo <= hi <= |rows| && forall i :: lo <= i < hi ==> i / size == k
    requires Picks(rows, before, init, 0, lo, Passing(rows, s, size, filter))
    ensures Picks(rows, before + if k in s then Kept(rows[lo..hi], filter) else [], at, 0, hi,
                  Passing(rows, s, size, filter))
  {
    var wanted := Passing(rows, s, size, filter);
    var last: seq<nat> := [];
    if k in s { last := PicksKept(rows, filter, lo, hi, wanted); }
    at := init + last;
    PicksJoin(rows, before, if k in s then Kept(rows[lo..hi], filter) else [], init, last, 0, lo, hi, wanted);
  }

  lemma {:induction false} PicksSlice(rows: seq<Row>, s: set<nat>, size: nat, n: nat, end: nat, filter: Row -> bool)
    returns (at: seq<nat>)
    requires size > 0 && end == Cut(n * size, rows)
    ensures Picks(rows, Kept(RowSlice(rows, s, size, n), filter), at, 0, end, Passing(rows, s, size, filter))
    decreases n
  {
    at := [];
    if n > 0 {
      var lo, hi := ChunkBounds(rows, size, n - 1);
      var init := PicksSlice(rows, s, size, n - 1, lo, filter);
      KeptSlice(rows, s, size, n - 1, filter);
      at := PicksNext(rows, Kept(RowSlice(rows, s, size, n - 1), filter), init, s, size, n - 1, filter, lo, hi);
    }
  }

  /** The positions of a row group whose rows a scan yields: in a chunk that is not ruled out,
      and with a row that the filter keeps. */
  ghost function Yielded(rows: seq<Row>, zm: ZoneMap, p: Option<Predicate>, columns: seq<Column>, size: nat,
                         filter: Row -> bool): set<nat>
    requires size > 0
  {
    set i | 0 <= i < |rows| && !RuledOut(zm, p, columns, i / size) && filter(rows[i])
  }

  lemma GroupPicks(rows: seq<Row>, zm: ZoneMap, p: Option<Predicate>, columns: seq<Column>, size: nat,
                   filter: Row -> bool)
    returns (at: seq<nat>)
    requires size > 0 && (zm.chunks.Some? ==> ChunksTrue(zm.chunks.value, rows, size))
    ensures Picks(rows, Kept(SurvivingRows(rows, ChunksOf(zm), OpsFor(p, columns), size), filter), at, 0, |rows|,
                  Yielded(rows, zm, p, columns, size, filter))
  {
    var n := ChunkCount(|rows|, size);
    var s := Survivors(ChunksOf(zm), OpsFor(p, columns), n);
    ChunksHoldAll(|rows|, size);
    at := PicksSlice(rows, s, size, n, |rows|, filter);
    PassingYielded(rows, zm, p, columns, size, filter);
  }

  lemma PassingYielded(rows: seq<Row>, zm: ZoneMap, p: Option<Predicate>, columns: seq<Column>, size: nat,
                       filter: Row -> bool)
    requires size > 0 && (zm.chunks.Some? ==> ChunksTrue(zm.chunks.value, rows, size))
    ensures Passing(rows, Survivors(ChunksOf(zm), OpsFor(p, columns), ChunkCount(|rows|, size)), size, filter)
            == Yielded(rows, zm, p, columns, size, filter)
  {
    var s := Survivors(ChunksOf(zm), OpsFor(p, columns), ChunkCount(|rows|, size));
    forall i | 0 <= i < |rows| ensures i / size in s <==> !RuledOut(zm, p, columns, i / size) {
      RowChunk(i, |rows|, size);
      SurvivesExactly(rows, zm, p, columns, size, i / size);
    }
  }

  /** Every row is in one of the chunks. */
  lemma RowChunk(i: nat, n: nat, size: nat)
    requires size > 0 && i < n
    ensures i / size < ChunkCount(n, size)
  {
    ChunksHoldAll(n, size);
    Euclid(i, size);
    if i / size >= ChunkCount(n, size) { Multiples(ChunkCount(n, size), i / size, size); }
  }

  predicate Before(a: (nat, nat), b: (nat, nat)) {
    a.0 < b.0 || (a.0 == b.0 && a.1 < b.1)
  }

  /** `out` is exactly the wanted rows of the groups, in order; `ps` says where each stands. */
  ghost predicate Placed(groups: seq<seq<Row>>, wanted: seq<set<nat>>, out: seq<Row>, ps: seq<(nat, nat)>) {
    && |groups| == |wanted| && |ps| == |out| && (forall a, b :: 0 <= a < b < |ps| ==> Before(ps[a], ps[b]))
    && (forall t :: 0 <= t < |ps| ==> IsPlace(groups, wanted, ps[t], out[t]))
    && (forall g: nat, i: nat :: g < |wanted| && i in wanted[g] ==> (g, i) in ps)
  }

  predicate IsPlace(groups: seq<seq<Row>>, wanted: seq<set<nat>>, at: (nat, nat), row: Row)
    requires |groups| == |wanted|
  {
    at.0 < |groups| && at.1 in wanted[at.0] && at.1 < |groups[at.0]| && row == groups[at.0][at.1]
  }

  /** One more group. */
  lemma PlacedMore(groups: seq<seq<Row>>, wanted: seq<set<nat>>, out: seq<Row>, ps: seq<(nat, nat)>,
                   rows: seq<Row>, w: set<nat>, more: seq<Row>, at: seq<nat>)
    returns (qs: seq<(nat, nat)>)
    requires Placed(groups, wanted, out, ps) && Picks(rows, more, at, 0, |rows|, w)
    requires forall i :: i in w ==> i < |rows|
    ensures Placed(groups + [rows], wanted + [w], out + more, qs)
  {
    var n := |groups|;
    var added := seq(|at|, t requires 0 <= t < |at| => (n, at[t]));
    qs := ps + added;
    forall t | 0 <= t < |qs|
      ensures IsPlace(groups + [rows], wanted + [w], qs[t], (out + more)[t]) && (t < |ps| ==> qs[t].0 < n)
    {
      if t < |ps| {
        assert IsPlace(groups, wanted, ps[t], out[t]);
      } else {
        assert qs[t] == (n, at[t - |ps|]);
      }
    }
    forall g: nat, i: nat | g < n + 1 && i in (wanted + [w])[g] ensures (g, i) in qs {
      if g < n {
        assert (g, i) in ps;
      } else {
        var t :| 0 <= t < |at| && at[t] == i;
        assert added[t] == (g, i);
      }
    }
  }

  ghost function GroupsOf(blobs: Blobs, zones: seq<Listed>, decode: Bytes -> seq<Row>): (groups: seq<seq<Row>>)
    requires forall g :: 0 <= g < |zones| ==> HasData(blobs, zones[g])
    ensures |groups| == |zones| && forall g :: 0 <= g < |zones| ==> groups[g] == RowsOf(blobs, zones[g], decode)
  {
    seq(|zones|, g requires 0 <= g < |zones| => RowsOf(blobs, zones[g], decode))
  }

  /** The positions of a row group whose rows a scan yields: none when the predicate prunes it;
      otherwise those in a chunk that is not ruled out, with a row that the filter keeps. */
  ghost function YieldedOf(blobs: Blobs, e: Listed, p: Option<Predicate>, columns: seq<Column>,
                           decode: Bytes -> seq<Row>, filter: Row -> bool, size: nat): (w: set<nat>)
    requires size > 0 && HasData(blobs, e)
    ensures forall i :: i in w <==>
              && 0 <= i < |RowsOf(blobs, e, decode)| && (p.Some? ==> !CanPrune(p.value, e.zm))
              && !RuledOut(e.zm, p, columns, i / size) && filter(RowsOf(blobs, e, decode)[i])
  {
    if p.Some? && CanPrune(p.value, e.zm) then {}
    else Yielded(RowsOf(blobs, e, decode), e.zm, p, columns, size, filter)
  }

  ghost function WantedOf(blobs: Blobs, zones: seq<Listed>, p: Option<Predicate>, columns: seq<Column>,
                          decode: Bytes -> seq<Row>, filter: Row -> bool, size: nat): (wanted: seq<set<nat>>)
    requires size > 0 && forall g :: 0 <= g < |zones| ==> HasData(blobs, zones[g])
    ensures |wanted| == |zones|
    ensures forall g :: 0 <= g < |zones| ==>
              wanted[g] == YieldedOf(blobs, zones[g], p, columns, decode, filter, size)
  {
    seq(|zones|, g requires 0 <= g < |zones| => YieldedOf(blobs, zones[g], p, columns, decode, filter, size))
  }

  /** Exactly which rows `out` is, and in which order. */
  ghost predicate Places(blobs: Blobs, zones: seq<Listed>, p: Option<Predicate>, columns: seq<Column>,
                         decode: Bytes -> seq<Row>, filter: Row -> bool, size: nat, out: seq<Row>, ps: seq<(nat, nat)>)
    requires size > 0
  {
    && (forall g :: 0 <= g < |zones| ==> HasData(blobs, zones[g]))
    && Placed(GroupsOf(blobs, zones, decode), WantedOf(blobs, zones, p, columns, decode, filter, size), out, ps)
  }

  /** The last row group. */
  lemma LastPicks(blobs: Blobs, e: Listed, p: Option<Predicate>, columns: seq<Column>,
                  decode: Bytes -> seq<Row>, filter: Row -> bool, size: nat)
    returns (at: seq<nat>)
    requires size > 0 && Accurate(blobs, e, decode, size)
    ensures var rows := RowsOf(blobs, e, decode);
            Picks(rows,
                  if Pruned(p, e.zm) then [] else Kept(GroupRows(blobs, e, decode, OpsFor(p, columns), size), filter),
                  at, 0, |rows|, YieldedOf(blobs, e, p, columns, decode, filter, size))
  {
    at := [];
    if !Pruned(p, e.zm) { at := GroupPicks(RowsOf(blobs, e, decode), e.zm, p, columns, size, filter); }
  }

  /** What is computed group by group is that. */
  lemma {:induction false} ScanPlaced(blobs: Blobs, zones: seq<Listed>, p: Option<Predicate>, columns: seq<Column>,
                                      decode: Bytes -> seq<Row>, filter: Row -> bool, size: nat)
    returns (out: seq<Row>, ps: seq<(nat, nat)>)
    requires size > 0 && AllAccurate(blobs, zones, decode, size)
    ensures ScansTo(blobs, zones, p, columns, decode, filter, size, out)
    ensures Places(blobs, zones, p, columns, decode, filter, size, out, ps)
    decreases |zones|
  {
    out, ps := [], [];
    if zones == [] {
      NothingPlaced(blobs, p, columns, decode, filter, size);
    } else {
      var init, last := zones[..|zones| - 1], zones[|zones| - 1];
      assert zones == init + [last];
      AccurateParts(blobs, init, last, decode, size);
      out, ps := ScanPlaced(blobs, init, p, columns, decode, filter, size);
      out, ps := PlacedLast(blobs, init, last, p, columns, decode, filter, size, out, ps);
    }
  }

  lemma AccurateParts(blobs: Blobs, init: seq<Listed>, last: Listed, decode: Bytes -> seq<Row>, size: nat)
    requires size > 0 && AllAccurate(blobs, init + [last], decode, size)
    ensures AllAccurate(blobs, init, decode, size) && Accurate(blobs, last, decode, size)
  {
    assert (init + [last])[|init|] == last;
    forall i | 0 <= i < |init| ensures Accurate(blobs, init[i], decode, size) {
      assert (init + [last])[i] == init[i];
    }
  }

  lemma NothingPlaced(blobs: Blobs, p: Option<Predicate>, columns: seq<Column>, decode: Bytes -> seq<Row>,
                      filter: Row -> bool, size: nat)
    requires size > 0
    ensures ScansTo(blobs, [], p, columns, decode, filter, size, [])
    ensures Places(blobs, [], p, columns, decode, filter, size, [], [])
  {
  }

  ghost predicate ScansTo(blobs: Blobs, zones: seq<Listed>, p: Option<Predicate>, columns: seq<Column>,
                          decode: Bytes -> seq<Row>, filter: Row -> bool, size: nat, out: seq<Row>)
    requires size > 0
  {
    && AllAccurate(blobs, Unpruned(zones, p), decode, size)
    && out == PrunedScan(blobs, Unpruned(zones, p), decode, OpsFor(p, columns), filter, size)
  }

  lemma PlacedLast(blobs: Blobs, init: seq<Listed>, last: Listed, p: Option<Predicate>, columns: seq<Column>,
                   decode: Bytes -> seq<Row>, filter: Row -> bool, size: nat, before: seq<Row>, at: seq<(nat, nat)>)
    returns (out: seq<Row>, ps: seq<(nat, nat)>)
    requires size > 0 && AllAccurate(blobs, init, decode, size) && Accurate(blobs, last, decode, size)
    requires ScansTo(blobs, init, p, columns, decode, filter, size, before)
    requires Places(blobs, init, p, columns, decode, filter, size, before, at)
    ensures ScansTo(blobs, init + [last], p, columns, decode, filter, size, out)
    ensures Places(blobs, init + [last], p, columns, decode, filter, size, out, ps)
  {
    UnprunedAccurate(blobs, init + [last], decode, p, size);
    var picks := LastPicks(blobs, last, p, columns, decode, filter, size);
    var more := LastRows(blobs, init, last, p, columns, decode, filter, size, before);
    ps := PlacesMore(blobs, init, last, p, columns, decode, filter, size, before, at, more, picks);
    out := before + more;
  }

  lemma LastRows(blobs: Blobs, init: seq<Listed>, last: Listed, p: Option<Predicate>, columns: seq<Column>,
                 decode: Bytes -> seq<Row>, filter: Row -> bool, size: nat, out: seq<Row>)
    returns (more: seq<Row>)
    requires size > 0 && AllAccurate(blobs, Unpruned(init, p), decode, size) && HasData(blobs, last)
    requires AllAccurate(blobs, Unpruned(init + [last], p), decode, size)
    requires out == PrunedScan(blobs, Unpruned(init, p), decode, OpsFor(p, columns), filter, size)
    ensures more == if Pruned(p, last.zm) then []
                    else Kept(GroupRows(blobs, last, decode, OpsFor(p, columns), size), filter)
    ensures PrunedScan(blobs, Unpruned(init + [last], p), decode, OpsFor(p, columns), filter, size) == out + more
  {
    UnprunedLast(init, last, p);
    more := [];
    if !Pruned(p, last.zm) {
      more := Kept(GroupRows(blobs, last, decode, OpsFor(p, columns), size), filter);
      PrunedScanLast(blobs, Unpruned(init, p), last, decode, OpsFor(p, columns), filter, size);
    }
  }

  lemma UnprunedLast(init: seq<Listed>, last: Listed, p: Option<Predicate>)
    ensures Unpruned(init + [last], p) == if Pruned(p, last.zm) then Unpruned(init, p) else Unpruned(init, p) + [last]
  {
    assert (init + [last])[..|init|] == init;
  }

  lemma PrunedScanLast(blobs: Blobs, groups: seq<Listed>, last: Listed, decode: Bytes -> seq<Row>,
                       ops: map<Column, Op>, filter: Row -> bool, size: nat)
    requires size > 0 && (forall i :: 0 <= i < |groups| ==> HasData(blobs, groups[i])) && HasData(blobs, last)
    ensures PrunedScan(blobs, groups + [last], decode, ops, filter, size)
            == PrunedScan(blobs, groups, decode, ops, filter, size)
               + Kept(GroupRows(blobs, last, decode, ops, size), filter)
  {
    assert (groups + [last])[..|groups|] == groups;
  }

  lemma PlacesMore(blobs: Blobs, init: seq<Listed>, last: Listed, p: Option<Predicate>, columns: seq<Column>,
                   decode: Bytes -> seq<Row>, filter: Row -> bool, size: nat, out: seq<Row>, ps: seq<(nat, nat)>,
                   more: seq<Row>, at: seq<nat>)
    returns (qs: seq<(nat, nat)>)
    requires size > 0 && HasData(blobs, last) && Places(blobs, init, p, columns, decode, filter, size, out, ps)
    requires var rows := RowsOf(blobs, last, decode);
             Picks(rows, more, at, 0, |rows|, YieldedOf(blobs, last, p, columns, decode, filter, size))
    ensures Places(blobs, init + [last], p, columns, decode, filter, size, out + more, qs)
  {
    var groups, wanted := GroupsOf(blobs, init, decode), WantedOf(blobs, init, p, columns, decode, filter, size);
    var rows, w := RowsOf(blobs, last, decode), YieldedOf(blobs, last, p, columns, decode, filter, size);
    assert GroupsOf(blobs, init + [last], decode) == groups + [rows];
    assert WantedOf(blobs, init + [last], p, columns, decode, filter, size) == wanted + [w];
    qs := PlacedMore(groups, wanted, out, ps, rows, w, more, at);
  }

  /** What a scan yields: the rows in surviving chunks of unpruned row groups that the filter
      keeps, which are exactly the rows at the places described above (`YieldsPlaced`).  When
      the predicate can do with chunk pruning on the named columns, those of them that it
      accepts are the rows of a full scan that filter and predicate keep; so with a filter
      that lets nothing else through, the scan is the full scan. */
  ghost predicate ScanYields(blobs: Blobs, zones: seq<Listed>, p: Option<Predicate>, columns: seq<Column>,
                             decode: Bytes -> seq<Row>, filter: Row -> bool, size: nat, out: seq<Row>)
    requires size > 0
  {
    && AllAccurate(blobs, zones, decode, size)
    && ScansTo(blobs, zones, p, columns, decode, filter, size, out)
    && ((p.Some? ==> ChunkSafe(p.value, OpsFor(p, columns))) ==>
          && (Implies(filter, p) ==> FullyScanned(blobs, zones, decode, filter, out))
          && (p.Some? ==> FullyScanned(blobs, zones, decode, Both(filter, p.value), Kept(out, Accepting(p.value)))))
  }

  lemma YieldsPlaced(blobs: Blobs, zones: seq<Listed>, p: Option<Predicate>, columns: seq<Column>,
                     decode: Bytes -> seq<Row>, filter: Row -> bool, size: nat, out: seq<Row>)
    returns (ps: seq<(nat, nat)>)
    requires size > 0 && ScanYields(blobs, zones, p, columns, decode, filter, size, out)
    ensures Places(blobs, zones, p, columns, decode, filter, size, out, ps)
  {
    var rows;
    rows, ps := ScanPlaced(blobs, zones, p, columns, decode, filter, size);
  }

  lemma ScanMeans(blobs: Blobs, zones: seq<Listed>, p: Option<Predicate>, columns: seq<Column>,
                  decode: Bytes -> seq<Row>, filter: Row -> bool, size: nat, out: seq<Row>)
    requires size > 0 && AllAccurate(blobs, zones, decode, size)
    requires ScansTo(blobs, zones, p, columns, decode, filter, size, out)
    ensures ScanYields(blobs, zones, p, columns, decode, filter, size, out)
  {
    var groups := Unpruned(zones, p);
    if p.Some? ==> ChunkSafe(p.value, OpsFor(p, columns)) {
      if Implies(filter, p) {
        SkippedGroups(blobs, zones, decode, filter, p, size);
        SkippedInGroups(blobs, groups, decode, columns, filter, p, size);
      }
      if p.Some? {
        FilteredScan(blobs, groups, decode, OpsFor(p, columns), filter, p.value, size);
        SkippedGroups(blobs, zones, decode, Both(filter, p.value), p, size);
        SkippedInGroups(blobs, groups, decode, columns, Both(filter, p.value), p, size);
      }
    }
  }

  /** The statistics of all zone maps of a collection in the key range are true. */
  ghost predicate AccurateIn(index: ZoneMapIndex, collection: string, start: Option<Bytes>, end: Option<Bytes>,
                             decode: Bytes -> seq<Row>, size: nat)
    requires index.Valid() && size > 0
    reads index`bases, index.kernel
  {
    OkAt(index.kernel.blobs, index.kernel.roots, index.bases, collection);
    AllAccurate(index.kernel.blobs, ZonesIn(index.kernel.blobs, index.bases, collection, start, end), decode, size)
  }

  /** The scan without the counters. */
  method ScanGroups(index: ZoneMapIndex, collection: string, p: Option<Predicate>, decode: Bytes -> seq<Row>,
                    filter: Row -> bool, columns: seq<Column>, start: Option<Bytes>, end: Option<Bytes>, size: nat)
    returns (out: seq<Row>, kept: nat)
    requires index.Valid() && size > 0 && AccurateIn(index, collection, start, end, decode, size)
    modifies index`lastScanTotal
    ensures index.Valid()
    ensures var zones := ZonesIn(index.kernel.blobs, index.bases, collection, start, end);
            && ScanYields(index.kernel.blobs, zones, p, columns, decode, filter, size, out)
            && kept == |Unpruned(zones, p)| <= |zones| && (p.None? ==> kept == |zones|)
            && index.lastScanTotal == (if Indexed(index.kernel.roots, index.bases, collection) then |zones|
                                       else old(index.lastScanTotal))
            && (!Indexed(index.kernel.roots, index.bases, collection) ==> zones == [])
  {
    OkAt(index.kernel.blobs, index.kernel.roots, index.bases, collection);
    ghost var zones := ZonesIn(index.kernel.blobs, index.bases, collection, start, end);
    UnprunedAccurate(index.kernel.blobs, zones, decode, p, size);
    UnprunedCount(zones, p);
    NothingCommitted(index.kernel.blobs, start, end);
    var ops := ChunkPredicates(p, columns);
    var groups := index.ScanWithPruning(collection, p, start, end);
    out := ReadGroups(index.kernel, groups, decode, ops, filter, size);
    ScanMeans(index.kernel.blobs, zones, p, columns, decode, filter, size, out);
    kept := |groups|;
  }

  /** All surviving row groups, in key order. */
  method ReadGroups(k: ZoneKernel, groups: seq<Listed>, decode: Bytes -> seq<Row>, ops: map<Column, Op>,
                    filter: Row -> bool, size: nat)
    returns (out: seq<Row>)
    requires size > 0 && AllAccurate(k.blobs, groups, decode, size)
    ensures out == PrunedScan(k.blobs, groups, decode, ops, filter, size)
  {
    out := [];
    for i := 0 to |groups|
      invariant out == PrunedScan(k.blobs, groups[..i], decode, ops, filter, size)
    {
      assert groups[..i + 1][..i] == groups[..i];
      assert Accurate(k.blobs, groups[i], decode, size);
      var rows := ReadGroup(k, groups[i], decode, ops, filter, size);
      out := out + rows;
    }
    assert groups[..|groups|] == groups;
  }

  lemma {:induction false} UnprunedCount(list: seq<Listed>, p: Option<Predicate>)
    ensures |Unpruned(list, p)| <= |list| && (p.None? ==> |Unpruned(list, p)| == |list|)
    decreases |list|
  {
    if list != [] { UnprunedCount(list[..|list| - 1], p); }
  }

  /** When the two counters of a scan add up to the `n` zone maps in range: `before` is what
      an earlier scan left. */
  lemma AddUp(total: int, kept: nat, n: nat, every: bool, indexed: bool, before: int)
    requires total == (if indexed then n else before) && (every ==> kept == n) && (!indexed ==> kept == n == 0)
    ensures var pruned := if every then 0 else total - kept;
            kept + pruned == n <==> every || indexed || before == 0
  {
  }

  class PruningReader {
    const index: ZoneMapIndex
    const collection: string
    const pred: Option<Predicate>
    var totalRowGroups: nat
    var prunedRowGroups: int
    var rowsYielded: nat

    constructor (index: ZoneMapIndex, collection: string, pred: Option<Predicate>)
      ensures this.index == index && this.collection == collection && this.pred == pred
      ensures totalRowGroups == prunedRowGroups == rowsYielded == 0
    {
      this.index, this.collection, this.pred := index, collection, pred;
      totalRowGroups, prunedRowGroups, rowsYielded := 0, 0, 0;
    }

    /** The whole of `scan`, for any predicate, filter and columns, when the statistics are
        true with the chunk size given, and nothing else scans meanwhile.  The row groups
        counted as read and as pruned are together the zone maps in the key range exactly
        when there is no predicate, the collection has a manifest or an entry, or no earlier
        scan through the index has left a total. */
    method Scan(decode: Bytes -> seq<Row>, filter: Row -> bool, columns: seq<Column>,
                start: Option<Bytes>, end: Option<Bytes>, size: nat)
      returns (out: seq<Row>)
      requires index.Valid() && size > 0 && AccurateIn(index, collection, start, end, decode, size)
      modifies this, index`lastScanTotal
      ensures index.Valid() && rowsYielded == |out|
      ensures var zones := ZonesIn(index.kernel.blobs, index.bases, collection, start, end);
              && ScanYields(index.kernel.blobs, zones, pred, columns, decode, filter, size, out)
              && totalRowGroups == |Unpruned(zones, pred)|
              && index.lastScanTotal == (if Indexed(index.kernel.roots, index.bases, collection) then |zones|
                                         else old(index.lastScanTotal))
              && prunedRowGroups == (if pred.None? then 0 else index.lastScanTotal - totalRowGroups)
              && (totalRowGroups + prunedRowGroups == |zones| <==>
                    pred.None? || Indexed(index.kernel.roots, index.bases, collection)
                    || old(index.lastScanTotal) == 0)
    {
      ghost var before := index.lastScanTotal;
      var kept;
      out, kept := ScanGroups(index, collection, pred, decode, filter, columns, start, end, size);
      AddUp(index.lastScanTotal, kept, |ZonesIn(index.kernel.blobs, index.bases, collection, start, end)|, pred.None?,
            Indexed(index.kernel.roots, index.bases, collection), before);
      Record(kept, |out|);
    }

    /** The counters at the end of a scan that kept `kept` row groups, from what the index has
        by then. */
    method Record(kept: nat, yielded: nat)
      modifies this
      ensures totalRowGroups == kept && rowsYielded == yielded
      ensures prunedRowGroups == if pred.None? then 0 else index.lastScanTotal - kept
    {
      totalRowGroups, prunedRowGroups, rowsYielded := kept, 0, yielded;
      if pred.Some? { prunedRowGroups := index.lastScanTotal - totalRowGroups; }
    }
  }

  /** A collection that was never committed has no zone maps. */
  lemma NotIndexed(index: ZoneMapIndex, collection: string, start: Option<Bytes>, end: Option<Bytes>,
                   decode: Bytes -> seq<Row>, size: nat)
    requires index.Valid() && size > 0 && !Indexed(index.kernel.roots, index.bases, collection)
    ensures AccurateIn(index, collection, start, end, decode, size)
    ensures ZonesIn(index.kernel.blobs, index.bases, collection, start, end) == []
  {
    OkAt(index.kernel.blobs, index.kernel.roots, index.bases, collection);
    NothingCommitted(index.kernel.blobs, start, end);
  }

  /** Consumes a scan of a collection that was never committed: whatever an earlier scan
      counted, this one reports as pruned. */
  method EmptyScan(index: ZoneMapIndex, collection: string, p: Predicate, decode: Bytes -> seq<Row>,
                   filter: Row -> bool, start: Option<Bytes>, end: Option<Bytes>, size: nat)
    returns (reader: PruningReader)
    requires index.Valid() && size > 0 && !Indexed(index.kernel.roots, index.bases, collection)
    modifies index`lastScanTotal
    ensures index.Valid()
    ensures ZonesIn(index.kernel.blobs, index.bases, collection, start, end) == []
    ensures reader.totalRowGroups == 0 && reader.prunedRowGroups == old(index.lastScanTotal)
  {
    NotIndexed(index, collection, start, end, decode, size);
    reader := new PruningReader(index, collection, Some(p));
    var rows := reader.Scan(decode, filter, [], start, end, size);
  }

  /** Consumes a scan of a collection that was committed. */
  method FullScanned(index: ZoneMapIndex, collection: string, p: Predicate, decode: Bytes -> seq<Row>,
                     filter: Row -> bool, start: Option<Bytes>, end: Option<Bytes>, size: nat)
    returns (reader: PruningReader)
    requires index.Valid() && size > 0 && Indexed(index.kernel.roots, index.bases, collection)
    requires AccurateIn(index, collection, start, end, decode, size)
    modifies index`lastScanTotal
    ensures index.Valid()
    ensures index.lastScanTotal == |ZonesIn(index.kernel.blobs, index.bases, collection, start, end)|
  {
    reader := new PruningReader(index, collection, Some(p));
    var rows := reader.Scan(decode, filter, [], start, end, size);
  }

  /** Scanning a collection and then, through the same index, one that was never committed:
      all the zone maps of the first count as pruned by the second scan. */
  method StaleTotal(index: ZoneMapIndex, first: string, second: string, p: Predicate, decode: Bytes -> seq<Row>,
                    filter: Row -> bool, start: Option<Bytes>, end: Option<Bytes>, size: nat)
    returns (reader: PruningReader)
    requires index.Valid() && size > 0
    requires AccurateIn(index, first, start, end, decode, size) && Indexed(index.kernel.roots, index.bases, first)
    requires !Indexed(index.kernel.roots, index.bases, second)
    modifies index`lastScanTotal
    ensures index.Valid() && reader.totalRowGroups == 0
    ensures ZonesIn(index.kernel.blobs, index.bases, second, start, end) == []
    ensures reader.prunedRowGroups == |ZonesIn(index.kernel.blobs, index.bases, first, start, end)|
  {
    reader := FullScanned(index, first, p, decode, filter, start, end, size);
    reader := EmptyScan(index, second, p, decode, filter, start, end, size);
  }

  /** A scan that has read all its row groups and not yet entered its counts. */
  method Unfinished(index: ZoneMapIndex, collection: string, p: Predicate, decode: Bytes -> seq<Row>,
                    filter: Row -> bool, start: Option<Bytes>, end: Option<Bytes>, size: nat)
    returns (reader: PruningReader, kept: nat, yielded: nat)
    requires index.Valid() && size > 0 && Indexed(index.kernel.roots, index.bases, collection)
    requires AccurateIn(index, collection, start, end, decode, size)
    modifies index`lastScanTotal
    ensures fresh(reader) && reader.index == index && reader.pred == Some(p)
    ensures kept == |Unpruned(ZonesIn(index.kernel.blobs, index.bases, collection, start, end), Some(p))|
  {
    reader := new PruningReader(index, collection, Some(p));
    var rows;
    rows, kept := ScanGroups(index, collection, Some(p), decode, filter, [], start, end, size);
    yielded := |rows|;
  }

  /** Consumes a scan and says where each row that it yields stands, by row group and position:
      exactly the rows that the filter keeps, in unpruned row groups, in chunks that the last
      predicate on no named column rules out, in the order of groups and positions. */
  method ScanWithPlaces(reader: PruningReader, decode: Bytes -> seq<Row>, filter: Row -> bool, columns: seq<Column>,
                        start: Option<Bytes>, end: Option<Bytes>, size: nat)
    returns (out: seq<Row>, ghost ps: seq<(nat, nat)>)
    requires reader.index.Valid() && size > 0
    requires AccurateIn(reader.index, reader.collection, start, end, decode, size)
    modifies reader, reader.index`lastScanTotal
    ensures reader.index.Valid()
    ensures var index := reader.index;
            Places(index.kernel.blobs, ZonesIn(index.kernel.blobs, index.bases, reader.collection, start, end),
                   reader.pred, columns, decode, filter, size, out, ps)
  {
    out := reader.Scan(decode, filter, columns, start, end, size);
    ps := YieldsPlaced(reader.index.kernel.blobs,
                       ZonesIn(reader.index.kernel.blobs, reader.index.bases, reader.collection, start, end),
                       reader.pred, columns, decode, filter, size, out);
  }

  /** Another collection is scanned before the counts of a scan are entered. */
  method Overtaken(reader: PruningReader, kept: nat, yielded: nat, second: string, p: Predicate,
                   decode: Bytes -> seq<Row>, filter: Row -> bool, start: Option<Bytes>, end: Option<Bytes>, size: nat)
    requires reader.pred == Some(p) && reader.index.Valid() && size > 0
    requires Indexed(reader.index.kernel.roots, reader.index.bases, second)
    requires AccurateIn(reader.index, second, start, end, decode, size)
    modifies reader, reader.index`lastScanTotal
    ensures reader.index.Valid() && reader.totalRowGroups == kept
    ensures reader.prunedRowGroups
            == |ZonesIn(reader.index.kernel.blobs, reader.index.bases, second, start, end)| - kept
  {
    var other := FullScanned(reader.index, second, p, decode, filter, start, end, size);
    reader.Record(kept, yielded);
  }

  /** Two scans through one index of which the second starts before the first has ended: the
      first counts with the total of the second. */
  method Interleaved(index: ZoneMapIndex, first: string, second: string, p: Predicate, decode: Bytes -> seq<Row>,
                     filter: Row -> bool, start: Option<Bytes>, end: Option<Bytes>, size: nat)
    returns (reader: PruningReader)
    requires index.Valid() && size > 0
    requires AccurateIn(index, first, start, end, decode, size) && Indexed(index.kernel.roots, index.bases, first)
    requires AccurateIn(index, second, start, end, decode, size) && Indexed(index.kernel.roots, index.bases, second)
    modifies index`lastScanTotal
    ensures index.Valid()
    ensures var one := ZonesIn(index.kernel.blobs, index.bases, first, start, end);
            var two := ZonesIn(index.kernel.blobs, index.bases, second, start, end);
            reader.totalRowGroups == |Unpruned(one, Some(p))| && reader.prunedRowGroups == |two| - reader.totalRowGroups
  {
    var kept, yielded;
    reader, kept, yielded := Unfinished(index, first, p, decode, filter, start, end, size);
    ghost var one := ZonesIn(index.kernel.blobs, index.bases, first, start, end);
    Overtaken(reader, kept, yielded, second, p, decode, filter, start, end, size);
    assert ZonesIn(index.kernel.blobs, index.bases, first, start, end) == one;
  }
}
