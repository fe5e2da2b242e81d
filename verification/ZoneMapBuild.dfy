/** How zone maps are computed from rows: one pass that accumulates bounds and null counts,
    and the same statistics chunk by chunk. */
module ZoneMapBuild {
  import opened Basics
  import opened Pruning

  function Lookup<V>(m: map<Column, V>, col: Column): Option<V> {
    if col in m then Some(m[col]) else None
  }

  /** An empty list of columns selects all of them. */
  predicate Selected(columns: seq<Column>, col: Column) {
    columns == [] || col in columns
  }

  predicate Mentioned(rows: seq<Row>, col: Column) {
    exists i :: 0 <= i < |rows| && col in rows[i]
  }

  /** The zone map has for a column exactly its bounds and its null count. */
  ghost predicate ExactFor(zm: ZoneMap, rows: seq<Row>, columns: seq<Column>, col: Column) {
    if Selected(columns, col) then
      && Lookup(zm.min, col) == MinIn(rows, col) && Lookup(zm.max, col) == MaxIn(rows, col)
      && Lookup(zm.nullCount, col) == if Mentioned(rows, col) then Some(NullsIn(rows, col)) else None
    else col !in zm.min && col !in zm.max && col !in zm.nullCount
  }

  ghost predicate Exact(zm: ZoneMap, rows: seq<Row>, columns: seq<Column>) {
    forall col {:trigger ExactFor(zm, rows, columns, col)} :: ExactFor(zm, rows, columns, col)
  }

  /** What the statistics of a zone map are: attained bounds, and the number of nulls of every
      column that occurs; all that for the columns asked for, and nothing for the others. */
  lemma ExactMeans(zm: ZoneMap, rows: seq<Row>, columns: seq<Column>, col: Column)
    requires Exact(zm, rows, columns)
    ensures columns == [] || col in columns ==>
              && IsMin(rows, col, Lookup(zm.min, col)) && IsMax(rows, col, Lookup(zm.max, col))
              && (col in zm.nullCount <==> exists i :: 0 <= i < |rows| && col in rows[i])
              && (col in zm.nullCount ==> zm.nullCount[col] == |NullsAt(rows, col, |rows|)|)
    ensures columns != [] && col !in columns ==> col !in zm.min && col !in zm.max && col !in zm.nullCount
  {
    assert ExactFor(zm, rows, columns, col);
    MinIsMin(rows, col);
    MaxIsMax(rows, col);
    NullsCounted(rows, col, |rows|);
    assert rows[..|rows|] == rows;
  }

  /** An exact zone map covers the rows. */
  lemma ExactCovers(zm: ZoneMap, rows: seq<Row>, columns: seq<Column>)
    requires Exact(zm, rows, columns)
    ensures Covers(zm, rows)
  {
    forall col, i | col in zm.min && col in zm.max && 0 <= i < |rows| && CellOf(rows[i], col).Some?
      ensures zm.min[col] <= CellOf(rows[i], col).value <= zm.max[col]
    {
      assert ExactFor(zm, rows, columns, col);
      MinIsMin(rows, col);
      MaxIsMax(rows, col);
    }
  }

  /** A row that does not have the column changes nothing. */
  lemma RowWithout(zm: ZoneMap, rows: seq<Row>, row: Row, columns: seq<Column>, col: Column)
    requires ExactFor(zm, rows, columns, col) && col !in row
    ensures ExactFor(zm, rows + [row], columns, col)
  {
    assert (rows + [row])[..|rows|] == rows;
    MentionedMore(rows, row, col);
  }

  lemma MentionedMore(rows: seq<Row>, row: Row, col: Column)
    ensures Mentioned(rows + [row], col) <==> Mentioned(rows, col) || col in row
  {
    var more := rows + [row];
    if Mentioned(rows, col) {
      var i :| 0 <= i < |rows| && col in rows[i];
      assert col in more[i];
    }
    if col in row { assert col in more[|rows|]; }
  }

  /** One entry of a row. */
  function Entered(zm: ZoneMap, col: Column, cell: Cell): ZoneMap {
    match cell
    case Null => zm.(nullCount := zm.nullCount[col := (if col in zm.nullCount then zm.nullCount[col] else 0) + 1])
    case Val(x) =>
      var lo := if col in zm.min && zm.min[col] <= x then zm.min[col] else x;
      var hi := if col in zm.min && col in zm.max && zm.max[col] >= x then zm.max[col] else x;
      zm.(min := zm.min[col := lo], max := zm.max[col := hi],
          nullCount := zm.nullCount[col := if col in zm.nullCount then zm.nullCount[col] else 0])
  }

  lemma RowWith(zm: ZoneMap, rows: seq<Row>, row: Row, columns: seq<Column>, col: Column)
    requires ExactFor(zm, rows, columns, col) && col in row && Selected(columns, col)
    ensures ExactFor(Entered(zm, col, row[col]), rows + [row], columns, col)
  {
    assert (rows + [row])[..|rows|] == rows;
    MentionedMore(rows, row, col);
    if !Mentioned(rows, col) { NotMentioned(rows, col); }
    MinIsMin(rows, col);
    MaxIsMax(rows, col);
  }

  lemma {:induction false} NotMentioned(rows: seq<Row>, col: Column)
    requires !Mentioned(rows, col)
    ensures NullsIn(rows, col) == 0 && MinIn(rows, col) == None && MaxIn(rows, col) == None
    decreases |rows|
  {
    if rows != [] {
      var last := |rows| - 1;
      assert col !in rows[last];
      forall i | 0 <= i < last ensures col !in rows[..last][i] {
        assert rows[..last][i] == rows[i];
      }
      NotMentioned(rows[..last], col);
    }
  }

  /** While a row is being entered: the columns in `todo` do not count it yet. */
  ghost predicate Entering(zm: ZoneMap, rows: seq<Row>, row: Row, todo: set<Column>, columns: seq<Column>) {
    forall col {:trigger col in todo} ::
      ExactFor(zm, if col in todo then rows else rows + [row], columns, col)
  }

  lemma EnterOne(zm: ZoneMap, rows: seq<Row>, row: Row, todo: set<Column>, columns: seq<Column>, col: Column,
                 next: ZoneMap)
    requires Entering(zm, rows, row, todo, columns) && col in todo && col in row
    requires next == if Selected(columns, col) then Entered(zm, col, row[col]) else zm
    ensures Entering(next, rows, row, todo - {col}, columns)
  {
    forall c ensures ExactFor(next, if c in todo - {col} then rows else rows + [row], columns, c) {
      assert c in todo ==> ExactFor(zm, rows, columns, c);
      if c == col {
        if Selected(columns, col) { RowWith(zm, rows, row, columns, col); }
      } else {
        assert ExactFor(zm, if c in todo then rows else rows + [row], columns, c);
      }
    }
  }

  /** The JSON accumulation of `_compute_zone_map`. */
  method ComputeZoneMap(rows: seq<Row>, columns: seq<Column>, rowCount: nat) returns (zm: ZoneMap)
    ensures Exact(zm, rows, columns) && Covers(zm, rows) && zm.chunks.None?
    ensures zm.rowCount == if rows == [] then rowCount else |rows|
  {
    zm := ZoneMap(map[], map[], map[], if rows == [] then rowCount else |rows|, None);
    for i := 0 to |rows|
      invariant Exact(zm, rows[..i], columns) && zm.chunks.None?
      invariant zm.rowCount == if rows == [] then rowCount else |rows|
    {
      var todo := rows[i].Keys;
      EnterStarts(zm, rows[..i], rows[i], columns);
      while todo != {}
        invariant todo <= rows[i].Keys && Entering(zm, rows[..i], rows[i], todo, columns) && zm.chunks.None?
        invariant zm.rowCount == if rows == [] then rowCount else |rows|
      {
        var col :| col in todo;
        ghost var before := zm;
        if Selected(columns, col) {
          zm := Entered(zm, col, rows[i][col]);
        }
        EnterOne(before, rows[..i], rows[i], todo, columns, col, zm);
        todo := todo - {col};
      }
      ghost var done := rows[..i + 1];
      assert done == rows[..i] + [rows[i]];
      forall col ensures ExactFor(zm, done, columns, col) { assert col !in todo; }
    }
    assert rows[..|rows|] == rows;
    ExactCovers(zm, rows, columns);
  }

  lemma EnterStarts(zm: ZoneMap, rows: seq<Row>, row: Row, columns: seq<Column>)
    requires Exact(zm, rows, columns)
    ensures Entering(zm, rows, row, row.Keys, columns)
  {
    forall col ensures ExactFor(zm, if col in row.Keys then rows else rows + [row], columns, col) {
      assert ExactFor(zm, rows, columns, col);
      if col !in row { RowWithout(zm, rows, row, columns, col); }
    }
  }

  /** `compute_list_stats` of a slice of a column, in which a missing value reads as null. */
  method ListStats(rows: seq<Row>, col: Column) returns (lo: Option<int>, hi: Option<int>, nulls: nat)
    ensures lo == MinIn(rows, col) && hi == MaxIn(rows, col) && nulls == ValuelessIn(rows, col)
  {
    lo, hi, nulls := None, None, 0;
    for i := 0 to |rows|
      invariant lo == MinIn(rows[..i], col) && hi == MaxIn(rows[..i], col) && nulls == ValuelessIn(rows[..i], col)
      invariant lo.Some? <==> hi.Some?
      invariant lo.Some? ==> lo.value <= hi.value
    {
      assert rows[..i + 1][..i] == rows[..i];
      var v := CellOf(rows[i], col);
      if v.None? {
        nulls := nulls + 1;
      } else if lo.None? {
        lo, hi := v, v;
      } else if v.value < lo.value {
        lo := v;
      } else if v.value > hi.value {
        hi := v;
      }
    }
    assert rows[..|rows|] == rows;
  }

  /** `ColumnChunkZoneMap.build` */
  method BuildChunks(rows: seq<Row>, columns: set<Column>, size: nat) returns (chunks: ColumnChunks)
    requires size > 0
    ensures chunks.Keys == columns && ChunksTrue(chunks, rows, size)
  {
    chunks := map[];
    var todo := columns;
    while todo != {}
      invariant todo <= columns && chunks.Keys == columns - todo && ChunksTrue(chunks, rows, size)
    {
      var col :| col in todo;
      var list := ColumnStats(rows, col, size);
      chunks := chunks[col := list];
      todo := todo - {col};
    }
  }

  method ColumnStats(rows: seq<Row>, col: Column, size: nat) returns (list: seq<ChunkStats>)
    requires size > 0
    ensures |list| == ChunkCount(|rows|, size)
    ensures forall k :: 0 <= k < |list| ==> list[k] == StatsOf(rows, col, size, k)
  {
    list := [];
    var start := 0;
    while start < |rows|
      invariant start == |list| * size
      invariant |list| + ChunkCount(if start <= |rows| then |rows| - start else 0, size) == ChunkCount(|rows|, size)
      invariant forall k :: 0 <= k < |list| ==> list[k] == StatsOf(rows, col, size, k)
    {
      var end := if start + size <= |rows| then start + size else |rows|;
      assert (|list| + 1) * size == start + size;
      assert rows[start..end] == ChunkRows(rows, size, |list|);
      var lo, hi, nulls := ListStats(rows[start..end], col);
      list := list + [ChunkStats(lo, hi, nulls, end - start, |list|)];
      start := start + size;
    }
  }
}
