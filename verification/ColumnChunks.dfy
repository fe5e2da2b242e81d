/** Column-chunk storage: every column of a row group is split into chunk blobs, and read
    back in full or for the surviving chunks only. */
module ColumnChunks {
  import opened Basics
  import opened Kernel
  import opened Pruning
  import opened PruningReader
  import opened ZoneMapBuild

  type Cells = seq<Cell>

  datatype ColumnBlob =
    | ChunkBlob(bytes: Bytes)
    | ColumnManifest(key: Bytes, rowCount: nat, size: nat, columns: map<Column, seq<Bytes>>)

  type ColumnBlobs = map<Bytes, ColumnBlob>

  type ColumnKernel = MemoryKernel<ColumnBlob, Bytes, string>

  /** One column of some rows; a missing value reads as null. */
  function ColumnOf(rows: seq<Row>, col: Column): (cells: Cells)
    ensures |cells| == |rows|
    ensures forall i :: 0 <= i < |cells| ==> cells[i] == if col in rows[i] then rows[i][col] else Null
  {
    seq(|rows|, i requires 0 <= i < |rows| => if col in rows[i] then rows[i][col] else Null)
  }

  lemma ColumnAppend(a: seq<Row>, b: seq<Row>, col: Column)
    ensures ColumnOf(a + b, col) == ColumnOf(a, col) + ColumnOf(b, col)
  {}

  /** A chunk as the zone map lists it: its statistics and where it is stored, if anywhere. */
  datatype StoredChunk = StoredChunk(stats: ChunkStats, blob: Option<Bytes>)

  /** The blob decodes to the cells. */
  ghost predicate Holds(blobs: ColumnBlobs, h: Bytes, cells: Cells, decode: Bytes -> Cells) {
    h in blobs && blobs[h].ChunkBlob? && decode(blobs[h].bytes) == cells
  }

  /** The blobs are the chunks of the column, in order. */
  ghost predicate ColumnStored(blobs: ColumnBlobs, hashes: seq<Bytes>, rows: seq<Row>, col: Column, size: nat,
                               decode: Bytes -> Cells)
    requires size > 0
  {
    && |hashes| == ChunkCount(|rows|, size)
    && forall k :: 0 <= k < |hashes| ==> Holds(blobs, hashes[k], ColumnOf(ChunkRows(rows, size, k), col), decode)
  }

  ghost predicate AllStored(blobs: ColumnBlobs, chunks: map<Column, seq<Bytes>>, rows: seq<Row>, size: nat,
                            decode: Bytes -> Cells)
    requires size > 0
  {
    forall col :: col in chunks ==> ColumnStored(blobs, chunks[col], rows, col, size, decode)
  }

  /** The listed chunks are those of the column, in order; each that has an address is stored
      there. */
  ghost predicate ColumnListed(blobs: ColumnBlobs, list: seq<StoredChunk>, rows: seq<Row>, col: Column, size: nat,
                               decode: Bytes -> Cells)
    requires size > 0
  {
    && |list| == ChunkCount(|rows|, size)
    && forall k :: 0 <= k < |list| ==>
         && list[k].stats.index == k
         && (list[k].blob.Some? ==> Holds(blobs, list[k].blob.value, ColumnOf(ChunkRows(rows, size, k), col), decode))
  }

  ghost predicate AllListed(blobs: ColumnBlobs, zone: map<Column, seq<StoredChunk>>, rows: seq<Row>, size: nat,
                            decode: Bytes -> Cells)
    requires size > 0
  {
    forall col :: col in zone ==> ColumnListed(blobs, zone[col], rows, col, size, decode)
  }

  /** Each chunk has its true statistics. */
  ghost predicate StatsTrue(list: seq<StoredChunk>, rows: seq<Row>, col: Column, size: nat)
    requires size > 0
  {
    forall k :: 0 <= k < |list| ==> list[k].stats == StatsOf(rows, col, size, k)
  }

  /** The zone map lists what the manifest does, with addresses and true statistics. */
  ghost predicate Described(zone: map<Column, seq<StoredChunk>>, chunks: map<Column, seq<Bytes>>, rows: seq<Row>,
                            size: nat)
    requires size > 0
  {
    zone.Keys == chunks.Keys && forall col :: col in zone ==> DescribedOne(zone[col], chunks[col], rows, col, size)
  }

  ghost predicate DescribedOne(list: seq<StoredChunk>, hashes: seq<Bytes>, rows: seq<Row>, col: Column, size: nat)
    requires size > 0
  {
    && |list| == |hashes| && StatsTrue(list, rows, col, size)
    && forall k :: 0 <= k < |list| ==> list[k].blob == Some(hashes[k])
  }

  /** What was written can be read. */
  lemma DescribedListed(blobs: ColumnBlobs, zone: map<Column, seq<StoredChunk>>, chunks: map<Column, seq<Bytes>>,
                        rows: seq<Row>, size: nat, decode: Bytes -> Cells)
    requires size > 0 && Described(zone, chunks, rows, size) && AllStored(blobs, chunks, rows, size, decode)
    ensures AllListed(blobs, zone, rows, size, decode)
  {
    forall col | col in zone ensures ColumnListed(blobs, zone[col], rows, col, size, decode) {
      assert DescribedOne(zone[col], chunks[col], rows, col, size);
      assert ColumnStored(blobs, chunks[col], rows, col, size, decode);
    }
  }

  /** Decoding undoes encoding, whatever the column. */
  ghost predicate Inverse(encode: (Column, Cells) -> Bytes, decode: Bytes -> Cells) {
    forall col, cells :: decode(encode(col, cells)) == cells
  }

  lemma StoredGrown(before: ColumnBlobs, after: ColumnBlobs, hashes: seq<Bytes>, rows: seq<Row>, col: Column, size: nat,
                    decode: Bytes -> Cells)
    requires size > 0 && ColumnStored(before, hashes, rows, col, size, decode) && Grown(before, after)
    ensures ColumnStored(after, hashes, rows, col, size, decode)
  {
    forall k | 0 <= k < |hashes| ensures Holds(after, hashes[k], ColumnOf(ChunkRows(rows, size, k), col), decode) {
      assert Holds(before, hashes[k], ColumnOf(ChunkRows(rows, size, k), col), decode);
    }
  }

  // ---------- writing ----------

  /** Writes the chunks of one column and computes their statistics. */
  method WriteColumn(k: ColumnKernel, rows: seq<Row>, col: Column, size: nat, encode: (Column, Cells) -> Bytes,
                     ghost decode: Bytes -> Cells)
    returns (hashes: seq<Bytes>, list: seq<StoredChunk>)
    requires k.Valid() && size > 0 && Inverse(encode, decode)
    modifies k
    ensures k.Valid() && Grown(old(k.blobs), k.blobs) && (k.collisionFree ==> old(k.collisionFree))
    ensures k.collisionFree ==> ColumnStored(k.blobs, hashes, rows, col, size, decode)
    ensures DescribedOne(list, hashes, rows, col, size)
  {
    hashes, list := [], [];
    var start := 0;
    while start < |rows|
      invariant k.Valid() && Grown(old(k.blobs), k.blobs) && (k.collisionFree ==> old(k.collisionFree))
      invariant start == |hashes| * size
      invariant |hashes| + ChunkCount(if start <= |rows| then |rows| - start else 0, size) == ChunkCount(|rows|, size)
      invariant k.collisionFree ==>
          forall i :: 0 <= i < |hashes| ==> Holds(k.blobs, hashes[i], ColumnOf(ChunkRows(rows, size, i), col), decode)
      invariant DescribedOne(list, hashes, rows, col, size)
    {
      var end := if start + size <= |rows| then start + size else |rows|;
      assert (|hashes| + 1) * size == start + size;
      assert rows[start..end] == ChunkRows(rows, size, |hashes|);
      var h := WriteChunk(k, encode(col, ColumnOf(rows[start..end], col)));
      var lo, hi, nulls := ListStats(rows[start..end], col);
      var stats := ChunkStats(lo, hi, nulls, end - start, |list|);
      DescribedMore(list, hashes, rows, col, size, stats, h);
      hashes, list := hashes + [h], list + [StoredChunk(stats, Some(h))];
      start := start + size;
    }
  }

  lemma DescribedMore(list: seq<StoredChunk>, hashes: seq<Bytes>, rows: seq<Row>, col: Column, size: nat,
                      stats: ChunkStats, h: Bytes)
    requires size > 0 && DescribedOne(list, hashes, rows, col, size) && stats == StatsOf(rows, col, size, |list|)
    ensures DescribedOne(list + [StoredChunk(stats, Some(h))], hashes + [h], rows, col, size)
  {}

  method WriteChunk(k: ColumnKernel, bytes: Bytes) returns (h: Bytes)
    requires k.Valid()
    modifies k
    ensures k.Valid() && Grown(old(k.blobs), k.blobs) && (k.collisionFree ==> old(k.collisionFree))
    ensures k.collisionFree ==> h in k.blobs && k.blobs[h] == ChunkBlob(bytes)
  {
    h := k.Write(ChunkBlob(bytes));
  }

  /** `write_row_group_column_chunks` */
  method WriteRowGroup(k: ColumnKernel, key: Bytes, rows: seq<Row>, columns: set<Column>, size: nat,
                       encode: (Column, Cells) -> Bytes, ghost decode: Bytes -> Cells)
    returns (manifest: Bytes, chunks: map<Column, seq<Bytes>>, zone: map<Column, seq<StoredChunk>>)
    requires k.Valid() && size > 0 && Inverse(encode, decode)
    modifies k
    ensures k.Valid() && Grown(old(k.blobs), k.blobs) && chunks.Keys == columns
    ensures Described(zone, chunks, rows, size)
    ensures k.collisionFree ==>
              && AllStored(k.blobs, chunks, rows, size, decode) && AllListed(k.blobs, zone, rows, size, decode)
              && manifest in k.blobs && k.blobs[manifest] == ColumnManifest(key, |rows|, size, chunks)
  {
    chunks, zone := map[], map[];
    var todo := columns;
    while todo != {}
      invariant k.Valid() && Grown(old(k.blobs), k.blobs)
      invariant todo <= columns && chunks.Keys == columns - todo && Described(zone, chunks, rows, size)
      invariant k.collisionFree ==> AllStored(k.blobs, chunks, rows, size, decode)
    {
      var col :| col in todo;
      ghost var before := k.blobs;
      var hashes, list := WriteColumn(k, rows, col, size, encode, decode);
      if k.collisionFree { AllGrown(before, k.blobs, chunks, rows, size, decode); }
      chunks, zone := chunks[col := hashes], zone[col := list];
      todo := todo - {col};
    }
    ghost var before := k.blobs;
    manifest := k.Write(ColumnManifest(key, |rows|, size, chunks));
    if k.collisionFree {
      AllGrown(before, k.blobs, chunks, rows, size, decode);
      DescribedListed(k.blobs, zone, chunks, rows, size, decode);
    }
  }

  lemma AllGrown(before: ColumnBlobs, after: ColumnBlobs, chunks: map<Column, seq<Bytes>>, rows: seq<Row>, size: nat,
                 decode: Bytes -> Cells)
    requires size > 0 && AllStored(before, chunks, rows, size, decode) && Grown(before, after)
    ensures AllStored(after, chunks, rows, size, decode)
  {
    forall col | col in chunks ensures ColumnStored(after, chunks[col], rows, col, size, decode) {
      StoredGrown(before, after, chunks[col], rows, col, size, decode);
    }
  }

  // ---------- reading ----------

  function Joined(lists: seq<Cells>): Cells {
    if lists == [] then [] else Joined(lists[..|lists| - 1]) + lists[|lists| - 1]
  }

  lemma JoinedMore(lists: seq<Cells>, list: Cells)
    ensures Joined(lists + [list]) == Joined(lists) + list
  {
    assert (lists + [list])[..|lists|] == lists;
  }

  /** Reads all chunks of one column. */
  method ReadColumn(k: ColumnKernel, hashes: seq<Bytes>, decode: Bytes -> Cells,
                    ghost rows: seq<Row>, ghost col: Column, ghost size: nat)
    returns (values: Cells)
    requires size > 0 && ColumnStored(k.blobs, hashes, rows, col, size, decode)
    ensures values == ColumnOf(rows, col)
  {
    values := [];
    for i := 0 to |hashes|
      invariant values == ColumnOf(FirstChunks(rows, size, i), col)
    {
      assert Holds(k.blobs, hashes[i], ColumnOf(ChunkRows(rows, size, i), col), decode);
      var blob := k.ReadBlob(hashes[i]);
      ColumnAppend(FirstChunks(rows, size, i), ChunkRows(rows, size, i), col);
      values := values + decode(blob.value.bytes);
    }
    AllChunks(rows, size);
  }

  predicate Wanted(c: StoredChunk, surviving: Option<set<nat>>) {
    surviving.None? || c.stats.index in surviving.value
  }

  /** Every wanted chunk has an address. */
  predicate Addressed(list: seq<StoredChunk>, surviving: Option<set<nat>>) {
    forall k :: 0 <= k < |list| && Wanted(list[k], surviving) ==> list[k].blob.Some?
  }

  /** Reads the wanted chunks of one column, unless one of them has no address. */
  method ReadWanted(k: ColumnKernel, list: seq<StoredChunk>, surviving: Option<set<nat>>, decode: Bytes -> Cells,
                    ghost rows: seq<Row>, ghost col: Column, ghost size: nat)
    returns (lists: Option<seq<Cells>>)
    requires size > 0 && ColumnListed(k.blobs, list, rows, col, size, decode)
    ensures lists.Some? <==> Addressed(list, surviving)
    ensures lists.Some? ==> Joined(lists.value) == ColumnOf(Selected(rows, surviving, size), col)
  {
    var read: seq<Cells> := [];
    for i := 0 to |list|
      invariant forall j :: 0 <= j < i && Wanted(list[j], surviving) ==> list[j].blob.Some?
      invariant Joined(read) == ColumnOf(SelectedUpTo(rows, surviving, size, i), col)
    {
      if Wanted(list[i], surviving) {
        if list[i].blob.None? { return None; }
        assert Holds(k.blobs, list[i].blob.value, ColumnOf(ChunkRows(rows, size, i), col), decode);
        var blob := k.ReadBlob(list[i].blob.value);
        var values := decode(blob.value.bytes);
        JoinedMore(read, values);
        ColumnAppend(SelectedUpTo(rows, surviving, size, i), ChunkRows(rows, size, i), col);
        read := read + [values];
      } else {
        assert SelectedUpTo(rows, surviving, size, i + 1) == SelectedUpTo(rows, surviving, size, i);
      }
    }
    if surviving.None? { AllChunks(rows, size); }
    return Some(read);
  }

  /** The rows of the surviving chunks below `n`. */
  function SelectedUpTo(rows: seq<Row>, surviving: Option<set<nat>>, size: nat, n: nat): seq<Row>
    requires size > 0
  {
    if surviving.None? then FirstChunks(rows, size, n) else RowSlice(rows, surviving.value, size, n)
  }

  /** The rows at the positions of the surviving chunks. */
  function Selected(rows: seq<Row>, surviving: Option<set<nat>>, size: nat): seq<Row>
    requires size > 0
  {
    if surviving.None? then rows else RowSlice(rows, surviving.value, size, ChunkCount(|rows|, size))
  }

  /** `read_full_row_group`: splitting and concatenating restores every column. */
  method ReadFullRowGroup(k: ColumnKernel, manifest: Bytes, decode: Bytes -> Cells,
                          ghost rows: seq<Row>, ghost size: nat)
    returns (columns: map<Column, Cells>)
    requires manifest in k.blobs && k.blobs[manifest].ColumnManifest? && size > 0
    requires AllStored(k.blobs, k.blobs[manifest].columns, rows, size, decode)
    ensures columns.Keys == k.blobs[manifest].columns.Keys
    ensures forall col :: col in columns ==> columns[col] == ColumnOf(rows, col)
  {
    var blob := k.ReadBlob(manifest);
    var chunks := blob.value.columns;
    columns := map[];
    var todo := chunks.Keys;
    while todo != {}
      invariant todo <= chunks.Keys && columns.Keys == chunks.Keys - todo
      invariant forall col :: col in columns ==> columns[col] == ColumnOf(rows, col)
    {
      var col :| col in todo;
      var values := ReadColumn(k, chunks[col], decode, rows, col, size);
      columns := columns[col := values];
      todo := todo - {col};
    }
  }

  /** `read_column_chunks`: what a columnar read of the surviving chunks concatenates to is
      the column of the rows at their positions; nothing at all when a chunk to be read has no
      address. */
  method ReadColumnChunks(k: ColumnKernel, zone: map<Column, seq<StoredChunk>>, columns: seq<Column>,
                          surviving: Option<set<nat>>, decode: Bytes -> Cells,
                          ghost rows: seq<Row>, ghost size: nat)
    returns (result: map<Column, seq<Cells>>)
    requires size > 0 && AllListed(k.blobs, zone, rows, size, decode)
    ensures (forall col :: col in columns && col in zone ==> Addressed(zone[col], surviving)) ==>
              forall col :: col in result <==> col in columns && col in zone
    ensures (exists col :: col in columns && col in zone && !Addressed(zone[col], surviving)) ==> result == map[]
    ensures forall col :: col in result ==> Joined(result[col]) == ColumnOf(Selected(rows, surviving, size), col)
  {
    result := map[];
    for i := 0 to |columns|
      invariant forall col :: col in result <==> col in columns[..i] && col in zone
      invariant forall col :: col in result ==> Addressed(zone[col], surviving)
      invariant forall col :: col in result ==> Joined(result[col]) == ColumnOf(Selected(rows, surviving, size), col)
    {
      assert columns[..i + 1] == columns[..i] + [columns[i]];
      if columns[i] in zone {
        var lists := ReadWanted(k, zone[columns[i]], surviving, decode, rows, columns[i], size);
        if lists.None? { return map[]; }
        result := result[columns[i] := lists.value];
      }
    }
    assert columns[..|columns|] == columns;
  }
}
