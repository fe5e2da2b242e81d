/** Writing row groups so that scans may trust their statistics. */
module RowGroups {
  import opened Basics
  import opened Kernel
  import opened History
  import opened Pruning
  import opened ZoneMapBuild
  import opened ZoneMapIndex
  import opened PruningReader

  /** The entries whose statistics are not true of their data. */
  ghost function Wrong(blobs: Blobs, m: State, decode: Bytes -> seq<Row>, size: nat): set<Bytes>
    requires size > 0
  {
    set k | k in m && !(IsZone(blobs, m[k]) && Accurate(blobs, Zone(blobs, Entry(k, m[k])), decode, size))
  }

  ghost predicate Truthful(blobs: Blobs, m: State, decode: Bytes -> seq<Row>, size: nat)
    requires size > 0
  {
    Wrong(blobs, m, decode, size) == {}
  }

  lemma TruthfulAt(blobs: Blobs, m: State, decode: Bytes -> seq<Row>, size: nat, k: Bytes)
    requires size > 0 && Truthful(blobs, m, decode, size) && k in m
    ensures IsZone(blobs, m[k]) && Accurate(blobs, Zone(blobs, Entry(k, m[k])), decode, size)
  {
    assert k !in Wrong(blobs, m, decode, size);
  }

  lemma TruthfulGrown(before: Blobs, after: Blobs, m: State, decode: Bytes -> seq<Row>, size: nat)
    requires size > 0 && Truthful(before, m, decode, size) && Grown(before, after)
    ensures Truthful(after, m, decode, size)
  {
    forall k | k in m ensures IsZone(after, m[k]) && Accurate(after, Zone(after, Entry(k, m[k])), decode, size) {
      TruthfulAt(before, m, decode, size, k);
    }
  }

  /** Committing keeps every statistic true. */
  lemma TruthfulApplied(blobs: Blobs, m: State, plus: State, minus: set<Bytes>, decode: Bytes -> seq<Row>, size: nat)
    requires size > 0 && Truthful(blobs, m, decode, size) && Truthful(blobs, plus, decode, size)
    ensures Truthful(blobs, Apply(m, plus, minus), decode, size)
  {
    var all := Apply(m, plus, minus);
    forall k | k in all ensures IsZone(blobs, all[k]) && Accurate(blobs, Zone(blobs, Entry(k, all[k])), decode, size) {
      if k in plus { TruthfulAt(blobs, plus, decode, size, k); } else { TruthfulAt(blobs, m, decode, size, k); }
    }
  }

  /** What a scan requires of the statistics. */
  lemma TruthfulScans(blobs: Blobs, m: State, decode: Bytes -> seq<Row>, size: nat, start: Option<Bytes>,
                      end: Option<Bytes>)
    requires size > 0 && Truthful(blobs, m, decode, size) && AllZones(blobs, m)
    ensures AllAccurate(blobs, ZonesOf(blobs, m, start, end), decode, size)
  {
    var keys := KeysInRange(m, start, end);
    KeysStored(blobs, m, start, end);
    forall i | 0 <= i < |keys| ensures Accurate(blobs, Zone(blobs, keys[i]), decode, size) {
      var k := KeyKnown(m, start, end, i);
      TruthfulAt(blobs, m, decode, size, k);
    }
  }

  /** A listed key is a committed one. */
  lemma KeyKnown(m: State, start: Option<Bytes>, end: Option<Bytes>, i: nat) returns (k: Bytes)
    requires i < |KeysInRange(m, start, end)|
    ensures k in m && KeysInRange(m, start, end)[i] == Entry(k, m[k])
  {
    var es, all, keys := SortedItems(m), Visible(SortedItems(m)), KeysInRange(m, start, end);
    assert keys[i] in all;
    var a :| 0 <= a < |all| && all[a] == keys[i];
    assert all[a] in es;
    var j :| 0 <= j < |es| && es[j] == keys[i];
    k := es[j].key;
  }

  lemma TruthfulStaged(blobs: Blobs, m: State, decode: Bytes -> seq<Row>, size: nat, key: Bytes, h: Bytes)
    requires size > 0 && Truthful(blobs, m, decode, size)
    requires IsZone(blobs, h) && Accurate(blobs, Zone(blobs, Entry(key, h)), decode, size)
    ensures Truthful(blobs, m[key := h], decode, size)
  {
    var more: State := m[key := h];
    forall k | k in more
      ensures IsZone(blobs, more[k]) && Accurate(blobs, Zone(blobs, Entry(k, more[k])), decode, size)
    {
      if k != key { TruthfulAt(blobs, m, decode, size, k); }
    }
  }

  // ---------- adding row groups ----------

  /** Everything staged is true of its data, and no key is staged both ways. */
  ghost predicate StagedRight(blobs: Blobs, b: Base, decode: Bytes -> seq<Row>, size: nat)
    requires size > 0
  {
    Truthful(blobs, b.plus, decode, size) && b.plus.Keys !! b.minus
  }

  /** How statistics are taken: of which columns, and of which in chunks of what size. */
  datatype Measure = Measure(decode: Bytes -> seq<Row>, columns: seq<Column>, chunked: set<Column>, size: nat)

  /** The zone map has exactly the statistics of the rows. */
  ghost predicate Measured(zm: ZoneMap, rows: seq<Row>, ms: Measure) {
    && Exact(zm, rows, ms.columns) && zm.rowCount == |rows|
    && ms.size > 0 && zm.chunks.Some? && zm.chunks.value.Keys == ms.chunked
    && ChunksTrue(zm.chunks.value, rows, ms.size)
  }

  /** The entry `h` leads to the data `bytes`, and has its statistics. */
  ghost predicate LeadsTo(blobs: Blobs, h: Bytes, bytes: Bytes, ms: Measure) {
    && IsZone(blobs, h) && blobs[h].data in blobs && blobs[blobs[h].data] == DataBlob(bytes)
    && Measured(blobs[h].zm, ms.decode(bytes), ms)
  }

  /** Stores a row group, computes its zone map and chunk statistics from its rows, and
      stages them. */
  method AddRowGroup(index: ZoneMapIndex, collection: string, key: Bytes, bytes: Bytes, decode: Bytes -> seq<Row>,
                     columns: seq<Column>, chunked: set<Column>, size: nat)
    returns (h: Bytes)
    requires index.Valid() && size > 0
    requires StagedRight(index.kernel.blobs, BaseOf(index.bases, collection), decode, size)
    modifies index`bases, index.kernel
    ensures index.kernel.collisionFree ==>
              && index.Valid() && Grown(old(index.kernel.blobs), index.kernel.blobs)
              && index.bases == old(index.bases)[collection := Staged(BaseOf(old(index.bases), collection), key, h)]
              && StagedRight(index.kernel.blobs, BaseOf(index.bases, collection), decode, size)
              && LeadsTo(index.kernel.blobs, h, bytes, Measure(decode, columns, chunked, size))
  {
    var rows := decode(bytes);
    var zm := ComputeZoneMap(rows, columns, |rows|);
    var chunks := BuildChunks(rows, chunked, size);
    WithChunks(zm, chunks, rows, columns);
    zm := zm.(chunks := Some(chunks));
    h := StoreRowGroup(index, collection, key, bytes, zm, Measure(decode, columns, chunked, size));
  }

  lemma WithChunks(zm: ZoneMap, chunks: ColumnChunks, rows: seq<Row>, columns: seq<Column>)
    requires Exact(zm, rows, columns)
    ensures Exact(zm.(chunks := Some(chunks)), rows, columns)
  {
    forall col ensures ExactFor(zm.(chunks := Some(chunks)), rows, columns, col) {
      assert ExactFor(zm, rows, columns, col);
    }
  }

  /** Stores data and zone map. */
  method StoreRowGroup(index: ZoneMapIndex, collection: string, key: Bytes, bytes: Bytes, zm: ZoneMap,
                       ghost ms: Measure)
    returns (h: Bytes)
    requires index.Valid() && ms.size > 0 && Measured(zm, ms.decode(bytes), ms)
    requires StagedRight(index.kernel.blobs, BaseOf(index.bases, collection), ms.decode, ms.size)
    modifies index`bases, index.kernel
    ensures index.kernel.collisionFree ==>
              && index.Valid() && Grown(old(index.kernel.blobs), index.kernel.blobs)
              && index.bases == old(index.bases)[collection := Staged(BaseOf(old(index.bases), collection), key, h)]
              && StagedRight(index.kernel.blobs, BaseOf(index.bases, collection), ms.decode, ms.size)
              && LeadsTo(index.kernel.blobs, h, bytes, ms)
  {
    ExactCovers(zm, ms.decode(bytes), ms.columns);
    ghost var before, b := index.kernel.blobs, BaseOf(index.bases, collection);
    var data := WriteData(index, bytes);
    if !index.kernel.collisionFree { return []; }
    h := index.AddZoneMap(collection, key, zm, data);
    if index.kernel.collisionFree {
      StillTruthful(before, index.kernel.blobs, b.plus, ms.decode, ms.size, key, h, zm, data, bytes);
    }
  }

  lemma StillTruthful(before: Blobs, after: Blobs, staged: State, decode: Bytes -> seq<Row>, size: nat,
                      key: Bytes, h: Bytes, zm: ZoneMap, data: Bytes, bytes: Bytes)
    requires size > 0 && Truthful(before, staged, decode, size) && Grown(before, after)
    requires h in after && after[h] == ZoneBlob(zm, data) && data in after && after[data] == DataBlob(bytes)
    requires Covers(zm, decode(bytes)) && (zm.chunks.Some? ==> ChunksTrue(zm.chunks.value, decode(bytes), size))
    ensures Truthful(after, staged[key := h], decode, size)
  {
    TruthfulGrown(before, after, staged, decode, size);
    TruthfulStaged(after, staged, decode, size, key, h);
  }

  method WriteData(index: ZoneMapIndex, bytes: Bytes) returns (data: Bytes)
    requires index.Valid()
    modifies index.kernel
    ensures index.kernel.Valid() && Grown(old(index.kernel.blobs), index.kernel.blobs)
    ensures index.kernel.collisionFree ==>
              index.Valid() && data in index.kernel.blobs && index.kernel.blobs[data] == DataBlob(bytes)
  {
    ghost var before := index.kernel.blobs;
    data := index.kernel.Write(DataBlob(bytes));
    if index.kernel.collisionFree {
      IndexGrown(before, index.kernel.blobs, index.kernel.roots, index.bases);
    }
  }

  datatype RowGroup = RowGroup(key: Bytes, bytes: Bytes)

  /** The last row group written under the key. */
  ghost predicate LastUnder(groups: seq<RowGroup>, key: Bytes, i: nat) {
    i < |groups| && groups[i].key == key && forall j :: i < j < |groups| ==> groups[j].key != key
  }

  /** What a series of row groups leaves under each key: the data written last. */
  function Written(groups: seq<RowGroup>): map<Bytes, Bytes> {
    if groups == [] then map[] else
      var last := groups[|groups| - 1];
      Written(groups[..|groups| - 1])[last.key := last.bytes]
  }

  /** Every key of the series is there, and each with the data of its last row group. */
  lemma {:induction false} WrittenLast(groups: seq<RowGroup>, key: Bytes)
    ensures key in Written(groups) <==> exists i :: 0 <= i < |groups| && groups[i].key == key
    ensures key in Written(groups) ==>
              exists i: nat :: LastUnder(groups, key, i) && Written(groups)[key] == groups[i].bytes
    decreases |groups|
  {
    if groups != [] {
      var n := |groups| - 1;
      var init := groups[..n];
      WrittenLast(init, key);
      if groups[n].key == key {
        assert LastUnder(groups, key, n);
      } else if key in Written(groups) {
        var i: nat :| LastUnder(init, key, i) && Written(init)[key] == init[i].bytes;
        forall j | i < j < |groups| ensures groups[j].key != key { if j < n { assert init[j] == groups[j]; } }
        assert LastUnder(groups, key, i);
      }
      if i :| 0 <= i < |groups| && groups[i].key == key { assert i < n ==> init[i].key == key; }
    }
  }

  /** The entries lead to that data. */
  ghost predicate Leads(blobs: Blobs, m: State, written: map<Bytes, Bytes>, ms: Measure) {
    forall key :: key in written ==> key in m && LeadsTo(blobs, m[key], written[key], ms)
  }

  /** What staging entries for `keys` does to a collection. */
  predicate Added(b: Base, c: Base, keys: set<Bytes>) {
    && c.plus.Keys == b.plus.Keys + keys && c.minus == b.minus - keys
    && c == b.(plus := c.plus, minus := c.minus)
  }

  /** Adds row groups one by one. */
  method AddRowGroups(index: ZoneMapIndex, collection: string, groups: seq<RowGroup>, decode: Bytes -> seq<Row>,
                      columns: seq<Column>, chunked: set<Column>, size: nat)
    returns (ghost staged: Base)
    requires index.Valid() && size > 0
    requires StagedRight(index.kernel.blobs, BaseOf(index.bases, collection), decode, size)
    modifies index`bases, index.kernel
    ensures index.kernel.collisionFree ==>
              && index.Valid() && Grown(old(index.kernel.blobs), index.kernel.blobs)
              && Added(BaseOf(old(index.bases), collection), staged, Written(groups).Keys)
              && BaseOf(index.bases, collection) == staged
              && (forall c :: c != collection ==> BaseOf(index.bases, c) == BaseOf(old(index.bases), c))
              && StagedRight(index.kernel.blobs, staged, decode, size)
              && Leads(index.kernel.blobs, staged.plus, Written(groups), Measure(decode, columns, chunked, size))
  {
    ghost var before, b := index.kernel.blobs, BaseOf(index.bases, collection);
    ghost var ms := Measure(decode, columns, chunked, size);
    staged := b;
    for i := 0 to |groups|
      invariant index.Valid() && Grown(before, index.kernel.blobs)
      invariant BaseOf(index.bases, collection) == staged && Added(b, staged, Written(groups[..i]).Keys)
      invariant forall c :: c != collection ==> BaseOf(index.bases, c) == BaseOf(old(index.bases), c)
      invariant StagedRight(index.kernel.blobs, staged, decode, size)
      invariant Leads(index.kernel.blobs, staged.plus, Written(groups[..i]), ms)
    {
      ghost var blobs := index.kernel.blobs;
      var h := AddRowGroup(index, collection, groups[i].key, groups[i].bytes, decode, columns, chunked, size);
      if !index.kernel.collisionFree { return; }
      LeadsMore(blobs, index.kernel.blobs, b, staged, groups, i, h, ms);
      staged := Staged(staged, groups[i].key, h);
    }
    assert groups[..|groups|] == groups;
  }

  lemma LeadsMore(before: Blobs, after: Blobs, b: Base, staged: Base, groups: seq<RowGroup>, i: nat, h: Bytes,
                  ms: Measure)
    requires i < |groups| && Leads(before, staged.plus, Written(groups[..i]), ms) && Grown(before, after)
    requires Added(b, staged, Written(groups[..i]).Keys) && LeadsTo(after, h, groups[i].bytes, ms)
    ensures Leads(after, Staged(staged, groups[i].key, h).plus, Written(groups[..i + 1]), ms)
    ensures Added(b, Staged(staged, groups[i].key, h), Written(groups[..i + 1]).Keys)
  {
    assert groups[..i + 1][..i] == groups[..i];
    LeadsGrown(before, after, staged.plus, Written(groups[..i]), ms);
    LeadsOne(after, staged.plus, Written(groups[..i]), groups[i].key, h, groups[i].bytes, ms);
  }

  lemma LeadsOne(blobs: Blobs, m: State, written: map<Bytes, Bytes>, key: Bytes, h: Bytes, bytes: Bytes, ms: Measure)
    requires Leads(blobs, m, written, ms) && LeadsTo(blobs, h, bytes, ms)
    ensures Leads(blobs, m[key := h], written[key := bytes], ms)
  {
  }

  lemma StillLeads(before: Blobs, after: Blobs, h: Bytes, bytes: Bytes, ms: Measure)
    requires LeadsTo(before, h, bytes, ms) && Grown(before, after)
    ensures LeadsTo(after, h, bytes, ms)
  {
  }

  lemma LeadsGrown(before: Blobs, after: Blobs, m: State, written: map<Bytes, Bytes>, ms: Measure)
    requires Leads(before, m, written, ms) && Grown(before, after)
    ensures Leads(after, m, written, ms)
  {
    forall key | key in written ensures LeadsTo(after, m[key], written[key], ms) {
      StillLeads(before, after, m[key], written[key], ms);
    }
  }

  // ---------- committing and scanning ----------

  /** Committing keeps the committed statistics true, and the entries lead where they did. */
  lemma CommittedRight(before: Blobs, after: Blobs, m: State, b: Base, threshold: nat,
                       written: map<Bytes, Bytes>, ms: Measure)
    requires ms.size > 0 && Truthful(before, b.committed, ms.decode, ms.size)
    requires StagedRight(before, b, ms.decode, ms.size)
    requires Leads(before, b.plus, written, ms) && Grown(before, after) && m == Committed(b, threshold).committed
    ensures Leads(after, m, written, ms) && Truthful(after, m, ms.decode, ms.size)
  {
    TruthfulApplied(before, b.committed, b.plus, b.minus, ms.decode, ms.size);
    TruthfulGrown(before, after, m, ms.decode, ms.size);
    LeadsGrown(before, after, b.plus, written, ms);
  }

  /** What loading leaves of a collection: everything written is staged beside what was
      staged before, and exactly when it packs it is committed, each key leading to the data
      written last under it. */
  ghost predicate Loaded(blobs: Blobs, before: Base, staged: Base, after: Base, written: map<Bytes, Bytes>,
                         ms: Measure, threshold: nat, message: Bytes, ok: bool)
  {
    && Added(before, staged, written.Keys)
    && (ok <==> HasStaged(staged) && CommitPacks(staged, threshold, message))
    && after == (if ok then Committed(staged, threshold) else staged)
    && (ok ==> Leads(blobs, after.committed, written, ms))
  }

  /** Adds row groups and commits them.  The commit succeeds exactly when what is then staged
      packs; the committed statistics stay true either way, and after a success the entries
      lead to the data written. */
  method Load(index: ZoneMapIndex, collection: string, groups: seq<RowGroup>, decode: Bytes -> seq<Row>,
              columns: seq<Column>, chunked: set<Column>, size: nat, message: Bytes)
    returns (ok: bool, ghost staged: Base)
    requires index.Valid() && size > 0
    requires StagedRight(index.kernel.blobs, BaseOf(index.bases, collection), decode, size)
    requires Truthful(index.kernel.blobs, BaseOf(index.bases, collection).committed, decode, size)
    modifies index`bases, index.kernel
    ensures index.kernel.collisionFree ==>
              var b := BaseOf(index.bases, collection);
              && index.Valid() && Truthful(index.kernel.blobs, b.committed, decode, size)
              && Loaded(index.kernel.blobs, BaseOf(old(index.bases), collection), staged, b, Written(groups),
                        Measure(decode, columns, chunked, size), index.threshold, message, ok)
  {
    ok := false;
    ghost var before, b := index.kernel.blobs, BaseOf(index.bases, collection);
    staged := AddRowGroups(index, collection, groups, decode, columns, chunked, size);
    if !index.kernel.collisionFree { return; }
    ghost var middle := index.kernel.blobs;
    TruthfulGrown(before, middle, b.committed, decode, size);
    ok := index.CommitZoneMaps(collection, message);
    if ok && index.kernel.collisionFree {
      CommittedRight(middle, index.kernel.blobs, BaseOf(index.bases, collection).committed, staged, index.threshold,
                     Written(groups), Measure(decode, columns, chunked, size));
    }
  }

  /** After clearing, adding and committing, the visible keys are those written, and those that
      were only staged before. */
  lemma RebuiltKeys(b: Base, staged: Base, written: set<Bytes>, threshold: nat, key: Bytes)
    requires b.plus.Keys !! b.minus && (key == [] || key[0] != 0x5f)
    requires Added(StagedDeletes(b, VisibleKeys(b)), staged, written)
    ensures key in Committed(staged, threshold).committed <==>
              key in written || (key in b.plus && key !in b.committed)
  {
  }

  lemma ClearedRight(blobs: Blobs, b: Base, decode: Bytes -> seq<Row>, size: nat, doomed: set<Bytes>)
    requires size > 0 && StagedRight(blobs, b, decode, size)
    ensures StagedRight(blobs, StagedDeletes(b, doomed), decode, size)
  {
    var fewer := StagedDeletes(b, doomed).plus;
    forall k | k in fewer
      ensures IsZone(blobs, fewer[k]) && Accurate(blobs, Zone(blobs, Entry(k, fewer[k])), decode, size)
    {
      TruthfulAt(blobs, b.plus, decode, size, k);
    }
  }

  /** `build_zone_maps`: clears the zone maps of a collection, adds those of its row groups,
      and commits. */
  method Rebuild(index: ZoneMapIndex, collection: string, groups: seq<RowGroup>, decode: Bytes -> seq<Row>,
                 columns: seq<Column>, chunked: set<Column>, size: nat, message: Bytes)
    returns (ok: bool)
    requires index.Valid() && size > 0
    requires StagedRight(index.kernel.blobs, BaseOf(index.bases, collection), decode, size)
    requires Truthful(index.kernel.blobs, BaseOf(index.bases, collection).committed, decode, size)
    modifies index`bases, index.kernel
    ensures index.kernel.collisionFree ==>
              index.Valid() && Truthful(index.kernel.blobs, BaseOf(index.bases, collection).committed, decode, size)
    ensures index.kernel.collisionFree && ok ==>
              Rebuilt(index.kernel.blobs, BaseOf(old(index.bases), collection), BaseOf(index.bases, collection),
                      Written(groups), Measure(decode, columns, chunked, size))
  {
    ghost var b := BaseOf(index.bases, collection);
    ClearedRight(index.kernel.blobs, b, decode, size, VisibleKeys(b));
    var count := index.ClearZoneMaps(collection);
    ghost var staged;
    ok, staged := Load(index, collection, groups, decode, columns, chunked, size, message);
    if ok && index.kernel.collisionFree {
      forall key | key == [] || key[0] != 0x5f
        ensures key in BaseOf(index.bases, collection).committed <==>
                  key in Written(groups) || (key in b.plus && key !in b.committed)
      {
        RebuiltKeys(b, staged, Written(groups).Keys, index.threshold, key);
      }
    }
  }

  /** Exactly the keys written are visible, apart from what was only staged; each leads to its
      data and has its statistics. */
  ghost predicate Rebuilt(blobs: Blobs, before: Base, after: Base, written: map<Bytes, Bytes>, ms: Measure) {
    && Leads(blobs, after.committed, written, ms)
    && forall key: Bytes :: key == [] || key[0] != 0x5f ==>
         (key in after.committed <==> key in written || (key in before.plus && key !in before.committed))
  }

  /** Writing row groups, committing and scanning: the scan needs no assumption about the new
      statistics.  It yields what is committed, the new row groups included exactly when the
      commit succeeded. */
  method LoadAndScan(index: ZoneMapIndex, collection: string, groups: seq<RowGroup>, decode: Bytes -> seq<Row>,
                     measured: seq<Column>, chunked: set<Column>, size: nat, message: Bytes,
                     p: Option<Predicate>, filter: Row -> bool, columns: seq<Column>,
                     start: Option<Bytes>, end: Option<Bytes>)
    returns (out: seq<Row>, ok: bool, ghost staged: Base)
    requires index.Valid() && size > 0
    requires StagedRight(index.kernel.blobs, BaseOf(index.bases, collection), decode, size)
    requires Truthful(index.kernel.blobs, BaseOf(index.bases, collection).committed, decode, size)
    requires Implies(filter, p) && (p.Some? ==> ChunkSafe(p.value, OpsFor(p, columns)))
    modifies index`bases, index`lastScanTotal, index.kernel
    ensures index.kernel.collisionFree ==>
              var b := BaseOf(index.bases, collection);
              && index.Valid()
              && Loaded(index.kernel.blobs, BaseOf(old(index.bases), collection), staged, b, Written(groups),
                        Measure(decode, measured, chunked, size), index.threshold, message, ok)
              && FullyScanned(index.kernel.blobs, ZonesIn(index.kernel.blobs, index.bases, collection, start, end),
                              decode, filter, out)
  {
    out := [];
    ok, staged := Load(index, collection, groups, decode, measured, chunked, size, message);
    if !index.kernel.collisionFree { return; }
    ghost var blobs, after := index.kernel.blobs, BaseOf(index.bases, collection);
    out := ScanTruthful(index, collection, decode, columns, size, p, filter, start, end);
    assert index.kernel.blobs == blobs && BaseOf(index.bases, collection) == after;
  }

  /** Scanning a collection whose statistics are true. */
  method ScanTruthful(index: ZoneMapIndex, collection: string, decode: Bytes -> seq<Row>, columns: seq<Column>,
                      size: nat, p: Option<Predicate>, filter: Row -> bool, start: Option<Bytes>, end: Option<Bytes>)
    returns (out: seq<Row>)
    requires index.Valid() && size > 0
    requires Truthful(index.kernel.blobs, BaseOf(index.bases, collection).committed, decode, size)
    requires Implies(filter, p) && (p.Some? ==> ChunkSafe(p.value, OpsFor(p, columns)))
    modifies index`lastScanTotal
    ensures index.Valid()
    ensures FullyScanned(index.kernel.blobs, ZonesIn(index.kernel.blobs, index.bases, collection, start, end),
                         decode, filter, out)
  {
    OkAt(index.kernel.blobs, index.kernel.roots, index.bases, collection);
    TruthfulScans(index.kernel.blobs, BaseOf(index.bases, collection).committed, decode, size, start, end);
    var reader := new PruningReader(index, collection, p);
    out := reader.Scan(decode, filter, columns, start, end, size);
  }
}
