/** `ZoneMapIndex`: the zone maps of every collection as blobs under a versioned map, and the
    manifest that lists those of a collection in one blob. */
module ZoneMapIndex {
  import opened Basics
  import opened Kernel
  import opened History
  import opened LensSteps
  import opened Pruning

  datatype Listed = Listed(key: Bytes, zm: ZoneMap, data: Bytes)

  datatype Blob = DataBlob(bytes: Bytes) | ZoneBlob(zm: ZoneMap, data: Bytes) | ManifestBlob(entries: seq<Listed>)

  datatype ZoneRef = ManifestRef(collection: string)

  type Blobs = map<Bytes, Blob>

  type ZoneKernel = MemoryKernel<Blob, Bytes, ZoneRef>

  const UNDERSCORE: Byte := 0x5f

  predicate Hidden(key: Bytes) {
    key != [] && key[0] == UNDERSCORE
  }

  predicate IsZone(blobs: Blobs, h: Bytes) {
    h in blobs && blobs[h].ZoneBlob?
  }

  /** The keys whose entry is not a stored zone map. */
  function Missing(blobs: Blobs, m: State): set<Bytes> {
    set k | k in m && !IsZone(blobs, m[k])
  }

  predicate AllZones(blobs: Blobs, m: State) {
    Missing(blobs, m) == {}
  }

  predicate EntriesStored(blobs: Blobs, es: seq<Entry>) {
    forall i :: 0 <= i < |es| ==> IsZone(blobs, es[i].hash)
  }

  predicate InBounds(key: Bytes, start: Option<Bytes>, end: Option<Bytes>) {
    (start.Some? ==> !Less(key, start.value)) && (end.Some? ==> !Less(end.value, key))
  }

  /** The entries whose key is not hidden. */
  function Visible(es: seq<Entry>): (r: seq<Entry>)
    ensures forall i :: 0 <= i < |r| ==> r[i] in es
  {
    if es == [] then []
    else Visible(es[..|es| - 1]) + if Hidden(es[|es| - 1].key) then [] else [es[|es| - 1]]
  }

  /** The entries with a key in the range. */
  function Within(es: seq<Entry>, start: Option<Bytes>, end: Option<Bytes>): (r: seq<Entry>)
    ensures forall i :: 0 <= i < |r| ==> r[i] in es
  {
    if es == [] then []
    else Within(es[..|es| - 1], start, end) + if InBounds(es[|es| - 1].key, start, end) then [es[|es| - 1]] else []
  }

  /** The visible keys of a committed state in a range, in key order. */
  function KeysInRange(m: State, start: Option<Bytes>, end: Option<Bytes>): seq<Entry> {
    Within(Visible(SortedItems(m)), start, end)
  }

  function Zone(blobs: Blobs, e: Entry): Listed
    requires IsZone(blobs, e.hash)
  {
    Listed(e.key, blobs[e.hash].zm, blobs[e.hash].data)
  }

  /** The zone maps behind the entries. */
  function Zones(blobs: Blobs, es: seq<Entry>): (r: seq<Listed>)
    requires EntriesStored(blobs, es)
    ensures |r| == |es| && forall i :: 0 <= i < |r| ==> r[i] == Zone(blobs, es[i])
  {
    seq(|es|, i requires 0 <= i < |es| => Zone(blobs, es[i]))
  }

  lemma VisibleStored(blobs: Blobs, m: State)
    requires AllZones(blobs, m)
    ensures EntriesStored(blobs, Visible(SortedItems(m)))
  {
    var es, keys := SortedItems(m), Visible(SortedItems(m));
    forall i | 0 <= i < |keys| ensures IsZone(blobs, keys[i].hash) {
      assert keys[i] in es;
      var j :| 0 <= j < |es| && es[j] == keys[i];
      assert es[j].key !in Missing(blobs, m);
    }
  }

  lemma WithinStored(blobs: Blobs, es: seq<Entry>, start: Option<Bytes>, end: Option<Bytes>)
    requires EntriesStored(blobs, es)
    ensures EntriesStored(blobs, Within(es, start, end))
  {
    var r := Within(es, start, end);
    forall i | 0 <= i < |r| ensures IsZone(blobs, r[i].hash) {
      assert r[i] in es;
      var j :| 0 <= j < |es| && es[j] == r[i];
    }
  }

  lemma KeysStored(blobs: Blobs, m: State, start: Option<Bytes>, end: Option<Bytes>)
    requires AllZones(blobs, m)
    ensures EntriesStored(blobs, KeysInRange(m, start, end))
  {
    VisibleStored(blobs, m);
    WithinStored(blobs, Visible(SortedItems(m)), start, end);
  }

  /** All visible zone maps of a committed state, in key order. */
  function AllOf(blobs: Blobs, m: State): seq<Listed>
    requires AllZones(blobs, m)
  {
    VisibleStored(blobs, m);
    Zones(blobs, Visible(SortedItems(m)))
  }

  /** Those in a key range. */
  function ZonesOf(blobs: Blobs, m: State, start: Option<Bytes>, end: Option<Bytes>): seq<Listed>
    requires AllZones(blobs, m)
  {
    KeysStored(blobs, m, start, end);
    Zones(blobs, KeysInRange(m, start, end))
  }

  lemma ZonesGrown(before: Blobs, after: Blobs, m: State)
    requires AllZones(before, m) && Grown(before, after)
    ensures AllZones(after, m) && AllOf(after, m) == AllOf(before, m)
  {
    forall k | k in m ensures IsZone(after, m[k]) { assert k !in Missing(before, m); }
    VisibleStored(before, m);
    VisibleStored(after, m);
  }

  // ---------- ranges ----------

  /** The zone maps of a list in a key range. */
  function InRange(list: seq<Listed>, start: Option<Bytes>, end: Option<Bytes>): seq<Listed> {
    if list == [] then []
    else InRange(list[..|list| - 1], start, end)
         + if InBounds(list[|list| - 1].key, start, end) then [list[|list| - 1]] else []
  }

  /** Filtering a listing by range is listing the keys in range. */
  lemma {:induction false} RangeOfZones(blobs: Blobs, es: seq<Entry>, start: Option<Bytes>, end: Option<Bytes>)
    requires EntriesStored(blobs, es)
    ensures EntriesStored(blobs, Within(es, start, end))
    ensures InRange(Zones(blobs, es), start, end) == Zones(blobs, Within(es, start, end))
    decreases |es|
  {
    WithinStored(blobs, es, start, end);
    if es != [] {
      var init, last := es[..|es| - 1], es[|es| - 1];
      RangeOfZones(blobs, init, start, end);
      assert es == init + [last];
      ZonesAppend(blobs, init, last);
      RangeAppend(Zones(blobs, init), Zone(blobs, last), start, end);
      if InBounds(last.key, start, end) {
        ZonesAppend(blobs, Within(init, start, end), last);
      } else {
        assert Within(es, start, end) == Within(init, start, end);
      }
    }
  }

  lemma ZonesAppend(blobs: Blobs, es: seq<Entry>, e: Entry)
    requires EntriesStored(blobs, es) && IsZone(blobs, e.hash)
    ensures EntriesStored(blobs, es + [e]) && Zones(blobs, es + [e]) == Zones(blobs, es) + [Zone(blobs, e)]
  {}

  lemma RangeAppend(list: seq<Listed>, e: Listed, start: Option<Bytes>, end: Option<Bytes>)
    ensures InRange(list + [e], start, end) == InRange(list, start, end)
            + if InBounds(e.key, start, end) then [e] else []
  {
    assert (list + [e])[..|list|] == list;
  }

  /** The range filter over a manifest. */
  method RangeOf(list: seq<Listed>, start: Option<Bytes>, end: Option<Bytes>) returns (r: seq<Listed>)
    ensures r == InRange(list, start, end)
  {
    r := [];
    for i := 0 to |list|
      invariant r == InRange(list[..i], start, end)
    {
      assert list[..i + 1][..i] == list[..i];
      if InBounds(list[i].key, start, end) { r := r + [list[i]]; }
    }
    assert list[..|list|] == list;
  }

  method VisibleOf(es: seq<Entry>) returns (r: seq<Entry>)
    ensures r == Visible(es)
  {
    r := [];
    for i := 0 to |es|
      invariant r == Visible(es[..i])
    {
      assert es[..i + 1][..i] == es[..i];
      if !Hidden(es[i].key) { r := r + [es[i]]; }
    }
    assert es[..|es|] == es;
  }

  method WithinOf(es: seq<Entry>, start: Option<Bytes>, end: Option<Bytes>) returns (r: seq<Entry>)
    ensures r == Within(es, start, end)
  {
    r := [];
    for i := 0 to |es|
      invariant r == Within(es[..i], start, end)
    {
      assert es[..i + 1][..i] == es[..i];
      if InBounds(es[i].key, start, end) { r := r + [es[i]]; }
    }
    assert es[..|es|] == es;
  }

  // ---------- sorting a listing ----------

  /** Puts `e` behind all that are not above it. */
  function Inserted(list: seq<Listed>, e: Listed): seq<Listed> {
    if list == [] || !Less(e.key, list[|list| - 1].key) then list + [e]
    else Inserted(list[..|list| - 1], e) + [list[|list| - 1]]
  }

  /** `sorted(list, key=...)`: a stable sort by key. */
  function SortedByKey(list: seq<Listed>): seq<Listed> {
    if list == [] then [] else Inserted(SortedByKey(list[..|list| - 1]), list[|list| - 1])
  }

  lemma {:induction false} InsertedPermutes(list: seq<Listed>, e: Listed)
    ensures multiset(Inserted(list, e)) == multiset(list) + multiset{e}
    decreases |list|
  {
    if list != [] && Less(e.key, list[|list| - 1].key) {
      InsertedPermutes(list[..|list| - 1], e);
      assert list == list[..|list| - 1] + [list[|list| - 1]];
    }
  }

  predicate KeysAscend(list: seq<Listed>) {
    forall i, j :: 0 <= i < j < |list| ==> !Less(list[j].key, list[i].key)
  }

  lemma {:induction false} InsertedAscends(list: seq<Listed>, e: Listed)
    requires KeysAscend(list)
    ensures KeysAscend(Inserted(list, e))
    ensures forall x :: x in Inserted(list, e) <==> x in list || x == e
    decreases |list|
  {
    if list != [] {
      var init, last := list[..|list| - 1], list[|list| - 1];
      assert list == init + [last];
      if Less(e.key, last.key) {
        InsertedAscends(init, e);
        LessAsymmetric(e.key, last.key);
        var r := Inserted(init, e);
        forall i | 0 <= i < |r| ensures !Less(last.key, r[i].key) {
          assert r[i] in r;
          assert r[i] in init || r[i] == e;
        }
      } else {
        forall i | 0 <= i < |list| ensures !Less(e.key, list[i].key) {
          if i < |list| - 1 && Less(e.key, list[i].key) { NotBelow(e.key, list[i].key, last.key); }
        }
      }
    }
  }

  lemma NotBelow(a: Bytes, b: Bytes, c: Bytes)
    requires Less(a, b) && !Less(c, b)
    ensures Less(a, c)
  {
    LessTotal(b, c);
    if b != c { LessTransitive(a, b, c); }
  }

  /** Sorting sorts, and keeps what is there. */
  lemma {:induction false} SortSorts(list: seq<Listed>)
    ensures KeysAscend(SortedByKey(list)) && multiset(SortedByKey(list)) == multiset(list)
    decreases |list|
  {
    if list != [] {
      var init, last := list[..|list| - 1], list[|list| - 1];
      SortSorts(init);
      InsertedAscends(SortedByKey(init), last);
      InsertedPermutes(SortedByKey(init), last);
      assert list == init + [last];
    }
  }

  /** Sorting leaves a listing in key order as it is. */
  lemma {:induction false} SortKeeps(list: seq<Listed>)
    requires KeysAscend(list)
    ensures SortedByKey(list) == list
    decreases |list|
  {
    if list != [] {
      var init, last := list[..|list| - 1], list[|list| - 1];
      SortKeeps(init);
      InsertedLast(init, last);
    }
  }

  lemma InsertedLast(list: seq<Listed>, e: Listed)
    requires list == [] || !Less(e.key, list[|list| - 1].key)
    ensures Inserted(list, e) == list + [e]
  {}

  method SortListed(list: seq<Listed>) returns (r: seq<Listed>)
    ensures r == SortedByKey(list)
  {
    r := [];
    for i := 0 to |list|
      invariant r == SortedByKey(list[..i])
    {
      assert list[..i + 1][..i] == list[..i];
      r := Inserted(r, list[i]);
    }
    assert list[..|list|] == list;
  }

  /** The visible keys of a sorted listing increase. */
  lemma {:induction false} KeysIncrease(es: seq<Entry>)
    requires Sorted(es)
    ensures Sorted(Visible(es))
    decreases |es|
  {
    if es != [] {
      var init, last := es[..|es| - 1], es[|es| - 1];
      KeysIncrease(init);
      var keys := Visible(init);
      forall i | 0 <= i < |keys| ensures Less(keys[i].key, last.key) {
        assert keys[i] in init;
        var j :| 0 <= j < |init| && init[j] == keys[i];
        assert es[j] == keys[i];
      }
    }
  }

  /** A manifest is written in key order, so sorting it changes nothing. */
  lemma ManifestSorted(blobs: Blobs, m: State)
    requires AllZones(blobs, m)
    ensures SortedByKey(AllOf(blobs, m)) == AllOf(blobs, m)
  {
    var list, keys := AllOf(blobs, m), Visible(SortedItems(m));
    SortedItemsSorted(m);
    KeysIncrease(SortedItems(m));
    VisibleStored(blobs, m);
    forall i, j | 0 <= i < j < |list| ensures !Less(list[j].key, list[i].key) {
      LessAsymmetric(keys[i].key, keys[j].key);
    }
    SortKeeps(list);
  }

  // ---------- pruning a listing ----------

  predicate Pruned(p: Option<Predicate>, zm: ZoneMap) {
    p.Some? && CanPrune(p.value, zm)
  }

  /** The listed zone maps that the predicate does not prune. */
  function Unpruned(list: seq<Listed>, p: Option<Predicate>): seq<Listed> {
    if list == [] then []
    else Unpruned(list[..|list| - 1], p) + if Pruned(p, list[|list| - 1].zm) then [] else [list[|list| - 1]]
  }

  // ---------- which zone maps a scan lists ----------

  /** The key is visible and between the bounds, both of which are included. */
  predicate Wanted(key: Bytes, start: Option<Bytes>, end: Option<Bytes>) {
    && (key == [] || key[0] != 0x5f)
    && (start.Some? ==> key == start.value || Less(start.value, key))
    && (end.Some? ==> key == end.value || Less(key, end.value))
  }

  /** The list holds, in strictly increasing key order, the zone maps of exactly the committed
      keys that are wanted and that the predicate does not prune. */
  ghost predicate Lists(blobs: Blobs, m: State, p: Option<Predicate>, start: Option<Bytes>, end: Option<Bytes>,
                        list: seq<Listed>)
  {
    && (forall i, j :: 0 <= i < j < |list| ==> Less(list[i].key, list[j].key))
    && (forall i :: 0 <= i < |list| ==> IsListed(blobs, m, p, start, end, list[i]))
    && (forall key :: key in m && IsZone(blobs, m[key]) && IsListed(blobs, m, p, start, end, Behind(blobs, m, key)) ==>
          Behind(blobs, m, key) in list)
  }

  /** What a committed key leads to. */
  function Behind(blobs: Blobs, m: State, key: Bytes): Listed
    requires key in m && IsZone(blobs, m[key])
  {
    Listed(key, blobs[m[key]].zm, blobs[m[key]].data)
  }

  predicate IsListed(blobs: Blobs, m: State, p: Option<Predicate>, start: Option<Bytes>, end: Option<Bytes>,
                     e: Listed)
  {
    && e.key in m && IsZone(blobs, m[e.key]) && e == Behind(blobs, m, e.key)
    && Wanted(e.key, start, end) && (p.Some? ==> !CanPrune(p.value, e.zm))
  }

  lemma {:induction false} VisibleIn(es: seq<Entry>, e: Entry)
    ensures e in Visible(es) <==> e in es && !Hidden(e.key)
    decreases |es|
  {
    if es != [] {
      VisibleIn(es[..|es| - 1], e);
      assert es == es[..|es| - 1] + [es[|es| - 1]];
    }
  }

  lemma {:induction false} WithinIn(es: seq<Entry>, start: Option<Bytes>, end: Option<Bytes>, e: Entry)
    ensures e in Within(es, start, end) <==> e in es && InBounds(e.key, start, end)
    decreases |es|
  {
    if es != [] {
      WithinIn(es[..|es| - 1], start, end, e);
      assert es == es[..|es| - 1] + [es[|es| - 1]];
    }
  }

  lemma BoundsWanted(key: Bytes, start: Option<Bytes>, end: Option<Bytes>)
    ensures !Hidden(key) && InBounds(key, start, end) <==> Wanted(key, start, end)
  {
    if start.Some? { Compared(key, start.value); }
    if end.Some? { Compared(key, end.value); }
  }

  lemma Compared(a: Bytes, b: Bytes)
    ensures !Less(a, b) <==> a == b || Less(b, a)
  {
    LessTotal(a, b);
    LessIrreflexive(a);
    if Less(a, b) { LessAsymmetric(a, b); }
  }

  /** The keys in range are the wanted ones, in order. */
  lemma KeysWanted(m: State, start: Option<Bytes>, end: Option<Bytes>, key: Bytes)
    requires key in m
    ensures Entry(key, m[key]) in KeysInRange(m, start, end) <==> Wanted(key, start, end)
  {
    SortedItemsComplete(m, key);
    VisibleIn(SortedItems(m), Entry(key, m[key]));
    WithinIn(Visible(SortedItems(m)), start, end, Entry(key, m[key]));
    BoundsWanted(key, start, end);
  }

  lemma KeysSorted(m: State, start: Option<Bytes>, end: Option<Bytes>)
    ensures Sorted(KeysInRange(m, start, end))
    ensures forall i :: 0 <= i < |KeysInRange(m, start, end)| ==>
              var e := KeysInRange(m, start, end)[i]; e.key in m && m[e.key] == e.hash
  {
    SortedItemsSorted(m);
    KeysIncrease(SortedItems(m));
    WithinSorted(Visible(SortedItems(m)), start, end);
    var es, keys := SortedItems(m), KeysInRange(m, start, end);
    forall i | 0 <= i < |keys| ensures keys[i].key in m && m[keys[i].key] == keys[i].hash {
      WithinIn(Visible(es), start, end, keys[i]);
      VisibleIn(es, keys[i]);
    }
  }

  lemma {:induction false} WithinSorted(es: seq<Entry>, start: Option<Bytes>, end: Option<Bytes>)
    requires Sorted(es)
    ensures Sorted(Within(es, start, end))
    decreases |es|
  {
    if es != [] {
      var init, last := es[..|es| - 1], es[|es| - 1];
      WithinSorted(init, start, end);
      var r := Within(init, start, end);
      forall i | 0 <= i < |r| ensures Less(r[i].key, last.key) {
        assert r[i] in init;
        var j :| 0 <= j < |init| && init[j] == r[i];
        assert es[j] == init[j];
      }
    }
  }

  lemma {:induction false} UnprunedIn(list: seq<Listed>, p: Option<Predicate>, e: Listed)
    ensures e in Unpruned(list, p) <==> e in list && (p.Some? ==> !CanPrune(p.value, e.zm))
    decreases |list|
  {
    if list != [] {
      UnprunedIn(list[..|list| - 1], p, e);
      assert list == list[..|list| - 1] + [list[|list| - 1]];
    }
  }

  lemma {:induction false} UnprunedSorted(list: seq<Listed>, p: Option<Predicate>)
    requires forall i, j :: 0 <= i < j < |list| ==> Less(list[i].key, list[j].key)
    ensures var r := Unpruned(list, p); forall i, j :: 0 <= i < j < |r| ==> Less(r[i].key, r[j].key)
    decreases |list|
  {
    if list != [] {
      var init, last := list[..|list| - 1], list[|list| - 1];
      UnprunedSorted(init, p);
      var r := Unpruned(init, p);
      forall i | 0 <= i < |r| ensures Less(r[i].key, last.key) {
        UnprunedIn(init, p, r[i]);
        var j :| 0 <= j < |init| && init[j] == r[i];
        assert list[j] == init[j];
      }
    }
  }

  /** What the model computes is that list. */
  lemma UnprunedLists(blobs: Blobs, m: State, p: Option<Predicate>, start: Option<Bytes>, end: Option<Bytes>)
    requires AllZones(blobs, m)
    ensures Lists(blobs, m, p, start, end, Unpruned(ZonesOf(blobs, m, start, end), p))
  {
    KeysStored(blobs, m, start, end);
    KeysSorted(m, start, end);
    var keys, zones := KeysInRange(m, start, end), ZonesOf(blobs, m, start, end);
    UnprunedSorted(zones, p);
    forall i | 0 <= i < |Unpruned(zones, p)| ensures IsListed(blobs, m, p, start, end, Unpruned(zones, p)[i]) {
      var e := Unpruned(zones, p)[i];
      UnprunedIn(zones, p, e);
      var j :| 0 <= j < |zones| && zones[j] == e;
      KeysWanted(m, start, end, keys[j].key);
    }
    forall key | key in m && IsZone(blobs, m[key]) && IsListed(blobs, m, p, start, end, Behind(blobs, m, key))
      ensures Behind(blobs, m, key) in Unpruned(zones, p)
    {
      KeysWanted(m, start, end, key);
      var j :| 0 <= j < |keys| && keys[j] == Entry(key, m[key]);
      assert zones[j] == Behind(blobs, m, key);
      UnprunedIn(zones, p, Behind(blobs, m, key));
    }
  }

  /** Without a predicate nothing is pruned. */
  lemma {:induction false} UnprunedAll(list: seq<Listed>)
    ensures Unpruned(list, None) == list
    decreases |list|
  {
    if list != [] { UnprunedAll(list[..|list| - 1]); }
  }

  lemma ZonesList(blobs: Blobs, m: State, start: Option<Bytes>, end: Option<Bytes>)
    requires AllZones(blobs, m)
    ensures Lists(blobs, m, None, start, end, ZonesOf(blobs, m, start, end))
  {
    UnprunedLists(blobs, m, None, start, end);
    UnprunedAll(ZonesOf(blobs, m, start, end));
  }

  // ---------- the index ----------

  /** The versioned map of zone-map blobs of one collection: its committed state, what is
      staged, and what decides how the next commit is written. */
  datatype Base = Base(committed: State, plus: State, minus: set<Bytes>, started: bool, deltas: nat, index: nat)

  type Bases = map<string, Base>

  const NEW_BASE: Base := Base(map[], map[], {}, false, 0, 0)

  /** `_get_base`: a collection that was never used is empty. */
  function BaseOf(bases: Bases, collection: string): Base {
    if collection in bases then bases[collection] else NEW_BASE
  }

  predicate HasStaged(b: Base) {
    b.plus != map[] || b.minus != {}
  }

  /** The commit of the lens below packs: the whole state when a snapshot is due, otherwise
      what is staged. */
  predicate CommitPacks(b: Base, threshold: nat, message: Bytes) {
    Packs(!b.started || b.deltas >= threshold, b.committed, b.plus, b.minus, message, b.index)
  }

  function Committed(b: Base, threshold: nat): Base {
    Base(Apply(b.committed, b.plus, b.minus), map[], {}, true,
         if !b.started || b.deltas >= threshold then 0 else b.deltas + 1, b.index + 1)
  }

  /** What a commit makes of the committed state, key by key. */
  ghost predicate Replaced(b: Base, after: State) {
    && (forall key :: key in b.plus ==> Get(after, key) == Some(b.plus[key]))
    && (forall key :: key in b.minus ==> Get(after, key) == None)
    && (forall key :: key !in b.plus && key !in b.minus ==> Get(after, key) == Get(b.committed, key))
  }

  lemma CommittedReplaces(b: Base, threshold: nat)
    requires b.plus.Keys !! b.minus
    ensures Replaced(b, Committed(b, threshold).committed)
  {
  }

  function Staged(b: Base, key: Bytes, h: Bytes): Base {
    b.(plus := b.plus[key := h], minus := b.minus - {key})
  }

  function StagedDeletes(b: Base, doomed: set<Bytes>): Base {
    b.(plus := b.plus - doomed, minus := b.minus + doomed)
  }

  /** The committed keys that a scan sees. */
  function VisibleKeys(b: Base): (keys: set<Bytes>)
    ensures forall k :: k in keys <==> k in b.committed && (k == [] || k[0] != 0x5f)
  {
    set k | k in b.committed && !Hidden(k)
  }

  /** All entries are stored zone maps, and a manifest lists exactly the committed ones. */
  ghost predicate BaseOk(blobs: Blobs, roots: map<ZoneRef, Bytes>, collection: string, b: Base)
  {
    && AllZones(blobs, b.committed) && AllZones(blobs, b.plus)
    && (ManifestRef(collection) in roots ==>
          var h := roots[ManifestRef(collection)];
          h in blobs && blobs[h] == ManifestBlob(AllOf(blobs, b.committed)))
  }

  /** That is so for every collection. */
  ghost predicate IndexOk(blobs: Blobs, roots: map<ZoneRef, Bytes>, bases: Bases) {
    forall c {:trigger BaseOf(bases, c)} :: BaseOk(blobs, roots, c, BaseOf(bases, c))
  }

  lemma OkAt(blobs: Blobs, roots: map<ZoneRef, Bytes>, bases: Bases, c: string)
    requires IndexOk(blobs, roots, bases)
    ensures BaseOk(blobs, roots, c, BaseOf(bases, c))
  {}

  lemma BaseGrown(before: Blobs, after: Blobs, roots: map<ZoneRef, Bytes>, c: string, b: Base)
    requires BaseOk(before, roots, c, b) && Grown(before, after)
    ensures BaseOk(after, roots, c, b)
  {
    ZonesGrown(before, after, b.committed);
    ZonesGrown(before, after, b.plus);
  }

  lemma IndexGrown(before: Blobs, after: Blobs, roots: map<ZoneRef, Bytes>, bases: Bases)
    requires IndexOk(before, roots, bases) && Grown(before, after)
    ensures IndexOk(after, roots, bases)
  {
    forall c ensures BaseOk(after, roots, c, BaseOf(bases, c)) {
      BaseGrown(before, after, roots, c, BaseOf(bases, c));
    }
  }

  /** One collection changes, and at most its own manifest. */
  lemma IndexChanged(before: Blobs, after: Blobs, roots: map<ZoneRef, Bytes>, moved: map<ZoneRef, Bytes>,
                     bases: Bases, collection: string, b: Base)
    requires IndexOk(before, roots, bases) && Grown(before, after) && BaseOk(after, moved, collection, b)
    requires forall c :: c != collection ==> Manifest(moved, c) == Manifest(roots, c)
    ensures IndexOk(after, moved, bases[collection := b])
  {
    var next: Bases := bases[collection := b];
    forall c ensures BaseOk(after, moved, c, BaseOf(next, c)) {
      if c != collection {
        OkAt(before, roots, bases, c);
        BaseGrown(before, after, roots, c, BaseOf(bases, c));
        assert Manifest(moved, c) == Manifest(roots, c);
      }
    }
  }

  /** The manifest of a collection. */
  function Manifest(roots: map<ZoneRef, Bytes>, collection: string): Option<Bytes> {
    if ManifestRef(collection) in roots then Some(roots[ManifestRef(collection)]) else None
  }

  lemma BaseStaged(blobs: Blobs, roots: map<ZoneRef, Bytes>, c: string, b: Base, key: Bytes, h: Bytes)
    requires BaseOk(blobs, roots, c, b) && IsZone(blobs, h)
    ensures BaseOk(blobs, roots, c, Staged(b, key, h))
  {
    var more := Staged(b, key, h).plus;
    forall k | k in more ensures IsZone(blobs, more[k]) {
      if k != key { assert k !in Missing(blobs, b.plus); }
    }
  }

  lemma AppliedZones(blobs: Blobs, m: State, plus: State, minus: set<Bytes>)
    requires AllZones(blobs, m) && AllZones(blobs, plus)
    ensures AllZones(blobs, Apply(m, plus, minus))
  {
    forall k | k in Apply(m, plus, minus) ensures IsZone(blobs, Apply(m, plus, minus)[k]) {
      if k in plus { assert k !in Missing(blobs, plus); } else { assert k !in Missing(blobs, m); }
    }
  }

  lemma BaseCommitted(before: Blobs, after: Blobs, roots: map<ZoneRef, Bytes>, c: string, b: Base, h: Bytes)
    requires AllZones(before, b.committed) && b.plus == map[] && Grown(before, after)
    requires Manifest(roots, c) == Some(h) && h in after && after[h] == ManifestBlob(AllOf(before, b.committed))
    ensures BaseOk(after, roots, c, b)
  {
    ZonesGrown(before, after, b.committed);
  }

  lemma FewerZones(blobs: Blobs, m: State, gone: set<Bytes>)
    requires AllZones(blobs, m)
    ensures AllZones(blobs, m - gone)
  {
    forall k | k in m - gone ensures IsZone(blobs, m[k]) { assert k !in Missing(blobs, m); }
  }

  /** Reads the zone maps of the given keys. */
  method ReadZones(k: ZoneKernel, es: seq<Entry>) returns (list: seq<Listed>)
    requires EntriesStored(k.blobs, es)
    ensures list == Zones(k.blobs, es)
  {
    list := [];
    for i := 0 to |es|
      invariant |list| == i && forall j :: 0 <= j < i ==> list[j] == Zone(k.blobs, es[j])
    {
      var blob := k.ReadBlob(es[i].hash);
      list := list + [Listed(es[i].key, blob.value.zm, blob.value.data)];
    }
  }

  /** What a scan yields, and how many zone maps it examined. */
  ghost predicate Scanned(blobs: Blobs, committed: State, p: Option<Predicate>,
                          start: Option<Bytes>, end: Option<Bytes>, out: seq<Listed>, total: nat)
    requires AllZones(blobs, committed)
  {
    out == Unpruned(ZonesOf(blobs, committed, start, end), p) && total == |ZonesOf(blobs, committed, start, end)|
  }

  /** Drops what the predicate prunes. */
  method Prune(list: seq<Listed>, p: Option<Predicate>) returns (out: seq<Listed>)
    ensures out == Unpruned(list, p)
  {
    out := [];
    for i := 0 to |list|
      invariant out == Unpruned(list[..i], p)
    {
      assert list[..i + 1][..i] == list[..i];
      if p.None? || !CanPrune(p.value, list[i].zm) { out := out + [list[i]]; }
    }
    assert list[..|list|] == list;
  }

  /** The fast path: one manifest blob. */
  method ScanManifest(k: ZoneKernel, manifest: Bytes, ghost committed: State, p: Option<Predicate>,
                      start: Option<Bytes>, end: Option<Bytes>)
    returns (out: seq<Listed>, total: nat)
    requires AllZones(k.blobs, committed)
    requires manifest in k.blobs && k.blobs[manifest] == ManifestBlob(AllOf(k.blobs, committed))
    ensures Scanned(k.blobs, committed, p, start, end, out, total)
  {
    var blob := k.ReadBlob(manifest);
    var entries := SortListed(blob.value.entries);
    ManifestSorted(k.blobs, committed);
    entries := RangeOf(entries, start, end);
    VisibleStored(k.blobs, committed);
    RangeOfZones(k.blobs, Visible(SortedItems(committed)), start, end);
    total := |entries|;
    out := Prune(entries, p);
  }

  /** The slow path: one blob per zone map. */
  method ScanBlobs(k: ZoneKernel, committed: State, p: Option<Predicate>, start: Option<Bytes>, end: Option<Bytes>)
    returns (out: seq<Listed>, total: nat)
    requires AllZones(k.blobs, committed)
    ensures Scanned(k.blobs, committed, p, start, end, out, total)
  {
    KeysStored(k.blobs, committed, start, end);
    var all := VisibleOf(SortedItems(committed));
    var keys := WithinOf(all, start, end);
    total := |keys|;
    out := ReadAndPrune(k, keys, p);
  }

  /** Reads the zone map of every key and drops what the predicate prunes. */
  method ReadAndPrune(k: ZoneKernel, keys: seq<Entry>, p: Option<Predicate>) returns (out: seq<Listed>)
    requires EntriesStored(k.blobs, keys)
    ensures out == Unpruned(Zones(k.blobs, keys), p)
  {
    ghost var zones := Zones(k.blobs, keys);
    out := [];
    for i := 0 to |keys|
      invariant out == Unpruned(zones[..i], p)
    {
      assert zones[..i + 1][..i] == zones[..i];
      var blob := k.ReadBlob(keys[i].hash);
      var e := Listed(keys[i].key, blob.value.zm, blob.value.data);
      assert e == zones[i];
      if p.None? || !CanPrune(p.value, e.zm) { out := out + [e]; }
    }
    assert zones[..|keys|] == zones;
  }

  /** `ZoneMapIndex`: one index serves every collection. */
  class ZoneMapIndex {
    const kernel: ZoneKernel
    const threshold: nat  // COMPACTION_THRESHOLD of the lenses below
    var bases: Bases
    /** The zone maps examined by the last scan that set it. */
    var lastScanTotal: nat

    ghost predicate Valid()
      reads this`bases, kernel
    {
      kernel.Valid() && kernel.collisionFree && IndexOk(kernel.blobs, kernel.roots, bases)
    }

    /** On a store that holds the collections `bases`, with or without manifests. */
    constructor (kernel: ZoneKernel, bases: Bases, threshold: nat)
      requires kernel.Valid() && kernel.collisionFree && IndexOk(kernel.blobs, kernel.roots, bases)
      ensures Valid() && this.kernel == kernel && this.bases == bases && this.threshold == threshold
      ensures lastScanTotal == 0
    {
      this.kernel, this.bases, this.threshold, lastScanTotal := kernel, bases, threshold, 0;
    }

    /** Stores a zone map and stages it under the row group's key. */
    method AddZoneMap(collection: string, key: Bytes, zm: ZoneMap, data: Bytes) returns (h: Bytes)
      requires Valid()
      modifies this`bases, kernel
      ensures h in kernel.blobs && Grown(old(kernel.blobs), kernel.blobs) && kernel.roots == old(kernel.roots)
      ensures kernel.collisionFree ==> Valid() && kernel.blobs[h] == ZoneBlob(zm, data)
      ensures bases == old(bases)[collection := Staged(BaseOf(old(bases), collection), key, h)]
      ensures var b := BaseOf(bases, collection); Get(b.plus, key) == Some(h) && key !in b.minus
    {
      ghost var before := kernel.blobs;
      var b := BaseOf(bases, collection);
      h := kernel.Write(ZoneBlob(zm, data));
      if kernel.collisionFree {
        OkAt(before, kernel.roots, bases, collection);
        BaseGrown(before, kernel.blobs, kernel.roots, collection, b);
        BaseStaged(kernel.blobs, kernel.roots, collection, b, key, h);
        IndexChanged(before, kernel.blobs, kernel.roots, kernel.roots, bases, collection, Staged(b, key, h));
      }
      bases := bases[collection := Staged(b, key, h)];
    }

    /** Stages the deletion of every committed zone map. */
    method ClearZoneMaps(collection: string) returns (count: nat)
      requires Valid()
      modifies this`bases
      ensures Valid()
      ensures var b := BaseOf(old(bases), collection);
              bases == old(bases)[collection := StagedDeletes(b, VisibleKeys(b))] && count == |VisibleKeys(b)|
    {
      var b := BaseOf(bases, collection);
      var doomed := VisibleKeys(b);
      OkAt(kernel.blobs, kernel.roots, bases, collection);
      FewerZones(kernel.blobs, b.plus, doomed);
      IndexChanged(kernel.blobs, kernel.blobs, kernel.roots, kernel.roots, bases, collection, StagedDeletes(b, doomed));
      bases := bases[collection := StagedDeletes(b, doomed)];
      return |doomed|;
    }

    /** Commits what is staged and rewrites the manifest.  Refused, changing nothing, when
        nothing is staged or the commit of the lens below does not pack. */
    method CommitZoneMaps(collection: string, message: Bytes) returns (ok: bool)
      requires Valid()
      modifies this`bases, kernel
      ensures kernel.collisionFree ==> Valid()
      ensures Grown(old(kernel.blobs), kernel.blobs)
      ensures var b := BaseOf(old(bases), collection);
              && (ok <==> HasStaged(b) && CommitPacks(b, threshold, message))
              && (ok ==> bases == old(bases)[collection := Committed(b, threshold)])
      ensures !ok ==> unchanged(this) && kernel.blobs == old(kernel.blobs) && kernel.roots == old(kernel.roots)
      ensures ok && kernel.collisionFree ==> ManifestRef(collection) in kernel.roots
    {
      var b := BaseOf(bases, collection);
      ok := HasStaged(b) && CommitPacks(b, threshold, message);
      if !ok { return; }
      ghost var before, roots := kernel.blobs, kernel.roots;
      OkAt(before, roots, bases, collection);
      AppliedZones(before, b.committed, b.plus, b.minus);
      WriteManifest(kernel, collection, Committed(b, threshold));
      if kernel.collisionFree {
        IndexChanged(before, kernel.blobs, roots, kernel.roots, bases, collection, Committed(b, threshold));
      }
      bases := bases[collection := Committed(b, threshold)];
    }

    lemma ScanLists(collection: string, p: Option<Predicate>, start: Option<Bytes>, end: Option<Bytes>)
      requires Valid()
      ensures var m := BaseOf(bases, collection).committed;
              && AllZones(kernel.blobs, m)
              && Lists(kernel.blobs, m, p, start, end,
                       Unpruned(ZonesIn(kernel.blobs, bases, collection, start, end), p))
    {
      OkAt(kernel.blobs, kernel.roots, bases, collection);
      UnprunedLists(kernel.blobs, BaseOf(bases, collection).committed, p, start, end);
    }

    /** Scans the committed zone maps of a collection: the manifest when there is one, the
        single blobs otherwise; the result is the same.  A collection without either leaves
        the total of an earlier scan, perhaps of another collection, as it is. */
    method ScanWithPruning(collection: string, p: Option<Predicate>, start: Option<Bytes>, end: Option<Bytes>)
      returns (out: seq<Listed>)
      requires Valid()
      modifies this`lastScanTotal
      ensures Valid()
      ensures var zones := ZonesIn(kernel.blobs, bases, collection, start, end);
              && out == Unpruned(zones, p)
              && lastScanTotal == (if Indexed(kernel.roots, bases, collection) then |zones| else old(lastScanTotal))
              && (lastScanTotal == |zones| <==>
                    Indexed(kernel.roots, bases, collection) || old(lastScanTotal) == 0)
      ensures Lists(kernel.blobs, BaseOf(bases, collection).committed, p, start, end, out)
    {
      ScanLists(collection, p, start, end);
      OkAt(kernel.blobs, kernel.roots, bases, collection);
      var b := BaseOf(bases, collection);
      var manifest := kernel.Resolve(ManifestRef(collection));
      if manifest.Some? {
        out, lastScanTotal := ScanManifest(kernel, manifest.value, b.committed, p, start, end);
        return;
      }
      if b.committed == map[] {
        NothingCommitted(kernel.blobs, start, end);
        return [];
      }
      out, lastScanTotal := ScanBlobs(kernel, b.committed, p, start, end);
    }

    /** Both paths yield the same sequence for every predicate and key range. */
    method BothPaths(collection: string, p: Option<Predicate>, start: Option<Bytes>, end: Option<Bytes>)
      returns (fast: seq<Listed>, slow: seq<Listed>, fastTotal: nat, slowTotal: nat)
      requires Valid() && ManifestRef(collection) in kernel.roots
      ensures fast == slow && fastTotal == slowTotal
    {
      OkAt(kernel.blobs, kernel.roots, bases, collection);
      var b := BaseOf(bases, collection);
      var manifest := kernel.Resolve(ManifestRef(collection));
      fast, fastTotal := ScanManifest(kernel, manifest.value, b.committed, p, start, end);
      slow, slowTotal := ScanBlobs(kernel, b.committed, p, start, end);
    }
  }

  /** The committed zone maps of a collection in a key range. */
  function ZonesIn(blobs: Blobs, bases: Bases, collection: string, start: Option<Bytes>, end: Option<Bytes>)
    : seq<Listed>
    requires AllZones(blobs, BaseOf(bases, collection).committed)
  {
    ZonesOf(blobs, BaseOf(bases, collection).committed, start, end)
  }

  /** A scan of the collection finds a manifest or a committed entry. */
  predicate Indexed(roots: map<ZoneRef, Bytes>, bases: Bases, collection: string) {
    ManifestRef(collection) in roots || BaseOf(bases, collection).committed != map[]
  }

  lemma NothingCommitted(blobs: Blobs, start: Option<Bytes>, end: Option<Bytes>)
    ensures AllZones(blobs, map[]) && ZonesOf(blobs, map[], start, end) == []
  {}

  /** Writes the manifest of a collection that has just been committed, and binds it. */
  method WriteManifest(k: ZoneKernel, collection: string, b: Base)
    requires k.Valid() && AllZones(k.blobs, b.committed) && b.plus == map[]
    modifies k
    ensures k.Valid() && Grown(old(k.blobs), k.blobs)
    ensures ManifestRef(collection) in k.roots
    ensures forall c :: c != collection ==> Manifest(k.roots, c) == Manifest(old(k.roots), c)
    ensures k.collisionFree ==> old(k.collisionFree) && BaseOk(k.blobs, k.roots, collection, b)
  {
    ghost var before := k.blobs;
    VisibleStored(k.blobs, b.committed);
    var keys := VisibleOf(SortedItems(b.committed));
    var list := ReadZones(k, keys);
    var h := k.Write(ManifestBlob(list));
    var bound := k.Reference(ManifestRef(collection), h);
    if k.collisionFree { BaseCommitted(before, k.blobs, k.roots, collection, b, h); }
  }
}
