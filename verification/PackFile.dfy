/** `PackFile`: many blobs in one file, with an index of offsets in its header. */
module PackFile {
  import opened Basics

  const MAGIC: Bytes := [0x50, 0x4f, 0x4e, 0x44]  // "POND"

  /** An eight-byte unsigned field (`<Q`). */
  function U64(n: nat): Bytes {
    U32(n % 0x1_0000_0000) + U32(n / 0x1_0000_0000)
  }

  function ReadU64(data: Bytes, pos: nat): Option<nat> {
    if ReadU32(data, pos).Some? && ReadU32(data, pos + 4).Some?
    then Some(ReadU32(data, pos).value + 0x1_0000_0000 * ReadU32(data, pos + 4).value)
    else None
  }

  lemma U64At(data: Bytes, pos: nat, n: nat)
    requires n < 0x1_0000_0000_0000_0000 && At(data, pos, U64(n))
    ensures ReadU64(data, pos) == Some(n)
  {
    AtSplit(data, pos, U32(n % 0x1_0000_0000), U32(n / 0x1_0000_0000));
    U32At(data, pos, n % 0x1_0000_0000);
    U32At(data, pos + 4, n / 0x1_0000_0000);
  }

  // ---------- the layout ----------

  /** A blob and its hash. */
  datatype Packed = Packed(hash: Bytes, data: Bytes)

  /** The dictionary obtained by assigning the blobs in order. */
  function ToBlobs(es: seq<Packed>): map<Bytes, Bytes> {
    if es == [] then map[] else ToBlobs(es[..|es| - 1])[es[|es| - 1].hash := es[|es| - 1].data]
  }

  lemma {:induction false} ListedKey(es: seq<Packed>, h: Bytes) returns (i: nat)
    requires h in ToBlobs(es)
    ensures i < |es| && es[i].hash == h
  {
    if es[|es| - 1].hash == h {
      i := |es| - 1;
    } else {
      i := ListedKey(es[..|es| - 1], h);
    }
  }

  function Header(count: nat): Bytes {
    MAGIC + U32(count)
  }

  /** One index entry: hash, offset, length. */
  function IndexEntry(e: Packed, offset: nat): Bytes {
    e.hash + (U64(offset) + U32(|e.data|))
  }

  /** The data of the first `i` blobs. */
  function DataBytes(es: seq<Packed>, i: nat): Bytes
    requires i <= |es|
  {
    if i == 0 then [] else DataBytes(es, i - 1) + es[i - 1].data
  }

  function DataStart(count: nat): nat {
    8 + 44 * count
  }

  /** Where the data of the `i`-th blob starts. */
  function OffsetOf(es: seq<Packed>, i: nat): nat
    requires i <= |es|
  {
    DataStart(|es|) + |DataBytes(es, i)|
  }

  /** The first `i` index entries. */
  function IndexBytes(es: seq<Packed>, i: nat): Bytes
    requires i <= |es|
  {
    if i == 0 then [] else IndexBytes(es, i - 1) + IndexEntry(es[i - 1], OffsetOf(es, i - 1))
  }

  function PackBytes(es: seq<Packed>): Bytes {
    Header(|es|) + (IndexBytes(es, |es|) + DataBytes(es, |es|))
  }

  predicate Hashed32(es: seq<Packed>) {
    forall i :: 0 <= i < |es| ==> |es[i].hash| == 32
  }

  /** Count, lengths and offsets fit their fields. */
  predicate PackFits(es: seq<Packed>) {
    && |es| < 0x1_0000_0000 && OffsetOf(es, |es|) < 0x1_0000_0000_0000_0000
    && forall i :: 0 <= i < |es| ==> |es[i].data| < 0x1_0000_0000
  }

  // ---------- reading ----------

  /** The index entry at `pos` and the data it points to; none when a field runs past the
      end. */
  function EntryAt(data: Bytes, pos: nat): Option<Packed> {
    if ReadU64(data, pos + 32).None? || ReadU32(data, pos + 40).None? then None
    else Some(Packed(Slice(data, pos, 32), Slice(data, ReadU64(data, pos + 32).value, ReadU32(data, pos + 40).value)))
  }

  /** What the index entries say, one by one. */
  function IndexOf(data: Bytes, count: nat): (r: seq<Option<Packed>>)
    ensures |r| == count && forall i :: 0 <= i < count ==> r[i] == EntryAt(data, 8 + 44 * i)
  {
    seq(count, i requires 0 <= i < count => EntryAt(data, 8 + 44 * i))
  }

  /** The linear search of `read_blob`, from the `i`-th entry on. */
  function Find(index: seq<Option<Packed>>, i: nat, h: Bytes): Option<Option<Bytes>>
    requires i <= |index|
    decreases |index| - i
  {
    if i == |index| then Some(None)
    else if index[i].None? then None
    else if index[i].value.hash == h then Some(Some(index[i].value.data))
    else Find(index, i + 1, h)
  }

  /** The entries of the index, in order, if none runs past the end. */
  function EntriesOf(index: seq<Option<Packed>>): Option<seq<Packed>> {
    if forall i :: 0 <= i < |index| ==> index[i].Some? then
      Some(seq(|index|, i requires 0 <= i < |index| && index[i].Some? => index[i].value))
    else None
  }

  predicate HasHeader(data: Bytes) {
    |data| >= 8 && data[..4] == MAGIC
  }

  function CountOf(data: Bytes): nat
    requires HasHeader(data)
  {
    ReadU32(data, 4).value
  }

  function FindBlob(data: Bytes, h: Bytes): Option<Option<Bytes>> {
    if HasHeader(data) then Find(IndexOf(data, CountOf(data)), 0, h) else Some(None)
  }

  function AllBlobs(data: Bytes): Option<map<Bytes, Bytes>> {
    if HasHeader(data) then
      var es := EntriesOf(IndexOf(data, CountOf(data)));
      if es.None? then None else Some(ToBlobs(es.value))
    else Some(map[])
  }

  // ---------- the offsets are right ----------

  /** The index entry at `pos` says where the data of the first blob stands. */
  lemma EntryRead(data: Bytes, pos: nat, e: Packed, offset: nat)
    requires |e.hash| == 32 && |e.data| < 0x1_0000_0000 && offset < 0x1_0000_0000_0000_0000
    requires At(data, pos, IndexEntry(e, offset)) && At(data, offset, e.data)
    ensures EntryAt(data, pos) == Some(e)
  {
    AtSplit(data, pos, e.hash, U64(offset) + U32(|e.data|));
    AtSlice(data, pos, e.hash);
    AtSplit(data, pos + 32, U64(offset), U32(|e.data|));
    U64At(data, pos + 32, offset);
    U32At(data, pos + 40, |e.data|);
    AtSlice(data, offset, e.data);
  }

  lemma {:induction false} IndexAt(data: Bytes, pos: nat, es: seq<Packed>, n: nat, i: nat)
    requires i < n <= |es| && Hashed32(es) && At(data, pos, IndexBytes(es, n))
    ensures At(data, pos + 44 * i, IndexEntry(es[i], OffsetOf(es, i)))
    decreases n
  {
    AtSplit(data, pos, IndexBytes(es, n - 1), IndexEntry(es[n - 1], OffsetOf(es, n - 1)));
    IndexLength(es, n - 1);
    if i < n - 1 { IndexAt(data, pos, es, n - 1, i); }
  }

  lemma {:induction false} IndexLength(es: seq<Packed>, n: nat)
    requires n <= |es| && Hashed32(es)
    ensures |IndexBytes(es, n)| == 44 * n
  {
    if n > 0 { IndexLength(es, n - 1); }
  }

  lemma {:induction false} DataAt(data: Bytes, pos: nat, es: seq<Packed>, n: nat, i: nat)
    requires i < n <= |es| && At(data, pos, DataBytes(es, n))
    ensures At(data, pos + |DataBytes(es, i)|, es[i].data)
    decreases n
  {
    AtSplit(data, pos, DataBytes(es, n - 1), es[n - 1].data);
    if i < n - 1 { DataAt(data, pos, es, n - 1, i); }
  }

  lemma {:induction false} OffsetsGrow(es: seq<Packed>, i: nat, n: nat)
    requires i <= n <= |es|
    ensures OffsetOf(es, i) <= OffsetOf(es, n)
    decreases n
  {
    if i < n { OffsetsGrow(es, i, n - 1); }
  }

  /** A file that holds the entries. */
  ghost predicate IsPack(data: Bytes, es: seq<Packed>) {
    && HasHeader(data) && CountOf(data) == |es|
    && forall i :: 0 <= i < |es| ==> IndexOf(data, |es|)[i] == Some(es[i])
  }

  lemma ThreeParts(data: Bytes, a: Bytes, b: Bytes, c: Bytes)
    requires data == a + (b + c)
    ensures At(data, 0, a) && At(data, |a|, b) && At(data, |a| + |b|, c)
  {
    AtSelf(data, 0);
    assert data[0..] == data;
    AtSplit(data, 0, a, b + c);
    AtSplit(data, |a|, b, c);
  }

  lemma HeaderRead(data: Bytes, count: nat)
    requires At(data, 0, Header(count)) && count < 0x1_0000_0000
    ensures HasHeader(data) && CountOf(data) == count
  {
    AtSplit(data, 0, MAGIC, U32(count));
    U32At(data, 4, count);
    AtSlice(data, 0, MAGIC);
    AtSlice(data, 4, U32(count));
  }

  lemma PackRead(es: seq<Packed>)
    requires Hashed32(es) && PackFits(es)
    ensures IsPack(PackBytes(es), es)
  {
    var data, n := PackBytes(es), |es|;
    ThreeParts(data, Header(n), IndexBytes(es, n), DataBytes(es, n));
    HeaderRead(data, n);
    IndexLength(es, n);
    forall i | 0 <= i < n ensures EntryAt(data, 8 + 44 * i) == Some(es[i]) {
      PackEntry(data, es, i);
    }
  }

  lemma PackEntry(data: Bytes, es: seq<Packed>, i: nat)
    requires Hashed32(es) && PackFits(es) && i < |es|
    requires At(data, 8, IndexBytes(es, |es|)) && At(data, DataStart(|es|), DataBytes(es, |es|))
    ensures EntryAt(data, 8 + 44 * i) == Some(es[i])
  {
    IndexAt(data, 8, es, |es|, i);
    DataAt(data, DataStart(|es|), es, |es|, i);
    OffsetsGrow(es, i, |es|);
    EntryRead(data, 8 + 44 * i, es[i], OffsetOf(es, i));
  }

  /** What stands where: the word POND, the number of blobs, then for each blob its hash, the
      offset of its data in eight bytes and the length in four, and the data last. */
  lemma PackLayout(es: seq<Packed>, i: nat)
    requires Hashed32(es) && i < |es|
    ensures var pack, pos := PackBytes(es), 8 + 44 * i;
            && |pack| >= 8 && pack[..4] == [0x50, 0x4f, 0x4e, 0x44] && FourBytes(pack, 4, |es|)
            && Slice(pack, pos, 32) == es[i].hash && FourBytes(pack, pos + 40, |es[i].data|)
            && FourBytes(pack, pos + 32, OffsetOf(es, i) % 4294967296)
            && FourBytes(pack, pos + 36, OffsetOf(es, i) / 4294967296)
    ensures OffsetOf(es, 0) == 8 + 44 * |es| && OffsetOf(es, i + 1) == OffsetOf(es, i) + |es[i].data|
  {
    var pack, n := PackBytes(es), |es|;
    ThreeParts(pack, Header(n), IndexBytes(es, n), DataBytes(es, n));
    AtSplit(pack, 0, MAGIC, U32(n));
    AtSlice(pack, 0, MAGIC);
    FourBytesPlace(pack, 4, n);
    IndexAt(pack, 8, es, n, i);
    EntryPlaces(pack, 8 + 44 * i, es[i], OffsetOf(es, i));
  }

  lemma EntryPlaces(data: Bytes, pos: nat, e: Packed, offset: nat)
    requires |e.hash| == 32 && At(data, pos, IndexEntry(e, offset))
    ensures Slice(data, pos, 32) == e.hash && FourBytes(data, pos + 40, |e.data|)
    ensures FourBytes(data, pos + 32, offset % 4294967296) && FourBytes(data, pos + 36, offset / 4294967296)
  {
    AtSplit(data, pos, e.hash, U64(offset) + U32(|e.data|));
    AtSlice(data, pos, e.hash);
    AtSplit(data, pos + 32, U64(offset), U32(|e.data|));
    AtSplit(data, pos + 32, U32(offset % 4294967296), U32(offset / 4294967296));
    FourBytesPlace(data, pos + 32, offset % 4294967296);
    FourBytesPlace(data, pos + 36, offset / 4294967296);
    FourBytesPlace(data, pos + 40, |e.data|);
  }

  /** The search finds the first entry with the hash. */
  lemma {:induction false} FindFirst(index: seq<Option<Packed>>, es: seq<Packed>, i: nat, h: Bytes) returns (j: nat)
    requires i <= |index| == |es| && forall k :: 0 <= k < |es| ==> index[k] == Some(es[k])
    ensures i <= j <= |es| && forall k :: i <= k < j ==> es[k].hash != h
    ensures j < |es| ==> es[j].hash == h
    ensures Find(index, i, h) == Some(if j < |es| then Some(es[j].data) else None)
    decreases |es| - i
  {
    j := i;
    if i < |es| && es[i].hash != h { j := FindFirst(index, es, i + 1, h); }
  }

  /** The entries list the dictionary, in some order. */
  ghost predicate ListingOf(es: seq<Packed>, m: map<Bytes, Bytes>) {
    ToBlobs(es) == m && forall i :: 0 <= i < |es| ==> es[i].hash in m && es[i].data == m[es[i].hash]
  }

  /** The offset and the length of every entry. */
  function Places(es: seq<Packed>, i: nat): map<Bytes, (nat, nat)>
    requires i <= |es|
  {
    if i == 0 then map[] else Places(es, i - 1)[es[i - 1].hash := (OffsetOf(es, i - 1), |es[i - 1].data|)]
  }

  /** Every name in the index leads to an entry. */
  lemma {:induction false} PlacesRight(es: seq<Packed>, n: nat, h: Bytes) returns (i: nat)
    requires n <= |es| && h in Places(es, n)
    ensures i < n && es[i].hash == h && Places(es, n)[h] == (OffsetOf(es, i), |es[i].data|)
  {
    if es[n - 1].hash == h { i := n - 1; } else { i := PlacesRight(es, n - 1, h); }
  }

  lemma {:induction false} PlacesAll(es: seq<Packed>, n: nat, i: nat)
    requires i < n <= |es|
    ensures es[i].hash in Places(es, n)
  {
    if i < n - 1 { PlacesAll(es, n - 1, i); }
  }

  /** The data of an entry stands at its offset. */
  lemma DataRead(es: seq<Packed>, i: nat)
    requires i < |es| && Hashed32(es)
    ensures Slice(PackBytes(es), OffsetOf(es, i), |es[i].data|) == es[i].data
  {
    ThreeParts(PackBytes(es), Header(|es|), IndexBytes(es, |es|), DataBytes(es, |es|));
    IndexLength(es, |es|);
    DataAt(PackBytes(es), DataStart(|es|), es, |es|, i);
    AtSlice(PackBytes(es), OffsetOf(es, i), es[i].data);
  }

  /** The place, an offset and a length, holds the blob. */
  predicate Holds(pack: Bytes, place: (nat, nat), data: Bytes) {
    place.1 == |data| && Slice(pack, place.0, place.1) == data
  }

  /** Where each blob of a dictionary stands in a pack. */
  ghost predicate Locates(index: map<Bytes, (nat, nat)>, pack: Bytes, m: map<Bytes, Bytes>) {
    index.Keys == m.Keys && forall h :: h in m ==> Holds(pack, index[h], m[h])
  }

  lemma PlaceHolds(m: map<Bytes, Bytes>, es: seq<Packed>, h: Bytes)
    requires Hashed32(es) && ListingOf(es, m) && h in Places(es, |es|)
    ensures h in m && Holds(PackBytes(es), Places(es, |es|)[h], m[h])
  {
    var i := PlacesRight(es, |es|, h);
    DataRead(es, i);
  }

  lemma PlaceListed(m: map<Bytes, Bytes>, es: seq<Packed>, h: Bytes)
    requires ListingOf(es, m) && h in m
    ensures h in Places(es, |es|)
  {
    var i := ListedKey(es, h);
    PlacesAll(es, |es|, i);
  }

  lemma PackLocates(m: map<Bytes, Bytes>, es: seq<Packed>, index: map<Bytes, (nat, nat)>, pack: Bytes)
    requires Hashed32(es) && ListingOf(es, m) && index == Places(es, |es|) && pack == PackBytes(es)
    ensures Locates(index, pack, m)
  {
    forall h | h in index ensures h in m && Holds(pack, index[h], m[h]) { PlaceHolds(m, es, h); }
    forall h | h in m ensures h in index { PlaceListed(m, es, h); }
    assert index.Keys == m.Keys;
  }

  lemma PackFinds(data: Bytes, m: map<Bytes, Bytes>, es: seq<Packed>, h: Bytes)
    requires IsPack(data, es) && ListingOf(es, m)
    ensures FindBlob(data, h) == Some(Get(m, h))
  {
    var j := FindFirst(IndexOf(data, |es|), es, 0, h);
    if h in m { var i := ListedKey(es, h); }
  }

  lemma PackLists(data: Bytes, m: map<Bytes, Bytes>, es: seq<Packed>)
    requires IsPack(data, es) && ListingOf(es, m)
    ensures AllBlobs(data) == Some(m)
  {
    assert EntriesOf(IndexOf(data, |es|)).value == es;
  }

  /** For every dictionary of blobs that fits, however it is listed, a pack gives each blob
      back, nothing for other hashes, and the whole dictionary in bulk. */
  lemma PackRoundTrip(m: map<Bytes, Bytes>, es: seq<Packed>, h: Bytes)
    requires Hashed32(es) && PackFits(es) && ListingOf(es, m)
    ensures FindBlob(PackBytes(es), h) == Some(Get(m, h))
    ensures AllBlobs(PackBytes(es)) == Some(m)
  {
    PackRead(es);
    PackFinds(PackBytes(es), m, es, h);
    PackLists(PackBytes(es), m, es);
  }

  // ---------- the methods ----------

  /** Computes the offsets, the index and the concatenated data. */
  method Layout(es: seq<Packed>)
    returns (index: Bytes, data: Bytes, offset: nat, places: map<Bytes, (nat, nat)>)
    ensures index == IndexBytes(es, |es|) && data == DataBytes(es, |es|) && offset == OffsetOf(es, |es|)
    ensures places == Places(es, |es|)
  {
    offset, index, data, places := DataStart(|es|), [], [], map[];
    for i := 0 to |es|
      invariant index == IndexBytes(es, i) && data == DataBytes(es, i) && offset == OffsetOf(es, i)
      invariant places == Places(es, i)
    {
      index := index + IndexEntry(es[i], offset);
      places := places[es[i].hash := (offset, |es[i].data|)];
      data := data + es[i].data;
      offset := offset + |es[i].data|;
    }
  }

  /** The blobs of a dictionary, in some order. */
  method Items(m: map<Bytes, Bytes>) returns (es: seq<Packed>)
    ensures ListingOf(es, m)
  {
    es := [];
    var todo := m.Keys;
    while todo != {}
      invariant todo <= m.Keys && ToBlobs(es) == m - todo
      invariant forall i :: 0 <= i < |es| ==> es[i].hash in m && es[i].data == m[es[i].hash]
    {
      var h :| h in todo;
      assert (es + [Packed(h, m[h])])[..|es|] == es;
      assert (m - todo)[h := m[h]] == m - (todo - {h});
      es := es + [Packed(h, m[h])];
      todo := todo - {h};
    }
  }

  method LengthsFit(es: seq<Packed>) returns (ok: bool)
    ensures ok <==> forall i :: 0 <= i < |es| ==> |es[i].data| < 0x1_0000_0000
  {
    ok := true;
    for i := 0 to |es|
      invariant ok <==> forall j :: 0 <= j < i ==> |es[j].data| < 0x1_0000_0000
    {
      ok := ok && |es[i].data| < 0x1_0000_0000;
    }
  }

  /** `create`: the pack and its index; fails when a field does not fit. */
  method Create(m: map<Bytes, Bytes>)
    returns (pack: Option<Bytes>, index: map<Bytes, (nat, nat)>, ghost es: seq<Packed>)
    requires forall h :: h in m ==> |h| == 32
    ensures Hashed32(es) && ListingOf(es, m)
    ensures pack == if PackFits(es) then Some(PackBytes(es)) else None
    ensures pack.Some? ==> Locates(index, pack.value, m)
    ensures pack.Some? ==> AllBlobs(pack.value) == Some(m) && forall h :: FindBlob(pack.value, h) == Some(Get(m, h))
  {
    var items := Items(m);
    es := items;
    var entries, data, offset, places := Layout(items);
    index := places;
    var fit := LengthsFit(items);
    if !fit || |items| >= 0x1_0000_0000 || offset >= 0x1_0000_0000_0000_0000 { return None, index, es; }
    pack := Some(Header(|items|) + (entries + data));
    PackLocates(m, es, index, pack.value);
    forall h ensures FindBlob(pack.value, h) == Some(Get(m, h)) { PackRoundTrip(m, es, h); }
    PackRoundTrip(m, es, []);
  }

  /** `read_blob`; no result when a field runs past the end of the file. */
  method ReadBlob(data: Bytes, h: Bytes) returns (r: Option<Option<Bytes>>)
    ensures r == FindBlob(data, h)
  {
    if !HasHeader(data) { return Some(None); }
    var pos := 8;
    ghost var index := IndexOf(data, CountOf(data));
    for i := 0 to CountOf(data)
      invariant pos == 8 + 44 * i && Find(index, 0, h) == Find(index, i, h)
    {
      var e := EntryAt(data, pos);
      assert e == index[i];
      if e.None? { return None; }
      if e.value.hash == h { return Some(Some(e.value.data)); }
      pos := pos + 44;
    }
    return Some(None);
  }

  /** `read_all_blobs` */
  method ReadAllBlobs(data: Bytes) returns (r: Option<map<Bytes, Bytes>>)
    ensures r == AllBlobs(data)
  {
    if !HasHeader(data) { return Some(map[]); }
    var pos := 8;
    var entries: seq<Packed> := [];
    ghost var index := IndexOf(data, CountOf(data));
    for i := 0 to CountOf(data)
      invariant pos == 8 + 44 * i && |entries| == i
      invariant forall j :: 0 <= j < i ==> index[j] == Some(entries[j])
    {
      var e := EntryAt(data, pos);
      assert e == index[i];
      if e.None? { return None; }
      entries := entries + [e.value];
      pos := pos + 44;
    }
    assert EntriesOf(index).value == entries;
    var result := Assign(entries);
    return Some(result);
  }

  /** Fills the dictionary in index order. */
  method Assign(es: seq<Packed>) returns (m: map<Bytes, Bytes>)
    ensures m == ToBlobs(es)
  {
    m := map[];
    for i := 0 to |es|
      invariant m == ToBlobs(es[..i])
    {
      assert es[..i + 1][..i] == es[..i];
      m := m[es[i].hash := es[i].data];
    }
    assert es[..|es|] == es;
  }
}
