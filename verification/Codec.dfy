/** The binary layout of tree nodes and commits (`BinaryProllyTree`). */
module Codec {
  import opened Basics
  import opened Texts

  const LEAF: Byte := 1
  const INTERNAL: Byte := 2
  const COMMIT: Byte := 3
  const HASH_LEN: nat := 32

  function Zeros(n: nat): (z: Bytes)
    ensures |z| == n
  {
    seq(n, _ => 0 as Byte)
  }

  /** The digest that the commit layout reserves for "absent". */
  const NIL: Bytes := Zeros(HASH_LEN)

  // ---------- layout ----------

  function EntryBytes(e: Entry): Bytes {
    U16(|e.key|) + e.key + e.hash
  }

  function EntriesBytes(es: seq<Entry>): Bytes {
    if es == [] then [] else EntryBytes(es[0]) + EntriesBytes(es[1..])
  }

  function KeyBytes(k: Bytes): Bytes {
    U16(|k|) + k
  }

  function KeysBytes(ks: seq<Bytes>): Bytes {
    if ks == [] then [] else KeyBytes(ks[0]) + KeysBytes(ks[1..])
  }

  predicate KeysFit(ks: seq<Bytes>) {
    |ks| < 0x1_0000_0000 && forall i :: 0 <= i < |ks| ==> TextFits(ks[i])
  }

  predicate EntriesFit(es: seq<Entry>) {
    |es| < 0x1_0000_0000 && forall i :: 0 <= i < |es| ==> TextFits(es[i].key)
  }

  predicate Hashed(es: seq<Entry>) {
    forall i :: 0 <= i < |es| ==> |es[i].hash| == HASH_LEN
  }

  /** A tree node: type byte, entry count, entries. */
  datatype Node = Node(kind: Byte, entries: seq<Entry>)

  function NodeBytes(n: Node): Bytes {
    [n.kind] + U32(|n.entries|) + EntriesBytes(n.entries)
  }

  /** What a writer passes to `encode_commit`. */
  datatype CommitFields = CommitFields(
    parent: Option<Bytes>, snapshot: Option<Bytes>,
    plus: seq<Entry>, minus: seq<Bytes>, second: Option<Bytes>,
    message: Bytes, timestamp: Bytes, index: nat)

  /** What `decode_commit` gives back. */
  datatype Commit = Commit(
    parent: Option<Bytes>, second: Option<Bytes>, snapshot: Option<Bytes>,
    plus: map<Bytes, Bytes>, minus: seq<Bytes>,
    message: Bytes, timestamp: Bytes, index: nat)
  {
    /** The `delta` field of the decoded commit is present. */
    predicate HasDelta() { plus != map[] || minus != [] }
  }

  function OrZeros(h: Option<Bytes>): Bytes {
    match h case Some(b) => b case None => NIL
  }

  function FlagBytes(h: Option<Bytes>): Bytes {
    match h case Some(b) => [1] + b case None => [0]
  }

  function TailBytes(c: CommitFields): Bytes {
    U16(|c.message|) + (c.message + (c.timestamp + U32(c.index)))
  }

  function MinusBytes(c: CommitFields): Bytes {
    U32(|c.minus|) + (KeysBytes(c.minus) + (FlagBytes(c.second) + TailBytes(c)))
  }

  function PlusBytes(c: CommitFields): Bytes {
    U32(|c.plus|) + (EntriesBytes(c.plus) + MinusBytes(c))
  }

  function CommitBytes(c: CommitFields): Bytes {
    [COMMIT] + (OrZeros(c.parent) + (OrZeros(c.snapshot) + PlusBytes(c)))
  }

  /** The field widths of the layout; outside them packing a field raises an error, and so does
      encoding what is not text. */
  predicate CommitFits(c: CommitFields) {
    EntriesFit(c.plus) && KeysFit(c.minus) && TextFits(c.message) && c.index < 0x1_0000_0000
  }

  lemma EntriesFitExactly(es: seq<Entry>)
    ensures EntriesFit(es) <==>
              && |es| <= 4294967295
              && forall i :: 0 <= i < |es| ==> EncodesText(es[i].key) && |es[i].key| <= 65535
  {
    forall i | 0 <= i < |es|
      ensures TextFits(es[i].key) <==> EncodesText(es[i].key) && |es[i].key| <= 65535
    {
      FitsExactly(es[i].key);
    }
  }

  lemma CommitFitsExactly(c: CommitFields)
    ensures CommitFits(c) <==>
              && |c.plus| <= 4294967295 && |c.minus| <= 4294967295 && c.index <= 4294967295
              && (forall i :: 0 <= i < |c.plus| ==> EncodesText(c.plus[i].key) && |c.plus[i].key| <= 65535)
              && (forall i :: 0 <= i < |c.minus| ==> EncodesText(c.minus[i]) && |c.minus[i]| <= 65535)
              && EncodesText(c.message) && |c.message| <= 65535
  {
    EntriesFitExactly(c.plus);
    forall i | 0 <= i < |c.minus|
      ensures TextFits(c.minus[i]) <==> EncodesText(c.minus[i]) && |c.minus[i]| <= 65535
    {
      FitsExactly(c.minus[i]);
    }
    FitsExactly(c.message);
  }

  predicate IsHash(h: Option<Bytes>) {
    h.Some? ==> |h.value| == HASH_LEN
  }

  /** How a hash field reads back: the reserved digest means "absent". */
  function Seen(h: Option<Bytes>): Option<Bytes> {
    if h == Some(NIL) then None else h
  }

  /** Hashes and the timestamp have their fixed lengths. */
  predicate CommitTyped(c: CommitFields) {
    IsHash(c.parent) && IsHash(c.snapshot) && IsHash(c.second) && Hashed(c.plus) && |c.timestamp| == 8
  }

  // ---------- where the fields stand ----------

  /** An entry: the length of its key in two little-endian bytes, the key, the hash. */
  predicate EntryPlaced(data: Bytes, pos: nat, e: Entry) {
    && pos + 34 + |e.key| <= |data|
    && data[pos] as int == |e.key| % 256 && data[pos + 1] as int == |e.key| / 256 % 256
    && data[pos + 2..pos + 2 + |e.key|] == e.key
    && data[pos + 2 + |e.key|..pos + 34 + |e.key|] == e.hash
  }

  lemma EntryPlace(data: Bytes, pos: nat, e: Entry)
    requires |e.hash| == HASH_LEN && At(data, pos, EntryBytes(e))
    ensures EntryPlaced(data, pos, e)
  {
    AtSplit(data, pos, U16(|e.key|) + e.key, e.hash);
    AtSplit(data, pos, U16(|e.key|), e.key);
    AtSlice(data, pos, U16(|e.key|));
    AtSlice(data, pos + 2, e.key);
    AtSlice(data, pos + 2 + |e.key|, e.hash);
    assert data[pos..pos + 2][0] == data[pos] && data[pos..pos + 2][1] == data[pos + 1];
  }

  lemma FirstEntryPlaced(data: Bytes, pos: nat, es: seq<Entry>)
    requires es != [] && |es[0].hash| == HASH_LEN && At(data, pos, EntriesBytes(es))
    ensures EntryPlaced(data, pos, es[0])
  {
    AtSplit(data, pos, EntryBytes(es[0]), EntriesBytes(es[1..]));
    EntryPlace(data, pos, es[0]);
  }

  /** A node: its type, the number of its entries, and the entries one after the other. */
  lemma NodeLayout(n: Node)
    requires Hashed(n.entries)
    ensures var data := NodeBytes(n);
            && |data| >= 5 && data[0] == n.kind && FourBytes(data, 1, |n.entries|)
            && (n.entries != [] ==> EntryPlaced(data, 5, n.entries[0]))
  {
    var data := NodeBytes(n);
    AtSelf(data, 0);
    assert data[0..] == data;
    AtSplit(data, 0, [n.kind] + U32(|n.entries|), EntriesBytes(n.entries));
    AtSplit(data, 0, [n.kind], U32(|n.entries|));
    FourBytesPlace(data, 1, |n.entries|);
    if n.entries != [] { FirstEntryPlaced(data, 5, n.entries); }
  }

  predicate EndsWith(data: Bytes, part: Bytes) {
    |part| <= |data| && data[|data| - |part|..] == part
  }

  lemma EndKept(a: Bytes, b: Bytes, part: Bytes)
    requires EndsWith(b, part)
    ensures EndsWith(a + b, part)
  {
    assert (a + b)[|a + b| - |part|..] == b[|b| - |part|..];
  }

  lemma CommitEnd(c: CommitFields)
    ensures EndsWith(CommitBytes(c), c.message + (c.timestamp + U32(c.index)))
  {
    var end := c.message + (c.timestamp + U32(c.index));
    EndKept(U16(|c.message|), end, end);
    EndKept(FlagBytes(c.second), TailBytes(c), end);
    EndKept(KeysBytes(c.minus), FlagBytes(c.second) + TailBytes(c), end);
    EndKept(U32(|c.minus|), KeysBytes(c.minus) + (FlagBytes(c.second) + TailBytes(c)), end);
    EndKept(EntriesBytes(c.plus), MinusBytes(c), end);
    EndKept(U32(|c.plus|), EntriesBytes(c.plus) + MinusBytes(c), end);
    EndKept(OrZeros(c.snapshot), PlusBytes(c), end);
    EndKept(OrZeros(c.parent), OrZeros(c.snapshot) + PlusBytes(c), end);
    EndKept([COMMIT], OrZeros(c.parent) + (OrZeros(c.snapshot) + PlusBytes(c)), end);
  }

  /** A commit: its type, the parent, the snapshot, the additions from byte 65 on, and at the
      end the message, the time stamp and the index. */
  lemma CommitLayout(c: CommitFields)
    requires CommitTyped(c)
    ensures HeadPlaced(CommitBytes(c), c) && EndPlaced(CommitBytes(c), c.message, c.timestamp, c.index)
  {
    AtSelf(CommitBytes(c), 0);
    assert CommitBytes(c)[0..] == CommitBytes(c);
    AtSplit(CommitBytes(c), 0, [COMMIT], OrZeros(c.parent) + (OrZeros(c.snapshot) + PlusBytes(c)));
    AtSplit(CommitBytes(c), 1, OrZeros(c.parent), OrZeros(c.snapshot) + PlusBytes(c));
    AtSplit(CommitBytes(c), 33, OrZeros(c.snapshot), PlusBytes(c));
    PlusPlace(CommitBytes(c), c);
    AtSlice(CommitBytes(c), 1, OrZeros(c.parent));
    AtSlice(CommitBytes(c), 33, OrZeros(c.snapshot));
    CommitEnd(c);
    EndFields(CommitBytes(c), c.message, c.timestamp, c.index);
  }

  predicate HeadPlaced(data: Bytes, c: CommitFields) {
    && |data| >= 69 && data[0] == 3
    && data[1..33] == (if c.parent.Some? then c.parent.value else Zeros(32))
    && data[33..65] == (if c.snapshot.Some? then c.snapshot.value else Zeros(32))
    && FourBytes(data, 65, |c.plus|) && (c.plus != [] ==> EntryPlaced(data, 69, c.plus[0]))
  }

  lemma PlusPlace(data: Bytes, c: CommitFields)
    requires CommitTyped(c) && At(data, 65, PlusBytes(c))
    ensures FourBytes(data, 65, |c.plus|) && (c.plus != [] ==> EntryPlaced(data, 69, c.plus[0]))
  {
    AtSplit(data, 65, U32(|c.plus|), EntriesBytes(c.plus) + MinusBytes(c));
    AtSplit(data, 69, EntriesBytes(c.plus), MinusBytes(c));
    FourBytesPlace(data, 65, |c.plus|);
    if c.plus != [] { FirstEntryPlaced(data, 69, c.plus); }
  }

  predicate EndPlaced(data: Bytes, message: Bytes, timestamp: Bytes, index: nat) {
    var n := |data|;
    && n >= |message| + 12 && data[n - 12 - |message|..n - 12] == message && data[n - 12..n - 4] == timestamp
    && FourBytes(data, n - 4, index)
  }

  lemma EndFields(data: Bytes, message: Bytes, timestamp: Bytes, index: nat)
    requires |timestamp| == 8 && EndsWith(data, message + (timestamp + U32(index)))
    ensures EndPlaced(data, message, timestamp, index)
  {
    var end := message + (timestamp + U32(index));
    var at := |data| - |end|;
    assert data == data[..at] + end;
  }

  // ---------- parsing ----------

  /** A decoded run of items and the position after it. */
  datatype Parsed<T> = Malformed | Parsed(items: seq<T>, end: nat)

  /** The text behind a length field; none when the field is cut off, or the bytes are not
      text. */
  function TextAt(data: Bytes, pos: nat): (t: Option<Bytes>)
    ensures t.Some? ==> ReadU16(data, pos).Some?
  {
    var n := ReadU16(data, pos);
    if n.None? || !Utf8(Slice(data, pos + 2, n.value)) then None else Some(Slice(data, pos + 2, n.value))
  }

  /** An entry and the position after it. */
  datatype EntryRead = NoEntry | EntryRead(entry: Entry, next: nat)

  function ReadEntry(data: Bytes, pos: nat): EntryRead {
    var key := TextAt(data, pos);
    if key.None? then NoEntry else
      var next := pos + 2 + ReadU16(data, pos).value;
      EntryRead(Entry(key.value, Slice(data, next, HASH_LEN)), next + HASH_LEN)
  }

  /** Reads `count` more entries behind those in `done`. */
  function ParseEntries(data: Bytes, pos: nat, count: nat, done: seq<Entry>): Parsed<Entry>
    decreases count
  {
    if count == 0 then Parsed(done, pos) else
      var e := ReadEntry(data, pos);
      if e.NoEntry? then Malformed else ParseEntries(data, e.next, count - 1, done + [e.entry])
  }

  function ParseKeys(data: Bytes, pos: nat, count: nat, done: seq<Bytes>): Parsed<Bytes>
    decreases count
  {
    if count == 0 then Parsed(done, pos) else
      var key := TextAt(data, pos);
      if key.None? then Malformed else
        ParseKeys(data, pos + 2 + ReadU16(data, pos).value, count - 1, done + [key.value])
  }

  function ParseNode(data: Bytes): Option<Node> {
    var count := ReadU32(data, 1);
    if data == [] || count.None? || (data[0] != LEAF && data[0] != INTERNAL) then None else
      var es := ParseEntries(data, 5, count.value, []);
      if es.Malformed? then None else Some(Node(data[0], es.items))
  }

  /** A hash field in which all zeros stands for "absent". */
  function ParseRef(data: Bytes, pos: nat): Option<Bytes> {
    var h := Slice(data, pos, HASH_LEN);
    if h == NIL then None else Some(h)
  }

  /** The optional second parent, and the position after it. */
  function ParseSecond(data: Bytes, pos: nat): (Option<Bytes>, nat) {
    if pos >= |data| then (None, pos)
    else if data[pos] == 0 then (None, pos + 1)
    else (ParseRef(data, pos + 1), pos + 1 + HASH_LEN)
  }

  /** Message, timestamp and index. */
  datatype Tail = Truncated | Tail(message: Bytes, timestamp: Bytes, index: nat)

  function ParseTail(data: Bytes, pos: nat): Tail {
    var message := TextAt(data, pos);
    if message.None? then Truncated else
      var next := pos + 2 + ReadU16(data, pos).value;
      var index := ReadU32(data, next + 8);
      if index.None? then Truncated else Tail(message.value, Slice(data, next, 8), index.value)
  }

  /** Everything from the deleted keys on. */
  function ParseRest(data: Bytes, pos: nat, plus: map<Bytes, Bytes>): Option<Commit> {
    var count := ReadU32(data, pos);
    if count.None? then None else
      var minus := ParseKeys(data, pos + 4, count.value, []);
      if minus.Malformed? then None else
        var second := ParseSecond(data, minus.end);
        var tail := ParseTail(data, second.1);
        if tail.Truncated? then None else
          Some(Commit(ParseRef(data, 1), second.0, ParseRef(data, 33), plus, minus.items,
                      tail.message, tail.timestamp, tail.index))
  }

  function ParseCommit(data: Bytes): Option<Commit> {
    var count := ReadU32(data, 65);
    if count.None? then None else
      var plus := ParseEntries(data, 69, count.value, []);
      if plus.Malformed? then None else ParseRest(data, plus.end, ToMap(plus.items))
  }

  // ---------- parsing undoes the layout ----------

  /** The keys are read one after the other from `pos` to `end`. */
  predicate KeysRead(data: Bytes, pos: nat, ks: seq<Bytes>, end: nat)
    decreases |ks|
  {
    if ks == [] then pos == end
    else
      && ReadU16(data, pos) == Some(|ks[0]|) && TextAt(data, pos) == Some(ks[0])
      && KeysRead(data, pos + 2 + |ks[0]|, ks[1..], end)
  }

  lemma KeyAt(data: Bytes, pos: nat, k: Bytes)
    requires TextFits(k) && At(data, pos, KeyBytes(k))
    ensures ReadU16(data, pos) == Some(|k|) && TextAt(data, pos) == Some(k)
  {
    AtSplit(data, pos, U16(|k|), k);
    U16At(data, pos, |k|);
    AtSlice(data, pos + 2, k);
  }

  /** The entries are read one after the other from `pos` to `end`. */
  predicate EntriesRead(data: Bytes, pos: nat, es: seq<Entry>, end: nat)
    decreases |es|
  {
    if es == [] then pos == end
    else
      var next := pos + 2 + |es[0].key| + HASH_LEN;
      ReadEntry(data, pos) == EntryRead(es[0], next) && EntriesRead(data, next, es[1..], end)
  }

  lemma EntryAt(data: Bytes, pos: nat, e: Entry)
    requires TextFits(e.key) && |e.hash| == HASH_LEN && At(data, pos, EntryBytes(e))
    ensures ReadEntry(data, pos) == EntryRead(e, pos + 2 + |e.key| + HASH_LEN)
  {
    AtSplit(data, pos, U16(|e.key|) + e.key, e.hash);
    AtSplit(data, pos, U16(|e.key|), e.key);
    U16At(data, pos, |e.key|);
    AtSlice(data, pos + 2, e.key);
    AtSlice(data, pos + 2 + |e.key|, e.hash);
  }

  predicate WellTyped(es: seq<Entry>) {
    es == [] || (TextFits(es[0].key) && |es[0].hash| == HASH_LEN && WellTyped(es[1..]))
  }

  lemma {:induction false} WellTypedEntries(es: seq<Entry>)
    requires EntriesFit(es) && Hashed(es)
    ensures WellTyped(es)
  {
    if es != [] { WellTypedEntries(es[1..]); }
  }

  lemma {:induction false} EntriesAt(data: Bytes, pos: nat, es: seq<Entry>)
    requires WellTyped(es) && At(data, pos, EntriesBytes(es))
    ensures EntriesRead(data, pos, es, pos + |EntriesBytes(es)|)
    decreases |es|
  {
    if es != [] {
      var e, rest := es[0], es[1..];
      var next := pos + 2 + |e.key| + HASH_LEN;
      assert |EntryBytes(e)| == next - pos;
      AtSplit(data, pos, EntryBytes(e), EntriesBytes(rest));
      EntryAt(data, pos, e);
      EntriesAt(data, next, rest);
    }
  }

  lemma FirstMoved<T>(done: seq<T>, es: seq<T>)
    requires es != []
    ensures done + [es[0]] + es[1..] == done + es
  {}

  lemma {:induction false} EntriesParsed(data: Bytes, pos: nat, es: seq<Entry>, done: seq<Entry>, end: nat)
    requires EntriesRead(data, pos, es, end)
    ensures ParseEntries(data, pos, |es|, done) == Parsed(done + es, end)
    decreases |es|
  {
    if es == [] {
      assert done + es == done;
    } else {
      EntriesParsed(data, pos + 2 + |es[0].key| + HASH_LEN, es[1..], done + [es[0]], end);
      FirstMoved(done, es);
    }
  }

  lemma EntriesRoundTrip(data: Bytes, pos: nat, es: seq<Entry>, done: seq<Entry>)
    requires WellTyped(es) && At(data, pos, EntriesBytes(es))
    ensures ParseEntries(data, pos, |es|, done) == Parsed(done + es, pos + |EntriesBytes(es)|)
  {
    EntriesAt(data, pos, es);
    EntriesParsed(data, pos, es, done, pos + |EntriesBytes(es)|);
  }

  lemma {:induction false} KeysAt(data: Bytes, pos: nat, ks: seq<Bytes>)
    requires KeysFit(ks) && At(data, pos, KeysBytes(ks))
    ensures KeysRead(data, pos, ks, pos + |KeysBytes(ks)|)
    decreases |ks|
  {
    if ks != [] {
      AtSplit(data, pos, KeyBytes(ks[0]), KeysBytes(ks[1..]));
      KeyAt(data, pos, ks[0]);
      KeysAt(data, pos + |KeyBytes(ks[0])|, ks[1..]);
    }
  }

  lemma {:induction false} KeysParsed(data: Bytes, pos: nat, ks: seq<Bytes>, done: seq<Bytes>, end: nat)
    requires KeysRead(data, pos, ks, end)
    ensures ParseKeys(data, pos, |ks|, done) == Parsed(done + ks, end)
    decreases |ks|
  {
    if ks == [] {
      assert done + ks == done;
    } else {
      KeysParsed(data, pos + 2 + |ks[0]|, ks[1..], done + [ks[0]], end);
      FirstMoved(done, ks);
    }
  }

  lemma KeysRoundTrip(data: Bytes, pos: nat, ks: seq<Bytes>, done: seq<Bytes>)
    requires KeysFit(ks) && At(data, pos, KeysBytes(ks))
    ensures ParseKeys(data, pos, |ks|, done) == Parsed(done + ks, pos + |KeysBytes(ks)|)
  {
    KeysAt(data, pos, ks);
    KeysParsed(data, pos, ks, done, pos + |KeysBytes(ks)|);
  }

  /** Decoding undoes encoding for every leaf and internal node. */
  lemma NodeRoundTrip(n: Node)
    requires n.kind == LEAF || n.kind == INTERNAL
    requires EntriesFit(n.entries) && Hashed(n.entries)
    ensures ParseNode(NodeBytes(n)) == Some(n)
  {
    var data := NodeBytes(n);
    AtSelf(data, 0);
    assert data[0..] == data;
    NodeRead(data, n);
  }

  /** An entry that is read with a whole hash stands there as it is written. */
  lemma EntryFrom(data: Bytes, pos: nat)
    requires ReadEntry(data, pos).EntryRead? && |ReadEntry(data, pos).entry.hash| == HASH_LEN
    ensures var r := ReadEntry(data, pos);
            && TextFits(r.entry.key) && At(data, pos, EntryBytes(r.entry)) && r.next == pos + |EntryBytes(r.entry)|
  {
    var e := ReadEntry(data, pos).entry;
    var n := ReadU16(data, pos).value;
    assert |e.key| == n;
    assert data[pos..pos + 2] == U16(n);
    SliceAt(data, pos, U16(n));
    SliceAt(data, pos + 2, e.key);
    SliceAt(data, pos + 2 + n, e.hash);
    AtSplit(data, pos, U16(n), e.key);
    AtSplit(data, pos, U16(n) + e.key, e.hash);
  }

  lemma {:induction false} EntriesFrom(data: Bytes, pos: nat, count: nat, done: seq<Entry>) returns (es: seq<Entry>)
    requires ParseEntries(data, pos, count, done).Parsed?
    ensures |es| == count && ParseEntries(data, pos, count, done).items == done + es
    ensures pos <= |data| && Hashed(es) ==> At(data, pos, EntriesBytes(es)) && WellTyped(es)
    decreases count
  {
    es := [];
    if count > 0 {
      var e := ReadEntry(data, pos);
      var rest := EntriesFrom(data, e.next, count - 1, done + [e.entry]);
      es := [e.entry] + rest;
      assert done + es == done + [e.entry] + rest;
      if Hashed(es) {
        HashedParts(e.entry, rest);
        EntryFrom(data, pos);
        HashedFrom(data, pos, e.entry, rest);
      }
    }
  }

  lemma HashedParts(e: Entry, rest: seq<Entry>)
    requires Hashed([e] + rest)
    ensures |e.hash| == HASH_LEN && Hashed(rest)
  {
    assert ([e] + rest)[0] == e;
    forall i | 0 <= i < |rest| ensures |rest[i].hash| == HASH_LEN { assert ([e] + rest)[i + 1] == rest[i]; }
  }

  lemma HashedFrom(data: Bytes, pos: nat, e: Entry, rest: seq<Entry>)
    requires ReadEntry(data, pos).EntryRead? && ReadEntry(data, pos).entry == e && |e.hash| == HASH_LEN
    requires ReadEntry(data, pos).next <= |data| ==> At(data, ReadEntry(data, pos).next, EntriesBytes(rest))
    requires WellTyped(rest)
    ensures At(data, pos, EntriesBytes([e] + rest)) && WellTyped([e] + rest)
  {
    EntryFrom(data, pos);
    AtInside(data, pos, EntryBytes(e));
    assert ([e] + rest)[1..] == rest;
    AtSplit(data, pos, EntryBytes(e), EntriesBytes(rest));
  }

  /** Exactly what `decode_node` reads as a node with whole hashes: the bytes of the node, and
      whatever follows them. */
  lemma NodeExactly(data: Bytes, n: Node)
    ensures ParseNode(data) == Some(n) && Hashed(n.entries) <==>
              && (n.kind == LEAF || n.kind == INTERNAL) && EntriesFit(n.entries) && Hashed(n.entries)
              && At(data, 0, NodeBytes(n))
  {
    if ParseNode(data) == Some(n) && Hashed(n.entries) {
      NodeFrom(data, n);
    }
    if (n.kind == LEAF || n.kind == INTERNAL) && EntriesFit(n.entries) && Hashed(n.entries)
       && At(data, 0, NodeBytes(n))
    {
      NodeRead(data, n);
    }
  }

  lemma NodeFrom(data: Bytes, n: Node)
    requires ParseNode(data) == Some(n) && Hashed(n.entries)
    ensures (n.kind == LEAF || n.kind == INTERNAL) && EntriesFit(n.entries) && At(data, 0, NodeBytes(n))
  {
    var count := ReadU32(data, 1).value;
    var es := EntriesFrom(data, 5, count, []);
    assert n.entries == es;
    WellTypedFit(es);
    U32From(data, 1);
    SliceAt(data, 0, [n.kind]);
    SliceAt(data, 1, U32(count));
    AtSplit(data, 0, [n.kind], U32(count));
    AtSplit(data, 0, [n.kind] + U32(count), EntriesBytes(es));
  }

  lemma U32From(data: Bytes, pos: nat)
    requires ReadU32(data, pos).Some?
    ensures ReadU32(data, pos).value < 0x1_0000_0000 && data[pos..pos + 4] == U32(ReadU32(data, pos).value)
  {
    FourDigits(data[pos], data[pos + 1], data[pos + 2], data[pos + 3]);
  }

  lemma FourDigits(a: Byte, b: Byte, c: Byte, d: Byte)
    ensures var n := a as int + 0x100 * b as int + 0x1_0000 * c as int + 0x100_0000 * d as int;
            n < 0x1_0000_0000 && U32(n) == [a, b, c, d]
  {
    var high := c as int + 0x100 * d as int;
    var more := b as int + 0x100 * high;
    var n := a as int + 0x100 * more;
    assert n / 0x100 == more && more / 0x100 == high && high / 0x100 == d as int;
    assert n / 0x1_0000 == n / 0x100 / 0x100 && n / 0x100_0000 == n / 0x100 / 0x100 / 0x100;
  }

  lemma {:induction false} WellTypedFit(es: seq<Entry>)
    requires WellTyped(es)
    ensures forall i :: 0 <= i < |es| ==> TextFits(es[i].key)
  {
    if es != [] { WellTypedFit(es[1..]); }
  }

  /** Decoding undoes encoding whatever follows. */
  lemma NodeRead(data: Bytes, n: Node)
    requires (n.kind == LEAF || n.kind == INTERNAL) && EntriesFit(n.entries) && Hashed(n.entries)
    requires At(data, 0, NodeBytes(n))
    ensures ParseNode(data) == Some(n)
  {
    AtSplit(data, 0, [n.kind] + U32(|n.entries|), EntriesBytes(n.entries));
    AtSplit(data, 0, [n.kind], U32(|n.entries|));
    U32At(data, 1, |n.entries|);
    EntriesListAt(data, 5, n.entries);
  }

  lemma SecondAt(data: Bytes, pos: nat, h: Option<Bytes>)
    requires IsHash(h) && At(data, pos, FlagBytes(h))
    ensures ParseSecond(data, pos) == (Seen(h), pos + |FlagBytes(h)|)
  {
    if h.Some? {
      AtSplit(data, pos, [1], h.value);
      AtSlice(data, pos + 1, h.value);
    }
  }

  lemma TailAt(data: Bytes, pos: nat, c: CommitFields)
    requires CommitTyped(c) && CommitFits(c) && At(data, pos, TailBytes(c))
    ensures ParseTail(data, pos) == Tail(c.message, c.timestamp, c.index)
  {
    AtSplit(data, pos, U16(|c.message|), c.message + (c.timestamp + U32(c.index)));
    U16At(data, pos, |c.message|);
    AtSplit(data, pos + 2, c.message, c.timestamp + U32(c.index));
    AtSplit(data, pos + 2 + |c.message|, c.timestamp, U32(c.index));
    AtSlice(data, pos + 2, c.message);
    AtSlice(data, pos + 2 + |c.message|, c.timestamp);
    U32At(data, pos + 2 + |c.message| + 8, c.index);
  }

  /** A count, then the items, then the rest. */
  lemma CountedAt(data: Bytes, pos: nat, n: nat, items: Bytes, rest: Bytes)
    requires n < 0x1_0000_0000 && At(data, pos, U32(n) + (items + rest))
    ensures ReadU32(data, pos) == Some(n)
    ensures At(data, pos + 4, items) && At(data, pos + 4 + |items|, rest)
  {
    AtSplit(data, pos, U32(n), items + rest);
    U32At(data, pos, n);
    AtSplit(data, pos + 4, items, rest);
  }

  lemma KeysListAt(data: Bytes, pos: nat, ks: seq<Bytes>)
    requires KeysFit(ks) && At(data, pos, KeysBytes(ks))
    ensures ParseKeys(data, pos, |ks|, []) == Parsed(ks, pos + |KeysBytes(ks)|)
  {
    KeysRoundTrip(data, pos, ks, []);
    assert [] + ks == ks;
  }

  lemma EntriesListAt(data: Bytes, pos: nat, es: seq<Entry>)
    requires EntriesFit(es) && Hashed(es) && At(data, pos, EntriesBytes(es))
    ensures ParseEntries(data, pos, |es|, []) == Parsed(es, pos + |EntriesBytes(es)|)
  {
    WellTypedEntries(es);
    EntriesRoundTrip(data, pos, es, []);
    assert [] + es == es;
  }

  lemma MinusAt(data: Bytes, pos: nat, c: CommitFields) returns (end: nat)
    requires CommitTyped(c) && CommitFits(c) && At(data, pos, MinusBytes(c))
    ensures ReadU32(data, pos) == Some(|c.minus|)
    ensures ParseKeys(data, pos + 4, |c.minus|, []) == Parsed(c.minus, end)
    ensures ParseSecond(data, end).0 == Seen(c.second)
    ensures At(data, ParseSecond(data, end).1, TailBytes(c))
  {
    end := MinusCounted(data, pos, c);
    KeysListAt(data, pos + 4, c.minus);
    SecondAt(data, end, c.second);
  }

  lemma MinusCounted(data: Bytes, pos: nat, c: CommitFields) returns (end: nat)
    requires |c.minus| < 0x1_0000_0000 && At(data, pos, MinusBytes(c))
    ensures end == pos + 4 + |KeysBytes(c.minus)| && ReadU32(data, pos) == Some(|c.minus|)
    ensures At(data, pos + 4, KeysBytes(c.minus)) && At(data, end, FlagBytes(c.second))
    ensures At(data, end + |FlagBytes(c.second)|, TailBytes(c))
  {
    end := pos + 4 + |KeysBytes(c.minus)|;
    CountedAt(data, pos, |c.minus|, KeysBytes(c.minus), FlagBytes(c.second) + TailBytes(c));
    AtSplit(data, end, FlagBytes(c.second), TailBytes(c));
  }

  lemma PlusAt(data: Bytes, pos: nat, c: CommitFields) returns (end: nat)
    requires CommitTyped(c) && CommitFits(c) && At(data, pos, PlusBytes(c))
    ensures ReadU32(data, pos) == Some(|c.plus|)
    ensures ParseEntries(data, pos + 4, |c.plus|, []) == Parsed(c.plus, end)
    ensures At(data, end, MinusBytes(c))
  {
    end := PlusCounted(data, pos, c);
    EntriesListAt(data, pos + 4, c.plus);
  }

  lemma PlusCounted(data: Bytes, pos: nat, c: CommitFields) returns (end: nat)
    requires |c.plus| < 0x1_0000_0000 && At(data, pos, PlusBytes(c))
    ensures end == pos + 4 + |EntriesBytes(c.plus)| && ReadU32(data, pos) == Some(|c.plus|)
    ensures At(data, pos + 4, EntriesBytes(c.plus)) && At(data, end, MinusBytes(c))
  {
    end := pos + 4 + |EntriesBytes(c.plus)|;
    CountedAt(data, pos, |c.plus|, EntriesBytes(c.plus), MinusBytes(c));
  }

  lemma HeaderAt(data: Bytes, c: CommitFields)
    requires CommitTyped(c) && data == CommitBytes(c)
    ensures ParseRef(data, 1) == Seen(c.parent) && ParseRef(data, 33) == Seen(c.snapshot)
    ensures At(data, 65, PlusBytes(c))
  {
    AtSelf(data, 0);
    assert data[0..] == data;
    AtSplit(data, 0, [COMMIT], OrZeros(c.parent) + (OrZeros(c.snapshot) + PlusBytes(c)));
    AtSplit(data, 1, OrZeros(c.parent), OrZeros(c.snapshot) + PlusBytes(c));
    AtSplit(data, 33, OrZeros(c.snapshot), PlusBytes(c));
    AtSlice(data, 1, OrZeros(c.parent));
    AtSlice(data, 33, OrZeros(c.snapshot));
  }

  lemma RestAt(data: Bytes, pos: nat, c: CommitFields, plus: map<Bytes, Bytes>)
    requires CommitTyped(c) && CommitFits(c) && At(data, pos, MinusBytes(c))
    ensures ParseRest(data, pos, plus) == Some(Commit(ParseRef(data, 1), Seen(c.second), ParseRef(data, 33),
                                                      plus, c.minus, c.message, c.timestamp, c.index))
  {
    var end := MinusAt(data, pos, c);
    TailAt(data, ParseSecond(data, end).1, c);
  }

  lemma PlusParsed(data: Bytes, es: seq<Entry>, end: nat)
    requires ReadU32(data, 65) == Some(|es|) && ParseEntries(data, 69, |es|, []) == Parsed(es, end)
    ensures ParseCommit(data) == ParseRest(data, end, ToMap(es))
  {}

  /** The commit that readers see. */
  function Decoded(c: CommitFields): Commit {
    Commit(Seen(c.parent), Seen(c.second), Seen(c.snapshot), ToMap(c.plus), c.minus,
           c.message, c.timestamp, c.index)
  }

  /** Decoding undoes encoding for every commit within the field widths, whatever the
      lengths of its keys, delta and message. */
  lemma CommitRoundTrip(c: CommitFields)
    requires CommitTyped(c) && CommitFits(c)
    ensures ParseCommit(CommitBytes(c)) == Some(Decoded(c))
  {
    var data := CommitBytes(c);
    HeaderAt(data, c);
    var end := PlusAt(data, 65, c);
    PlusParsed(data, c.plus, end);
    RestAt(data, end, c, ToMap(c.plus));
  }

  /** No hash field holds the reserved digest. */
  predicate NoReserved(c: CommitFields) {
    c.parent != Some(NIL) && c.second != Some(NIL) && c.snapshot != Some(NIL)
  }

  /** Parents and snapshot survive the round trip exactly when none of them is the
      reserved digest. */
  lemma HashFieldsSurvive(c: CommitFields)
    requires CommitTyped(c) && CommitFits(c)
    ensures ParseCommit(CommitBytes(c)).Some?
    ensures var d := ParseCommit(CommitBytes(c)).value;
            (d.parent == c.parent && d.second == c.second && d.snapshot == c.snapshot) <==> NoReserved(c)
  {
    CommitRoundTrip(c);
  }

  /** Two commits with the same bytes carry the same fields; only the order of the delta
      entries is not observable. */
  lemma CommitBytesInjective(c: CommitFields, d: CommitFields)
    requires CommitTyped(c) && CommitFits(c) && CommitTyped(d) && CommitFits(d)
    requires CommitBytes(c) == CommitBytes(d)
    ensures Decoded(c) == Decoded(d)
  {
    CommitRoundTrip(c);
    CommitRoundTrip(d);
  }

  // ---------- the encoders ----------

  /** Packs entries one by one; `None` when a key does not fit its length field. */
  method EncodeEntries(header: Bytes, entries: seq<Entry>) returns (r: Option<Bytes>)
    ensures r == if forall i :: 0 <= i < |entries| ==> TextFits(entries[i].key)
                 then Some(header + EntriesBytes(entries)) else None
  {
    var buf := header;
    assert entries[0..] == entries;
    for i := 0 to |entries|
      invariant forall j :: 0 <= j < i ==> TextFits(entries[j].key)
      invariant buf + EntriesBytes(entries[i..]) == header + EntriesBytes(entries)
    {
      var e := entries[i];
      if !TextFits(e.key) { return None; }
      assert entries[i..][1..] == entries[i + 1..];
      assert buf + (EntryBytes(e) + EntriesBytes(entries[i + 1..]))
             == (buf + EntryBytes(e)) + EntriesBytes(entries[i + 1..]);
      assert buf + U16(|e.key|) + e.key + e.hash == buf + EntryBytes(e);
      buf := buf + U16(|e.key|);
      buf := buf + e.key;
      buf := buf + e.hash;
    }
    assert entries[|entries|..] == [] && buf + [] == buf;
    return Some(buf);
  }

  method EncodeNode(kind: Byte, entries: seq<Entry>) returns (r: Option<Bytes>)
    ensures r == if EntriesFit(entries) then Some(NodeBytes(Node(kind, entries))) else None
    ensures r.Some? <==>
              && |entries| <= 4294967295
              && forall i :: 0 <= i < |entries| ==> EncodesText(entries[i].key) && |entries[i].key| <= 65535
  {
    EntriesFitExactly(entries);
    if |entries| >= 0x1_0000_0000 { return None; }
    r := EncodeEntries([kind] + U32(|entries|), entries);
  }

  method EncodeKeys(header: Bytes, keys: seq<Bytes>) returns (r: Option<Bytes>)
    ensures r == if forall i :: 0 <= i < |keys| ==> TextFits(keys[i])
                 then Some(header + KeysBytes(keys)) else None
  {
    var buf := header;
    assert keys[0..] == keys;
    for i := 0 to |keys|
      invariant forall j :: 0 <= j < i ==> TextFits(keys[j])
      invariant buf + KeysBytes(keys[i..]) == header + KeysBytes(keys)
    {
      if !TextFits(keys[i]) { return None; }
      assert keys[i..][1..] == keys[i + 1..];
      assert buf + (KeyBytes(keys[i]) + KeysBytes(keys[i + 1..]))
             == (buf + KeyBytes(keys[i])) + KeysBytes(keys[i + 1..]);
      assert buf + U16(|keys[i]|) + keys[i] == buf + KeyBytes(keys[i]);
      buf := buf + U16(|keys[i]|);
      buf := buf + keys[i];
    }
    assert keys[|keys|..] == [] && buf + [] == buf;
    return Some(buf);
  }

  method EncodeCommit(c: CommitFields) returns (r: Option<Bytes>)
    ensures r == if CommitFits(c) then Some(CommitBytes(c)) else None
    ensures r.Some? <==>
              && |c.plus| <= 4294967295 && |c.minus| <= 4294967295 && c.index <= 4294967295
              && (forall i :: 0 <= i < |c.plus| ==> EncodesText(c.plus[i].key) && |c.plus[i].key| <= 65535)
              && (forall i :: 0 <= i < |c.minus| ==> EncodesText(c.minus[i]) && |c.minus[i]| <= 65535)
              && EncodesText(c.message) && |c.message| <= 65535
  {
    CommitFitsExactly(c);
    r := PackCommit(c);
  }

  /** As above, in terms of the layout. */
  method PackCommit(c: CommitFields) returns (r: Option<Bytes>)
    ensures r == if CommitFits(c) then Some(CommitBytes(c)) else None
  {
    var buf := [COMMIT];
    buf := buf + OrZeros(c.parent);
    buf := buf + OrZeros(c.snapshot);
    assert buf + PlusBytes(c) == CommitBytes(c);
    var withPlus := EncodePlus(buf, c);
    if withPlus.None? { return None; }
    var withMinus := EncodeMinus(withPlus.value, c);
    if withMinus.None? || !TextFits(c.message) || c.index >= 0x1_0000_0000 { return None; }
    buf := withMinus.value;
    ghost var before := buf;
    buf := buf + U16(|c.message|);
    buf := buf + c.message;
    buf := buf + (c.timestamp + U32(c.index));
    assert buf == before + TailBytes(c);
    return Some(buf);
  }

  method EncodePlus(buf: Bytes, c: CommitFields) returns (r: Option<Bytes>)
    ensures r.Some? <==> EntriesFit(c.plus)
    ensures r.Some? ==> r.value + MinusBytes(c) == buf + PlusBytes(c)
  {
    if |c.plus| >= 0x1_0000_0000 { return None; }
    r := EncodeEntries(buf + U32(|c.plus|), c.plus);
  }

  method EncodeMinus(buf: Bytes, c: CommitFields) returns (r: Option<Bytes>)
    ensures r.Some? <==> KeysFit(c.minus)
    ensures r.Some? ==> r.value + TailBytes(c) == buf + MinusBytes(c)
  {
    if |c.minus| >= 0x1_0000_0000 { return None; }
    var withKeys := EncodeKeys(buf + U32(|c.minus|), c.minus);
    if withKeys.None? { return None; }
    r := Some(withKeys.value + FlagBytes(c.second));
  }

  // ---------- the decoders ----------

  /** Reads one text behind its length. */
  method DecodeText(data: Bytes, pos: nat) returns (t: Option<Bytes>)
    ensures t == TextAt(data, pos)
  {
    var n := ReadU16(data, pos);
    if n.None? { return None; }
    var text := Slice(data, pos + 2, n.value);
    if !Utf8(text) { return None; }
    return Some(text);
  }

  method DecodeEntry(data: Bytes, pos: nat) returns (e: EntryRead)
    ensures e == ReadEntry(data, pos)
  {
    var length := ReadU16(data, pos);
    var key := DecodeText(data, pos);
    if key.None? { return NoEntry; }
    var next := pos + 2 + length.value;
    return EntryRead(Entry(key.value, Slice(data, next, HASH_LEN)), next + HASH_LEN);
  }

  method DecodeEntries(data: Bytes, start: nat, count: nat) returns (r: Parsed<Entry>)
    ensures r == ParseEntries(data, start, count, [])
  {
    var pos: nat, entries: seq<Entry> := start, [];
    ghost var goal := ParseEntries(data, start, count, []);
    for i := 0 to count
      invariant ParseEntries(data, pos, count - i, entries) == goal
    {
      var e := DecodeEntry(data, pos);
      if e.NoEntry? { return Malformed; }
      pos, entries := e.next, entries + [e.entry];
    }
    return Parsed(entries, pos);
  }

  method DecodeKeys(data: Bytes, start: nat, count: nat) returns (r: Parsed<Bytes>)
    ensures r == ParseKeys(data, start, count, [])
  {
    var pos: nat, keys: seq<Bytes> := start, [];
    ghost var goal := ParseKeys(data, start, count, []);
    for i := 0 to count
      invariant ParseKeys(data, pos, count - i, keys) == goal
    {
      var length := ReadU16(data, pos);
      var key := DecodeText(data, pos);
      if key.None? { return Malformed; }
      pos := pos + 2 + length.value;
      keys := keys + [key.value];
    }
    return Parsed(keys, pos);
  }

  method DecodeNode(data: Bytes) returns (r: Option<Node>)
    ensures r == ParseNode(data)
  {
    if data == [] { return None; }
    var count := ReadU32(data, 1);
    if count.None? || (data[0] != LEAF && data[0] != INTERNAL) { return None; }
    var es := DecodeEntries(data, 5, count.value);
    if es.Malformed? { return None; }
    return Some(Node(data[0], es.items));
  }

  method DecodeCommit(data: Bytes) returns (r: Option<Commit>)
    ensures r == ParseCommit(data)
  {
    var plusCount := ReadU32(data, 65);
    if plusCount.None? { return None; }
    var plus := DecodeEntries(data, 69, plusCount.value);
    if plus.Malformed? { return None; }
    var minusCount := ReadU32(data, plus.end);
    if minusCount.None? { return None; }
    var minus := DecodeKeys(data, plus.end + 4, minusCount.value);
    if minus.Malformed? { return None; }
    var second: Option<Bytes>, pos := None, minus.end;
    if pos < |data| {
      var flag := data[pos];
      pos := pos + 1;
      if flag != 0 {
        second := ParseRef(data, pos);
        pos := pos + HASH_LEN;
      }
    }
    var tail := ParseTail(data, pos);
    if tail.Truncated? { return None; }
    return Some(Commit(ParseRef(data, 1), second, ParseRef(data, 33), ToMap(plus.items), minus.items,
                       tail.message, tail.timestamp, tail.index));
  }
}
