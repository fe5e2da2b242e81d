/** Bytes, little-endian fields and the ordering of keys.

    A key is the UTF-8 encoding of the string the program uses; `Texts.OrderKept` says that the
    order of the encodings is the order in which the program sorts and compares its keys. */
module Basics {

  datatype Option<+T> = None | Some(value: T)

  type Byte = x: int | 0 <= x < 256
  type Bytes = seq<Byte>

  /** A reference of a collection. */
  datatype Ref =
    | HeadRef(collection: string)
    | SnapRef(collection: string)
    | BranchRef(collection: string, branch: string)

  /** One `(key, hash)` pair of a tree node or of a delta. */
  datatype Entry = Entry(key: Bytes, hash: Bytes)

  // ---------- little-endian fields ----------

  /** A two-byte unsigned field (`<H`); a larger number does not fit. */
  function U16(n: nat): (b: Bytes)
    ensures |b| == 2
  {
    [n % 0x100, n / 0x100 % 0x100]
  }

  /** A four-byte unsigned field (`<I`). */
  function U32(n: nat): (b: Bytes)
    ensures |b| == 4
  {
    [n % 0x100, n / 0x100 % 0x100, n / 0x1_0000 % 0x100, n / 0x100_0000 % 0x100]
  }

  /** `struct.unpack` of a field fails when the data ends early. */
  function ReadU16(data: Bytes, pos: nat): (n: Option<nat>) {
    if pos + 2 <= |data| then Some(data[pos] as int + 0x100 * data[pos + 1] as int) else None
  }

  function ReadU32(data: Bytes, pos: nat): (n: Option<nat>) {
    if pos + 4 <= |data| then
      Some(data[pos] as int + 0x100 * data[pos + 1] as int
           + 0x1_0000 * data[pos + 2] as int + 0x100_0000 * data[pos + 3] as int)
    else None
  }

  // ---------- slices ----------

  function Clip(data: Bytes, pos: nat): nat {
    if pos <= |data| then pos else |data|
  }

  /** `data[pos:pos+n]`: a slice that runs past the end is cut short. */
  function Slice(data: Bytes, pos: nat, n: nat): Bytes {
    data[Clip(data, pos)..Clip(data, pos + n)]
  }

  /** `v[:12]`: the first twelve hexadecimal digits of a hash. */
  function Short(h: Bytes): (digits: Bytes)
    ensures digits <= h && |digits| == if |h| < 6 then |h| else 6
  {
    Slice(h, 0, 6)
  }

  /** `part` stands in `data` at offset `pos`. */
  predicate At(data: Bytes, pos: nat, part: Bytes)
    decreases |part|
  {
    if part == [] then pos <= |data|
    else pos < |data| && data[pos] == part[0] && At(data, pos + 1, part[1..])
  }

  lemma {:induction false} AtInside(data: Bytes, pos: nat, part: Bytes)
    requires At(data, pos, part)
    ensures pos + |part| <= |data|
    decreases |part|
  {
    if part != [] { AtInside(data, pos + 1, part[1..]); }
  }

  lemma {:induction false} AtSplit(data: Bytes, pos: nat, a: Bytes, b: Bytes)
    ensures At(data, pos, a + b) <==> At(data, pos, a) && At(data, pos + |a|, b)
    decreases |a|
  {
    if a == [] {
      assert a + b == b;
      if At(data, pos, b) { AtInside(data, pos, b); }
    } else {
      assert (a + b)[1..] == a[1..] + b;
      AtSplit(data, pos + 1, a[1..], b);
    }
  }

  lemma {:induction false} AtSelf(data: Bytes, pos: nat)
    requires pos <= |data|
    ensures At(data, pos, data[pos..])
    decreases |data| - pos
  {
    if pos < |data| {
      AtSelf(data, pos + 1);
      assert data[pos..][1..] == data[pos + 1..];
    }
  }

  lemma {:induction false} AtSlice(data: Bytes, pos: nat, part: Bytes)
    requires At(data, pos, part)
    ensures pos + |part| <= |data| && Slice(data, pos, |part|) == part
    decreases |part|
  {
    if part != [] {
      AtSlice(data, pos + 1, part[1..]);
      assert part == [part[0]] + part[1..];
      assert data[pos..pos + |part|] == [data[pos]] + data[pos + 1..pos + |part|];
    }
  }

  /** What stands there as a slice stands there. */
  lemma {:induction false} SliceAt(data: Bytes, pos: nat, part: Bytes)
    requires pos + |part| <= |data| && data[pos..pos + |part|] == part
    ensures At(data, pos, part)
    decreases |part|
  {
    if part != [] {
      assert data[pos] == data[pos..pos + |part|][0];
      assert data[pos + 1..pos + |part|] == data[pos..pos + |part|][1..];
      SliceAt(data, pos + 1, part[1..]);
    }
  }

  lemma U16At(data: Bytes, pos: nat, n: nat)
    requires n < 0x1_0000 && At(data, pos, U16(n))
    ensures ReadU16(data, pos) == Some(n)
  {
    AtSlice(data, pos, U16(n));
    var part := data[pos..pos + 2];
    assert part[0] == data[pos] && part[1] == data[pos + 1];
  }

  lemma U32At(data: Bytes, pos: nat, n: nat)
    requires n < 0x1_0000_0000 && At(data, pos, U32(n))
    ensures ReadU32(data, pos) == Some(n)
  {
    AtSlice(data, pos, U32(n));
    var part := data[pos..pos + 4];
    assert part[0] == data[pos] && part[1] == data[pos + 1] && part[2] == data[pos + 2] && part[3] == data[pos + 3];
    Digits(n);
  }

  lemma Digits(n: nat)
    requires n < 0x1_0000_0000
    ensures n % 0x100 + 0x100 * (n / 0x100 % 0x100) + 0x1_0000 * (n / 0x1_0000 % 0x100)
            + 0x100_0000 * (n / 0x100_0000 % 0x100) == n
  {
    assert n / 0x1_0000 == n / 0x100 / 0x100;
    assert n / 0x100_0000 == n / 0x1_0000 / 0x100;
  }

  /** `n` stands in the data as four little-endian bytes. */
  predicate FourBytes(data: Bytes, pos: nat, n: nat) {
    && pos + 4 <= |data| && data[pos] as int == n % 256 && data[pos + 1] as int == n / 256 % 256
    && data[pos + 2] as int == n / 65536 % 256 && data[pos + 3] as int == n / 16777216 % 256
  }

  lemma FourBytesPlace(data: Bytes, pos: nat, n: nat)
    requires At(data, pos, U32(n))
    ensures FourBytes(data, pos, n)
  {
    AtSlice(data, pos, U32(n));
    var part := data[pos..pos + 4];
    assert part[0] == data[pos] && part[1] == data[pos + 1] && part[2] == data[pos + 2] && part[3] == data[pos + 3];
  }

  // ---------- key order ----------

  predicate Less(a: Bytes, b: Bytes) {
    b != [] && (a == [] || a[0] < b[0] || (a[0] == b[0] && Less(a[1..], b[1..])))
  }

  lemma {:induction false} LessIrreflexive(a: Bytes)
    ensures !Less(a, a)
  {
    if a != [] { LessIrreflexive(a[1..]); }
  }

  lemma {:induction false} LessTransitive(a: Bytes, b: Bytes, c: Bytes)
    requires Less(a, b) && Less(b, c)
    ensures Less(a, c)
  {
    if a != [] && a[0] == b[0] && b[0] == c[0] { LessTransitive(a[1..], b[1..], c[1..]); }
  }

  lemma {:induction false} LessTotal(a: Bytes, b: Bytes)
    ensures a == b || Less(a, b) || Less(b, a)
  {
    if a != [] && b != [] && a[0] == b[0] {
      LessTotal(a[1..], b[1..]);
      assert a == [a[0]] + a[1..] && b == [b[0]] + b[1..];
    }
  }

  lemma LessAsymmetric(a: Bytes, b: Bytes)
    requires Less(a, b)
    ensures !Less(b, a) && a != b
  {
    LessIrreflexive(a);
    if Less(b, a) { LessTransitive(a, b, a); }
  }

  // ---------- dictionaries as sequences of entries ----------

  /** The dictionary obtained by assigning the entries in order. */
  function ToMap(es: seq<Entry>): map<Bytes, Bytes> {
    if es == [] then map[] else ToMap(es[..|es| - 1])[es[|es| - 1].key := es[|es| - 1].hash]
  }

  predicate Sorted(es: seq<Entry>) {
    forall i, j :: 0 <= i < j < |es| ==> Less(es[i].key, es[j].key)
  }

  /** Assigning an entry whose key does not occur later leaves its hash under its key. */
  lemma {:induction false} ToMapAt(es: seq<Entry>, i: nat)
    requires Sorted(es) && i < |es|
    ensures es[i].key in ToMap(es) && ToMap(es)[es[i].key] == es[i].hash
  {
    var init, last := es[..|es| - 1], es[|es| - 1];
    if i < |init| {
      ToMapAt(init, i);
      LessAsymmetric(es[i].key, last.key);
    }
  }

  lemma {:induction false} ToMapKey(es: seq<Entry>, k: Bytes) returns (i: nat)
    requires k in ToMap(es)
    ensures i < |es| && es[i].key == k
  {
    if es[|es| - 1].key == k {
      i := |es| - 1;
    } else {
      i := ToMapKey(es[..|es| - 1], k);
    }
  }

  /** `dict.get`. */
  function Get(m: map<Bytes, Bytes>, key: Bytes): Option<Bytes> {
    if key in m then Some(m[key]) else None
  }

  predicate IsLeast(k: Bytes, keys: set<Bytes>) {
    k in keys && forall j :: j in keys ==> j == k || Less(k, j)
  }

  lemma {:induction false} LeastExists(keys: set<Bytes>)
    requires keys != {}
    ensures exists k :: IsLeast(k, keys)
    decreases |keys|
  {
    var x :| x in keys;
    var rest := keys - {x};
    if rest == {} {
      assert keys == {x};
      assert IsLeast(x, keys);
    } else {
      LeastExists(rest);
      var y :| IsLeast(y, rest);
      LessTotal(x, y);
      var k := if Less(x, y) then x else y;
      forall j | j in keys ensures j == k || Less(k, j) {
        if k == x && j != x && j != y { LessTransitive(x, y, j); }
      }
      assert IsLeast(k, keys);
    }
  }

  lemma LeastUnique(a: Bytes, b: Bytes, keys: set<Bytes>)
    requires IsLeast(a, keys) && IsLeast(b, keys)
    ensures a == b
  {
    if a != b { LessAsymmetric(a, b); }
  }

  /** The smallest key. */
  function Least(keys: set<Bytes>): (k: Bytes)
    requires keys != {}
    ensures IsLeast(k, keys)
  {
    LeastExists(keys);
    assert forall a, b :: IsLeast(a, keys) && IsLeast(b, keys) ==> a == b by {
      forall a, b | IsLeast(a, keys) && IsLeast(b, keys) ensures a == b { LeastUnique(a, b, keys); }
    }
    var k :| IsLeast(k, keys);
    k
  }

  /** `sorted(m.items())`. */
  function SortedItems(m: map<Bytes, Bytes>): (es: seq<Entry>)
    ensures |es| == |m|
    ensures forall i :: 0 <= i < |es| ==> es[i].key in m && m[es[i].key] == es[i].hash
    decreases |m|
  {
    if m == map[] then [] else
      var k := Least(m.Keys);
      assert (m - {k}).Keys == m.Keys - {k};
      [Entry(k, m[k])] + SortedItems(m - {k})
  }

  lemma {:induction false} SortedItemsSorted(m: map<Bytes, Bytes>)
    ensures Sorted(SortedItems(m))
    decreases |m|
  {
    if m != map[] {
      var k := Least(m.Keys);
      assert (m - {k}).Keys == m.Keys - {k};
      SortedItemsSorted(m - {k});
    }
  }

  lemma {:induction false} SortedItemsComplete(m: map<Bytes, Bytes>, k: Bytes)
    requires k in m
    ensures Entry(k, m[k]) in SortedItems(m)
    decreases |m|
  {
    var least := Least(m.Keys);
    assert (m - {least}).Keys == m.Keys - {least};
    if k != least { SortedItemsComplete(m - {least}, k); }
  }

  /** Sorting loses nothing: reassigning the sorted items gives the dictionary back. */
  lemma SortedItemsToMap(m: map<Bytes, Bytes>)
    ensures ToMap(SortedItems(m)) == m
  {
    var es := SortedItems(m);
    SortedItemsSorted(m);
    forall k | k in m ensures k in ToMap(es) && ToMap(es)[k] == m[k] {
      SortedItemsComplete(m, k);
      var i :| 0 <= i < |es| && es[i] == Entry(k, m[k]);
      ToMapAt(es, i);
    }
    forall k | k in ToMap(es) ensures k in m {
      var i := ToMapKey(es, k);
    }
  }

  /** A dictionary has one sorted listing. */
  lemma {:induction false} SortedUnique(es: seq<Entry>, fs: seq<Entry>)
    requires Sorted(es) && Sorted(fs)
    requires forall e :: e in es <==> e in fs
    ensures es == fs
  {
    if es + fs != [] {
      var first := (es + fs)[0];
      assert first in es + fs;
      assert first in es && first in fs;
      FirstSame(es, fs);
      forall e ensures e in es[1..] <==> e in fs[1..] {
        InTail(es, e);
        InTail(fs, e);
      }
      SortedUnique(es[1..], fs[1..]);
      assert es == [es[0]] + es[1..] && fs == [fs[0]] + fs[1..];
    }
  }

  lemma FirstSame(es: seq<Entry>, fs: seq<Entry>)
    requires Sorted(es) && Sorted(fs) && es != [] && fs != []
    requires forall e :: e in es <==> e in fs
    ensures es[0] == fs[0]
  {
    assert es[0] in es && fs[0] in fs;
    var i :| 0 <= i < |fs| && fs[i] == es[0];
    var j :| 0 <= j < |es| && es[j] == fs[0];
    if i > 0 && j > 0 { LessAsymmetric(fs[0].key, fs[i].key); }
  }

  lemma InTail(es: seq<Entry>, e: Entry)
    requires Sorted(es) && es != []
    ensures e in es[1..] <==> e in es && e != es[0]
  {
    LessIrreflexive(es[0].key);
  }

  /** Removing a key that is there makes a dictionary one smaller. */
  lemma SmallerByOne<K, V>(m: map<K, V>, k: K)
    requires k in m
    ensures |m - {k}| == |m| - 1
  {
    assert (m - {k}).Keys == m.Keys - {k};
    assert |(m - {k}).Keys| == |m - {k}| && |m.Keys| == |m|;
  }
}
