/** Which bytes are the encoding of a text, and that the order of the encodings is the order of
    the texts by code point. */
module Texts {
  import opened Basics

  predicate Between(b: Byte, lo: int, hi: int) {
    lo <= b <= hi
  }

  /** The length of the well-formed character that `b` starts with (section 4 of RFC 3629);
      zero when there is none. */
  function CharLength(b: Bytes): (n: nat)
    requires b != []
    ensures n <= |b|
  {
    if b[0] < 0x80 then 1
    else if |b| >= 2 && Between(b[0], 0xC2, 0xDF) && Between(b[1], 0x80, 0xBF) then 2
    else if |b| >= 3 && Between(b[0], 0xE0, 0xEF) && Between(b[2], 0x80, 0xBF)
            && Between(b[1], if b[0] == 0xE0 then 0xA0 else 0x80, if b[0] == 0xED then 0x9F else 0xBF) then 3
    else if |b| >= 4 && Between(b[0], 0xF0, 0xF4) && Between(b[2], 0x80, 0xBF) && Between(b[3], 0x80, 0xBF)
            && Between(b[1], if b[0] == 0xF0 then 0x90 else 0x80, if b[0] == 0xF4 then 0x8F else 0xBF) then 4
    else 0
  }

  /** The bytes are the encoding of some text. */
  predicate Utf8(b: Bytes)
    decreases |b|
  {
    b == [] || (CharLength(b) > 0 && Utf8(b[CharLength(b)..]))
  }

  /** A key or message: text whose encoding fits a two-byte length field. */
  predicate TextFits(t: Bytes) {
    |t| < 0x1_0000 && Utf8(t)
  }

  // ---------- what text is ----------

  /** A Unicode scalar value: a code point that is no surrogate. */
  predicate Scalar(cp: int) {
    0 <= cp < 0x11_0000 && !(0xD800 <= cp < 0xE000)
  }

  predicate IsText(t: seq<int>) {
    forall i :: 0 <= i < |t| ==> Scalar(t[i])
  }

  /** The encoding of one character (section 3 of RFC 3629). */
  function Encoded(cp: int): Bytes
    requires Scalar(cp)
  {
    if cp < 0x80 then [cp]
    else if cp < 0x800 then [0xC0 + cp / 0x40, 0x80 + cp % 0x40]
    else if cp < 0x1_0000 then [0xE0 + cp / 0x1000, 0x80 + cp / 0x40 % 0x40, 0x80 + cp % 0x40]
    else [0xF0 + cp / 0x4_0000, 0x80 + cp / 0x1000 % 0x40, 0x80 + cp / 0x40 % 0x40, 0x80 + cp % 0x40]
  }

  function EncodeText(t: seq<int>): Bytes
    requires IsText(t)
  {
    if t == [] then [] else Encoded(t[0]) + EncodeText(t[1..])
  }

  /** An encoded character is read as one character, whatever follows. */
  lemma EncodedRead(cp: int, rest: Bytes)
    requires Scalar(cp)
    ensures CharLength(Encoded(cp) + rest) == |Encoded(cp)| > 0
    ensures (Encoded(cp) + rest)[|Encoded(cp)|..] == rest
  {
    var b := Encoded(cp) + rest;
    assert b[0] == Encoded(cp)[0];
    if cp >= 0x80 { assert b[1] == Encoded(cp)[1]; }
    if cp >= 0x800 { assert b[2] == Encoded(cp)[2]; }
    if cp >= 0x1_0000 { assert b[3] == Encoded(cp)[3]; }
  }

  lemma {:induction false} TextIsUtf8(t: seq<int>)
    requires IsText(t)
    ensures Utf8(EncodeText(t))
  {
    if t != [] {
      TextIsUtf8(t[1..]);
      EncodedRead(t[0], EncodeText(t[1..]));
    }
  }

  /** Six bits at a time. */
  lemma Sextets(n: nat)
    ensures n / 0x1000 == n / 0x40 / 0x40 && n / 0x4_0000 == n / 0x40 / 0x40 / 0x40
    ensures n / 0x1000 % 0x40 == n / 0x40 / 0x40 % 0x40
  {
  }

  lemma Joined(high: nat, low: nat)
    requires low < 0x40
    ensures (high * 0x40 + low) / 0x40 == high && (high * 0x40 + low) % 0x40 == low
  {
  }

  /** What is read as one character encodes one. */
  lemma CharRead(b: Bytes) returns (cp: int)
    requires b != [] && CharLength(b) > 0
    ensures Scalar(cp) && b[..CharLength(b)] == Encoded(cp)
  {
    var n := CharLength(b);
    if n == 1 {
      cp := b[0] as int;
    } else if n == 2 {
      cp := TwoRead(b[0], b[1]);
    } else if n == 3 {
      cp := ThreeRead(b[0], b[1], b[2]);
    } else {
      cp := FourRead(b[0], b[1], b[2], b[3]);
    }
  }

  lemma TwoRead(a: Byte, b: Byte) returns (cp: int)
    requires CharLength([a, b]) == 2
    ensures Scalar(cp) && Encoded(cp) == [a, b]
  {
    cp := (a as int - 0xC0) * 0x40 + (b as int - 0x80);
    Joined(a as int - 0xC0, b as int - 0x80);
  }

  lemma ThreeRead(a: Byte, b: Byte, c: Byte) returns (cp: int)
    requires CharLength([a, b, c]) == 3
    ensures Scalar(cp) && Encoded(cp) == [a, b, c]
  {
    var high := (a as int - 0xE0) * 0x40 + (b as int - 0x80);
    cp := high * 0x40 + (c as int - 0x80);
    Joined(a as int - 0xE0, b as int - 0x80);
    Joined(high, c as int - 0x80);
    Sextets(cp);
  }

  lemma FourRead(a: Byte, b: Byte, c: Byte, d: Byte) returns (cp: int)
    requires CharLength([a, b, c, d]) == 4
    ensures Scalar(cp) && Encoded(cp) == [a, b, c, d]
  {
    var top := (a as int - 0xF0) * 0x40 + (b as int - 0x80);
    var high := top * 0x40 + (c as int - 0x80);
    cp := high * 0x40 + (d as int - 0x80);
    Joined(a as int - 0xF0, b as int - 0x80);
    Joined(top, c as int - 0x80);
    Joined(high, d as int - 0x80);
    Sextets(cp);
  }

  lemma {:induction false} Utf8IsText(b: Bytes) returns (t: seq<int>)
    requires Utf8(b)
    ensures IsText(t) && EncodeText(t) == b
    decreases |b|
  {
    t := [];
    if b != [] {
      var cp := CharRead(b);
      var rest := Utf8IsText(b[CharLength(b)..]);
      t := [cp] + rest;
      assert t[1..] == rest;
      assert b == b[..CharLength(b)] + b[CharLength(b)..];
    }
  }

  /** The encoding of some text. */
  ghost predicate EncodesText(b: Bytes) {
    exists t: seq<int> :: IsText(t) && EncodeText(t) == b
  }

  /** What the codec accepts as a key or a message is exactly the encodings of texts, of at
      most 65535 bytes. */
  lemma FitsExactly(b: Bytes)
    ensures Utf8(b) <==> EncodesText(b)
    ensures TextFits(b) <==> EncodesText(b) && |b| <= 65535
  {
    if Utf8(b) { var t := Utf8IsText(b); }
    if t: seq<int> :| IsText(t) && EncodeText(t) == b { TextIsUtf8(t); }
  }

  // ---------- order ----------

  /** The order of texts by code point. */
  predicate Precedes(s: seq<int>, t: seq<int>) {
    t != [] && (s == [] || s[0] < t[0] || (s[0] == t[0] && Precedes(s[1..], t[1..])))
  }

  /** A smaller key is a proper beginning, or smaller at the first byte that differs. */
  lemma {:induction false} LessExactly(a: Bytes, b: Bytes)
    ensures Less(a, b) <==> exists n :: 0 <= n <= |a| && n < |b| && a[..n] == b[..n] && (n == |a| || a[n] < b[n])
  {
    if a != [] && b != [] && a[0] == b[0] {
      LessExactly(a[1..], b[1..]);
      if n :| 0 <= n <= |a| && n < |b| && a[..n] == b[..n] && (n == |a| || a[n] < b[n]) {
        assert a[1..][..n - 1] == a[..n][1..] && b[1..][..n - 1] == b[..n][1..];
      }
      if n :| 0 <= n <= |a[1..]| && n < |b[1..]| && a[1..][..n] == b[1..][..n]
              && (n == |a[1..]| || a[1..][n] < b[1..][n]) {
        assert a[..n + 1] == [a[0]] + a[1..][..n] && b[..n + 1] == [b[0]] + b[1..][..n];
      }
    } else if b != [] {
      assert a[..0] == b[..0];
    }
  }

  lemma {:induction false} LessPrefix(p: Bytes, a: Bytes, b: Bytes)
    ensures Less(p + a, p + b) <==> Less(a, b)
  {
    if p == [] {
      assert p + a == a && p + b == b;
    } else {
      assert (p + a)[1..] == p[1..] + a && (p + b)[1..] == p[1..] + b;
      LessPrefix(p[1..], a, b);
    }
  }

  /** Of two different characters the one with the smaller code point has the smaller
      encoding, whatever follows. */
  lemma CharOrder(x: int, y: int, a: Bytes, b: Bytes)
    requires Scalar(x) && Scalar(y) && x < y
    ensures Less(Encoded(x) + a, Encoded(y) + b) && !Less(Encoded(y) + b, Encoded(x) + a)
  {
    var p, q := Encoded(x) + a, Encoded(y) + b;
    FirstDiffers(x, y);
    var n :| 0 <= n < |Encoded(x)| && n < |Encoded(y)| && Encoded(x)[..n] == Encoded(y)[..n]
             && Encoded(x)[n] < Encoded(y)[n];
    assert p[..n] == Encoded(x)[..n] && q[..n] == Encoded(y)[..n];
    LessExactly(p, q);
    LessAsymmetric(p, q);
  }

  /** The first byte tells the length, and a longer encoding starts with a larger byte. */
  lemma FirstByte(cp: int)
    requires Scalar(cp)
    ensures var b := Encoded(cp);
            match |b|
            case 1 => b[0] < 0x80 && cp < 0x80
            case 2 => 0xC0 <= b[0] < 0xE0 && 0x80 <= cp < 0x800
            case 3 => 0xE0 <= b[0] < 0xF0 && 0x800 <= cp < 0x1_0000
            case _ => 0xF0 <= b[0] && |b| == 4 && 0x1_0000 <= cp
  {
  }

  lemma FirstDiffers(x: int, y: int)
    requires Scalar(x) && Scalar(y) && x < y
    ensures exists n :: 0 <= n < |Encoded(x)| && n < |Encoded(y)| && Encoded(x)[..n] == Encoded(y)[..n]
                        && Encoded(x)[n] < Encoded(y)[n]
  {
    FirstByte(x);
    FirstByte(y);
    Sextets(x);
    Sextets(y);
    var ex, ey := Encoded(x), Encoded(y);
    var n := if ex[0] != ey[0] then 0 else if ex[1] != ey[1] then 1 else if ex[2] != ey[2] then 2 else 3;
    assert ex[..n] == ey[..n];
  }

  /** UTF-8 keeps the order of texts. */
  lemma {:induction false} OrderKept(s: seq<int>, t: seq<int>)
    requires IsText(s) && IsText(t)
    ensures Less(EncodeText(s), EncodeText(t)) <==> Precedes(s, t)
  {
    if s != [] && t != [] {
      var a, b := EncodeText(s[1..]), EncodeText(t[1..]);
      if s[0] == t[0] {
        LessPrefix(Encoded(s[0]), a, b);
        OrderKept(s[1..], t[1..]);
      } else if s[0] < t[0] {
        CharOrder(s[0], t[0], a, b);
      } else {
        CharOrder(t[0], s[0], b, a);
      }
    } else if t != [] {
      EncodedRead(t[0], EncodeText(t[1..]));
    }
  }
}
