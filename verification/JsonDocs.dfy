/** The JSON documents of the delta log, as values and as the text in which the collector
    looks for addresses. */
module JsonDocs {
  import opened Basics
  import opened Kernel

  /** A SHA-256 digest in hexadecimal (FIPS 180-4). */
  type Hash = string

  type Pairs = seq<(string, Hash)>

  datatype Doc =
    | CommitDoc(parent: Option<Hash>, merged: Option<Hash>, skip: Option<Hash>, plus: Pairs, minus: seq<string>,
                snapshot: Option<Hash>, timestamp: string, message: string, index: nat)
    | SnapshotDoc(entries: Pairs)
    | Data(text: string)

  type Docs = map<Hash, Doc>

  type DocRoots = map<Ref, Hash>

  /** A store of documents. */
  type DocKernel = MemoryKernel<Doc, Hash, Ref>

  predicate HexDigit(c: char) {
    '0' <= c <= '9' || 'a' <= c <= 'f'
  }

  predicate Hex64(s: string) {
    |s| == 64 && forall i :: 0 <= i < 64 ==> HexDigit(s[i])
  }

  // ---------- the text of a document ----------

  function Digit(n: nat): string
    requires n < 16
  {
    ["0123456789abcdef"[n]]
  }

  function Decimal(n: nat): string {
    if n < 10 then Digit(n) else Decimal(n / 10) + Digit(n % 10)
  }

  function Unit(n: nat): string
    requires n < 0x1_0000
  {
    "\\u" + Digit(n / 4096) + Digit(n / 256 % 16) + Digit(n / 16 % 16) + Digit(n % 16)
  }

  /** One character of a JSON string, in ASCII; outside the basic plane as two surrogates. */
  function Escaped(c: char): string {
    var n := c as int;
    if c == '\"' then "\\\"" else if c == '\\' then "\\\\"
    else if c == '\n' then "\\n" else if c == '\r' then "\\r" else if c == '\t' then "\\t"
    else if n == 8 then "\\b" else if n == 12 then "\\f"
    else if ' ' <= c <= '~' then [c]
    else if n < 0x1_0000 then Unit(n)
    else Unit(0xD800 + (n - 0x1_0000) / 1024) + Unit(0xDC00 + (n - 0x1_0000) % 1024)
  }

  function Body(s: string): string {
    if s == "" then "" else Escaped(s[0]) + Body(s[1..])
  }

  function Quote(s: string): string {
    "\"" + Body(s) + "\""
  }

  function OrNull(h: Option<Hash>): string {
    match h case None => "null" case Some(s) => Quote(s)
  }

  function Joined(parts: seq<string>): string {
    if parts == [] then "" else if |parts| == 1 then parts[0] else parts[0] + ", " + Joined(parts[1..])
  }

  function Member(p: (string, Hash)): string {
    Quote(p.0) + ": " + Quote(p.1)
  }

  function Members(ps: Pairs): string {
    "{" + Joined(seq(|ps|, i requires 0 <= i < |ps| => Member(ps[i]))) + "}"
  }

  function Strings(ss: seq<string>): string {
    "[" + Joined(seq(|ss|, i requires 0 <= i < |ss| => Quote(ss[i]))) + "]"
  }

  /** A field with its name already quoted. */
  function Field(quoted: string, value: string): string {
    quoted + value
  }

  function DeltaText(plus: Pairs, minus: seq<string>): string {
    "{" + Joined([Field("\"+\": ", Members(plus)), Field("\"-\": ", Strings(minus))]) + "}"
  }

  function ParentsText(parent: Option<Hash>, merged: Option<Hash>): string {
    "[" + Joined([OrNull(parent), OrNull(merged)]) + "]"
  }

  /** The parts of a commit, in the order of their names. */
  function Fields(d: Doc): seq<string>
    requires d.CommitDoc?
  {
    FirstFields(d) + LastFields(d)
  }

  function FirstFields(d: Doc): seq<string>
    requires d.CommitDoc?
  {
    [Field("\"delta\": ", DeltaText(d.plus, d.minus)),
     Field("\"index\": ", Decimal(d.index)),
     Field("\"message\": ", Quote(d.message)),
     Field("\"parent\": ", OrNull(d.parent))]
    + if d.merged.Some? then [Field("\"parents\": ", ParentsText(d.parent, d.merged))] else []
  }

  function LastFields(d: Doc): seq<string>
    requires d.CommitDoc?
  {
    [Field("\"skip\": ", OrNull(d.skip)),
     Field("\"snapshot\": ", OrNull(d.snapshot)),
     Field("\"timestamp\": ", d.timestamp),
     Field("\"type\": ", "\"commit\"")]
  }

  function Text(d: Doc): string {
    match d
    case CommitDoc(_, _, _, _, _, _, _, _, _) => "{" + Joined(Fields(d)) + "}"
    case SnapshotDoc(entries) => "{" + Joined([Field("\"entries\": ", Members(entries)),
                                               Field("\"type\": ", "\"snapshot\"")]) + "}"
    case Data(text) => text
  }

  // ---------- finding addresses in text ----------

  predicate HexAt(t: string, i: nat) {
    i + 64 <= |t| && forall j :: i <= j < i + 64 ==> HexDigit(t[j])
  }

  /** All non-overlapping runs of 64 hexadecimal digits, leftmost first. */
  function FindFrom(t: string, i: nat): seq<Hash>
    decreases |t| - i
  {
    if i + 64 > |t| then []
    else if HexAt(t, i) then [t[i..i + 64]] + FindFrom(t, i + 64)
    else FindFrom(t, i + 1)
  }

  function FindAll(t: string): seq<Hash> {
    FindFrom(t, 0)
  }

  /** What is found is 64 hexadecimal digits that stand in the text. */
  lemma {:induction false} FoundThere(t: string, i: nat, h: Hash) returns (p: nat)
    requires i <= |t| && h in FindFrom(t, i)
    ensures Hex64(h) && p + 64 <= |t| && t[p..p + 64] == h
    decreases |t| - i
  {
    p := i;
    if HexAt(t, i) {
      var found := t[i..i + 64];
      assert forall j :: 0 <= j < 64 ==> found[j] == t[i + j];
      if h != found { p := FoundThere(t, i + 64, h); }
    } else {
      p := FoundThere(t, i + 1, h);
    }
  }

  /** `h` stands in `t` right after a quotation mark. */
  ghost predicate QuotedIn(t: string, h: Hash) {
    exists p: nat :: QuotedAt(t, h, p)
  }

  ghost predicate QuotedAt(t: string, h: Hash, p: nat) {
    p + 65 <= |t| && t[p] == '\"' && t[p + 1..p + 65] == h
  }

  /** A match never swallows a quotation mark, so the search reaches what follows it. */
  lemma {:induction false} FindQuoted(t: string, i: nat, p: nat, h: Hash)
    requires Hex64(h) && QuotedAt(t, h, p) && i <= p + 1
    ensures h in FindFrom(t, i)
    decreases p + 1 - i
  {
    if i == p + 1 {
      assert forall j :: i <= j < i + 64 ==> t[j] == t[p + 1..p + 65][j - i];
      assert HexAt(t, i);
    } else if HexAt(t, i) {
      assert !HexDigit(t[p]);
      FindQuoted(t, i + 64, p, h);
    } else {
      FindQuoted(t, i + 1, p, h);
    }
  }

  lemma QuotedFound(t: string, h: Hash)
    requires Hex64(h) && QuotedIn(t, h)
    ensures h in FindAll(t)
  {
    var p: nat :| QuotedAt(t, h, p);
    FindQuoted(t, 0, p, h);
  }

  lemma QuotedWithin(a: string, t: string, b: string, h: Hash)
    requires QuotedIn(t, h)
    ensures QuotedIn(a + t + b, h)
  {
    var p: nat :| QuotedAt(t, h, p);
    assert (a + t + b)[|a| + p + 1..|a| + p + 65] == t[p + 1..p + 65];
    assert QuotedAt(a + t + b, h, |a| + p);
  }

  lemma {:induction false} HexBody(s: string)
    requires forall i :: 0 <= i < |s| ==> HexDigit(s[i])
    ensures Body(s) == s
  {
    if s != "" {
      HexBody(s[1..]);
      assert Escaped(s[0]) == [s[0]];
    }
  }

  lemma QuoteQuotes(h: Hash)
    requires Hex64(h)
    ensures QuotedIn(Quote(h), h)
  {
    HexBody(h);
    assert Quote(h)[1..65] == h;
    assert QuotedAt(Quote(h), h, 0);
  }

  lemma {:induction false} JoinedQuotes(parts: seq<string>, i: nat, h: Hash)
    requires i < |parts| && QuotedIn(parts[i], h)
    ensures QuotedIn(Joined(parts), h)
    decreases |parts|
  {
    if |parts| == 1 {
    } else if i == 0 {
      QuotedWithin("", parts[0], ", " + Joined(parts[1..]), h);
      assert "" + parts[0] + (", " + Joined(parts[1..])) == Joined(parts);
    } else {
      JoinedQuotes(parts[1..], i - 1, h);
      QuotedWithin(parts[0] + ", ", Joined(parts[1..]), "", h);
      assert parts[0] + ", " + Joined(parts[1..]) + "" == Joined(parts);
    }
  }
}
