/** The collector over the delta log: what it deletes no name can read. */
module DeltaGc {
  import opened Basics
  import opened Kernel
  import opened JsonDocs
  import opened DeltaHistory
  import opened DeltaReads
  import opened DeltaLog
  import Gc

  /** The collector finds addresses in the text of a document. */
  function Scan(d: Doc): seq<Hash> {
    FindAll(Text(d))
  }

  /** `h` is written in the document as an address. */
  predicate Mentions(d: Doc, h: Hash) {
    match d
    case CommitDoc(parent, merged, skip, plus, _, snapshot, _, _, _) =>
      parent == Some(h) || merged == Some(h) || skip == Some(h) || snapshot == Some(h) || In(plus, h)
    case SnapshotDoc(entries) => In(entries, h)
    case Data(_) => false
  }

  predicate In(ps: Pairs, h: Hash) {
    exists i :: 0 <= i < |ps| && ps[i].1 == h
  }

  lemma MembersQuote(ps: Pairs, h: Hash)
    requires Hex64(h) && In(ps, h)
    ensures QuotedIn(Members(ps), h)
  {
    var i :| 0 <= i < |ps| && ps[i].1 == h;
    var parts := seq(|ps|, j requires 0 <= j < |ps| => Member(ps[j]));
    QuoteQuotes(h);
    QuotedWithin(Quote(ps[i].0) + ": ", Quote(h), "", h);
    assert parts[i] == Quote(ps[i].0) + ": " + Quote(h) + "";
    JoinedQuotes(parts, i, h);
    QuotedWithin("{", Joined(parts), "}", h);
  }

  lemma FieldQuotes(quoted: string, value: string, h: Hash)
    requires QuotedIn(value, h)
    ensures QuotedIn(Field(quoted, value), h)
  {
    QuotedWithin(quoted, value, "", h);
    assert quoted + value + "" == Field(quoted, value);
  }

  lemma DeltaQuotes(plus: Pairs, minus: seq<string>, h: Hash)
    requires Hex64(h) && In(plus, h)
    ensures QuotedIn(DeltaText(plus, minus), h)
  {
    MembersQuote(plus, h);
    FieldQuotes("\"+\": ", Members(plus), h);
    var parts := [Field("\"+\": ", Members(plus)), Field("\"-\": ", Strings(minus))];
    JoinedQuotes(parts, 0, h);
    QuotedWithin("{", Joined(parts), "}", h);
  }

  lemma ParentsQuote(parent: Option<Hash>, h: Hash)
    requires Hex64(h)
    ensures QuotedIn(ParentsText(parent, Some(h)), h)
  {
    QuoteQuotes(h);
    var parts := [OrNull(parent), OrNull(Some(h))];
    JoinedQuotes(parts, 1, h);
    QuotedWithin("[", Joined(parts), "]", h);
  }

  lemma OptionQuotes(quoted: string, value: Option<Hash>, h: Hash)
    requires Hex64(h) && value == Some(h)
    ensures QuotedIn(Field(quoted, OrNull(value)), h)
  {
    QuoteQuotes(h);
    FieldQuotes(quoted, OrNull(value), h);
  }

  ghost predicate QuotedInPart(parts: seq<string>, i: nat, h: Hash) {
    i < |parts| && QuotedIn(parts[i], h)
  }

  lemma FirstFieldsQuote(d: Doc, h: Hash) returns (i: nat)
    requires d.CommitDoc? && Hex64(h) && (In(d.plus, h) || d.parent == Some(h) || d.merged == Some(h))
    ensures QuotedInPart(FirstFields(d), i, h)
  {
    if In(d.plus, h) {
      DeltaQuotes(d.plus, d.minus, h);
      FieldQuotes("\"delta\": ", DeltaText(d.plus, d.minus), h);
      i := 0;
    } else if d.parent == Some(h) {
      OptionQuotes("\"parent\": ", d.parent, h);
      i := 3;
    } else {
      ParentsQuote(d.parent, h);
      FieldQuotes("\"parents\": ", ParentsText(d.parent, d.merged), h);
      i := 4;
    }
  }

  lemma LastFieldsQuote(d: Doc, h: Hash) returns (i: nat)
    requires d.CommitDoc? && Hex64(h) && (d.skip == Some(h) || d.snapshot == Some(h))
    ensures QuotedInPart(LastFields(d), i, h)
  {
    if d.skip == Some(h) {
      OptionQuotes("\"skip\": ", d.skip, h);
      i := 0;
    } else {
      OptionQuotes("\"snapshot\": ", d.snapshot, h);
      i := 1;
    }
  }

  lemma FieldsQuote(d: Doc, h: Hash) returns (i: nat)
    requires d.CommitDoc? && Hex64(h) && Mentions(d, h)
    ensures QuotedInPart(Fields(d), i, h)
  {
    var a, b := FirstFields(d), LastFields(d);
    if In(d.plus, h) || d.parent == Some(h) || d.merged == Some(h) {
      i := FirstFieldsQuote(d, h);
      assert (a + b)[i] == a[i];
    } else {
      i := LastFieldsQuote(d, h);
      assert (a + b)[|a| + i] == b[i];
      i := |a| + i;
    }
  }

  /** Every address that a document mentions is found in its text. */
  lemma MentionsFound(d: Doc, h: Hash)
    requires Hex64(h) && Mentions(d, h)
    ensures h in Scan(d)
  {
    if d.CommitDoc? {
      var i := FieldsQuote(d, h);
      JoinedQuotes(Fields(d), i, h);
      QuotedWithin("{", Joined(Fields(d)), "}", h);
    } else {
      MembersQuote(d.entries, h);
      FieldQuotes("\"entries\": ", Members(d.entries), h);
      var parts := [Field("\"entries\": ", Members(d.entries)), Field("\"type\": ", "\"snapshot\"")];
      JoinedQuotes(parts, 0, h);
      QuotedWithin("{", Joined(parts), "}", h);
    }
    QuotedFound(Text(d), h);
  }

  // ---------- what collection keeps ----------

  /** The collector reaches `h` from some name. */
  ghost predicate Live(docs: Docs, roots: DocRoots, h: Hash) {
    Gc.Reachable(Gc.LinksOf(docs, Scan), roots.Values, h)
  }

  ghost function Kept(docs: Docs, roots: DocRoots): Docs {
    Gc.Survivors(docs, roots, Scan)
  }

  lemma KeptAre(docs: Docs, roots: DocRoots, h: Hash)
    ensures h in Kept(docs, roots) <==> h in docs && Live(docs, roots, h)
    ensures h in Kept(docs, roots) ==> Kept(docs, roots)[h] == docs[h]
  {}

  lemma NamesLive(docs: Docs, roots: DocRoots, n: Ref)
    requires n in roots
    ensures Live(docs, roots, roots[n])
  {
    Gc.NamedReachable(Gc.LinksOf(docs, Scan), roots.Values, roots[n]);
  }

  lemma MentionsLive(docs: Docs, roots: DocRoots, h: Hash, g: Hash)
    requires h in docs && Live(docs, roots, h) && Hex64(g) && Mentions(docs[h], g)
    ensures Live(docs, roots, g)
  {
    MentionsFound(docs[h], g);
    assert Gc.Leads(Gc.LinksOf(docs, Scan), h, g);
    Gc.LinkReachable(Gc.LinksOf(docs, Scan), roots.Values, h, g);
  }

  /** All addresses in the store are digests. */
  ghost predicate Digests(docs: Docs) {
    forall h :: h in docs ==> Hex64(h)
  }

  /** What a live commit names is kept. */
  lemma LinkedKept(docs: Docs, roots: DocRoots, h: Hash)
    requires Sound(docs) && Digests(docs) && IsCommit(docs, h) && Live(docs, roots, h)
    ensures IsCommit(Kept(docs, roots), h) && Linked(Kept(docs, roots), h)
  {
    FaithfulAt(docs, h);
    var c, kept := docs[h], Kept(docs, roots);
    KeptAre(docs, roots, h);
    if c.parent.Some? {
      MentionsLive(docs, roots, h, c.parent.value);
      KeptAre(docs, roots, c.parent.value);
    }
    if c.snapshot.Some? {
      MentionsLive(docs, roots, h, c.snapshot.value);
      KeptAre(docs, roots, c.snapshot.value);
    }
    if c.merged.Some? {
      MentionsLive(docs, roots, h, c.merged.value);
      KeptAre(docs, roots, c.merged.value);
    }
  }

  /** The log stays sound, and every kept commit keeps its state and its ancestors. */
  lemma KeptIsSound(docs: Docs, roots: DocRoots)
    requires Sound(docs) && Digests(docs)
    ensures Sound(Kept(docs, roots)) && Grown(Kept(docs, roots), docs)
  {
    var kept := Kept(docs, roots);
    forall h ensures h in kept ==> h in docs && kept[h] == docs[h] && Live(docs, roots, h) {
      KeptAre(docs, roots, h);
    }
    forall h | IsCommit(kept, h) ensures Linked(kept, h) {
      LinkedKept(docs, roots, h);
    }
    SoundShrunk(kept, docs);
  }

  /** The data behind every live key is kept. */
  lemma {:induction false} LiveData(docs: Docs, roots: DocRoots, h: Hash, key: string)
    requires Sound(docs) && Digests(docs) && IsCommit(docs, h) && Live(docs, roots, h)
    requires key in Meaning(docs, h) && Hex64(Meaning(docs, h)[key])
    ensures Live(docs, roots, Meaning(docs, h)[key])
    decreases docs[h].index
  {
    FaithfulAt(docs, h);
    var c, v := docs[h], Meaning(docs, h)[key];
    if c.merged.Some? {
      MentionsLive(docs, roots, h, c.snapshot.value);
      TableMentions(docs[c.snapshot.value].entries, key);
      MentionsLive(docs, roots, c.snapshot.value, v);
    } else if key in ToTable(c.plus) {
      TableMentions(c.plus, key);
      MentionsLive(docs, roots, h, v);
    } else {
      MentionsLive(docs, roots, h, c.parent.value);
      LiveData(docs, roots, c.parent.value, key);
    }
  }

  lemma {:induction false} TableMentions(ps: Pairs, key: string)
    requires key in ToTable(ps)
    ensures In(ps, ToTable(ps)[key])
    decreases |ps|
  {
    var last := |ps| - 1;
    if ps[last].0 != key {
      TableMentions(ps[..last], key);
      var i :| 0 <= i < last && ps[..last][i].1 == ToTable(ps)[key];
      assert ps[i].1 == ToTable(ps)[key];
    }
  }

  /** The log `name` reads from `kept` what it read from `docs`: its references are commits,
      its state is the same, and what that state refers to is still there if it was. */
  ghost predicate ReadsSame(docs: Docs, kept: Docs, roots: DocRoots, name: string)
    requires Chained(docs) && Chained(kept) && RefsCommits(docs, roots, name)
  {
    && RefsCommits(kept, roots, name)
    && StateAtHead(kept, HeadOf(roots, name)) == StateAtHead(docs, HeadOf(roots, name))
    && (forall key, v :: TableGet(StateAtHead(docs, HeadOf(roots, name)), key) == Some(v) && v in docs ==> v in kept)
  }

  /** Collecting leaves what every log reads as it was: its state, the data that the state
      refers to, and, for every kept commit, which the branches and all their ancestors are,
      the state at it and the commit at every index below it.  The kept documents are
      unchanged, the store stays sound, and collecting again deletes nothing. */
  method CollectLogs(k: DocKernel) returns (marked: nat, deleted: nat)
    requires SoundDocs(k)
    modifies k`blobs
    ensures SoundDocs(k) && Grown(k.blobs, old(k.blobs))
    ensures forall name :: RefsCommits(old(k.blobs), k.roots, name) ==> ReadsSame(old(k.blobs), k.blobs, k.roots, name)
    ensures forall h :: IsCommit(k.blobs, h) ==> Meaning(k.blobs, h) == Meaning(old(k.blobs), h)
    ensures forall h, t :: IsCommit(k.blobs, h) ==> AtIndex(k.blobs, h, t) == AtIndex(old(k.blobs), h, t)
    ensures Kept(k.blobs, k.roots) == k.blobs
    ensures deleted == |old(k.blobs)| - |k.blobs|
  {
    ghost var docs, roots := k.blobs, k.roots;
    marked, deleted := Gc.Collect(k, Scan);
    assert k.blobs == Kept(docs, roots);
    Gc.CollectTwice(docs, roots, Scan);
    KeptIsSound(docs, roots);
    forall name | RefsCommits(docs, roots, name) ensures ReadsSame(docs, k.blobs, roots, name) {
      ReadsKept(docs, roots, name);
    }
    SameMeaning(k.blobs, docs);
  }

  /** In a part of a log every commit has the state and the ancestors that it has in the whole. */
  lemma SameMeaning(kept: Docs, docs: Docs)
    requires Chained(kept) && Chained(docs) && Grown(kept, docs)
    ensures forall h :: IsCommit(kept, h) ==> Meaning(kept, h) == Meaning(docs, h)
    ensures forall h, t :: IsCommit(kept, h) ==> AtIndex(kept, h, t) == AtIndex(docs, h, t)
  {
    forall h | IsCommit(kept, h) ensures Meaning(kept, h) == Meaning(docs, h) { MeaningGrown(kept, docs, h); }
    forall h, t | IsCommit(kept, h) ensures AtIndex(kept, h, t) == AtIndex(docs, h, t) {
      AtIndexGrown(kept, docs, h, t);
    }
  }

  lemma ReadsKept(docs: Docs, roots: DocRoots, name: string)
    requires Sound(docs) && Digests(docs) && RefsCommits(docs, roots, name)
    ensures Sound(Kept(docs, roots)) && ReadsSame(docs, Kept(docs, roots), roots, name)
  {
    var kept := Kept(docs, roots);
    KeptIsSound(docs, roots);
    forall n | n in roots ensures roots[n] in docs ==> roots[n] in kept {
      NamesLive(docs, roots, n);
      KeptAre(docs, roots, roots[n]);
    }
    if HeadRef(name) in roots {
      var h := roots[HeadRef(name)];
      MeaningGrown(kept, docs, h);
      forall key | key in Meaning(docs, h) && Meaning(docs, h)[key] in docs ensures Meaning(docs, h)[key] in kept {
        NamesLive(docs, roots, HeadRef(name));
        LiveData(docs, roots, h, key);
        KeptAre(docs, roots, Meaning(docs, h)[key]);
      }
    }
  }
}
