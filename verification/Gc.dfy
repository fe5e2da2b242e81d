/** `PondGC`: mark by following every address found in a document, then delete what was not
    marked.  `scan` is how addresses are found in a document. */
module Gc {
  import opened Basics
  import opened Kernel
  import opened JsonDocs

  /** For every stored document the addresses found in its text. */
  type Links = map<Hash, seq<Hash>>

  function LinksOf(docs: Docs, scan: Doc -> seq<Hash>): Links {
    map h | h in docs :: scan(docs[h])
  }

  /** `g` stands in the document at `h`. */
  predicate Leads(links: Links, h: Hash, g: Hash) {
    h in links && g in links[h]
  }

  /** A chain of links from a named document. */
  ghost predicate Path(links: Links, named: set<Hash>, p: seq<Hash>) {
    && |p| > 0 && p[0] in named
    && forall i :: 0 <= i < |p| - 1 ==> Leads(links, p[i], p[i + 1])
  }

  ghost predicate Reachable(links: Links, named: set<Hash>, h: Hash) {
    exists p :: Path(links, named, p) && p[|p| - 1] == h
  }

  lemma NamedReachable(links: Links, named: set<Hash>, h: Hash)
    requires h in named
    ensures Reachable(links, named, h)
  {
    assert Path(links, named, [h]);
  }

  lemma LinkReachable(links: Links, named: set<Hash>, h: Hash, g: Hash)
    requires Reachable(links, named, h) && Leads(links, h, g)
    ensures Reachable(links, named, g)
  {
    var p :| Path(links, named, p) && p[|p| - 1] == h;
    assert Path(links, named, p + [g]) && (p + [g])[|p|] == g;
  }

  /** The named documents are in the set, and whatever a member leads to. */
  ghost predicate Closed(links: Links, named: set<Hash>, s: set<Hash>) {
    named <= s && forall g, e :: g in s && Leads(links, g, e) ==> e in s
  }

  /** A closed set holds everything reachable. */
  lemma ClosedHoldsReachable(links: Links, named: set<Hash>, s: set<Hash>, h: Hash)
    requires Closed(links, named, s) && Reachable(links, named, h)
    ensures h in s
  {
    var p :| Path(links, named, p) && p[|p| - 1] == h;
    PathWithin(links, named, s, p);
  }

  lemma {:induction false} PathWithin(links: Links, named: set<Hash>, s: set<Hash>, p: seq<Hash>)
    requires Closed(links, named, s) && Path(links, named, p)
    ensures p[|p| - 1] in s
    decreases |p|
  {
    if |p| > 1 {
      PathWithin(links, named, s, p[..|p| - 1]);
      assert Leads(links, p[|p| - 2], p[|p| - 1]);
    }
  }

  /** The reachable addresses are the smallest closed set. */
  lemma ReachableLeast(links: Links, named: set<Hash>, h: Hash)
    ensures Reachable(links, named, h) <==> forall s :: Closed(links, named, s) ==> h in s
  {
    if Reachable(links, named, h) {
      forall s | Closed(links, named, s) ensures h in s { ClosedHoldsReachable(links, named, s, h); }
    } else {
      var s := set g | g in Universe(links, named) && Reachable(links, named, g);
      forall g | g in named ensures g in s { NamedReachable(links, named, g); }
      forall g, e | g in s && Leads(links, g, e) ensures e in s {
        LinkReachable(links, named, g, e);
        var i :| 0 <= i < |links[g]| && links[g][i] == e;
      }
      assert Closed(links, named, s) && h !in s;
    }
  }

  /** What collection leaves. */
  ghost function Survivors(docs: Docs, roots: DocRoots, scan: Doc -> seq<Hash>): Docs {
    map h | h in docs && Reachable(LinksOf(docs, scan), roots.Values, h) :: docs[h]
  }

  // ---------- the collector ----------

  /** Everything a mark could reach. */
  ghost function Universe(links: Links, named: set<Hash>): set<Hash> {
    named + set g, i | g in links && 0 <= i < |links[g]| :: links[g][i]
  }

  function Elements(queue: seq<Hash>): set<Hash> {
    set h | h in queue
  }

  /** What the mark has established: everything met is reachable, and what the marked
      documents lead to is marked or queued. */
  ghost predicate Marking(links: Links, named: set<Hash>, marked: set<Hash>, queued: set<Hash>) {
    && named <= marked + queued <= Universe(links, named)
    && (forall h :: h in marked + queued ==> Reachable(links, named, h))
    && (forall h, e :: h in marked && Leads(links, h, e) ==> e in marked + queued)
  }

  lemma MarkStarts(links: Links, named: set<Hash>)
    ensures Marking(links, named, {}, named)
  {
    forall h | h in named ensures Reachable(links, named, h) { NamedReachable(links, named, h); }
  }

  /** With nothing queued, exactly the reachable addresses are marked. */
  lemma MarkEnds(links: Links, named: set<Hash>, marked: set<Hash>)
    requires Marking(links, named, marked, {})
    ensures forall h :: h in marked <==> Reachable(links, named, h)
  {
    forall h | Reachable(links, named, h) ensures h in marked {
      ClosedHoldsReachable(links, named, marked, h);
    }
  }

  /** Marking one queued address and queueing what it leads to keeps the mark going. */
  lemma MarkedOne(links: Links, named: set<Hash>, marked: set<Hash>, queued: set<Hash>, h: Hash, embedded: seq<Hash>,
                  left: set<Hash>, next: set<Hash>)
    requires Marking(links, named, marked, queued) && h in queued
    requires embedded == if h in links then links[h] else []
    requires queued == left + {h}
    requires next == left + (Elements(embedded) - (marked + {h}))
    ensures Marking(links, named, marked + {h}, next)
    ensures h in Universe(links, named)
  {
    forall g | g in next ensures Reachable(links, named, g) && g in Universe(links, named) {
      if g !in left {
        assert Leads(links, h, g);
        LinkReachable(links, named, h, g);
      }
    }
  }

  lemma PopLast(queue: seq<Hash>)
    requires |queue| > 0
    ensures Elements(queue) == Elements(queue[..|queue| - 1]) + {queue[|queue| - 1]}
  {
    forall h | h in queue ensures h in queue[..|queue| - 1] || h == queue[|queue| - 1] {
      var i :| 0 <= i < |queue| && queue[i] == h;
      if i < |queue| - 1 { assert queue[..|queue| - 1][i] == h; }
    }
  }

  /** Queues the addresses embedded in a document that are not marked yet. */
  method Enqueue(queue: seq<Hash>, embedded: seq<Hash>, marked: set<Hash>) returns (r: seq<Hash>)
    ensures Elements(r) == Elements(queue) + (Elements(embedded) - marked)
  {
    r := queue;
    for i := 0 to |embedded|
      invariant Elements(r) == Elements(queue) + (Elements(embedded[..i]) - marked)
    {
      assert Elements(embedded[..i + 1]) == Elements(embedded[..i]) + {embedded[i]};
      if embedded[i] !in marked {
        assert Elements(r + [embedded[i]]) == Elements(r) + {embedded[i]};
        r := r + [embedded[i]];
      }
    }
    assert embedded[..|embedded|] == embedded;
  }

  /** The queue of all named addresses. */
  method Named(k: DocKernel) returns (queue: seq<Hash>)
    ensures Elements(queue) == k.roots.Values
  {
    var names := k.roots.Keys;
    queue := [];
    while names != {}
      invariant names <= k.roots.Keys && Elements(queue) == (k.roots - names).Values
    {
      var n :| n in names;
      var h := k.Resolve(n);
      NamedOne(k.roots, names, n, queue);
      queue := queue + [h.value];
      names := names - {n};
    }
    assert k.roots - {} == k.roots;
  }

  lemma NamedOne(roots: DocRoots, names: set<Ref>, n: Ref, queue: seq<Hash>)
    requires n in names && n in roots && Elements(queue) == (roots - names).Values
    ensures Elements(queue + [roots[n]]) == (roots - (names - {n})).Values
  {
    var after := roots - (names - {n});
    assert Elements(queue + [roots[n]]) == Elements(queue) + {roots[n]};
    assert n in after && after[n] == roots[n];
    forall h | h in after.Values ensures h in Elements(queue) + {roots[n]} {
      var m :| m in after && after[m] == h;
      if m != n { assert m in roots - names && (roots - names)[m] == h; }
    }
    forall h | h in (roots - names).Values ensures h in after.Values {
      var m :| m in roots - names && (roots - names)[m] == h;
      assert m in after && after[m] == h;
    }
  }

  /** The addresses in the text of a document; none when nothing is stored there. */
  method Embedded(k: DocKernel, h: Hash, scan: Doc -> seq<Hash>) returns (embedded: seq<Hash>)
    ensures embedded == if h in LinksOf(k.blobs, scan) then LinksOf(k.blobs, scan)[h] else []
  {
    var data := k.ReadBlob(h);
    if data.None? { return []; }
    return scan(data.value);
  }

  /** The mark phase. */
  method Mark(k: DocKernel, scan: Doc -> seq<Hash>) returns (marked: set<Hash>)
    ensures forall h :: h in marked <==> Reachable(LinksOf(k.blobs, scan), k.roots.Values, h)
  {
    ghost var links, named := LinksOf(k.blobs, scan), k.roots.Values;
    var queue := Named(k);
    marked := {};
    MarkStarts(links, named);
    while |queue| > 0
      invariant Marking(links, named, marked, Elements(queue))
      decreases Universe(links, named) - marked, |queue|
    {
      var h := queue[|queue| - 1];
      ghost var queued := Elements(queue);
      PopLast(queue);
      queue := queue[..|queue| - 1];
      if h !in marked {
        var embedded := Embedded(k, h, scan);
        ghost var left := Elements(queue);
        queue := Enqueue(queue, embedded, marked + {h});
        MarkedOne(links, named, marked, queued, h, embedded, left, Elements(queue));
        marked := marked + {h};
      }
    }
    MarkEnds(links, named, marked);
  }

  /** The sweep phase. */
  method Sweep(k: DocKernel, keep: set<Hash>) returns (deleted: nat)
    modifies k`blobs
    ensures k.blobs == (map h | h in old(k.blobs) && h in keep :: old(k.blobs)[h])
    ensures deleted == |old(k.blobs)| - |k.blobs|
  {
    ghost var docs := k.blobs;
    deleted := 0;
    var todo := k.blobs.Keys;
    while todo != {}
      invariant todo <= docs.Keys && deleted + |k.blobs| == |docs| && todo <= k.blobs.Keys
      invariant k.blobs == map h | h in docs && (h in todo || h in keep) :: docs[h]
    {
      var h :| h in todo;
      if h !in keep {
        SmallerByOne(k.blobs, h);
        k.blobs := k.blobs - {h};
        deleted := deleted + 1;
      }
      todo := todo - {h};
    }
  }

  /** There are `n` reachable addresses, stored or not. */
  ghost predicate CountsReachable(links: Links, named: set<Hash>, n: nat) {
    exists reached: set<Hash> :: |reached| == n && forall h :: h in reached <==> Reachable(links, named, h)
  }

  /** Marks, then deletes every stored document that was not marked. */
  method Collect(k: DocKernel, scan: Doc -> seq<Hash>) returns (marked: nat, deleted: nat)
    requires k.Valid()
    modifies k`blobs
    ensures k.Valid() && k.blobs == old(Survivors(k.blobs, k.roots, scan))
    ensures Grown(k.blobs, old(k.blobs))
    ensures forall h :: h in k.blobs <==>
              h in old(k.blobs) && Reachable(old(LinksOf(k.blobs, scan)), k.roots.Values, h)
    ensures deleted == |old(k.blobs)| - |k.blobs|
    ensures CountsReachable(old(LinksOf(k.blobs, scan)), k.roots.Values, marked)
  {
    var keep := Mark(k, scan);
    SurvivorsAre(k.blobs, k.roots, scan, keep);
    deleted := Sweep(k, keep);
    return |keep|, deleted;
  }

  lemma SurvivorsAre(docs: Docs, roots: DocRoots, scan: Doc -> seq<Hash>, keep: set<Hash>)
    requires forall h :: h in keep <==> Reachable(LinksOf(docs, scan), roots.Values, h)
    ensures (map h | h in docs && h in keep :: docs[h]) == Survivors(docs, roots, scan)
    ensures forall n :: n in roots ==> roots[n] in keep
  {
    forall n | n in roots ensures roots[n] in keep {
      NamedReachable(LinksOf(docs, scan), roots.Values, roots[n]);
    }
  }

  /** A path from the names stays a path after collection. */
  lemma {:induction false} PathSurvives(docs: Docs, roots: DocRoots, scan: Doc -> seq<Hash>, p: seq<Hash>)
    requires Path(LinksOf(docs, scan), roots.Values, p)
    ensures Path(LinksOf(Survivors(docs, roots, scan), scan), roots.Values, p)
    decreases |p|
  {
    var links, after := LinksOf(docs, scan), LinksOf(Survivors(docs, roots, scan), scan);
    forall i | 0 <= i < |p| - 1 ensures Leads(after, p[i], p[i + 1]) {
      assert Path(links, roots.Values, p[..i + 1]) && p[..i + 1][i] == p[i];
      assert Leads(links, p[i], p[i + 1]);
    }
  }

  /** A second collection deletes nothing. */
  lemma CollectTwice(docs: Docs, roots: DocRoots, scan: Doc -> seq<Hash>)
    ensures var once := Survivors(docs, roots, scan); Survivors(once, roots, scan) == once
  {
    var links, once := LinksOf(docs, scan), Survivors(docs, roots, scan);
    forall h | h in once ensures Reachable(LinksOf(once, scan), roots.Values, h) {
      var p :| Path(links, roots.Values, p) && p[|p| - 1] == h;
      PathSurvives(docs, roots, scan, p);
    }
  }
}
