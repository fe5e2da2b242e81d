/** The older tree builder, before the fix: every level but the top one is written with
    the leaf layout. */
module OlderTree {
  import opened Basics
  import opened Texts
  import opened Codec
  import opened Kernel
  import opened ProllyTree

  const TWO_LEVELS: nat := 4096  // CHUNK * CHUNK

  /** What the older builder stores: rows of child addresses become leaf entries. */
  function OlderTreeOf(hash: Digest, es: seq<Entry>): Tree
    decreases |es|
  {
    if |es| <= CHUNK then Leaf(es) else
      var ts := Leaves(Chunks(es));
      if |ts| <= CHUNK then Branch(ts) else
        SplitShape(es);
        OlderTreeOf(hash, Rows(hash, ts))
  }

  function OlderMapTree(hash: Digest, m: map<Bytes, Bytes>): Tree {
    OlderTreeOf(hash, SortedItems(m))
  }

  /** The largest key and the address of every leaf chunk. */
  function LeafRows(hash: Digest, es: seq<Entry>): seq<Entry> {
    Rows(hash, Leaves(Chunks(es)))
  }

  /** Up to 4096 entries both builders produce the same tree, hence the same root. */
  lemma OlderSameTree(hash: Digest, es: seq<Entry>)
    requires |es| <= TWO_LEVELS
    ensures OlderTreeOf(hash, es) == TreeOf(es)
  {
    if |es| > CHUNK { ChunksCount(es); }
  }

  /** Between 4096 and 64^3 entries, reading the older tree yields one entry per leaf
      chunk, keyed by the largest key of that chunk. */
  lemma OlderReadsChunks(hash: Digest, es: seq<Entry>)
    requires TWO_LEVELS < |es| <= CHUNK * TWO_LEVELS
    ensures Flatten(OlderTreeOf(hash, es)) == LeafRows(hash, es)
    ensures |LeafRows(hash, es)| == (|es| + CHUNK - 1) / CHUNK
    ensures forall c :: 0 <= c < |LeafRows(hash, es)| ==>
              Chunks(es)[c] != [] && LeafRows(hash, es)[c].key == Chunks(es)[c][|Chunks(es)[c]| - 1].key
  {
    ChunksCount(es);
    OlderSameTree(hash, LeafRows(hash, es));
    FlattenTreeOf(LeafRows(hash, es));
  }

  lemma {:induction false} OlderCount(hash: Digest, es: seq<Entry>)
    requires |es| > TWO_LEVELS
    ensures |Flatten(OlderTreeOf(hash, es))| < |es|
    decreases |es|
  {
    ChunksCount(es);
    var rows := LeafRows(hash, es);
    if |rows| <= TWO_LEVELS {
      OlderSameTree(hash, rows);
      FlattenTreeOf(rows);
    } else {
      OlderCount(hash, rows);
    }
  }

  lemma {:induction false} ToMapSize(es: seq<Entry>)
    ensures |ToMap(es)| <= |es|
  {
    if es != [] { ToMapSize(es[..|es| - 1]); }
  }

  /** The older builder keeps a dictionary exactly when it has at most 4096 entries. */
  lemma OlderLosesData(hash: Digest, m: map<Bytes, Bytes>)
    ensures ToMap(Flatten(OlderMapTree(hash, m))) == m <==> |m| <= TWO_LEVELS
  {
    var es := SortedItems(m);
    if |m| <= TWO_LEVELS {
      OlderSameTree(hash, es);
      FlattenTreeOf(es);
      SortedItemsToMap(m);
    } else {
      OlderCount(hash, es);
      ToMapSize(Flatten(OlderMapTree(hash, m)));
    }
  }

  // ---------- what is left of a dictionary ----------

  /** While more than 4096 entries remain, they give way to the rows of their chunks. */
  function Left(hash: Digest, es: seq<Entry>): seq<Entry>
    decreases |es|
  {
    if |es| <= TWO_LEVELS then es else
      SplitShape(es);
      Left(hash, LeafRows(hash, es))
  }

  /** The dictionary that the older builder really stores for `m`. */
  function Remaining(hash: Digest, m: map<Bytes, Bytes>): map<Bytes, Bytes> {
    ToMap(Left(hash, SortedItems(m)))
  }

  lemma {:induction false} LeftTree(hash: Digest, es: seq<Entry>)
    ensures OlderTreeOf(hash, es) == TreeOf(Left(hash, es)) && |Left(hash, es)| <= TWO_LEVELS
    decreases |es|
  {
    if |es| <= TWO_LEVELS {
      OlderSameTree(hash, es);
    } else {
      ChunksCount(es);
      LeftTree(hash, LeafRows(hash, es));
    }
  }

  /** Entries in key order that fit the layout. */
  predicate Proper(es: seq<Entry>) {
    Sorted(es) && KeysOk(es) && Hashed(es)
  }

  lemma RowsProper(hash: Digest, es: seq<Entry>)
    requires Sha(hash) && es != [] && Proper(es)
    ensures Proper(LeafRows(hash, es))
  {
    var ts := Leaves(Chunks(es));
    ChunksCount(es);
    FlattenLeaves(Chunks(es));
    ChunksConcat(es);
    RowsSorted(hash, ts);
    ChunksFrom(es);
    forall c | 0 <= c < |ts| ensures TextFits(MaxKey(ts[c])) {
      var chunk := Chunks(es)[c];
      assert chunk[|chunk| - 1] in es;
    }
  }

  lemma {:induction false} LeftProper(hash: Digest, es: seq<Entry>)
    requires Sha(hash) && Proper(es)
    ensures Proper(Left(hash, es))
    decreases |es|
  {
    if |es| > TWO_LEVELS {
      ChunksCount(es);
      RowsProper(hash, es);
      LeftProper(hash, LeafRows(hash, es));
    }
  }

  lemma SortedItemsOf(es: seq<Entry>)
    requires Sorted(es)
    ensures SortedItems(ToMap(es)) == es && |ToMap(es)| == |es|
  {
    var m := ToMap(es);
    SortedItemsSorted(m);
    forall e ensures e in SortedItems(m) <==> e in es {
      if e in es {
        var i :| 0 <= i < |es| && es[i] == e;
        ToMapAt(es, i);
        SortedItemsComplete(m, e.key);
      }
      if e in SortedItems(m) {
        var i := ToMapKey(es, e.key);
        ToMapAt(es, i);
      }
    }
    SortedUnique(SortedItems(m), es);
  }

  /** A dictionary that can be written. */
  ghost predicate Writes(m: map<Bytes, Bytes>) {
    Storable(m) && forall key :: key in m ==> TextFits(key)
  }

  /** The older tree of any dictionary is the tree of what remains of it, which is the
      dictionary itself exactly when that has at most 4096 entries. */
  lemma OlderStoresRemaining(hash: Digest, m: map<Bytes, Bytes>)
    requires Sha(hash) && Writes(m)
    ensures OlderMapTree(hash, m) == MapTree(Remaining(hash, m))
    ensures Writes(Remaining(hash, m)) && |Remaining(hash, m)| <= TWO_LEVELS
    ensures Remaining(hash, m) == m <==> |m| <= TWO_LEVELS
  {
    var es := SortedItems(m);
    var left := Left(hash, es);
    SortedItemsSorted(m);
    SortedItemsToMap(m);
    LeftTree(hash, es);
    LeftProper(hash, es);
    SortedItemsOf(left);
    forall key | key in ToMap(left) ensures TextFits(key) && |ToMap(left)[key]| == HASH_LEN {
      var i := ToMapKey(left, key);
      ToMapAt(left, i);
    }
  }

  lemma LeafLevel(hash: Digest, es: seq<Entry>)
    requires |es| > CHUNK
    ensures LevelOk(Chunks(es), KeysOk(es)) && RowOf(hash, Chunks(es), LEAF, Leaves(Chunks(es)))
    ensures |Chunks(es)| < |es|
  {
    SplitOk(es);
    LeafRow(hash, es);
  }

  /** The older `build`. */
  method OlderBuild(k: MemoryKernel<Bytes, Bytes, Ref>, entries: map<Bytes, Bytes>) returns (r: Option<Bytes>)
    requires k.Valid()
    modifies k
    ensures k.Valid() && k.roots == old(k.roots) && Grown(old(k.blobs), k.blobs)
    ensures k.collisionFree ==> old(k.collisionFree)
    ensures r.Some? <==> KeysOk(SortedItems(entries))
    ensures r.Some? ==> r.value == TreeHash(k.hash, OlderMapTree(k.hash, entries))
    ensures r.Some? && k.collisionFree ==> InStore(k.hash, k.blobs, OlderMapTree(k.hash, entries))
  {
    var items := SortedItems(entries);
    if |items| <= CHUNK {
      RootAddress(k.hash, Leaf(items));
      r := WriteNode(k, LEAF, items);
      return;
    }
    var level := Split(items);
    ghost var current, goal, fits := items, OlderMapTree(k.hash, entries), KeysOk(items);
    while true
      invariant k.Valid() && k.roots == old(k.roots) && Grown(old(k.blobs), k.blobs)
      invariant k.collisionFree ==> old(k.collisionFree)
      invariant |current| > CHUNK && level == Chunks(current) && (fits <==> KeysOk(current))
      invariant OlderTreeOf(k.hash, current) == goal
      decreases |current|
    {
      LeafLevel(k.hash, current);
      ghost var ts := Leaves(level);
      var rows := WriteTrees(k, level, LEAF, fits, ts);
      if rows.None? { return None; }
      if |rows.value| <= CHUNK {
        r := FinishRoot(k, rows.value, ts);
        return;
      }
      level := Split(rows.value);
      current := rows.value;
    }
  }

  lemma LeftOnce(hash: Digest, es: seq<Entry>)
    requires TWO_LEVELS < |es| <= CHUNK * TWO_LEVELS
    ensures Left(hash, es) == LeafRows(hash, es)
  {
    ChunksCount(es);
  }

  /** Between 4096 and 64^3 entries one key for each leaf chunk remains, the largest. */
  lemma RemainingRows(hash: Digest, m: map<Bytes, Bytes>)
    requires Sha(hash) && Writes(m) && TWO_LEVELS < |m| <= CHUNK * TWO_LEVELS
    ensures Remaining(hash, m) == ToMap(LeafRows(hash, SortedItems(m)))
    ensures |Remaining(hash, m)| == (|m| + CHUNK - 1) / CHUNK
  {
    var es := SortedItems(m);
    var rows := LeafRows(hash, es);
    LeftOnce(hash, es);
    assert |rows| == (|m| + CHUNK - 1) / CHUNK by { OlderReadsChunks(hash, es); }
    SortedItemsSorted(m);
    RowsProper(hash, es);
    SortedItemsOf(rows);
  }

  /** Building with the older loop and reading back: what remains of the dictionary.  Between
      4096 and 64^3 entries that is one key for each leaf chunk. */
  method OlderReads(k: MemoryKernel<Bytes, Bytes, Ref>, entries: map<Bytes, Bytes>)
    returns (all: map<Bytes, Bytes>)
    requires k.Valid() && Sha(k.hash) && Writes(entries)
    modifies k
    ensures k.collisionFree ==> all == Remaining(k.hash, entries)
    ensures k.collisionFree && TWO_LEVELS < |entries| <= CHUNK * TWO_LEVELS ==>
              && all == ToMap(LeafRows(k.hash, SortedItems(entries)))
              && |all| == (|entries| + CHUNK - 1) / CHUNK
  {
    OlderStoresRemaining(k.hash, entries);
    ghost var left := SortedItems(Remaining(k.hash, entries));
    var root := OlderBuild(k, entries);
    if !k.collisionFree { return map[]; }
    TreeOfWritable(left);
    all := ReadAll(k, root.value, TreeOf(left));
    FlattenTreeOf(left);
    SortedItemsToMap(Remaining(k.hash, entries));
    if TWO_LEVELS < |entries| <= CHUNK * TWO_LEVELS { RemainingRows(k.hash, entries); }
  }
}
