/** `ProllyTree`: a multi-level content-addressed search tree, built bottom-up in chunks. */
module ProllyTree {
  import opened Basics
  import opened Texts
  import opened Codec
  import opened Kernel

  const CHUNK: nat := 64  // TARGET_CHUNK_ENTRIES

  type Digest = Bytes -> Bytes
  type Store = map<Bytes, Bytes>

  // ---------- chunking by position ----------

  function Chunks<T>(s: seq<T>): (cs: seq<seq<T>>)
    ensures cs != []
  {
    if |s| <= CHUNK then [s] else [s[..CHUNK]] + Chunks(s[CHUNK..])
  }

  lemma {:induction false} ChunksCount<T>(s: seq<T>)
    requires s != []
    ensures |Chunks(s)| == (|s| + CHUNK - 1) / CHUNK
    ensures forall i :: 0 <= i < |Chunks(s)| ==> 0 < |Chunks(s)[i]| <= CHUNK
  {
    if |s| > CHUNK { ChunksCount(s[CHUNK..]); }
  }

  function Concat<T>(ss: seq<seq<T>>): seq<T> {
    if ss == [] then [] else ss[0] + Concat(ss[1..])
  }

  lemma {:induction false} ChunksConcat<T>(s: seq<T>)
    ensures Concat(Chunks(s)) == s
  {
    if |s| > CHUNK {
      ChunksConcat(s[CHUNK..]);
      assert Chunks(s)[1..] == Chunks(s[CHUNK..]);
    } else {
      assert Chunks(s)[1..] == [];
    }
  }

  // ---------- trees ----------

  datatype Tree = Leaf(entries: seq<Entry>) | Branch(kids: seq<Tree>)

  function Flatten(t: Tree): seq<Entry>
    decreases t, 1
  {
    match t
    case Leaf(es) => es
    case Branch(kids) => FlattenAll(kids)
  }

  function FlattenAll(ts: seq<Tree>): seq<Entry>
    decreases ts, 0
  {
    if ts == [] then [] else Flatten(ts[0]) + FlattenAll(ts[1..])
  }

  function Leaves(chunks: seq<seq<Entry>>): (ts: seq<Tree>)
    ensures |ts| == |chunks|
  {
    seq(|chunks|, i requires 0 <= i < |chunks| => Leaf(chunks[i]))
  }

  function Branches(chunks: seq<seq<Tree>>): (ts: seq<Tree>)
    ensures |ts| == |chunks|
  {
    seq(|chunks|, i requires 0 <= i < |chunks| => Branch(chunks[i]))
  }

  /** Puts levels of internal nodes over a row of trees until one node holds them all. */
  function Grow(ts: seq<Tree>): Tree
    requires ts != []
    decreases |ts|
  {
    if |ts| <= CHUNK then Branch(ts) else
      ChunksCount(ts);
      Grow(Branches(Chunks(ts)))
  }

  /** The tree over a sorted sequence of entries. */
  function TreeOf(es: seq<Entry>): Tree {
    if |es| <= CHUNK then Leaf(es) else Grow(Leaves(Chunks(es)))
  }

  /** The tree of a dictionary. */
  function MapTree(m: map<Bytes, Bytes>): Tree {
    TreeOf(SortedItems(m))
  }

  // ---------- contents ----------

  lemma {:induction false} FlattenAllAppend(a: seq<Tree>, b: seq<Tree>)
    ensures FlattenAll(a + b) == FlattenAll(a) + FlattenAll(b)
    decreases |a|
  {
    if a == [] {
      assert a + b == b;
    } else {
      assert (a + b)[1..] == a[1..] + b;
      FlattenAllAppend(a[1..], b);
    }
  }

  lemma {:induction false} FlattenLeaves(chunks: seq<seq<Entry>>)
    ensures FlattenAll(Leaves(chunks)) == Concat(chunks)
    decreases |chunks|
  {
    if chunks != [] {
      assert Leaves(chunks)[1..] == Leaves(chunks[1..]);
      FlattenLeaves(chunks[1..]);
    }
  }

  lemma {:induction false} FlattenBranches(chunks: seq<seq<Tree>>)
    ensures FlattenAll(Branches(chunks)) == FlattenAll(Concat(chunks))
    decreases |chunks|
  {
    if chunks != [] {
      assert Branches(chunks)[1..] == Branches(chunks[1..]);
      FlattenBranches(chunks[1..]);
      FlattenAllAppend(chunks[0], Concat(chunks[1..]));
    }
  }

  lemma {:induction false} FlattenGrow(ts: seq<Tree>)
    requires ts != []
    ensures Flatten(Grow(ts)) == FlattenAll(ts)
    decreases |ts|
  {
    if |ts| > CHUNK {
      ChunksCount(ts);
      FlattenGrow(Branches(Chunks(ts)));
      FlattenBranches(Chunks(ts));
      ChunksConcat(ts);
    }
  }

  /** The tree holds exactly the entries it was built from, in order. */
  lemma FlattenTreeOf(es: seq<Entry>)
    ensures Flatten(TreeOf(es)) == es
  {
    if |es| > CHUNK {
      FlattenGrow(Leaves(Chunks(es)));
      FlattenLeaves(Chunks(es));
      ChunksConcat(es);
    }
  }

  // ---------- shape ----------

  /** Every node is within the chunk size, no node below the root is empty. */
  predicate Packed(t: Tree) {
    match t
    case Leaf(es) => 0 < |es| <= CHUNK
    case Branch(kids) => 0 < |kids| <= CHUNK && forall i :: 0 <= i < |kids| ==> Packed(kids[i])
  }

  /** All leaves are `h - 1` levels below the root. */
  predicate Uniform(t: Tree, h: nat) {
    match t
    case Leaf(es) => h == 1
    case Branch(kids) => h > 1 && forall i :: 0 <= i < |kids| ==> Uniform(kids[i], h - 1)
  }

  /** Levels needed for a row of `n` items. */
  function Height(n: nat): (h: nat)
    ensures h >= 1
  {
    if n <= CHUNK then 1 else 1 + Height((n + CHUNK - 1) / CHUNK)
  }

  function Pow64(e: nat): (p: nat)
    ensures p > 0
  {
    if e == 0 then 1 else CHUNK * Pow64(e - 1)
  }

  /** The height is the least `h >= 1` with `64^h >= n`. */
  lemma {:induction false} HeightLeast(n: nat)
    ensures Pow64(Height(n)) >= n
    ensures Height(n) > 1 ==> Pow64(Height(n) - 1) < n
    decreases n
  {
    assert Pow64(1) == CHUNK;
    if n > CHUNK {
      var up := (n + CHUNK - 1) / CHUNK;
      HeightLeast(up);
      var h := Height(up);
      assert Pow64(h + 1) == CHUNK * Pow64(h) >= CHUNK * up;
      if h > 1 {
        assert Pow64(h) == CHUNK * Pow64(h - 1) <= CHUNK * (up - 1);
      }
    }
  }

  lemma {:induction false} GrowShape(ts: seq<Tree>, h: nat)
    requires ts != [] && h >= 1
    requires forall i :: 0 <= i < |ts| ==> Packed(ts[i]) && Uniform(ts[i], h)
    ensures Packed(Grow(ts)) && Uniform(Grow(ts), h + Height(|ts|))
    decreases |ts|
  {
    if |ts| > CHUNK {
      ChunksCount(ts);
      var chunks := Chunks(ts);
      ChunksFrom(ts);
      GrowShape(Branches(chunks), h + 1);
    }
  }

  /** Chunks hold elements of the sequence. */
  lemma {:induction false} ChunksFrom<T>(s: seq<T>)
    ensures forall i, j :: 0 <= i < |Chunks(s)| && 0 <= j < |Chunks(s)[i]| ==> Chunks(s)[i][j] in s
  {
    if |s| > CHUNK { ChunksFrom(s[CHUNK..]); }
  }

  /** All leaves of the tree over `n` entries are at the same depth, and the number of
      levels is the least `h >= 1` with `64^h >= n`. */
  lemma TreeOfShape(es: seq<Entry>)
    ensures Uniform(TreeOf(es), Height(|es|))
    ensures es != [] ==> Packed(TreeOf(es))
    ensures Pow64(Height(|es|)) >= |es|
    ensures Height(|es|) > 1 ==> Pow64(Height(|es|) - 1) < |es|
  {
    HeightLeast(|es|);
    if |es| > CHUNK {
      ChunksCount(es);
      GrowShape(Leaves(Chunks(es)), 1);
    }
  }

  // ---------- content addressing ----------

  function MaxKey(t: Tree): Bytes {
    match t
    case Leaf(es) => if es == [] then [] else es[|es| - 1].key
    case Branch(kids) => if kids == [] then [] else MaxKey(kids[|kids| - 1])
  }

  /** The address of a tree is the digest of its root node, which holds the addresses of
      the children. */
  function TreeHash(hash: Digest, t: Tree): Bytes
    decreases t, 2
  {
    hash(NodeBytes(NodeOf(hash, t)))
  }

  function NodeOf(hash: Digest, t: Tree): Node
    decreases t, 1
  {
    match t
    case Leaf(es) => Node(LEAF, es)
    case Branch(kids) => Node(INTERNAL, Rows(hash, kids))
  }

  function Rows(hash: Digest, ts: seq<Tree>): (es: seq<Entry>)
    ensures |es| == |ts|
    ensures forall i :: 0 <= i < |ts| ==> es[i] == Entry(MaxKey(ts[i]), TreeHash(hash, ts[i]))
    decreases ts, 0
  {
    seq(|ts|, i requires 0 <= i < |ts| => Entry(MaxKey(ts[i]), TreeHash(hash, ts[i])))
  }

  /** Every node of the tree is stored at its address. */
  predicate InStore(hash: Digest, blobs: Store, t: Tree)
    decreases t, 1
  {
    && TreeHash(hash, t) in blobs
    && blobs[TreeHash(hash, t)] == NodeBytes(NodeOf(hash, t))
    && KidsInStore(hash, blobs, t)
  }

  predicate KidsInStore(hash: Digest, blobs: Store, t: Tree)
    decreases t, 0
  {
    match t
    case Leaf(_) => true
    case Branch(kids) => forall i :: 0 <= i < |kids| ==> InStore(hash, blobs, kids[i])
  }

  lemma {:induction false} InStoreGrown(hash: Digest, before: Store, after: Store, t: Tree)
    requires InStore(hash, before, t) && Grown(before, after)
    ensures InStore(hash, after, t)
  {
    if t.Branch? {
      forall i | 0 <= i < |t.kids| ensures InStore(hash, after, t.kids[i]) {
        InStoreGrown(hash, before, after, t.kids[i]);
      }
    }
  }

  ghost predicate Sha(hash: Digest) {
    forall d: Bytes :: |hash(d)| == HASH_LEN
  }

  predicate KeysOk(es: seq<Entry>) {
    forall i :: 0 <= i < |es| ==> TextFits(es[i].key)
  }

  /** Nodes are within the chunk size and the leaf entries fit the layout. */
  predicate Writable(t: Tree) {
    match t
    case Leaf(es) => |es| <= CHUNK && KeysOk(es) && Hashed(es)
    case Branch(kids) => 0 < |kids| <= CHUNK && forall i :: 0 <= i < |kids| ==> Writable(kids[i])
  }

  lemma {:induction false} MaxKeyFits(t: Tree)
    requires Writable(t)
    ensures TextFits(MaxKey(t))
  {
    if t.Branch? { MaxKeyFits(t.kids[|t.kids| - 1]); }
  }

  /** A stored node decodes to what was written. */
  lemma NodeReadBack(hash: Digest, t: Tree)
    requires Sha(hash) && Writable(t)
    ensures ParseNode(NodeBytes(NodeOf(hash, t))) == Some(NodeOf(hash, t))
  {
    var n := NodeOf(hash, t);
    if t.Branch? {
      forall i | 0 <= i < |t.kids| ensures TextFits(n.entries[i].key) {
        MaxKeyFits(t.kids[i]);
      }
    }
    NodeRoundTrip(n);
  }

  /** Two stored trees with the same address are the same tree. */
  lemma {:induction false} AddressDeterminesTree(hash: Digest, blobs: Store, a: Tree, b: Tree)
    requires Sha(hash) && Writable(a) && Writable(b)
    requires InStore(hash, blobs, a) && InStore(hash, blobs, b)
    requires TreeHash(hash, a) == TreeHash(hash, b)
    ensures a == b
  {
    NodeReadBack(hash, a);
    NodeReadBack(hash, b);
    assert NodeOf(hash, a) == NodeOf(hash, b);
    if a.Branch? {
      assert b.Branch? && |a.kids| == |b.kids|;
      forall i | 0 <= i < |a.kids| ensures a.kids[i] == b.kids[i] {
        assert Rows(hash, a.kids)[i] == Rows(hash, b.kids)[i];
        AddressDeterminesTree(hash, blobs, a.kids[i], b.kids[i]);
      }
      assert a.kids == b.kids;
    }
  }

  // ---------- which dictionaries can be written ----------

  predicate Storable(m: map<Bytes, Bytes>) {
    forall k :: k in m ==> |m[k]| == HASH_LEN
  }

  lemma {:induction false} GrowWritable(ts: seq<Tree>)
    requires ts != [] && forall i :: 0 <= i < |ts| ==> Writable(ts[i])
    ensures Writable(Grow(ts))
    decreases |ts|
  {
    if |ts| > CHUNK {
      ChunksCount(ts);
      ChunksFrom(ts);
      GrowWritable(Branches(Chunks(ts)));
    }
  }

  lemma TreeOfWritable(es: seq<Entry>)
    requires KeysOk(es) && Hashed(es)
    ensures Writable(TreeOf(es))
  {
    if |es| > CHUNK {
      ChunksCount(es);
      ChunksFrom(es);
      var chunks := Chunks(es);
      forall i | 0 <= i < |chunks| ensures Writable(Leaf(chunks[i])) {
        forall j | 0 <= j < |chunks[i]| ensures TextFits(chunks[i][j].key) && |chunks[i][j].hash| == HASH_LEN {
          assert chunks[i][j] in es;
        }
      }
      GrowWritable(Leaves(chunks));
    }
  }

  /** A stored dictionary is read back from its root, and only equal dictionaries have
      the same root: the root hash is the version identifier. */
  lemma RootIdentifiesMap(hash: Digest, blobs: Store, m: map<Bytes, Bytes>, n: map<Bytes, Bytes>)
    requires Sha(hash) && Storable(m) && Storable(n)
    requires (forall k :: k in m ==> TextFits(k)) && (forall k :: k in n ==> TextFits(k))
    requires InStore(hash, blobs, MapTree(m)) && InStore(hash, blobs, MapTree(n))
    ensures TreeHash(hash, MapTree(m)) == TreeHash(hash, MapTree(n)) <==> m == n
  {
    if TreeHash(hash, MapTree(m)) == TreeHash(hash, MapTree(n)) {
      TreeOfWritable(SortedItems(m));
      TreeOfWritable(SortedItems(n));
      AddressDeterminesTree(hash, blobs, MapTree(m), MapTree(n));
      FlattenTreeOf(SortedItems(m));
      FlattenTreeOf(SortedItems(n));
      SortedItemsToMap(m);
      SortedItemsToMap(n);
    }
  }

  // ---------- searching ----------

  ghost predicate NoKey(es: seq<Entry>, key: Bytes) {
    forall i :: 0 <= i < |es| ==> es[i].key != key
  }

  lemma {:induction false} MaxKeyLast(t: Tree)
    requires Packed(t)
    ensures Flatten(t) != [] && MaxKey(t) == Flatten(t)[|Flatten(t)| - 1].key
  {
    if t.Branch? {
      var n := |t.kids|;
      MaxKeyLast(t.kids[n - 1]);
      assert t.kids == t.kids[..n - 1] + [t.kids[n - 1]];
      FlattenAllAppend(t.kids[..n - 1], [t.kids[n - 1]]);
      FlattenOne(t.kids[n - 1]);
    }
  }

  lemma FlattenOne(t: Tree)
    ensures FlattenAll([t]) == Flatten(t)
  {
    assert FlattenAll([t]) == Flatten(t) + FlattenAll([t][1..]) == Flatten(t) + [];
  }

  lemma FlattenAround(kids: seq<Tree>, i: nat)
    requires i < |kids|
    ensures FlattenAll(kids) == FlattenAll(kids[..i]) + Flatten(kids[i]) + FlattenAll(kids[i + 1..])
  {
    assert kids == kids[..i] + kids[i..];
    FlattenAllAppend(kids[..i], kids[i..]);
    assert kids[i..][1..] == kids[i + 1..];
  }

  lemma BelowLast(a: seq<Entry>, b: seq<Entry>, key: Bytes)
    requires Sorted(a + b) && a != [] && Less(a[|a| - 1].key, key)
    ensures NoKey(a, key)
  {
    forall j | 0 <= j < |a| ensures a[j].key != key {
      if j < |a| - 1 {
        assert (a + b)[j] == a[j] && (a + b)[|a| - 1] == a[|a| - 1];
        LessTransitive(a[j].key, a[|a| - 1].key, key);
      }
      LessIrreflexive(key);
    }
  }

  lemma AboveLast(a: seq<Entry>, b: seq<Entry>, key: Bytes)
    requires Sorted(a + b) && a != [] && !Less(a[|a| - 1].key, key)
    ensures NoKey(b, key)
  {
    forall j | 0 <= j < |b| ensures b[j].key != key {
      assert (a + b)[|a| - 1] == a[|a| - 1] && (a + b)[|a| + j] == b[j];
    }
  }

  lemma FlattenUpTo(kids: seq<Tree>, i: nat)
    requires i < |kids| && Packed(kids[i])
    ensures FlattenAll(kids) == FlattenAll(kids[..i + 1]) + FlattenAll(kids[i + 1..])
    ensures var upTo := FlattenAll(kids[..i + 1]); upTo != [] && upTo[|upTo| - 1].key == MaxKey(kids[i])
  {
    assert kids[..i + 1] == kids[..i] + [kids[i]];
    FlattenAllAppend(kids[..i], [kids[i]]);
    FlattenOne(kids[i]);
    MaxKeyLast(kids[i]);
    assert kids == kids[..i + 1] + kids[i + 1..];
    FlattenAllAppend(kids[..i + 1], kids[i + 1..]);
  }

  /** Children before the first one whose largest key is not below `key`, and children
      behind it, do not hold `key`. */
  lemma OtherChildren(kids: seq<Tree>, i: nat, key: Bytes)
    requires i < |kids| && Packed(kids[i]) && !Less(MaxKey(kids[i]), key)
    requires i > 0 ==> Packed(kids[i - 1]) && Less(MaxKey(kids[i - 1]), key)
    requires Sorted(FlattenAll(kids))
    ensures NoKey(FlattenAll(kids[..i]), key) && NoKey(FlattenAll(kids[i + 1..]), key)
  {
    FlattenUpTo(kids, i);
    AboveLast(FlattenAll(kids[..i + 1]), FlattenAll(kids[i + 1..]), key);
    if i > 0 {
      FlattenUpTo(kids, i - 1);
      BelowLast(FlattenAll(kids[..i]), FlattenAll(kids[i..]), key);
    }
  }

  /** When every child's largest key is below `key`, no child holds it. */
  lemma BeyondChildren(kids: seq<Tree>, key: Bytes)
    requires kids != [] && Packed(kids[|kids| - 1]) && Less(MaxKey(kids[|kids| - 1]), key)
    requires Sorted(FlattenAll(kids))
    ensures NoKey(FlattenAll(kids), key)
  {
    FlattenUpTo(kids, |kids| - 1);
    assert kids[..|kids|] == kids;
    BelowLast(FlattenAll(kids), FlattenAll(kids[|kids|..]), key);
  }

  /** The part of a sorted sequence that can hold `key`: the rest of it cannot. */
  ghost predicate Narrowed(all: seq<Entry>, part: seq<Entry>, key: Bytes) {
    exists pre, post :: all == pre + part + post && NoKey(pre, key) && NoKey(post, key)
  }

  lemma NoKeyAppend(a: seq<Entry>, b: seq<Entry>, key: Bytes)
    ensures NoKey(a + b, key) <==> NoKey(a, key) && NoKey(b, key)
  {
    if NoKey(a + b, key) {
      assert forall i :: 0 <= i < |a| ==> (a + b)[i] == a[i];
      assert forall i :: 0 <= i < |b| ==> (a + b)[|a| + i] == b[i];
    }
  }

  lemma NarrowMore(all: seq<Entry>, a: seq<Entry>, part: seq<Entry>, b: seq<Entry>, key: Bytes)
    requires Narrowed(all, a + part + b, key) && NoKey(a, key) && NoKey(b, key)
    ensures Narrowed(all, part, key)
  {
    var pre, post :| all == pre + (a + part + b) + post && NoKey(pre, key) && NoKey(post, key);
    NoKeyAppend(pre, a, key);
    NoKeyAppend(b, post, key);
    Regroup(pre, a, part, b, post);
  }

  lemma Regroup(pre: seq<Entry>, a: seq<Entry>, part: seq<Entry>, b: seq<Entry>, post: seq<Entry>)
    ensures pre + (a + part + b) + post == (pre + a) + part + (b + post)
  {}

  lemma NarrowToChild(all: seq<Entry>, kids: seq<Tree>, i: nat, key: Bytes)
    requires Sorted(all) && Narrowed(all, FlattenAll(kids), key)
    requires i < |kids| && Packed(kids[i]) && !Less(MaxKey(kids[i]), key)
    requires i > 0 ==> Packed(kids[i - 1]) && Less(MaxKey(kids[i - 1]), key)
    ensures Narrowed(all, Flatten(kids[i]), key)
  {
    NarrowedSorted(all, FlattenAll(kids), key);
    OtherChildren(kids, i, key);
    FlattenAround(kids, i);
    NarrowMore(all, FlattenAll(kids[..i]), Flatten(kids[i]), FlattenAll(kids[i + 1..]), key);
  }

  lemma NarrowedSorted(all: seq<Entry>, part: seq<Entry>, key: Bytes)
    requires Sorted(all) && Narrowed(all, part, key)
    ensures Sorted(part)
  {
    var pre, post :| all == pre + part + post && NoKey(pre, key) && NoKey(post, key);
    SortedPart(pre, part, post);
  }

  lemma SortedPart(pre: seq<Entry>, part: seq<Entry>, post: seq<Entry>)
    requires Sorted(pre + part + post)
    ensures Sorted(part)
  {
    forall i, j | 0 <= i < j < |part| ensures Less(part[i].key, part[j].key) {
      var all := pre + part + post;
      assert all[|pre| + i] == part[i] && all[|pre| + j] == part[j];
    }
  }

  lemma AbsentKey(all: seq<Entry>, key: Bytes)
    requires NoKey(all, key)
    ensures key !in ToMap(all)
  {
    if key in ToMap(all) {
      var i := ToMapKey(all, key);
      assert false;
    }
  }

  lemma NarrowedAbsent(all: seq<Entry>, part: seq<Entry>, key: Bytes)
    requires Narrowed(all, part, key) && NoKey(part, key)
    ensures Get(ToMap(all), key) == None
  {
    var pre, post :| all == pre + part + post && NoKey(pre, key) && NoKey(post, key);
    assert NoKey(all, key);
    AbsentKey(all, key);
  }

  lemma NarrowedFound(all: seq<Entry>, part: seq<Entry>, i: nat)
    requires i < |part| && Sorted(all) && Narrowed(all, part, part[i].key)
    ensures Get(ToMap(all), part[i].key) == Some(part[i].hash)
  {
    var pre, post :| all == pre + part + post && NoKey(pre, part[i].key) && NoKey(post, part[i].key);
    assert all[|pre| + i] == part[i];
    ToMapAt(all, |pre| + i);
  }

  /** Binary search in a leaf. */
  method SearchLeaf(entries: seq<Entry>, key: Bytes) returns (r: Option<nat>)
    requires Sorted(entries)
    ensures r.Some? ==> r.value < |entries| && entries[r.value].key == key
    ensures r.None? ==> NoKey(entries, key)
  {
    var lo, hi := 0, |entries| - 1;
    while lo <= hi
      invariant 0 <= lo <= hi + 1 <= |entries|
      invariant forall i :: 0 <= i < lo ==> Less(entries[i].key, key)
      invariant forall i :: hi < i < |entries| ==> Less(key, entries[i].key)
    {
      var mid := (lo + hi) / 2;
      if entries[mid].key == key {
        return Some(mid);
      } else if Less(entries[mid].key, key) {
        forall i | 0 <= i < mid ensures Less(entries[i].key, key) {
          LessTransitive(entries[i].key, entries[mid].key, key);
        }
        lo := mid + 1;
      } else {
        LessTotal(entries[mid].key, key);
        forall i | mid < i < |entries| ensures Less(key, entries[i].key) {
          LessTransitive(key, entries[mid].key, entries[i].key);
        }
        hi := mid - 1;
      }
    }
    LessIrreflexive(key);
    return None;
  }

  /** Binary search in an internal node: the first child whose largest key is not below `key`. */
  method SearchInternal(children: seq<Entry>, key: Bytes) returns (r: Option<nat>)
    requires Sorted(children)
    ensures r.Some? ==> r.value < |children| && !Less(children[r.value].key, key)
                        && (r.value > 0 ==> Less(children[r.value - 1].key, key))
    ensures r.None? ==> forall i :: 0 <= i < |children| ==> Less(children[i].key, key)
  {
    var lo, hi := 0, |children| - 1;
    while lo <= hi
      invariant 0 <= lo <= hi + 1 <= |children|
      invariant forall i :: 0 <= i < lo ==> Less(children[i].key, key)
      invariant hi + 1 < |children| ==> hi >= 0 && !Less(children[hi].key, key)
    {
      var mid := (lo + hi) / 2;
      if !Less(children[mid].key, key) {
        if mid == 0 || Less(children[mid - 1].key, key) {
          return Some(mid);
        }
        hi := mid - 1;
      } else {
        forall i | 0 <= i < mid ensures Less(children[i].key, key) {
          LessTransitive(children[i].key, children[mid].key, key);
        }
        lo := mid + 1;
      }
    }
    return None;
  }

  lemma SortedAt(es: seq<Entry>, i: nat, j: nat)
    requires Sorted(es) && i < j < |es|
    ensures Less(es[i].key, es[j].key)
  {}

  /** The position of a child's largest key among all entries below the node. */
  lemma {:induction false} MaxKeyAt(kids: seq<Tree>, i: nat) returns (pos: nat)
    requires i < |kids| && Packed(kids[i])
    ensures pos < |FlattenAll(kids)| && FlattenAll(kids)[pos].key == MaxKey(kids[i])
    ensures i == 0 ==> pos + 1 == |Flatten(kids[0])|
    ensures i > 0 ==> pos >= |Flatten(kids[0])|
    decreases i
  {
    if i == 0 {
      MaxKeyLast(kids[0]);
      pos := |Flatten(kids[0])| - 1;
    } else {
      pos := MaxKeyAt(kids[1..], i - 1);
      pos := pos + |Flatten(kids[0])|;
    }
  }

  lemma SortedTail(a: seq<Entry>, b: seq<Entry>)
    requires Sorted(a + b)
    ensures Sorted(b)
  {
    SortedPart(a, b, []);
    assert a + b + [] == a + b;
  }

  lemma {:induction false} MaxKeysOrdered(kids: seq<Tree>, i: nat, j: nat)
    requires i < j < |kids| && Packed(kids[i]) && Packed(kids[j])
    requires Sorted(FlattenAll(kids))
    ensures Less(MaxKey(kids[i]), MaxKey(kids[j]))
    decreases i
  {
    if i == 0 {
      var p := MaxKeyAt(kids, i);
      var q := MaxKeyAt(kids, j);
      SortedAt(FlattenAll(kids), p, q);
    } else {
      SortedTail(Flatten(kids[0]), FlattenAll(kids[1..]));
      MaxKeysOrdered(kids[1..], i - 1, j - 1);
    }
  }

  lemma RowsSorted(hash: Digest, kids: seq<Tree>)
    requires Sorted(FlattenAll(kids)) && forall i :: 0 <= i < |kids| ==> Packed(kids[i])
    ensures Sorted(Rows(hash, kids))
  {
    forall i, j | 0 <= i < j < |kids| ensures Less(Rows(hash, kids)[i].key, Rows(hash, kids)[j].key) {
      MaxKeysOrdered(kids, i, j);
    }
  }

  /** A tree that can stand at a root: only the empty dictionary has an empty node. */
  predicate Rooted(t: Tree) {
    t == Leaf([]) || Packed(t)
  }

  /** A stored search tree over the entries `es`. */
  ghost predicate Holds(k: MemoryKernel<Bytes, Bytes, Ref>, root: Bytes, t: Tree)
    reads k
  {
    && Sha(k.hash) && Writable(t) && Rooted(t) && Sorted(Flatten(t))
    && InStore(k.hash, k.blobs, t) && root == TreeHash(k.hash, t)
  }

  method ReadNode(k: MemoryKernel<Bytes, Bytes, Ref>, h: Bytes, ghost t: Tree) returns (n: Node)
    requires Sha(k.hash) && Writable(t) && InStore(k.hash, k.blobs, t) && h == TreeHash(k.hash, t)
    ensures n == NodeOf(k.hash, t)
  {
    NodeReadBack(k.hash, t);
    var data := k.ReadBlob(h);
    var node := DecodeNode(data.value);
    n := node.value;
  }

  lemma WholeNarrowed(all: seq<Entry>, key: Bytes)
    ensures Narrowed(all, all, key)
  {
    assert all == [] + all + [];
    assert NoKey([], key);
  }

  /** Descends from the root by binary search.  The answer is the dictionary's, and no
      more nodes are read than the tree has levels. */
  method Lookup(k: MemoryKernel<Bytes, Bytes, Ref>, root: Bytes, key: Bytes, ghost tree: Tree, ghost height: nat)
    returns (r: Option<Bytes>, ghost visited: nat)
    requires Holds(k, root, tree) && Uniform(tree, height)
    ensures r == Get(ToMap(Flatten(tree)), key)
    ensures visited <= height
  {
    ghost var all, t, left := Flatten(tree), tree, height;
    var current := root;
    visited := 0;
    WholeNarrowed(all, key);
    while true
      invariant Rooted(t) && Writable(t) && InStore(k.hash, k.blobs, t) && current == TreeHash(k.hash, t)
      invariant Narrowed(all, Flatten(t), key)
      invariant Uniform(t, left) && visited + left == height
      decreases t
    {
      NarrowedSorted(all, Flatten(t), key);
      var node := ReadNode(k, current, t);
      visited := visited + 1;
      if node.kind == LEAF {
        var found := SearchLeaf(node.entries, key);
        if found.None? {
          NarrowedAbsent(all, Flatten(t), key);
          return None, visited;
        }
        NarrowedFound(all, Flatten(t), found.value);
        return Some(node.entries[found.value].hash), visited;
      }
      RowsSorted(k.hash, t.kids);
      var child := SearchInternal(node.entries, key);
      if child.None? {
        BeyondChildren(t.kids, key);
        NarrowedAbsent(all, Flatten(t), key);
        return None, visited;
      }
      NarrowToChild(all, t.kids, child.value, key);
      current := node.entries[child.value].hash;
      t, left := t.kids[child.value], left - 1;
    }
  }

  /** Assigning entries on top of a dictionary. */
  function Assign(m: map<Bytes, Bytes>, es: seq<Entry>): map<Bytes, Bytes> {
    if es == [] then m else Assign(m, es[..|es| - 1])[es[|es| - 1].key := es[|es| - 1].hash]
  }

  lemma {:induction false} AssignAppend(m: map<Bytes, Bytes>, a: seq<Entry>, b: seq<Entry>)
    ensures Assign(m, a + b) == Assign(Assign(m, a), b)
    decreases |b|
  {
    if b == [] {
      assert a + b == a;
    } else {
      assert (a + b)[..|a + b| - 1] == a + b[..|b| - 1];
      AssignAppend(m, a, b[..|b| - 1]);
    }
  }

  lemma {:induction false} AssignToMap(es: seq<Entry>)
    ensures Assign(map[], es) == ToMap(es)
  {
    if es != [] { AssignToMap(es[..|es| - 1]); }
  }

  /** Assigning up to child `i` and then that child is assigning up to the next. */
  lemma AssignChild(m: map<Bytes, Bytes>, kids: seq<Tree>, i: nat)
    requires i < |kids|
    ensures Assign(m, FlattenAll(kids[..i + 1])) == Assign(Assign(m, FlattenAll(kids[..i])), Flatten(kids[i]))
  {
    assert kids[..i + 1] == kids[..i] + [kids[i]];
    FlattenAllAppend(kids[..i], [kids[i]]);
    FlattenOne(kids[i]);
    AssignAppend(m, FlattenAll(kids[..i]), Flatten(kids[i]));
  }

  /** The loop over the entries of a leaf. */
  method AssignAll(result: map<Bytes, Bytes>, entries: seq<Entry>) returns (r: map<Bytes, Bytes>)
    ensures r == Assign(result, entries)
  {
    r := result;
    for i := 0 to |entries|
      invariant r == Assign(result, entries[..i])
    {
      assert entries[..i + 1][..i] == entries[..i];
      r := r[entries[i].key := entries[i].hash];
    }
    assert entries[..|entries|] == entries;
  }

  /** Collects every leaf entry below a node into `result`. */
  method ReadAllRecursive(k: MemoryKernel<Bytes, Bytes, Ref>, h: Bytes, result: map<Bytes, Bytes>, ghost t: Tree)
    returns (r: map<Bytes, Bytes>)
    requires Sha(k.hash) && Writable(t) && InStore(k.hash, k.blobs, t) && h == TreeHash(k.hash, t)
    ensures r == Assign(result, Flatten(t))
    decreases t
  {
    var node := ReadNode(k, h, t);
    if node.kind == LEAF {
      r := AssignAll(result, node.entries);
    } else {
      r := result;
      for i := 0 to |node.entries|
        invariant r == Assign(result, FlattenAll(t.kids[..i]))
      {
        r := ReadAllRecursive(k, node.entries[i].hash, r, t.kids[i]);
        AssignChild(result, t.kids, i);
      }
      assert t.kids[..|t.kids|] == t.kids;
    }
  }

  /** Reads the dictionary back. */
  method ReadAll(k: MemoryKernel<Bytes, Bytes, Ref>, root: Bytes, ghost tree: Tree) returns (r: map<Bytes, Bytes>)
    requires Sha(k.hash) && Writable(tree) && InStore(k.hash, k.blobs, tree) && root == TreeHash(k.hash, tree)
    ensures r == ToMap(Flatten(tree))
  {
    r := ReadAllRecursive(k, root, map[], tree);
    AssignToMap(Flatten(tree));
  }

  // ---------- building ----------

  /** `[s[i:i + 64] for i in range(0, len(s), 64)]`. */
  method Split<T>(s: seq<T>) returns (cs: seq<seq<T>>)
    requires s != []
    ensures cs == Chunks(s)
  {
    cs := [];
    var i := 0;
    assert s[0..] == s;
    while i < |s|
      invariant 0 <= i
      invariant i < |s| ==> cs + Chunks(s[i..]) == Chunks(s)
      invariant i >= |s| ==> cs == Chunks(s)
    {
      var end := if i + CHUNK <= |s| then i + CHUNK else |s|;
      SplitStep(s, i, cs);
      cs := cs + [s[i..end]];
      i := i + CHUNK;
    }
  }

  /** Cutting one chunk off the rest. */
  lemma SplitStep<T>(s: seq<T>, i: nat, cs: seq<seq<T>>)
    requires i < |s|
    ensures i + CHUNK < |s| ==> cs + Chunks(s[i..]) == cs + [s[i..i + CHUNK]] + Chunks(s[i + CHUNK..])
    ensures i + CHUNK >= |s| ==> Chunks(s[i..]) == [s[i..|s|]]
  {
    var rest := s[i..];
    if i + CHUNK < |s| {
      assert rest[..CHUNK] == s[i..i + CHUNK] && rest[CHUNK..] == s[i + CHUNK..];
    } else {
      assert s[i..|s|] == rest;
    }
  }

  /** All node addresses of a tree. */
  function Addresses(hash: Digest, t: Tree): set<Bytes>
    decreases t, 1
  {
    {TreeHash(hash, t)} + match t case Leaf(_) => {} case Branch(kids) => AllAddresses(hash, kids)
  }

  function AllAddresses(hash: Digest, ts: seq<Tree>): set<Bytes>
    decreases ts, 0
  {
    if ts == [] then {} else Addresses(hash, ts[0]) + AllAddresses(hash, ts[1..])
  }

  lemma {:induction false} AllAddressesAppend(hash: Digest, a: seq<Tree>, b: seq<Tree>)
    ensures AllAddresses(hash, a + b) == AllAddresses(hash, a) + AllAddresses(hash, b)
    decreases |a|
  {
    if a == [] {
      assert a + b == b;
    } else {
      assert (a + b)[1..] == a[1..] + b;
      AllAddressesAppend(hash, a[1..], b);
    }
  }

  lemma {:induction false} BranchAddresses(hash: Digest, chunks: seq<seq<Tree>>)
    ensures AllAddresses(hash, Concat(chunks)) <= AllAddresses(hash, Branches(chunks))
    decreases |chunks|
  {
    if chunks != [] {
      assert Branches(chunks)[1..] == Branches(chunks[1..]);
      BranchAddresses(hash, chunks[1..]);
      AllAddressesAppend(hash, chunks[0], Concat(chunks[1..]));
    }
  }

  /** The trees built so far are part of the finished tree. */
  lemma {:induction false} GrowAddresses(hash: Digest, ts: seq<Tree>)
    requires ts != []
    ensures AllAddresses(hash, ts) <= Addresses(hash, Grow(ts))
    decreases |ts|
  {
    if |ts| > CHUNK {
      ChunksCount(ts);
      GrowAddresses(hash, Branches(Chunks(ts)));
      BranchAddresses(hash, Chunks(ts));
      ChunksConcat(ts);
    }
  }

  /** `entries` is what the root node of `t` holds. */
  ghost predicate NodeHolds(hash: Digest, t: Tree, kind: Byte, entries: seq<Entry>) {
    NodeOf(hash, t) == Node(kind, entries) && 0 < |entries| <= CHUNK
    && MaxKey(t) == entries[|entries| - 1].key
  }

  /** A row of nodes: `level[c]` is what the root node of `ts[c]` holds. */
  ghost predicate RowOf(hash: Digest, level: seq<seq<Entry>>, kind: Byte, ts: seq<Tree>)
    decreases |ts|
  {
    |level| == |ts|
    && (ts == [] || (NodeHolds(hash, ts[0], kind, level[0]) && RowOf(hash, level[1..], kind, ts[1..])))
  }

  lemma {:induction false} RowAt(hash: Digest, level: seq<seq<Entry>>, kind: Byte, ts: seq<Tree>, c: nat)
    requires RowOf(hash, level, kind, ts) && c < |ts|
    ensures NodeHolds(hash, ts[c], kind, level[c])
    decreases c
  {
    if c > 0 { RowAt(hash, level[1..], kind, ts[1..], c - 1); }
  }

  lemma {:induction false} RowFrom(hash: Digest, level: seq<seq<Entry>>, kind: Byte, ts: seq<Tree>)
    requires |level| == |ts| && forall c :: 0 <= c < |ts| ==> NodeHolds(hash, ts[c], kind, level[c])
    ensures RowOf(hash, level, kind, ts)
    decreases |ts|
  {
    if ts != [] { RowFrom(hash, level[1..], kind, ts[1..]); }
  }

  lemma {:induction false} ChunksOfRows(hash: Digest, ts: seq<Tree>)
    requires ts != []
    ensures |Chunks(Rows(hash, ts))| == |Chunks(ts)|
    ensures forall c :: 0 <= c < |Chunks(ts)| ==> Chunks(Rows(hash, ts))[c] == Rows(hash, Chunks(ts)[c])
    decreases |ts|
  {
    if |ts| > CHUNK {
      assert Rows(hash, ts)[..CHUNK] == Rows(hash, ts[..CHUNK]);
      assert Rows(hash, ts)[CHUNK..] == Rows(hash, ts[CHUNK..]);
      ChunksOfRows(hash, ts[CHUNK..]);
    }
  }

  lemma LeafRow(hash: Digest, es: seq<Entry>)
    requires es != []
    ensures RowOf(hash, Chunks(es), LEAF, Leaves(Chunks(es)))
  {
    ChunksCount(es);
    RowFrom(hash, Chunks(es), LEAF, Leaves(Chunks(es)));
  }

  lemma BranchRow(hash: Digest, ts: seq<Tree>)
    requires ts != []
    ensures RowOf(hash, Chunks(Rows(hash, ts)), INTERNAL, Branches(Chunks(ts)))
  {
    ChunksCount(ts);
    ChunksOfRows(hash, ts);
    RowFrom(hash, Chunks(Rows(hash, ts)), INTERNAL, Branches(Chunks(ts)));
  }

  /** All entries of a level fit the layout. */
  predicate LevelFits(level: seq<seq<Entry>>) {
    forall c :: 0 <= c < |level| ==> KeysOk(level[c])
  }

  lemma {:induction false} ChunksFit(es: seq<Entry>)
    requires LevelFits(Chunks(es))
    ensures KeysOk(es)
    decreases |es|
  {
    var cs := Chunks(es);
    assert KeysOk(cs[0]);
    if |es| > CHUNK {
      var tail := es[CHUNK..];
      forall c | 0 <= c < |Chunks(tail)| ensures KeysOk(Chunks(tail)[c]) {
        assert Chunks(tail)[c] == cs[c + 1];
      }
      ChunksFit(tail);
      forall i | 0 <= i < |es| ensures TextFits(es[i].key) {
        if i < CHUNK { assert cs[0][i] == es[i]; } else { assert tail[i - CHUNK] == es[i]; }
      }
    }
  }

  lemma KeysOkChunks(es: seq<Entry>)
    requires KeysOk(es)
    ensures LevelFits(Chunks(es))
  {
    ChunksFrom(es);
    forall c | 0 <= c < |Chunks(es)| ensures KeysOk(Chunks(es)[c]) {
      var chunk := Chunks(es)[c];
      forall j | 0 <= j < |chunk| ensures TextFits(chunk[j].key) {
        assert chunk[j] in es;
        var i :| 0 <= i < |es| && es[i] == chunk[j];
        assert TextFits(es[i].key);
      }
    }
  }

  /** The chunks fit the layout exactly when every entry does. */
  lemma ChunksFitIff(es: seq<Entry>)
    ensures LevelFits(Chunks(es)) <==> KeysOk(es)
  {
    if KeysOk(es) {
      KeysOkChunks(es);
    }
    if LevelFits(Chunks(es)) {
      ChunksFit(es);
    }
  }

  /** The address of the node that holds `es`. */
  function Address(hash: Digest, kind: Byte, es: seq<Entry>): Bytes {
    hash(NodeBytes(Node(kind, es)))
  }

  predicate NodeStored(hash: Digest, blobs: Store, kind: Byte, es: seq<Entry>) {
    Address(hash, kind, es) in blobs && blobs[Address(hash, kind, es)] == NodeBytes(Node(kind, es))
  }

  predicate LevelStored(hash: Digest, blobs: Store, kind: Byte, level: seq<seq<Entry>>) {
    forall c :: 0 <= c < |level| ==> NodeStored(hash, blobs, kind, level[c])
  }

  function LevelAddresses(hash: Digest, kind: Byte, level: seq<seq<Entry>>): set<Bytes> {
    set c | 0 <= c < |level| :: Address(hash, kind, level[c])
  }

  /** Writes one node; afterwards it is stored unless a collision was met. */
  method WriteNode(k: MemoryKernel<Bytes, Bytes, Ref>, kind: Byte, entries: seq<Entry>) returns (r: Option<Bytes>)
    requires k.Valid() && |entries| <= CHUNK
    modifies k
    ensures k.Valid() && k.roots == old(k.roots) && Grown(old(k.blobs), k.blobs)
    ensures k.collisionFree ==> old(k.collisionFree)
    ensures k.blobs.Keys <= old(k.blobs.Keys) + {Address(k.hash, kind, entries)}
    ensures r.Some? <==> KeysOk(entries)
    ensures r.Some? ==> r.value == Address(k.hash, kind, entries)
    ensures r.Some? && k.collisionFree ==> NodeStored(k.hash, k.blobs, kind, entries)
  {
    var data := EncodeNode(kind, entries);
    if data.None? { return None; }
    var h := k.Write(data.value);
    r := Some(h);
  }

  /** The entries of the level above for the first chunks of a level. */
  ghost predicate RowsUp(hash: Digest, kind: Byte, level: seq<seq<Entry>>, entries: seq<Entry>)
    requires |entries| <= |level| && forall c :: 0 <= c < |level| ==> 0 < |level[c]|
  {
    && KeysOk(entries) && LevelFits(level[..|entries|])
    && forall j :: 0 <= j < |entries| ==>
         entries[j] == Entry(level[j][|level[j]| - 1].key, Address(hash, kind, level[j]))
  }

  lemma RowsUpMore(hash: Digest, kind: Byte, level: seq<seq<Entry>>, entries: seq<Entry>)
    requires |entries| < |level| && forall c :: 0 <= c < |level| ==> 0 < |level[c]|
    requires RowsUp(hash, kind, level, entries) && KeysOk(level[|entries|])
    ensures var last := level[|entries|];
            RowsUp(hash, kind, level, entries + [Entry(last[|last| - 1].key, Address(hash, kind, last))])
  {
    var c := |entries|;
    var last := level[c];
    assert TextFits(last[|last| - 1].key);
    var more := level[..c + 1];
    forall j | 0 <= j < |more| ensures KeysOk(more[j]) {
      if j < c { assert level[..c][j] == level[j]; }
    }
  }

  lemma AddressListed(hash: Digest, kind: Byte, level: seq<seq<Entry>>, c: nat)
    requires c < |level|
    ensures Address(hash, kind, level[c]) in LevelAddresses(hash, kind, level)
  {}

  lemma StoredMore(hash: Digest, before: Store, after: Store, kind: Byte, level: seq<seq<Entry>>, c: nat)
    requires c < |level| && Grown(before, after)
    requires LevelStored(hash, before, kind, level[..c]) && NodeStored(hash, after, kind, level[c])
    ensures LevelStored(hash, after, kind, level[..c + 1])
  {
    var more := level[..c + 1];
    forall j | 0 <= j < |more| ensures NodeStored(hash, after, kind, more[j]) {
      if j < c { assert NodeStored(hash, before, kind, level[..c][j]); }
    }
  }

  /** Writes the nodes of one level and returns the entries of the level above. */
  method WriteLevel(k: MemoryKernel<Bytes, Bytes, Ref>, level: seq<seq<Entry>>, kind: Byte)
    returns (r: Option<seq<Entry>>)
    requires k.Valid() && forall c :: 0 <= c < |level| ==> 0 < |level[c]| <= CHUNK
    modifies k
    ensures k.Valid() && k.roots == old(k.roots) && Grown(old(k.blobs), k.blobs)
    ensures k.collisionFree ==> old(k.collisionFree)
    ensures k.blobs.Keys <= old(k.blobs.Keys) + LevelAddresses(k.hash, kind, level)
    ensures r.Some? <==> LevelFits(level)
    ensures r.Some? ==> |r.value| == |level| && RowsUp(k.hash, kind, level, r.value)
    ensures r.Some? && k.collisionFree ==> LevelStored(k.hash, k.blobs, kind, level)
  {
    var entries: seq<Entry> := [];
    ghost var before := k.blobs;
    for c := 0 to |level|
      invariant k.Valid() && k.roots == old(k.roots) && Grown(before, k.blobs)
      invariant k.collisionFree ==> old(k.collisionFree)
      invariant k.blobs.Keys <= before.Keys + LevelAddresses(k.hash, kind, level)
      invariant |entries| == c && RowsUp(k.hash, kind, level, entries)
      invariant k.collisionFree ==> LevelStored(k.hash, k.blobs, kind, level[..c])
    {
      ghost var start := k.blobs;
      var h := WriteNode(k, kind, level[c]);
      AddressListed(k.hash, kind, level, c);
      if h.None? { return None; }
      RowsUpMore(k.hash, kind, level, entries);
      if k.collisionFree { StoredMore(k.hash, start, k.blobs, kind, level, c); }
      entries := entries + [Entry(level[c][|level[c]| - 1].key, h.value)];
    }
    assert level[..|level|] == level;
    return Some(entries);
  }

  ghost predicate AllInStore(hash: Digest, blobs: Store, ts: seq<Tree>) {
    forall c :: 0 <= c < |ts| ==> InStore(hash, blobs, ts[c])
  }

  ghost predicate AllKidsInStore(hash: Digest, blobs: Store, ts: seq<Tree>) {
    forall c :: 0 <= c < |ts| ==> KidsInStore(hash, blobs, ts[c])
  }

  lemma KidsGrown(hash: Digest, before: Store, after: Store, t: Tree)
    requires KidsInStore(hash, before, t) && Grown(before, after)
    ensures KidsInStore(hash, after, t)
  {
    if t.Branch? {
      forall i | 0 <= i < |t.kids| ensures InStore(hash, after, t.kids[i]) {
        InStoreGrown(hash, before, after, t.kids[i]);
      }
    }
  }

  /** A written level stores the trees whose root nodes it holds. */
  lemma LevelDone(hash: Digest, before: Store, after: Store, level: seq<seq<Entry>>, kind: Byte, ts: seq<Tree>)
    requires RowOf(hash, level, kind, ts) && Grown(before, after)
    requires LevelStored(hash, after, kind, level) && AllKidsInStore(hash, before, ts)
    ensures AllInStore(hash, after, ts)
  {
    forall c | 0 <= c < |ts| ensures InStore(hash, after, ts[c]) {
      RowAt(hash, level, kind, ts, c);
      KidsGrown(hash, before, after, ts[c]);
      assert NodeStored(hash, after, kind, level[c]);
    }
  }

  lemma LevelRows(hash: Digest, level: seq<seq<Entry>>, kind: Byte, ts: seq<Tree>, rows: seq<Entry>)
    requires RowOf(hash, level, kind, ts) && |rows| == |level|
    requires forall c :: 0 <= c < |level| ==> 0 < |level[c]|
    requires forall c :: 0 <= c < |level| ==>
               rows[c] == Entry(level[c][|level[c]| - 1].key, Address(hash, kind, level[c]))
    ensures rows == Rows(hash, ts)
  {
    forall c | 0 <= c < |ts| ensures rows[c] == Rows(hash, ts)[c] {
      RowAt(hash, level, kind, ts, c);
    }
  }

  lemma LevelWithin(hash: Digest, level: seq<seq<Entry>>, kind: Byte, ts: seq<Tree>)
    requires RowOf(hash, level, kind, ts)
    ensures LevelAddresses(hash, kind, level) <= AllAddresses(hash, ts)
  {
    forall c | 0 <= c < |level| ensures Address(hash, kind, level[c]) in AllAddresses(hash, ts) {
      RowAt(hash, level, kind, ts, c);
      HeadAddress(hash, ts, c);
    }
  }

  lemma {:induction false} HeadAddress(hash: Digest, ts: seq<Tree>, j: nat)
    requires j < |ts|
    ensures TreeHash(hash, ts[j]) in AllAddresses(hash, ts)
    decreases j
  {
    if j > 0 { HeadAddress(hash, ts[1..], j - 1); }
  }

  lemma GroupedInStore(hash: Digest, blobs: Store, ts: seq<Tree>)
    requires ts != [] && AllInStore(hash, blobs, ts)
    ensures AllKidsInStore(hash, blobs, Branches(Chunks(ts)))
  {
    ChunksFrom(ts);
    forall c, i | 0 <= c < |Chunks(ts)| && 0 <= i < |Chunks(ts)[c]|
      ensures InStore(hash, blobs, Chunks(ts)[c][i])
    {
      assert Chunks(ts)[c][i] in ts;
    }
  }

  /** Chunks of a sequence longer than one chunk: at least two, none empty, none too large. */
  lemma SplitShape<T>(s: seq<T>)
    requires |s| > CHUNK
    ensures 1 < |Chunks(s)| < |s|
    ensures forall c :: 0 <= c < |Chunks(s)| ==> 0 < |Chunks(s)[c]| <= CHUNK
  {
    ChunksCount(s);
  }

  lemma RootAddress(hash: Digest, t: Tree)
    ensures TreeHash(hash, t) in Addresses(hash, t)
    ensures t.Leaf? ==> TreeHash(hash, t) == Address(hash, LEAF, t.entries)
  {}

  /** Chunk sizes as the layout needs them, and whether all keys fit. */
  ghost predicate LevelOk(level: seq<seq<Entry>>, fits: bool) {
    && |level| > 1 && (forall c :: 0 <= c < |level| ==> 0 < |level[c]| <= CHUNK)
    && (fits <==> LevelFits(level))
  }

  lemma SplitOk(s: seq<Entry>)
    requires |s| > CHUNK
    ensures LevelOk(Chunks(s), KeysOk(s)) && |Chunks(s)| < |s|
  {
    SplitShape(s);
    ChunksFitIff(s);
  }

  /** Writes a level of the tree that `ts` will grow into. */
  method WriteTrees(k: MemoryKernel<Bytes, Bytes, Ref>, level: seq<seq<Entry>>, kind: Byte, ghost fits: bool,
                    ghost ts: seq<Tree>)
    returns (r: Option<seq<Entry>>)
    requires k.Valid() && LevelOk(level, fits) && RowOf(k.hash, level, kind, ts)
    requires k.collisionFree ==> AllKidsInStore(k.hash, k.blobs, ts)
    modifies k
    ensures k.Valid() && k.roots == old(k.roots) && Grown(old(k.blobs), k.blobs)
    ensures k.collisionFree ==> old(k.collisionFree)
    ensures k.blobs.Keys <= old(k.blobs.Keys) + AllAddresses(k.hash, ts)
    ensures r.Some? <==> fits
    ensures r.Some? ==> r.value == Rows(k.hash, ts) && KeysOk(r.value)
    ensures r.Some? && k.collisionFree ==> AllInStore(k.hash, k.blobs, ts)
  {
    ghost var start := k.blobs;
    LevelWithin(k.hash, level, kind, ts);
    r := WriteLevel(k, level, kind);
    if r.Some? {
      LevelRows(k.hash, level, kind, ts, r.value);
      if k.collisionFree { LevelDone(k.hash, start, k.blobs, level, kind, ts); }
    }
  }

  lemma NextLevel(hash: Digest, ts: seq<Tree>)
    requires |ts| > CHUNK
    ensures RowOf(hash, Chunks(Rows(hash, ts)), INTERNAL, Branches(Chunks(ts)))
    ensures Branches(Chunks(ts)) != [] && Grow(Branches(Chunks(ts))) == Grow(ts)
  {
    BranchRow(hash, ts);
  }

  /** Writes level after level, from the leaves up to the root of what `row` grows into. */
  method BuildLevels(k: MemoryKernel<Bytes, Bytes, Ref>, leaves: seq<seq<Entry>>, ghost fits: bool,
                     ghost row: seq<Tree>)
    returns (r: Option<Bytes>)
    requires k.Valid() && LevelOk(leaves, fits) && RowOf(k.hash, leaves, LEAF, row) && row != []
    requires k.collisionFree ==> AllKidsInStore(k.hash, k.blobs, row)
    modifies k
    ensures k.Valid() && k.roots == old(k.roots) && Grown(old(k.blobs), k.blobs)
    ensures k.collisionFree ==> old(k.collisionFree)
    ensures k.blobs.Keys <= old(k.blobs.Keys) + Addresses(k.hash, Grow(row))
    ensures r == if fits then Some(TreeHash(k.hash, Grow(row))) else None
    ensures r.Some? && k.collisionFree ==> InStore(k.hash, k.blobs, Grow(row))
  {
    var level, kind := leaves, LEAF;
    ghost var ts := row;
    // The program's loop condition `len(level) > 1` always holds and its code after the
    // loop is never reached: a level of more than 64 entries is split into several chunks.
    while true
      invariant k.Valid() && k.roots == old(k.roots) && Grown(old(k.blobs), k.blobs)
      invariant k.collisionFree ==> old(k.collisionFree)
      invariant k.blobs.Keys <= old(k.blobs.Keys) + Addresses(k.hash, Grow(row))
      invariant LevelOk(level, fits) && RowOf(k.hash, level, kind, ts)
      invariant ts != [] && Grow(ts) == Grow(row)
      invariant k.collisionFree ==> AllKidsInStore(k.hash, k.blobs, ts)
      decreases |level|
    {
      GrowAddresses(k.hash, ts);
      var rows := WriteTrees(k, level, kind, fits, ts);
      if rows.None? { return None; }
      if |rows.value| <= CHUNK {
        r := FinishRoot(k, rows.value, ts);
        return;
      }
      if k.collisionFree { GroupedInStore(k.hash, k.blobs, ts); }
      level := Split(rows.value);
      kind := INTERNAL;
      SplitOk(rows.value);
      NextLevel(k.hash, ts);
      ts := Branches(Chunks(ts));
    }
  }

  /** Builds the tree of a dictionary bottom-up and returns its root address.

      The root depends on the dictionary alone; the new blobs are nodes of that tree; and
      unless a collision was met, the whole tree is stored.  Building fails exactly when a
      key does not fit its length field. */
  method Build(k: MemoryKernel<Bytes, Bytes, Ref>, entries: map<Bytes, Bytes>) returns (r: Option<Bytes>)
    requires k.Valid()
    modifies k
    ensures k.Valid() && k.roots == old(k.roots) && Grown(old(k.blobs), k.blobs)
    ensures k.collisionFree ==> old(k.collisionFree)
    ensures k.blobs.Keys <= old(k.blobs.Keys) + Addresses(k.hash, MapTree(entries))
    ensures r.Some? <==> KeysOk(SortedItems(entries))
    ensures r.Some? ==> r.value == TreeHash(k.hash, MapTree(entries))
    ensures r.Some? && k.collisionFree ==> InStore(k.hash, k.blobs, MapTree(entries))
  {
    var items := SortedItems(entries);
    if |items| <= CHUNK {
      RootAddress(k.hash, MapTree(entries));
      r := WriteNode(k, LEAF, items);
      return;
    }
    var level := Split(items);
    SplitOk(items);
    LeafRow(k.hash, items);
    r := BuildLevels(k, level, KeysOk(items), Leaves(level));
  }

  method FinishRoot(k: MemoryKernel<Bytes, Bytes, Ref>, rows: seq<Entry>, ghost ts: seq<Tree>)
    returns (r: Option<Bytes>)
    requires k.Valid() && 0 < |rows| <= CHUNK && rows == Rows(k.hash, ts) && KeysOk(rows)
    requires k.collisionFree ==> AllInStore(k.hash, k.blobs, ts)
    modifies k
    ensures k.Valid() && k.roots == old(k.roots) && Grown(old(k.blobs), k.blobs)
    ensures k.collisionFree ==> old(k.collisionFree)
    ensures k.blobs.Keys <= old(k.blobs.Keys) + Addresses(k.hash, Branch(ts))
    ensures r == Some(TreeHash(k.hash, Branch(ts)))
    ensures k.collisionFree ==> InStore(k.hash, k.blobs, Branch(ts))
  {
    ghost var start := k.blobs;
    r := WriteNode(k, INTERNAL, rows);
    assert NodeOf(k.hash, Branch(ts)) == Node(INTERNAL, rows);
    if k.collisionFree {
      KidsGrown(k.hash, start, k.blobs, Branch(ts));
    }
  }
}