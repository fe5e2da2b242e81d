/** What two versions of a tree share, and the comparison of two versions. */
module TreeSharing {
  import opened Basics
  import opened Kernel
  import opened ProllyTree

  // ---------- overwriting one value ----------

  lemma {:induction false} ChunksUpdate<T>(s: seq<T>, i: nat, x: T) returns (c: nat, j: nat)
    requires i < |s|
    ensures c < |Chunks(s)| && j < |Chunks(s)[c]| && Chunks(s)[c][j] == s[i]
    ensures Chunks(s[i := x]) == Chunks(s)[c := Chunks(s)[c][j := x]]
    decreases |s|
  {
    if |s| <= CHUNK {
      c, j := 0, i;
    } else if i < CHUNK {
      c, j := 0, i;
      assert s[i := x][..CHUNK] == s[..CHUNK][i := x];
      assert s[i := x][CHUNK..] == s[CHUNK..];
    } else {
      c, j := ChunksUpdate(s[CHUNK..], i - CHUNK, x);
      assert s[i := x][..CHUNK] == s[..CHUNK];
      assert s[i := x][CHUNK..] == s[CHUNK..][i - CHUNK := x];
      c := c + 1;
    }
  }

  /** The trees differ along one path from the root to a leaf. */
  ghost predicate OnePath(t: Tree, u: Tree) {
    match (t, u)
    case (Leaf(_), Leaf(_)) => true
    case (Branch(ks), Branch(ls)) =>
      |ks| == |ls| && exists i :: 0 <= i < |ks| && OnePath(ks[i], ls[i]) && ls == ks[i := ls[i]]
    case _ => false
  }

  lemma {:induction false} GrowUpdate(ts: seq<Tree>, i: nat, u: Tree)
    requires i < |ts| && OnePath(ts[i], u)
    ensures OnePath(Grow(ts), Grow(ts[i := u]))
    decreases |ts|
  {
    if |ts| <= CHUNK {
      assert ts[i := u][i] == u;
    } else {
      ChunksCount(ts);
      ChunksCount(ts[i := u]);
      var c, j := ChunksUpdate(ts, i, u);
      var kids := Chunks(ts)[c];
      assert kids[j := u][j] == u;
      assert OnePath(Branch(kids), Branch(kids[j := u]));
      assert Branches(Chunks(ts[i := u])) == Branches(Chunks(ts))[c := Branch(kids[j := u])];
      GrowUpdate(Branches(Chunks(ts)), c, Branch(kids[j := u]));
    }
  }

  lemma TreeUpdate(es: seq<Entry>, i: nat, e: Entry)
    requires i < |es|
    ensures OnePath(TreeOf(es), TreeOf(es[i := e]))
  {
    if |es| > CHUNK {
      var c, j := ChunksUpdate(es, i, e);
      var chunk := Chunks(es)[c];
      assert Leaves(Chunks(es[i := e])) == Leaves(Chunks(es))[c := Leaf(chunk[j := e])];
      GrowUpdate(Leaves(Chunks(es)), c, Leaf(chunk[j := e]));
    }
  }

  /** Replacing the value of a key replaces one entry of the sorted listing. */
  lemma SortedOverwrite(m: map<Bytes, Bytes>, key: Bytes, value: Bytes) returns (i: nat)
    requires key in m
    ensures i < |SortedItems(m)|
    ensures SortedItems(m[key := value]) == SortedItems(m)[i := Entry(key, value)]
  {
    var es, n := SortedItems(m), m[key := value];
    SortedItemsComplete(m, key);
    i :| 0 <= i < |es| && es[i] == Entry(key, m[key]);
    var fs := es[i := Entry(key, value)];
    SortedItemsSorted(m);
    SortedItemsSorted(n);
    assert Sorted(fs);
    forall e ensures e in fs <==> e in SortedItems(n) {
      OverwrittenEntry(m, key, value, i, e);
    }
    SortedUnique(fs, SortedItems(n));
  }

  lemma OverwrittenEntry(m: map<Bytes, Bytes>, key: Bytes, value: Bytes, i: nat, e: Entry)
    requires key in m && i < |SortedItems(m)| && SortedItems(m)[i] == Entry(key, m[key])
    ensures e in SortedItems(m)[i := Entry(key, value)] <==> e in SortedItems(m[key := value])
  {
    var es, n := SortedItems(m), m[key := value];
    var fs := es[i := Entry(key, value)];
    SortedItemsSorted(m);
    if e in fs {
      var j :| 0 <= j < |fs| && fs[j] == e;
      if j != i { OtherKey(es, i, j); }
      SortedItemsComplete(n, e.key);
    }
    if e in SortedItems(n) {
      if e.key == key {
        assert fs[i] == e;
      } else {
        SortedItemsComplete(m, e.key);
        var j :| 0 <= j < |es| && es[j] == e;
        assert fs[j] == e;
      }
    }
  }

  lemma OtherKey(es: seq<Entry>, i: nat, j: nat)
    requires Sorted(es) && i < |es| && j < |es| && i != j
    ensures es[i].key != es[j].key
  {
    LessIrreflexive(es[i].key);
  }

  lemma {:induction false} AddressesUpdate(hash: Digest, ts: seq<Tree>, i: nat, u: Tree)
    requires i < |ts|
    ensures AllAddresses(hash, ts[i := u]) - AllAddresses(hash, ts) <= Addresses(hash, u) - Addresses(hash, ts[i])
    decreases |ts|
  {
    if i == 0 {
      assert ts[i := u][1..] == ts[1..];
    } else {
      assert ts[i := u][1..] == ts[1..][i - 1 := u];
      AddressesUpdate(hash, ts[1..], i - 1, u);
    }
  }

  lemma AtMostOneMore<T>(x: T, a: set<T>, b: set<T>)
    requires a <= {x} + b
    ensures |a| <= 1 + |b|
  {
    if x in b {
      assert {x} + b == b;
      SubsetSize(a, b);
    } else {
      SubsetSize(a, {x} + b);
    }
  }

  lemma {:induction false} SubsetSize<T>(a: set<T>, b: set<T>)
    requires a <= b
    ensures |a| <= |b|
  {
    if a != {} {
      var x :| x in a;
      SubsetSize(a - {x}, b - {x});
    }
  }

  lemma {:induction false} OnePathAddresses(hash: Digest, t: Tree, u: Tree, h: nat)
    requires OnePath(t, u) && Uniform(u, h)
    ensures |Addresses(hash, u) - Addresses(hash, t)| <= h
    decreases u
  {
    var x := TreeHash(hash, u);
    match u
    case Leaf(_) =>
      AtMostOneMore(x, Addresses(hash, u) - Addresses(hash, t), {});
    case Branch(ls) =>
      var ks := t.kids;
      var i :| 0 <= i < |ks| && OnePath(ks[i], ls[i]) && ls == ks[i := ls[i]];
      OnePathAddresses(hash, ks[i], ls[i], h - 1);
      AddressesUpdate(hash, ks, i, ls[i]);
      var below := Addresses(hash, ls[i]) - Addresses(hash, ks[i]);
      AtMostOneMore(x, Addresses(hash, u) - Addresses(hash, t), below);
  }

  /** Overwriting the value of one existing key produces at most one new node per level;
      all other nodes are shared with the old tree. */
  lemma OverwriteShares(hash: Digest, m: map<Bytes, Bytes>, key: Bytes, value: Bytes)
    requires key in m
    ensures |Addresses(hash, MapTree(m[key := value])) - Addresses(hash, MapTree(m))| <= Height(|m|)
  {
    var i := SortedOverwrite(m, key, value);
    TreeUpdate(SortedItems(m), i, Entry(key, value));
    TreeOfShape(SortedItems(m[key := value]));
    OnePathAddresses(hash, MapTree(m), MapTree(m[key := value]), Height(|m|));
  }

  lemma {:induction false} AddressesStored(hash: Digest, blobs: Store, t: Tree)
    requires InStore(hash, blobs, t)
    ensures Addresses(hash, t) <= blobs.Keys
    decreases t, 1
  {
    if t.Branch? { AllAddressesStored(hash, blobs, t.kids); }
  }

  lemma {:induction false} AllAddressesStored(hash: Digest, blobs: Store, ts: seq<Tree>)
    requires forall i :: 0 <= i < |ts| ==> InStore(hash, blobs, ts[i])
    ensures AllAddresses(hash, ts) <= blobs.Keys
    decreases ts, 0
  {
    if ts != [] {
      AddressesStored(hash, blobs, ts[0]);
      AllAddressesStored(hash, blobs, ts[1..]);
    }
  }

  /** Building the changed dictionary where the old tree is stored writes at most one new
      blob per level, however large the dictionary is. */
  method BuildOverwritten(k: MemoryKernel<Bytes, Bytes, Ref>, m: map<Bytes, Bytes>, key: Bytes, value: Bytes)
    returns (r: Option<Bytes>)
    requires k.Valid() && key in m && InStore(k.hash, k.blobs, MapTree(m))
    modifies k
    ensures |k.blobs.Keys - old(k.blobs.Keys)| <= Height(|m|)
  {
    r := Build(k, m[key := value]);
    OverwriteShares(k.hash, m, key, value);
    AddressesStored(k.hash, old(k.blobs), MapTree(m));
    SubsetSize(k.blobs.Keys - old(k.blobs.Keys),
               Addresses(k.hash, MapTree(m[key := value])) - Addresses(k.hash, MapTree(m)));
  }

  // ---------- diff ----------

  datatype Diff = Diff(added: map<Bytes, Bytes>, removed: map<Bytes, Bytes>, modified: map<Bytes, (Bytes, Bytes)>)

  /** What changed from dictionary `a` to dictionary `b`. */
  function DiffOf(a: map<Bytes, Bytes>, b: map<Bytes, Bytes>): Diff {
    Diff(map x | x in b && x !in a :: Short(b[x]),
         map x | x in a && x !in b :: Short(a[x]),
         map x | x in a && x in b && a[x] != b[x] :: (Short(a[x]), Short(b[x])))
  }

  /** What a difference tells, key by key: taking the removed keys out of `a` and putting the
      added ones in gives the keys of `b`; the modified keys are those of both whose values
      differ; and each value is shown by its first digits. */
  lemma DiffTells(a: map<Bytes, Bytes>, b: map<Bytes, Bytes>)
    ensures var d := DiffOf(a, b);
            && (a.Keys - d.removed.Keys) + d.added.Keys == b.Keys
            && d.removed.Keys <= a.Keys && d.added.Keys !! a.Keys
            && (forall x :: x in d.modified <==> x in a && x in b && a[x] != b[x])
            && (forall x :: x in d.added ==> d.added[x] <= b[x] && |d.added[x]| <= 6)
            && (forall x :: x in d.removed ==> d.removed[x] <= a[x] && |d.removed[x]| <= 6)
            && (forall x :: x in d.modified ==> d.modified[x] == (Short(a[x]), Short(b[x])))
  {
  }

  /** Compares two versions; equal roots are recognised without reading anything. */
  method DiffTrees(k: MemoryKernel<Bytes, Bytes, Ref>, rootA: Bytes, rootB: Bytes, ghost ta: Tree, ghost tb: Tree)
    returns (d: Diff)
    requires Holds(k, rootA, ta) && Holds(k, rootB, tb)
    ensures d == DiffOf(ToMap(Flatten(ta)), ToMap(Flatten(tb)))
  {
    if rootA == rootB {
      AddressDeterminesTree(k.hash, k.blobs, ta, tb);
      return Diff(map[], map[], map[]);
    }
    var a := ReadAll(k, rootA, ta);
    var b := ReadAll(k, rootB, tb);
    d := DiffOf(a, b);
  }

  /** The difference is empty exactly between equal dictionaries. */
  lemma DiffEmptyIffEqual(a: map<Bytes, Bytes>, b: map<Bytes, Bytes>)
    ensures DiffOf(a, b) == Diff(map[], map[], map[]) <==> a == b
  {
    var d := DiffOf(a, b);
    assert forall x :: x in a && x !in b ==> x in d.removed;
    assert forall x :: x in a && x in b && a[x] != b[x] ==> x in d.modified;
    assert forall x :: x in b && x !in a ==> x in d.added;
  }
}
