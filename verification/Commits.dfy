/** How the ledger of versions is represented by the blobs of the store. */
module Commits {
  import opened Basics
  import opened Texts
  import opened Codec
  import opened Kernel
  import opened ProllyTree
  import opened History

  /** The tree of `s` is stored under `root`. */
  ghost predicate TreeAt(hash: Digest, blobs: Store, root: Bytes, s: State) {
    && root == TreeHash(hash, MapTree(s)) && InStore(hash, blobs, MapTree(s))
    && Storable(s) && KeysOk(SortedItems(s))
  }

  function NoteOf(c: Commit): Note {
    Note(c.message, c.timestamp, c.index)
  }

  /** The decoded commit `c` stands for the version `v`. */
  ghost predicate Describes(hash: Digest, blobs: Store, vs: Versions, c: Commit, v: Version) {
    && c.parent == v.parent && c.second == v.second && NoteOf(c) == v.note && Storable(v.state)
    && (v.snapshot ==> !c.HasDelta() && c.snapshot.Some? && TreeAt(hash, blobs, c.snapshot.value, v.state))
    && (!v.snapshot ==> c.HasDelta() && c.snapshot.None? && DeltaOf(vs, c, v))
  }

  ghost predicate DeltaOf(vs: Versions, c: Commit, v: Version) {
    && v.parent.Some? && v.parent.value in vs
    && c.plus.Keys !! Elements(c.minus)
    && v.state == Apply(vs[v.parent.value].state, c.plus, Elements(c.minus))
  }

  ghost predicate CommitStored(hash: Digest, blobs: Store, vs: Versions, h: Bytes)
    requires h in vs
  {
    && h in blobs && ParseCommit(blobs[h]).Some?
    && Describes(hash, blobs, vs, ParseCommit(blobs[h]).value, vs[h])
  }

  /** The versions that the store does not represent. */
  ghost function Unstored(hash: Digest, blobs: Store, vs: Versions): set<Bytes> {
    set h | h in vs && !CommitStored(hash, blobs, vs, h)
  }

  /** Every version is stored, and the ledger is well formed. */
  ghost predicate Consistent(hash: Digest, blobs: Store, vs: Versions) {
    WellFormed(vs) && Unstored(hash, blobs, vs) == {}
  }

  lemma StoredVersion(hash: Digest, blobs: Store, vs: Versions, h: Bytes)
    requires Consistent(hash, blobs, vs) && h in vs
    ensures CommitStored(hash, blobs, vs, h)
  {
    assert h !in Unstored(hash, blobs, vs);
  }

  lemma TreeAtGrown(hash: Digest, before: Store, after: Store, root: Bytes, s: State)
    requires TreeAt(hash, before, root, s) && Grown(before, after)
    ensures TreeAt(hash, after, root, s)
  {
    InStoreGrown(hash, before, after, MapTree(s));
  }

  lemma ConsistentGrown(hash: Digest, before: Store, after: Store, vs: Versions)
    requires Consistent(hash, before, vs) && Grown(before, after)
    ensures Consistent(hash, after, vs)
  {
    forall h | h in vs ensures CommitStored(hash, after, vs, h) {
      StoredVersion(hash, before, vs, h);
      if vs[h].snapshot {
        TreeAtGrown(hash, before, after, ParseCommit(before[h]).value.snapshot.value, vs[h].state);
      }
    }
  }

  lemma SameTree(hash: Digest, blobs: Store, root: Bytes, s: State, t: State)
    requires Sha(hash) && TreeAt(hash, blobs, root, s) && TreeAt(hash, blobs, root, t)
    ensures s == t
  {
    KeysFitAll(s);
    KeysFitAll(t);
    RootIdentifiesMap(hash, blobs, s, t);
  }

  lemma KeysFitAll(s: State)
    ensures KeysOk(SortedItems(s)) <==> forall k :: k in s ==> TextFits(k)
  {
    var es := SortedItems(s);
    if KeysOk(es) {
      forall k | k in s ensures TextFits(k) {
        SortedItemsComplete(s, k);
        var i :| 0 <= i < |es| && es[i] == Entry(k, s[k]);
      }
    }
  }

  /** One stored commit describes one version. */
  lemma DescribesUnique(hash: Digest, blobs: Store, vs: Versions, c: Commit, v: Version, w: Version)
    requires Sha(hash) && WellFormed(vs)
    requires Describes(hash, blobs, vs, c, v) && Describes(hash, blobs, vs, c, w)
    requires v.depth == w.depth
    ensures v == w
  {
    if v.snapshot {
      SameTree(hash, blobs, c.snapshot.value, v.state, w.state);
    }
  }

  /** A version can be entered in the ledger at address `h`. */
  ghost predicate Enterable(vs: Versions, v: Version) {
    match v.parent
    case None => v.snapshot && v.depth == 0
    case Some(p) => p in vs && v.depth == vs[p].depth + 1
  }

  lemma DescribesGrown(hash: Digest, blobs: Store, vs: Versions, ws: Versions, c: Commit, v: Version)
    requires Describes(hash, blobs, vs, c, v) && Grown(vs, ws)
    ensures Describes(hash, blobs, ws, c, v)
  {}

  lemma EnterNew(hash: Digest, blobs: Store, vs: Versions, h: Bytes, v: Version)
    requires Consistent(hash, blobs, vs) && Enterable(vs, v) && h !in vs
    requires h in blobs && ParseCommit(blobs[h]).Some?
    requires Describes(hash, blobs, vs, ParseCommit(blobs[h]).value, v)
    ensures Consistent(hash, blobs, vs[h := v])
  {
    var ws := vs[h := v];
    forall g | g in ws ensures Linked(ws, g) {
      if g != h { assert Linked(vs, g); }
    }
    forall g | g in ws ensures CommitStored(hash, blobs, ws, g) {
      if g != h { StoredVersion(hash, blobs, vs, g); }
      DescribesGrown(hash, blobs, vs, ws, ParseCommit(blobs[g]).value, ws[g]);
    }
  }

  lemma EnterOld(hash: Digest, blobs: Store, vs: Versions, h: Bytes, v: Version)
    requires Sha(hash) && Consistent(hash, blobs, vs) && Enterable(vs, v) && h in vs
    requires h in blobs && ParseCommit(blobs[h]).Some?
    requires Describes(hash, blobs, vs, ParseCommit(blobs[h]).value, v)
    ensures vs[h] == v
  {
    StoredVersion(hash, blobs, vs, h);
    assert Linked(vs, h);
    DescribesUnique(hash, blobs, vs, ParseCommit(blobs[h]).value, v, vs[h]);
  }

  lemma EnterSame(vs: Versions, h: Bytes, v: Version)
    requires h in vs && vs[h] == v
    ensures vs[h := v] == vs
  {
  }

  /** Entering a newly stored commit keeps the ledger consistent and changes no version:
      if its address was in the ledger already, the same version was. */
  lemma Enter(hash: Digest, blobs: Store, vs: Versions, h: Bytes, v: Version)
    requires Sha(hash) && Consistent(hash, blobs, vs) && Enterable(vs, v)
    requires h in blobs && ParseCommit(blobs[h]).Some?
    requires Describes(hash, blobs, vs, ParseCommit(blobs[h]).value, v)
    ensures Consistent(hash, blobs, vs[h := v])
    ensures Grown(vs, vs[h := v])
  {
    if h in vs {
      EnterOld(hash, blobs, vs, h, v);
      EnterSame(vs, h, v);
    } else {
      EnterNew(hash, blobs, vs, h, v);
    }
  }
}
