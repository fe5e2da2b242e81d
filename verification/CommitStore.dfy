/** Reading and writing the commits of a lens. */
module CommitStore {
  import opened Basics
  import opened Texts
  import opened Codec
  import opened Kernel
  import opened ProllyTree
  import opened History
  import opened Commits

  /** What one delta commit adds and deletes. */
  datatype Delta = Delta(plus: State, minus: seq<Bytes>)

  /** Replays a journal, listed newest first, on top of `s`. */
  function Replay(s: State, deltas: seq<Delta>): State {
    if deltas == [] then s
    else Apply(Replay(s, deltas[1..]), deltas[0].plus, Elements(deltas[0].minus))
  }

  lemma {:induction false} ReplayOlder(s: State, deltas: seq<Delta>, d: Delta)
    ensures Replay(s, deltas + [d]) == Replay(Apply(s, d.plus, Elements(d.minus)), deltas)
    decreases |deltas|
  {
    if deltas == [] {
      assert deltas + [d] == [d];
      assert Replay(s, [d]) == Apply(Replay(s, [d][1..]), d.plus, Elements(d.minus));
    } else {
      assert (deltas + [d])[1..] == deltas[1..] + [d];
      ReplayOlder(s, deltas[1..], d);
    }
  }

  /** Adds the entries of `plus` key by key. */
  method AddAll(s: State, plus: State) returns (r: State)
    ensures r == s + plus
  {
    r := s;
    var todo := plus.Keys;
    while todo != {}
      invariant todo <= plus.Keys && r == s + (plus - todo)
    {
      var k :| k in todo;
      assert s + (plus - (todo - {k})) == (s + (plus - todo))[k := plus[k]];
      r := r[k := plus[k]];
      todo := todo - {k};
    }
    assert plus - {} == plus;
  }

  /** Applies one delta as the program updates its dictionary: additions, then deletions. */
  method ApplyDelta(s: State, plus: State, minus: seq<Bytes>) returns (r: State)
    ensures r == Apply(s, plus, Elements(minus))
  {
    r := AddAll(s, plus);
    for i := 0 to |minus|
      invariant r == (s + plus) - Elements(minus[..i])
    {
      assert minus[..i + 1] == minus[..i] + [minus[i]];
      ElementsAppend(minus[..i], minus[i]);
      r := r - {minus[i]};
    }
    assert minus[..|minus|] == minus;
  }

  /** The items of a dictionary in some order.  The program writes them in insertion order;
      nothing below depends on which order it is. */
  method Items(m: State) returns (es: seq<Entry>)
    ensures ToMap(es) == m && |es| == |m|
    ensures forall i :: 0 <= i < |es| ==> es[i].key in m && es[i].hash == m[es[i].key]
  {
    es := [];
    var todo := m.Keys;
    while todo != {}
      invariant todo <= m.Keys && |es| + |todo| == |m|
      invariant ToMap(es) == m - todo
      invariant forall i :: 0 <= i < |es| ==> es[i].key in m && es[i].hash == m[es[i].key]
    {
      var k :| k in todo;
      assert (es + [Entry(k, m[k])])[..|es|] == es;
      assert (m - todo)[k := m[k]] == m - (todo - {k});
      es := es + [Entry(k, m[k])];
      todo := todo - {k};
    }
  }

  /** The elements of a set in some order. */
  method Listing(s: set<Bytes>) returns (ks: seq<Bytes>)
    ensures Elements(ks) == s && |ks| == |s|
  {
    ks := [];
    var todo := s;
    while todo != {}
      invariant todo <= s && Elements(ks) == s - todo && |ks| + |todo| == |s|
    {
      var k :| k in todo;
      ElementsAppend(ks, k);
      ks := ks + [k];
      todo := todo - {k};
    }
  }

  /** Reads and decodes a commit that some lens wrote. */
  method LoadCommit(k: MemoryKernel<Bytes, Bytes, Ref>, ledger: Ledger, h: Bytes) returns (c: Commit)
    requires Consistent(k.hash, k.blobs, ledger.versions) && h in ledger.versions
    ensures var v := ledger.versions[h];
            c.parent == v.parent && c.second == v.second && NoteOf(c) == v.note
            && (c.snapshot.Some? <==> v.snapshot) && (c.HasDelta() <==> !v.snapshot)
    ensures ledger.versions[h].snapshot ==> TreeAt(k.hash, k.blobs, c.snapshot.value, ledger.versions[h].state)
    ensures !ledger.versions[h].snapshot ==> DeltaOf(ledger.versions, c, ledger.versions[h])
  {
    StoredVersion(k.hash, k.blobs, ledger.versions, h);
    var data := k.ReadBlob(h);
    var commit := DecodeCommit(data.value);
    c := commit.value;
  }

  /** The entries of a stored snapshot. */
  method ReadTree(k: MemoryKernel<Bytes, Bytes, Ref>, root: Bytes, ghost s: State) returns (r: State)
    requires Sha(k.hash) && TreeAt(k.hash, k.blobs, root, s)
    ensures r == s
  {
    ghost var t := MapTree(s);
    TreeOfWritable(SortedItems(s));
    r := ProllyTree.ReadAll(k, root, t);
    FlattenTreeOf(SortedItems(s));
    SortedItemsToMap(s);
  }

  method LookupTree(k: MemoryKernel<Bytes, Bytes, Ref>, root: Bytes, key: Bytes, ghost s: State)
    returns (r: Option<Bytes>)
    requires Sha(k.hash) && TreeAt(k.hash, k.blobs, root, s)
    ensures r == Get(s, key)
  {
    ghost var es := SortedItems(s);
    TreeOfWritable(es);
    TreeOfShape(es);
    FlattenTreeOf(es);
    SortedItemsSorted(s);
    SortedItemsToMap(s);
    ghost var visited;
    r, visited := ProllyTree.Lookup(k, root, key, MapTree(s), Height(|es|));
  }

  /** `_find_latest_snapshot` */
  method FindLatestSnapshot(k: MemoryKernel<Bytes, Bytes, Ref>, ledger: Ledger, h: Bytes) returns (s: Bytes)
    requires Consistent(k.hash, k.blobs, ledger.versions) && h in ledger.versions
    ensures s == Nearest(ledger.versions, h)
  {
    var current := h;
    while true
      invariant current in ledger.versions
      invariant Nearest(ledger.versions, current) == Nearest(ledger.versions, h)
      decreases ledger.versions[current].depth
    {
      assert Linked(ledger.versions, current);
      var c := LoadCommit(k, ledger, current);
      if c.snapshot.Some? { return current; }
      current := c.parent.value;
    }
  }

  /** `_count_deltas_since_snapshot`: gives up two past the threshold. */
  method CountDeltas(k: MemoryKernel<Bytes, Bytes, Ref>, ledger: Ledger, h: Option<Bytes>, threshold: nat)
    returns (count: nat)
    requires Consistent(k.hash, k.blobs, ledger.versions)
    requires h.Some? ==> h.value in ledger.versions
    ensures h.None? ==> count == 0
    ensures h.Some? ==> var n := Journal(ledger.versions, h.value);
                        count == if n <= threshold + 1 then n else threshold + 2
  {
    count := 0;
    var current := h;
    while current.Some?
      invariant current.None? ==> h.None? && count == 0
      invariant current.Some? ==>
          h.Some? && current.value in ledger.versions && count <= threshold + 1
          && Journal(ledger.versions, h.value) == count + Journal(ledger.versions, current.value)
      decreases if current.None? then 0 else 1 + ledger.versions[current.value].depth
    {
      assert Linked(ledger.versions, current.value);
      var c := LoadCommit(k, ledger, current.value);
      if c.snapshot.Some? { return; }
      count := count + 1;
      current := c.parent;
      if count > threshold + 1 { return; }
    }
  }

  /** `_read_state_from_commit`: the full state at any commit. */
  method ReadState(k: MemoryKernel<Bytes, Bytes, Ref>, ledger: Ledger, h: Bytes) returns (state: State)
    requires Sha(k.hash) && Consistent(k.hash, k.blobs, ledger.versions) && h in ledger.versions
    ensures state == ledger.versions[h].state
  {
    var deltas: seq<Delta> := [];
    var current := h;
    var c := LoadCommit(k, ledger, current);
    while c.snapshot.None?
      invariant current in ledger.versions
      invariant c.parent == ledger.versions[current].parent
      invariant c.snapshot.Some? <==> ledger.versions[current].snapshot
      invariant c.snapshot.Some? ==> TreeAt(k.hash, k.blobs, c.snapshot.value, ledger.versions[current].state)
      invariant c.snapshot.None? ==> DeltaOf(ledger.versions, c, ledger.versions[current])
      invariant ledger.versions[h].state == Replay(ledger.versions[current].state, deltas)
      decreases ledger.versions[current].depth
    {
      assert Linked(ledger.versions, current);
      ReplayOlder(ledger.versions[c.parent.value].state, deltas, Delta(c.plus, c.minus));
      deltas := deltas + [Delta(c.plus, c.minus)];
      current := c.parent.value;
      c := LoadCommit(k, ledger, current);
    }
    state := ReadTree(k, c.snapshot.value, ledger.versions[current].state);
    state := ReplayAll(state, deltas);
  }

  /** Applies a journal oldest first. */
  method ReplayAll(s: State, deltas: seq<Delta>) returns (r: State)
    ensures r == Replay(s, deltas)
  {
    r := s;
    var i := |deltas|;
    assert deltas[i..] == [];
    while i > 0
      invariant i <= |deltas| && r == Replay(s, deltas[i..])
    {
      i := i - 1;
      assert deltas[i..][1..] == deltas[i + 1..];
      r := ApplyDelta(r, deltas[i].plus, deltas[i].minus);
    }
    assert deltas[0..] == deltas;
  }

  // ---------- writing commits ----------

  function DepthAfter(vs: Versions, parent: Option<Bytes>): nat
    requires parent.Some? ==> parent.value in vs
  {
    match parent case None => 0 case Some(p) => vs[p].depth + 1
  }

  ghost function SnapshotVersion(vs: Versions, parent: Option<Bytes>, second: Option<Bytes>, s: State,
                                 note: Note): Version
    requires parent.Some? ==> parent.value in vs
  {
    Version(parent, Seen(second), s, true, DepthAfter(vs, parent), note)
  }

  ghost function DeltaVersion(vs: Versions, parent: Bytes, plus: State, minus: set<Bytes>, note: Note): Version
    requires parent in vs
  {
    Version(Some(parent), None, Apply(vs[parent].state, plus, minus), false, vs[parent].depth + 1, note)
  }

  predicate NoteFits(message: Bytes, index: nat) {
    TextFits(message) && index < 0x1_0000_0000
  }

  /** Stored addresses are digests and never the reserved one. */
  lemma StoredAddress(k: MemoryKernel<Bytes, Bytes, Ref>, vs: Versions, h: Bytes)
    requires k.Valid() && Sha(k.hash) && k.nil == NIL && k.collisionFree && Consistent(k.hash, k.blobs, vs)
    requires h in vs
    ensures |h| == HASH_LEN && h != NIL && h in k.blobs
  {
    StoredVersion(k.hash, k.blobs, vs, h);
    assert k.hash(k.blobs[h]) == h;
  }

  lemma DescribesInLarger(hash: Digest, before: Store, after: Store, vs: Versions, c: Commit, v: Version)
    requires Describes(hash, before, vs, c, v) && Grown(before, after)
    ensures Describes(hash, after, vs, c, v)
  {
    if v.snapshot { TreeAtGrown(hash, before, after, c.snapshot.value, v.state); }
  }

  /** Encodes and writes a commit and enters it in the ledger. */
  method StoreCommit(k: MemoryKernel<Bytes, Bytes, Ref>, ledger: Ledger, f: CommitFields, ghost v: Version)
    returns (r: Option<Bytes>)
    requires k.Valid() && Sha(k.hash) && CommitTyped(f)
    requires k.collisionFree ==> Consistent(k.hash, k.blobs, ledger.versions) && Enterable(ledger.versions, v)
                                 && Describes(k.hash, k.blobs, ledger.versions, Decoded(f), v)
    modifies k, ledger
    ensures k.Valid() && k.roots == old(k.roots) && Grown(old(k.blobs), k.blobs)
    ensures k.collisionFree ==> old(k.collisionFree)
    ensures r.Some? <==> CommitFits(f)
    ensures r.Some? ==> r.value in k.blobs && ledger.versions == old(ledger.versions)[r.value := v]
    ensures r.Some? && k.collisionFree ==> ParseCommit(k.blobs[r.value]) == Some(Decoded(f))
    ensures r.None? ==> ledger.versions == old(ledger.versions)
    ensures k.collisionFree ==>
              Consistent(k.hash, k.blobs, ledger.versions) && Grown(old(ledger.versions), ledger.versions)
  {
    var data := EncodeCommit(f);
    if data.None? { return None; }
    ghost var vs, before := ledger.versions, k.blobs;
    var h := k.Write(data.value);
    if k.collisionFree {
      CommitRoundTrip(f);
      ConsistentGrown(k.hash, before, k.blobs, vs);
      DescribesInLarger(k.hash, before, k.blobs, vs, Decoded(f), v);
      Enter(k.hash, k.blobs, vs, h, v);
    }
    ledger.versions := vs[h := v];
    return Some(h);
  }

  /** Builds the tree of a state. */
  method BuildState(k: MemoryKernel<Bytes, Bytes, Ref>, s: State) returns (r: Option<Bytes>)
    requires k.Valid() && Sha(k.hash) && Storable(s)
    modifies k
    ensures k.Valid() && k.roots == old(k.roots) && Grown(old(k.blobs), k.blobs)
    ensures k.collisionFree ==> old(k.collisionFree)
    ensures r.Some? <==> forall key :: key in s ==> TextFits(key)
    ensures r.Some? ==> |r.value| == HASH_LEN
    ensures r.Some? && k.collisionFree ==> TreeAt(k.hash, k.blobs, r.value, s) && r.value != k.nil
  {
    KeysFitAll(s);
    r := Build(k, s);
  }

  /** Writes a snapshot commit for a state whose tree is stored under `root`. */
  method StoreSnapshot(k: MemoryKernel<Bytes, Bytes, Ref>, ledger: Ledger, parent: Option<Bytes>, second: Option<Bytes>,
                       root: Bytes, ghost s: State, note: Note)
    returns (r: Option<Bytes>)
    requires k.Valid() && Sha(k.hash) && k.nil == NIL
    requires IsHash(parent) && (parent.Some? ==> parent.value != NIL && parent.value in ledger.versions)
    requires IsHash(second) && Storable(s) && |note.timestamp| == 8 && |root| == HASH_LEN
    requires k.collisionFree ==>
               Consistent(k.hash, k.blobs, ledger.versions) && TreeAt(k.hash, k.blobs, root, s) && root != NIL
    modifies k, ledger
    ensures k.Valid() && k.roots == old(k.roots) && Grown(old(k.blobs), k.blobs)
    ensures k.collisionFree ==> old(k.collisionFree)
    ensures r.Some? <==> NoteFits(note.message, note.index)
    ensures r.None? ==> ledger.versions == old(ledger.versions)
    ensures r.Some? ==>
              && r.value in k.blobs
              && ledger.versions == old(ledger.versions)[
                   r.value := SnapshotVersion(old(ledger.versions), parent, second, s, note)]
    ensures k.collisionFree ==>
              Consistent(k.hash, k.blobs, ledger.versions) && Grown(old(ledger.versions), ledger.versions)
  {
    var f := CommitFields(parent, Some(root), [], [], second, note.message, note.timestamp, note.index);
    r := StoreCommit(k, ledger, f, SnapshotVersion(ledger.versions, parent, second, s, note));
  }

  /** Builds the tree of `s` and writes a snapshot commit for it.  Fails, changing no
      reference and no version, exactly when a field does not fit the layout. */
  method WriteSnapshot(k: MemoryKernel<Bytes, Bytes, Ref>, ledger: Ledger, parent: Option<Bytes>, second: Option<Bytes>,
                       s: State, note: Note)
    returns (r: Option<Bytes>)
    requires k.Valid() && Sha(k.hash) && k.nil == NIL && k.collisionFree
    requires Consistent(k.hash, k.blobs, ledger.versions)
    requires parent.Some? ==> parent.value in ledger.versions
    requires IsHash(second) && Storable(s) && |note.timestamp| == 8
    modifies k, ledger
    ensures k.Valid() && k.roots == old(k.roots) && Grown(old(k.blobs), k.blobs)
    ensures r.Some? <==> (forall key :: key in s ==> TextFits(key)) && NoteFits(note.message, note.index)
    ensures r.Some? ==> r.value in k.blobs
    ensures r.None? ==> ledger.versions == old(ledger.versions)
    ensures r.Some? ==>
              ledger.versions == old(ledger.versions)[
                r.value := SnapshotVersion(old(ledger.versions), parent, second, s, note)]
    ensures k.collisionFree ==>
              Consistent(k.hash, k.blobs, ledger.versions) && Grown(old(ledger.versions), ledger.versions)
  {
    if parent.Some? { StoredAddress(k, ledger.versions, parent.value); }
    ghost var vs, before := ledger.versions, k.blobs;
    var root := BuildState(k, s);
    if k.collisionFree { ConsistentGrown(k.hash, before, k.blobs, vs); }
    if root.None? { return None; }
    r := StoreSnapshot(k, ledger, parent, second, root.value, s, note);
  }

  lemma DeltaDecoded(f: CommitFields)
    requires f.plus != [] || f.minus != []
    ensures Decoded(f).HasDelta()
  {
    if f.plus != [] { assert f.plus[|f.plus| - 1].key in ToMap(f.plus); }
  }

  /** Writes a delta commit on top of `parent`. */
  method WriteDelta(k: MemoryKernel<Bytes, Bytes, Ref>, ledger: Ledger, parent: Bytes, plus: State, minus: set<Bytes>,
                    note: Note)
    returns (r: Option<Bytes>)
    requires k.Valid() && Sha(k.hash) && k.nil == NIL && k.collisionFree
    requires Consistent(k.hash, k.blobs, ledger.versions) && parent in ledger.versions
    requires Storable(ledger.versions[parent].state)
    requires Storable(plus) && plus.Keys !! minus && (plus != map[] || minus != {}) && |note.timestamp| == 8
    modifies k, ledger
    ensures k.Valid() && k.roots == old(k.roots) && Grown(old(k.blobs), k.blobs)
    ensures r.Some? <==> DeltaFits(plus, minus) && NoteFits(note.message, note.index)
    ensures r.Some? ==> r.value in k.blobs
    ensures r.None? ==> ledger.versions == old(ledger.versions)
    ensures r.Some? ==>
              ledger.versions == old(ledger.versions)[
                r.value := DeltaVersion(old(ledger.versions), parent, plus, minus, note)]
    ensures k.collisionFree ==>
              Consistent(k.hash, k.blobs, ledger.versions) && Grown(old(ledger.versions), ledger.versions)
  {
    StoredAddress(k, ledger.versions, parent);
    var added := Items(plus);
    var removed := Listing(minus);
    var f := CommitFields(Some(parent), None, added, removed, None, note.message, note.timestamp, note.index);
    DeltaFieldsFit(f, plus, minus);
    DeltaDecoded(f);
    r := StoreCommit(k, ledger, f, DeltaVersion(ledger.versions, parent, plus, minus, note));
  }

  /** The counts and keys of a delta fit their fields. */
  predicate DeltaFits(plus: State, minus: set<Bytes>) {
    && |plus| < 0x1_0000_0000 && |minus| < 0x1_0000_0000
    && (forall key :: key in plus ==> TextFits(key)) && (forall key :: key in minus ==> TextFits(key))
  }

  lemma DeltaFieldsFit(f: CommitFields, plus: State, minus: set<Bytes>)
    requires ToMap(f.plus) == plus && |f.plus| == |plus|
    requires forall i :: 0 <= i < |f.plus| ==> f.plus[i].key in plus && f.plus[i].hash == plus[f.plus[i].key]
    requires Elements(f.minus) == minus && |f.minus| == |minus|
    ensures CommitFits(f) <==> DeltaFits(plus, minus) && NoteFits(f.message, f.index)
  {
    forall key | key in plus && EntriesFit(f.plus) ensures TextFits(key) {
      var i := ToMapKey(f.plus, key);
    }
    forall key | key in minus && KeysFit(f.minus) ensures TextFits(key) {
      assert key in f.minus;
    }
    forall i | 0 <= i < |f.minus| ensures f.minus[i] in minus {
      assert f.minus[i] in Elements(f.minus);
    }
  }
}
