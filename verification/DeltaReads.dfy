/** How the delta log reads: lookups, full states, walks and skip-pointer navigation. */
module DeltaReads {
  import opened Basics
  import opened JsonDocs
  import opened DeltaHistory

  ghost predicate HexDigest(hash: Doc -> Hash) {
    forall d :: Hex64(hash(d))
  }

  /** A store without collisions whose commits are sound. */
  ghost predicate SoundDocs(k: DocKernel)
    reads k
  {
    k.Valid() && HexDigest(k.hash) && k.nil == "" && k.collisionFree && Sound(k.blobs)
  }

  ghost function StateAtHead(docs: Docs, head: Option<Hash>): Table
    requires Chained(docs) && (head.Some? ==> IsCommit(docs, head.value))
  {
    if head.None? then map[] else Meaning(docs, head.value)
  }

  /** Reads and decodes a commit. */
  method LoadDoc(k: DocKernel, h: Hash) returns (c: Doc)
    requires h in k.blobs
    ensures c == k.blobs[h]
  {
    var data := k.ReadBlob(h);
    return data.value;
  }

  /** The last value that a dictionary's text gives a name. */
  method ValueOf(ps: Pairs, key: string) returns (r: Option<Hash>)
    ensures r == TableGet(ToTable(ps), key)
  {
    r := None;
    for i := 0 to |ps|
      invariant r == TableGet(ToTable(ps[..i]), key)
    {
      assert ps[..i + 1][..i] == ps[..i];
      if ps[i].0 == key { r := Some(ps[i].1); }
    }
    assert ps[..|ps|] == ps;
  }

  /** `lookup`: newest delta first, until a snapshot answers.  `loaded` counts the commits
      read and `snapshots` the snapshots; the safety valve never fires, as at most 64 commits
      and one snapshot are. */
  method LookupFrom(k: DocKernel, head: Option<Hash>, key: string)
    returns (r: Option<Hash>, loaded: nat, snapshots: nat)
    requires SoundDocs(k) && (head.Some? ==> IsCommit(k.blobs, head.value))
    ensures r == TableGet(StateAtHead(k.blobs, head), key)
    ensures loaded <= INTERVAL && snapshots <= 1
  {
    loaded, snapshots := 0, 0;
    if head.None? { return None, 0, 0; }
    ghost var top := k.blobs[head.value].index;
    var current := head;
    var steps := 0;
    while current.Some?
      invariant current.Some? ==>
          && IsCommit(k.blobs, current.value) && k.blobs[current.value].index + steps == top
          && k.blobs[current.value].index >= top / INTERVAL * INTERVAL
          && TableGet(Meaning(k.blobs, current.value), key) == TableGet(Meaning(k.blobs, head.value), key)
      invariant current.None? ==> TableGet(Meaning(k.blobs, head.value), key) == None
      invariant loaded == steps <= INTERVAL && snapshots == 0
      decreases if current.None? then 0 else k.blobs[current.value].index + 1
    {
      FaithfulAt(k.blobs, current.value);
      var c := LoadDoc(k, current.value);
      loaded := loaded + 1;
      var added := ValueOf(c.plus, key);
      if added.Some? { return added, loaded, snapshots; }
      if key in c.minus {
        assert key in Names(c.minus);
        return None, loaded, snapshots;
      }
      if c.snapshot.Some? {
        var s := LoadDoc(k, c.snapshot.value);
        snapshots := snapshots + 1;
        r := ValueOf(s.entries, key);
        return;
      }
      current := c.parent;
      steps := steps + 1;
      if steps > INTERVAL + 1 {
        return None, loaded, snapshots;
      }
    }
    return None, loaded, snapshots;
  }

  /** A stretch of the first-parent line with no snapshot before its last commit. */
  ghost predicate Stretch(docs: Docs, hs: seq<Hash>) {
    && (forall i :: 0 <= i < |hs| ==> IsCommit(docs, hs[i]))
    && (forall i :: 0 <= i < |hs| - 1 ==> docs[hs[i]].snapshot.None? && docs[hs[i]].parent == Some(hs[i + 1]))
  }

  /** The documents at the given addresses. */
  ghost predicate Loaded(docs: Docs, hs: seq<Hash>, commits: seq<Doc>)
  {
    |commits| == |hs| && forall i :: 0 <= i < |hs| ==> hs[i] in docs && commits[i] == docs[hs[i]]
  }

  /** The commits from `h` down to a snapshot or to the root, newest first. */
  method Collect(k: DocKernel, h: Hash) returns (commits: seq<Doc>, ghost hs: seq<Hash>)
    requires SoundDocs(k) && IsCommit(k.blobs, h)
    ensures |hs| > 0 && hs[0] == h && Stretch(k.blobs, hs) && Loaded(k.blobs, hs, commits)
    ensures var c := k.blobs[hs[|hs| - 1]]; c.snapshot.Some? || c.parent.None?
  {
    commits, hs := [], [];
    var current := Some(h);
    while current.Some?
      invariant current.Some? ==> IsCommit(k.blobs, current.value)
      invariant Stretch(k.blobs, hs) && Loaded(k.blobs, hs, commits)
      invariant if hs == [] then current == Some(h) else
          hs[0] == h && k.blobs[hs[|hs| - 1]].snapshot.None? && k.blobs[hs[|hs| - 1]].parent == current
      decreases if current.None? then 0 else k.blobs[current.value].index + 1
    {
      LinkedAt(k.blobs, current.value);
      var c := LoadDoc(k, current.value);
      commits, hs := commits + [c], hs + [current.value];
      if c.snapshot.Some? { break; }
      current := c.parent;
    }
  }

  /** Key by key, as the program updates its dictionary. */
  method ApplyPairs(t: Table, plus: Pairs, minus: seq<string>) returns (r: Table)
    ensures r == Applied(t, ToTable(plus), Names(minus))
  {
    r := t;
    for i := 0 to |plus|
      invariant r == t + ToTable(plus[..i])
    {
      assert plus[..i + 1][..i] == plus[..i];
      r := r[plus[i].0 := plus[i].1];
    }
    assert plus[..|plus|] == plus;
    for i := 0 to |minus|
      invariant r == (t + ToTable(plus)) - Names(minus[..i])
    {
      assert Names(minus[..i + 1]) == Names(minus[..i]) + {minus[i]};
      r := r - {minus[i]};
    }
    assert minus[..|minus|] == minus;
  }

  /** Starts from the snapshot of the last collected commit, or from nothing, and applies
      that commit's own delta. */
  method OldestState(k: DocKernel, c: Doc, ghost h: Hash) returns (state: Table)
    requires SoundDocs(k) && IsCommit(k.blobs, h) && c == k.blobs[h]
    requires c.snapshot.Some? || c.parent.None?
    ensures state == Meaning(k.blobs, h)
  {
    FaithfulAt(k.blobs, h);
    state := map[];
    if c.snapshot.Some? {
      var s := LoadDoc(k, c.snapshot.value);
      state := ApplyPairs(map[], s.entries, []);
      assert state == Entries(k.blobs, c.snapshot.value);
    }
    state := ApplyPairs(state, c.plus, c.minus);
  }

  /** `_read_state_from_commit`, and the body of `read_all`: from the snapshot, or from
      nothing, all collected deltas are applied, oldest first, the snapshot's own included. */
  method ReadStateFrom(k: DocKernel, head: Option<Hash>) returns (state: Table)
    requires SoundDocs(k) && (head.Some? ==> IsCommit(k.blobs, head.value))
    ensures state == StateAtHead(k.blobs, head)
  {
    if head.None? { return map[]; }
    var commits;
    ghost var hs;
    commits, hs := Collect(k, head.value);
    var i := |commits| - 1;
    state := OldestState(k, commits[i], hs[i]);
    while i > 0
      invariant 0 <= i < |commits| && state == Meaning(k.blobs, hs[i])
    {
      i := i - 1;
      LinkedAt(k.blobs, hs[i]);
      state := ApplyPairs(state, commits[i].plus, commits[i].minus);
    }
  }

  /** `_walk_back` */
  method WalkBack(k: DocKernel, start: Hash, steps: nat) returns (r: Option<Hash>)
    requires SoundDocs(k) && IsCommit(k.blobs, start)
    ensures r == AtIndex(k.blobs, start, k.blobs[start].index - steps)
  {
    ghost var top := k.blobs[start].index;
    r := Some(start);
    for i := 0 to steps
      invariant r == AtIndex(k.blobs, start, top - i)
    {
      if r.None? { return None; }
      LinkedAt(k.blobs, r.value);
      AtIndexVia(k.blobs, start, top - i, top - i - 1);
      var c := LoadDoc(k, r.value);
      r := c.parent;
    }
  }

  /** The log gives twelve digits of an address. */
  datatype LogLine = LogLine(commit: string, message: string, timestamp: string, index: nat)

  function Twelve(h: Hash): (digits: string)
    ensures digits <= h && |digits| == if |h| < 12 then |h| else 12
  {
    if |h| <= 12 then h else h[..12]
  }

  /** `history`: the first-parent line, newest first. */
  method LogFrom(k: DocKernel, head: Option<Hash>, limit: int) returns (log: seq<LogLine>)
    requires SoundDocs(k) && (head.Some? ==> IsCommit(k.blobs, head.value))
    ensures head.None? ==> log == []
    ensures head.Some? ==>
              var top := k.blobs[head.value].index;
              && |log| == (if limit < 0 then 0 else if limit <= top then limit else top + 1)
              && forall i :: 0 <= i < |log| ==>
                   var h := AtIndex(k.blobs, head.value, top - i).value;
                   log[i] == LogLine(Twelve(h), k.blobs[h].message, k.blobs[h].timestamp, top - i)
  {
    log := [];
    if head.None? { return; }
    ghost var top := k.blobs[head.value].index;
    var current := head;
    while current.Some? && |log| < limit
      invariant limit <= 0 ==> log == []
      invariant limit > 0 ==> |log| <= limit
      invariant |log| <= top + 1 && current == AtIndex(k.blobs, head.value, top - |log|)
      invariant forall i :: 0 <= i < |log| ==>
                   var h := AtIndex(k.blobs, head.value, top - i).value;
                   log[i] == LogLine(Twelve(h), k.blobs[h].message, k.blobs[h].timestamp, top - i)
    {
      LinkedAt(k.blobs, current.value);
      AtIndexVia(k.blobs, head.value, top - |log|, top - |log| - 1);
      var c := LoadDoc(k, current.value);
      log := log + [LogLine(Twelve(current.value), c.message, c.timestamp, c.index)];
      current := c.parent;
    }
  }

  // ---------- skip pointers ----------

  /** The targets that skip-pointer navigation from a HEAD at `top` fails to find: positive
      multiples of 64, an odd number of intervals below. */
  predicate Overshot(top: nat, t: int) {
    0 < t <= top && t % INTERVAL == 0 && (top / INTERVAL - t / INTERVAL) % 2 == 1
  }

  lemma OvershotParent(i: nat, t: int)
    requires 0 < i && t < i && (i % INTERVAL != 0 || i <= INTERVAL || i - INTERVAL < t)
    ensures Overshot(i - 1, t) == Overshot(i, t)
  {
    if i % INTERVAL != 0 {
      assert (i - 1) / INTERVAL == i / INTERVAL;
    } else if 0 < t && t % INTERVAL == 0 {
      assert t / INTERVAL < i / INTERVAL;
    }
  }

  /** Where a skip pointer lands: 65 below.  For a target below that nothing is lost; a target
      exactly one interval below is overshot. */
  lemma SkipLands(docs: Docs, h: Hash, t: int)
    requires Sound(docs) && IsCommit(docs, h) && docs[h].skip.Some? && t <= docs[h].index - INTERVAL
    ensures var i, s := docs[h].index, docs[h].skip.value;
            && IsCommit(docs, s) && docs[s].index == i - INTERVAL - 1
            && (t == i - INTERVAL > 0 ==> Overshot(i, t))
            && (t <= docs[s].index ==>
                  Overshot(docs[s].index, t) == Overshot(i, t) && AtIndex(docs, s, t) == AtIndex(docs, h, t))
  {
    FaithfulAt(docs, h);
    var i := docs[h].index;
    assert (i - INTERVAL - 1) / INTERVAL == i / INTERVAL - 2;
    if t <= i - INTERVAL - 1 { AtIndexVia(docs, h, i - INTERVAL - 1, t); }
  }

  // ---------- how many commits skip-pointer navigation reads ----------

  /** The index of the last commit read on the way from `top` to `t`: the target, the commit
      just below an overshot one, the root, or `top` itself if the target is above it. */
  function LastRead(top: nat, t: int): nat {
    if t > top then top else if Overshot(top, t) then t - 1 else if t < 0 then 0 else t
  }

  /** How often 64 commits are read: once for every two intervals, rounded up. */
  function Rounds(top: nat, t: int): int {
    (top / INTERVAL - LastRead(top, t) / INTERVAL + 1) / 2
  }

  /** The number of commits read. */
  function Reads(top: nat, t: int): int {
    INTERVAL * Rounds(top, t) + top % INTERVAL - LastRead(top, t) % INTERVAL + 1
  }

  lemma ReadsParent(i: nat, t: int)
    requires 0 < i && t < i && (i % INTERVAL != 0 || i <= INTERVAL || i - INTERVAL < t)
    ensures Reads(i, t) == Reads(i - 1, t) + 1
  {
    OvershotParent(i, t);
    var last := LastRead(i, t);
    if i % INTERVAL != 0 {
      assert (i - 1) / INTERVAL == i / INTERVAL;
    } else {
      assert (i - 1) / INTERVAL == i / INTERVAL - 1 && (i - 1) % INTERVAL == INTERVAL - 1;
      assert last / INTERVAL == i / INTERVAL - 1;
    }
  }

  lemma ReadsSkip(i: nat, t: int)
    requires i > INTERVAL && i % INTERVAL == 0 && t <= i - INTERVAL
    ensures Reads(i, t) == Reads(i - INTERVAL - 1, t) + 1
  {
    var m := i / INTERVAL;
    assert i == INTERVAL * m && (i - INTERVAL - 1) / INTERVAL == m - 2;
    assert (i - INTERVAL - 1) % INTERVAL == INTERVAL - 1;
    LastReadSkip(m, t);
  }

  lemma LastReadSkip(m: nat, t: int)
    requires m > 1 && t <= INTERVAL * (m - 1)
    ensures LastRead(INTERVAL * m, t) == LastRead(INTERVAL * (m - 2) + INTERVAL - 1, t)
  {
    assert (INTERVAL * m) / INTERVAL == m;
    assert (INTERVAL * (m - 2) + INTERVAL - 1) / INTERVAL == m - 2;
    if t == INTERVAL * (m - 1) { assert t / INTERVAL == m - 1 && t % INTERVAL == 0; }
  }

  /** About one commit in two is read, however long the log: skip pointers save half. */
  lemma ReadsHalf(top: nat, t: nat)
    requires t <= top
    ensures top - t - 62 <= 2 * Reads(top, t) <= top - t + 129
  {
    var last := LastRead(top, t);
    assert top == INTERVAL * (top / INTERVAL) + top % INTERVAL;
    assert last == INTERVAL * (last / INTERVAL) + last % INTERVAL;
    assert t == INTERVAL * (t / INTERVAL) + t % INTERVAL;
  }

  /** When a target at distance d is found, or missed, within the d/64 + 64 commits that the
      program's documentation names: within one interval always, over one round or two when
      HEAD is early enough in its interval, and further away never. */
  lemma ReadsWithin(top: nat, t: nat)
    requires t <= top
    ensures var d, late := top - t, top % INTERVAL - LastRead(top, t) % INTERVAL;
            Reads(top, t) <= d / INTERVAL + INTERVAL <==>
            || Rounds(top, t) == 0
            || (Rounds(top, t) == 1 && late < d / INTERVAL)
            || (Rounds(top, t) == 2 && late + INTERVAL < d / INTERVAL)
    ensures top - t >= 4 * INTERVAL ==> Reads(top, t) > (top - t) / INTERVAL + INTERVAL
  {
    var last := LastRead(top, t);
    assert top == INTERVAL * (top / INTERVAL) + top % INTERVAL;
    assert last == INTERVAL * (last / INTERVAL) + last % INTERVAL;
  }

  /** The state of the navigation from `head` when `h` is the next commit to read and `loaded`
      have been read. */
  ghost predicate OnTheWay(docs: Docs, head: Hash, h: Hash, target: int, loaded: nat)
    requires Chained(docs) && IsCommit(docs, head)
  {
    && IsCommit(docs, h)
    && var i, top := docs[h].index, docs[head].index;
    && loaded + Reads(i, target) == Reads(top, target)
    && (target <= i ==>
          Overshot(i, target) == Overshot(top, target) && AtIndex(docs, h, target) == AtIndex(docs, head, target))
    && (target > i ==> Overshot(top, target) || target > top)
  }

  lemma OnBySkip(docs: Docs, head: Hash, h: Hash, target: int, loaded: nat)
    requires Sound(docs) && IsCommit(docs, head) && OnTheWay(docs, head, h, target, loaded)
    requires docs[h].skip.Some? && docs[h].index - INTERVAL >= target
    ensures OnTheWay(docs, head, docs[h].skip.value, target, loaded + 1)
    ensures docs[docs[h].skip.value].index < docs[h].index
  {
    FaithfulAt(docs, h);
    SkipLands(docs, h, target);
    ReadsSkip(docs[h].index, target);
  }

  lemma OnByParent(docs: Docs, head: Hash, h: Hash, target: int, loaded: nat)
    requires Sound(docs) && IsCommit(docs, head) && OnTheWay(docs, head, h, target, loaded)
    requires docs[h].parent.Some? && target < docs[h].index
    requires docs[h].skip.None? || docs[h].index - INTERVAL < target
    ensures OnTheWay(docs, head, docs[h].parent.value, target, loaded + 1)
    ensures docs[docs[h].parent.value].index < docs[h].index
  {
    FaithfulAt(docs, h);
    OvershotParent(docs[h].index, target);
    ReadsParent(docs[h].index, target);
  }

  /** `history_to_index`: never a commit with another index, and what a plain walk finds
      except for the overshot targets, for which it finds nothing.  `loaded` counts the
      commits read. */
  method ToIndex(k: DocKernel, head: Option<Hash>, target: int) returns (r: Option<Hash>, loaded: nat)
    requires SoundDocs(k) && (head.Some? ==> IsCommit(k.blobs, head.value))
    ensures head.None? ==> r == None && loaded == 0
    ensures head.Some? ==>
              r == if Overshot(k.blobs[head.value].index, target) then None else AtIndex(k.blobs, head.value, target)
    ensures head.Some? ==> loaded == Reads(k.blobs[head.value].index, target)
  {
    loaded := 0;
    if head.None? { return None, 0; }
    var current := head;
    while current.Some?
      invariant current.Some? ==> OnTheWay(k.blobs, head.value, current.value, target, loaded)
      invariant current.None? ==> target < 0 && loaded == Reads(k.blobs[head.value].index, target)
      decreases if current.None? then 0 else k.blobs[current.value].index + 1
    {
      LinkedAt(k.blobs, current.value);
      var c := LoadDoc(k, current.value);
      ghost var before := loaded;
      loaded := loaded + 1;
      if c.index == target { return current, loaded; }
      if c.index < target { break; }
      if c.skip.Some? && c.index - INTERVAL >= target {
        OnBySkip(k.blobs, head.value, current.value, target, before);
        current := c.skip;
      } else {
        if c.parent.Some? { OnByParent(k.blobs, head.value, current.value, target, before); }
        current := c.parent;
      }
    }
    return None, loaded;
  }
}
