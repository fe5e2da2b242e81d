/** `HazardSimulator`: a primary, its lagging replica and delayed deletion, updated in place.
    Random faults other than a spared deletion are left out. */
module HazardSimulator {
  import opened Basics
  import opened Replication

  type Logs = map<string, seq<Update>>

  function LogIn(logs: Logs, name: string): seq<Update> {
    if name in logs then logs[name] else []
  }

  /** The last update of a log that had happened by time `c`. */
  function Latest(log: seq<Update>, c: Time): Option<Update> {
    if CountAt(log, c) == 0 then None else Some(log[CountAt(log, c) - 1])
  }

  function Seen(table: map<string, Update>, name: string): Option<Update> {
    if name in table then Some(table[name]) else None
  }

  function Answer(table: map<string, Update>, name: string): Option<Hash> {
    if name in table then Some(table[name].hash) else None
  }

  /** The replica's table holds for every name the latest update as of time `c`. */
  ghost predicate Synced(table: map<string, Update>, logs: Logs, c: Time) {
    forall n {:trigger Seen(table, n)} :: Seen(table, n) == Latest(LogIn(logs, n), c)
  }

  /** As above, except for the names in `todo`, for which there is an entry only if there is
      an update to replace it. */
  ghost predicate Syncing(table: map<string, Update>, logs: Logs, todo: set<string>, c: Time) {
    forall n {:trigger Seen(table, n)} ::
      if n in todo then Seen(table, n).Some? ==> Latest(LogIn(logs, n), c).Some?
      else Seen(table, n) == Latest(LogIn(logs, n), c)
  }

  predicate LogGrows(logs: Logs, more: Logs, n: string) {
    LogIn(logs, n) <= LogIn(more, n)
  }

  /** Logs only grow. */
  ghost predicate Extended(logs: Logs, more: Logs) {
    forall n :: LogGrows(logs, more, n)
  }

  /** Every name is bound to the blob of its last update. */
  ghost predicate Bound(roots: map<string, Hash>, logs: Logs, clock: Time) {
    && roots.Keys == logs.Keys
    && forall n {:trigger LogIn(logs, n)} :: n in logs ==>
         && logs[n] != [] && Timed(logs[n], clock) && logs[n][0].ts > 0.0 && roots[n] == logs[n][|logs[n]| - 1].hash
  }

  /** Goes through a log as the replica does. */
  method LatestBy(log: seq<Update>, cutoff: Time) returns (u: Option<Update>)
    ensures u == Latest(log, cutoff)
  {
    u := None;
    for i := 0 to |log|
      invariant u == Latest(log[..i], cutoff)
    {
      assert log[..i + 1][..i] == log[..i];
      if log[i].ts <= cutoff { u := Some(log[i]); }
    }
    assert log[..|log|] == log;
  }

  lemma {:induction false} CountExtended(log: seq<Update>, more: seq<Update>, c: Time)
    requires log <= more
    ensures CountAt(log, c) <= CountAt(more, c)
    decreases |more|
  {
    if |log| < |more| && more[|more| - 1].ts > c {
      CountExtended(log, more[..|more| - 1], c);
    } else if |log| == |more| {
      assert log == more;
    }
  }

  /** Whatever the table holds from an earlier sync, there is an update to replace it. */
  lemma SyncStarts(table: map<string, Update>, before: Logs, logs: Logs, last: Time, c: Time)
    requires Synced(table, before, last) && Extended(before, logs) && last <= c
    ensures Syncing(table, logs, logs.Keys, c)
  {
    forall n ensures if n in logs then Seen(table, n).Some? ==> Latest(LogIn(logs, n), c).Some?
                     else Seen(table, n) == Latest(LogIn(logs, n), c)
    {
      assert Seen(table, n) == Latest(LogIn(before, n), last) && LogGrows(before, logs, n);
      CountMonotone(LogIn(before, n), last, c);
      CountExtended(LogIn(before, n), LogIn(logs, n), c);
    }
  }

  lemma SyncOne(table: map<string, Update>, logs: Logs, todo: set<string>, c: Time, n: string, u: Option<Update>)
    requires Syncing(table, logs, todo, c) && n in todo && u == Latest(LogIn(logs, n), c)
    ensures Syncing(if u.Some? then table[n := u.value] else table, logs, todo - {n}, c)
  {
    var next := if u.Some? then table[n := u.value] else table;
    assert Seen(table, n).Some? ==> u.Some?;
    forall m ensures if m in todo - {n} then Seen(next, m).Some? ==> Latest(LogIn(logs, m), c).Some?
                     else Seen(next, m) == Latest(LogIn(logs, m), c)
    {
      assert m != n ==> Seen(next, m) == Seen(table, m);
    }
  }

  lemma LatestExtended(log: seq<Update>, u: Update, c: Time)
    requires c < u.ts
    ensures Latest(log + [u], c) == Latest(log, c)
  {
    LaterUpdates(log, [u], c);
    var n := CountAt(log, c);
    assert n > 0 ==> (log + [u])[n - 1] == log[n - 1];
  }

  /** A new update is not seen as of an earlier time. */
  lemma SyncedExtended(table: map<string, Update>, logs: Logs, name: string, u: Update, c: Time)
    requires Synced(table, logs, c) && c < u.ts
    ensures Synced(table, logs[name := LogIn(logs, name) + [u]], c)
  {
    var more: Logs := logs[name := LogIn(logs, name) + [u]];
    LatestExtended(LogIn(logs, name), u, c);
    forall m ensures Seen(table, m) == Latest(LogIn(more, m), c) {
      assert LogIn(more, m) == if m == name then LogIn(logs, name) + [u] else LogIn(logs, m);
      assert Seen(table, m) == Latest(LogIn(logs, m), c);
    }
  }

  lemma BoundExtended(roots: map<string, Hash>, logs: Logs, clock: Time, name: string, u: Update)
    requires Bound(roots, logs, clock) && 0.0 < clock <= u.ts
    ensures Bound(roots[name := u.hash], logs[name := LogIn(logs, name) + [u]], u.ts)
  {
    var more: Logs := logs[name := LogIn(logs, name) + [u]];
    forall n | n in more
      ensures more[n] != [] && Timed(more[n], u.ts) && more[n][0].ts > 0.0
              && roots[name := u.hash][n] == more[n][|more[n]| - 1].hash
    {
      if n in logs { assert Timed(LogIn(logs, n), clock); }
    }
  }

  lemma BoundLater(roots: map<string, Hash>, logs: Logs, clock: Time, now: Time)
    requires Bound(roots, logs, clock) && clock <= now
    ensures Bound(roots, logs, now)
  {
    forall n | n in logs
      ensures logs[n] != [] && Timed(logs[n], now) && logs[n][0].ts > 0.0 && roots[n] == logs[n][|logs[n]| - 1].hash
    {
      assert Timed(LogIn(logs, n), clock);
    }
  }

  lemma ExtendedOnce(before: Logs, logs: Logs, name: string, u: Update)
    requires Extended(before, logs)
    ensures Extended(before, logs[name := LogIn(logs, name) + [u]])
  {
    var more: Logs := logs[name := LogIn(logs, name) + [u]];
    forall n ensures LogGrows(before, more, n) {
      assert LogGrows(before, logs, n);
    }
  }

  /** Before time zero nothing had happened. */
  lemma NothingEarly(roots: map<string, Hash>, logs: Logs, clock: Time, n: string, c: Time)
    requires Bound(roots, logs, clock) && c <= 0.0
    ensures CountAt(LogIn(logs, n), c) == 0
  {
    if n in logs { assert Timed(LogIn(logs, n), clock); }
  }

  /** The replica's table, which holds the logs of the last sync: with a positive lag no
      later update counts yet. */
  ghost predicate Replicated(table: map<string, Update>, before: Logs, logs: Logs, last: Time, lag: Time) {
    && Synced(table, before, last) && Extended(before, logs)
    && (last == 0.0 ==> before == map[])
    && (lag > 0.0 ==> Synced(table, logs, last))
  }

  /** Until the clock passes the lag the table is empty, as it should be. */
  lemma EarlyRead(table: map<string, Update>, before: Logs, logs: Logs, roots: map<string, Hash>, clock: Time,
                  c: Time, lag: Time)
    requires Bound(roots, logs, clock) && Replicated(table, before, logs, 0.0, lag) && c <= 0.0
    ensures Synced(table, before, c) && (lag > 0.0 ==> Synced(table, logs, c))
  {
    forall n ensures Seen(table, n) == Latest(LogIn(before, n), c) == None {
      assert Seen(table, n) == Latest(LogIn(before, n), 0.0);
    }
    forall n ensures Seen(table, n) == Latest(LogIn(logs, n), c) {
      assert Seen(table, n) == Latest(LogIn(before, n), c);
      NothingEarly(roots, logs, clock, n, c);
    }
  }

  lemma ReplicatedExtended(table: map<string, Update>, before: Logs, logs: Logs, last: Time, lag: Time,
                           name: string, u: Update)
    requires Replicated(table, before, logs, last, lag) && (lag > 0.0 ==> last < u.ts)
    ensures Replicated(table, before, logs[name := LogIn(logs, name) + [u]], last, lag)
  {
    ExtendedOnce(before, logs, name, u);
    if lag > 0.0 { SyncedExtended(table, logs, name, u, last); }
  }

  /** A read at a later time, by the logs of the same or a later sync, never answers with an
      older update. */
  lemma ReadsNeverGoBack(before: Logs, logs: Logs, name: string, c: Time, c': Time)
    requires Extended(before, logs) && c <= c'
    ensures CountAt(LogIn(before, name), c) <= CountAt(LogIn(logs, name), c')
  {
    assert LogGrows(before, logs, name);
    CountMonotone(LogIn(before, name), c, c');
    CountExtended(LogIn(before, name), LogIn(logs, name), c');
  }

  lemma ExtendedSelf(logs: Logs)
    ensures Extended(logs, logs)
  {
  }

  class HazardSimulator<D(==)> {
    const hash: D -> Hash
    const lag: Time    // replica_lag_ms
    const grace: Time  // deletion_grace_period_ms
    var blobs: map<Hash, D>
    var roots: map<string, Hash>
    var refLog: map<string, seq<Update>>
    var secondary: map<string, Update>
    var lastSync: Time
    var orphanTs: map<Hash, Time>
    /** The last clock reading: the clock does not go back. */
    ghost var clock: Time
    /** The logs that the last sync went through. */
    ghost var syncedLogs: Logs

    ghost predicate Valid()
      reads this
    {
      && lag >= 0.0 && clock > 0.0 && Bound(roots, refLog, clock)
      && 0.0 <= lastSync && (lastSync == 0.0 || lastSync <= clock - lag)
      && Replicated(secondary, syncedLogs, refLog, lastSync, lag)
    }

    /** The state of the timed machine. */
    ghost function State(): Region
      reads this
    {
      Region(blobs.Keys, refLog, orphanTs, clock)
    }

    constructor (hash: D -> Hash, lag: Time, grace: Time, now: Time)
      requires lag >= 0.0 && now > 0.0
      ensures Valid() && this.hash == hash && this.lag == lag && this.grace == grace
      ensures Fresh(State()) && clock == now && lastSync == 0.0 && syncedLogs == map[]
    {
      this.hash, this.lag, this.grace := hash, lag, grace;
      blobs, roots, refLog, secondary, lastSync, orphanTs := map[], map[], map[], map[], 0.0, map[];
      clock, syncedLogs := now, map[];
    }

    method Write(data: D, now: Time) returns (h: Hash)
      requires Valid() && clock <= now
      modifies this`blobs, this`clock
      ensures Valid() && h == hash(data)
      ensures blobs == if h in old(blobs) then old(blobs) else old(blobs)[h := data]
      ensures State() == Next(old(State()), Event(now, Action.Write(h)), grace)
    {
      BoundLater(roots, refLog, clock, now);
      h := hash(data);
      if h !in blobs { blobs := blobs[h := data]; }
      clock := now;
    }

    /** Binds a name on the primary and logs the update; fails when the blob is missing. */
    method Reference(name: string, h: Hash, now: Time) returns (ok: bool)
      requires Valid() && clock <= now
      modifies this`roots, this`refLog, this`clock
      ensures Valid() && (ok <==> h in blobs)
      ensures ok ==> State() == Next(old(State()), Event(now, Action.Reference(name, h)), grace)
      ensures ok ==> roots == old(roots)[name := h]
                     && refLog == old(refLog)[name := LogIn(old(refLog), name) + [Update(now, h)]]
      ensures !ok ==> State() == old(State()) && roots == old(roots)
    {
      if h !in blobs { return false; }
      BoundExtended(roots, refLog, clock, name, Update(now, h));
      ReplicatedExtended(secondary, syncedLogs, refLog, lastSync, lag, name, Update(now, h));
      roots := roots[name := h];
      refLog := refLog[name := LogIn(refLog, name) + [Update(now, h)]];
      clock := now;
      return true;
    }

    method Resolve(name: string) returns (r: Option<Hash>)
      requires Valid()
      ensures r == Current(State(), name)
    {
      assert name in roots ==> Timed(LogIn(refLog, name), clock);
      if name !in roots { return None; }
      return Some(roots[name]);
    }

    /** Brings the replica's table up to `lag` ago, whatever the last sync left, unless that
        was at least as late. */
    method MaybeSync(now: Time)
      requires Valid() && clock <= now
      modifies this`secondary, this`lastSync, this`syncedLogs, this`clock
      ensures Valid() && clock == now
      ensures now - lag <= old(lastSync) ==>
                secondary == old(secondary) && lastSync == old(lastSync) && syncedLogs == old(syncedLogs)
      ensures now - lag > old(lastSync) ==>
                lastSync == now - lag && syncedLogs == refLog && Synced(secondary, refLog, lastSync)
      ensures Extended(old(syncedLogs), syncedLogs)
    {
      ExtendedSelf(syncedLogs);
      Tick(now);
      var cutoff := now - lag;
      if cutoff > lastSync { SyncUpTo(cutoff); }
    }

    /** Time passes. */
    ghost method Tick(now: Time)
      requires Valid() && clock <= now
      modifies this`clock
      ensures Valid() && clock == now
    {
      BoundLater(roots, refLog, clock, now);
      clock := now;
    }

    /** When the last sync is not behind the lag, the table holds what a name was then by the
        logs of that sync; with a positive lag those of now say the same. */
    lemma Reads(name: string)
      requires Valid() && clock - lag <= lastSync
      ensures Answer(secondary, name) == ValueAt(LogIn(syncedLogs, name), clock - lag)
      ensures lag > 0.0 ==> Answer(secondary, name) == ValueAt(LogIn(refLog, name), clock - lag)
    {
      if clock - lag < lastSync {
        EarlyRead(secondary, syncedLogs, refLog, roots, clock, clock - lag, lag);
      }
      assert Seen(secondary, name) == Latest(LogIn(syncedLogs, name), clock - lag);
    }

    /** Goes through all logs, whatever the last sync left. */
    method SyncUpTo(cutoff: Time)
      requires Valid() && lastSync < cutoff <= clock - lag
      modifies this`secondary, this`lastSync, this`syncedLogs
      ensures Valid() && lastSync == cutoff && syncedLogs == refLog && Synced(secondary, refLog, cutoff)
    {
      var names := refLog.Keys;
      SyncStarts(secondary, syncedLogs, refLog, lastSync, cutoff);
      while names != {}
        invariant names <= refLog.Keys
        invariant Syncing(secondary, refLog, names, cutoff)
      {
        var n :| n in names;
        var u := LatestBy(refLog[n], cutoff);
        SyncOne(secondary, refLog, names, cutoff, n, u);
        if u.Some? { secondary := secondary[n := u.value]; }
        names := names - {n};
      }
      lastSync, syncedLogs := cutoff, refLog;
    }

    /** What the replica answers: the value that the name had `lag` ago by the logs of the
        last sync, which are those of now when the reading has passed it.  With a positive
        lag that is what the primary had.  With any lag, the logs of
        the last sync only grow. */
    method ResolveSecondary(name: string, now: Time) returns (r: Option<Hash>)
      requires Valid() && clock <= now
      modifies this`secondary, this`lastSync, this`syncedLogs, this`clock
      ensures Valid()
      ensures State() == Next(old(State()), Event(now, ReadSecondary(name)), grace)
      ensures now - lag <= old(lastSync) ==>
                secondary == old(secondary) && lastSync == old(lastSync) && syncedLogs == old(syncedLogs)
      ensures now - lag > old(lastSync) ==> lastSync == now - lag && syncedLogs == refLog
      ensures r == Answer(secondary, name)
      ensures r == ValueAt(LogIn(syncedLogs, name), now - lag)
      ensures lag > 0.0 ==> r == ValueAt(LogOf(State(), name), now - lag)
      ensures Extended(old(syncedLogs), syncedLogs)
    {
      MaybeSync(now);
      Reads(name);
      r := if name in secondary then Some(secondary[name].hash) else None;
    }

    method MarkOrphaned(h: Hash, now: Time)
      requires Valid() && clock <= now
      modifies this`orphanTs, this`clock
      ensures Valid() && State() == Next(old(State()), Event(now, Mark(h)), grace)
      ensures orphanTs == old(orphanTs)[h := now]
    {
      BoundLater(roots, refLog, clock, now);
      orphanTs := orphanTs[h := now];
      clock := now;
    }

    /** Deletes the marked blobs whose grace period is over, but for those spared. */
    method GcCollect(now: Time, spared: set<Hash>) returns (deleted: nat)
      requires Valid() && clock <= now
      modifies this`blobs, this`orphanTs, this`clock
      ensures Valid() && State() == Next(old(State()), Event(now, Collect(spared)), grace)
      ensures blobs == old(blobs) - Doomed(old(State()), now, grace, spared) && deleted == |old(blobs)| - |blobs|
      ensures forall h :: h in blobs <==>
                h in old(blobs) && (h in old(orphanTs) ==> now - old(orphanTs)[h] < grace || h in spared)
    {
      BoundLater(roots, refLog, clock, now);
      assert Doomed(State(), now, grace, spared) == Expired(orphanTs, {}, now, grace, spared);
      blobs, orphanTs, deleted := Sweep(blobs, orphanTs, now, grace, spared);
      clock := now;
    }
  }

  /** One pass over the marked blobs. */
  method Sweep<D>(files: map<Hash, D>, marks: map<Hash, Time>, now: Time, grace: Time, spared: set<Hash>)
    returns (blobs: map<Hash, D>, orphans: map<Hash, Time>, deleted: nat)
    ensures var gone := Expired(marks, {}, now, grace, spared); blobs == files - gone && orphans == marks - gone
    ensures deleted + |blobs| == |files|
  {
    blobs, orphans, deleted := files, marks, 0;
    var todo := marks.Keys;
    ghost var gone: set<Hash> := {};
    MinusNone(files);
    MinusNone(marks);
    while todo != {}
      invariant todo <= marks.Keys && gone == Expired(marks, todo, now, grace, spared)
      invariant blobs == files - gone && orphans == marks - gone
      invariant deleted + |blobs| == |files|
    {
      var h :| h in todo;
      ExpiredOne(marks, todo, h, now, grace, spared);
      var n;
      blobs, orphans, n, gone := Visit(blobs, orphans, h, marks[h], now, grace, spared, files, marks, gone);
      todo, deleted := todo - {h}, deleted + n;
    }
  }

  /** Deletes one marked blob and its mark, if its grace period is over and it is not spared. */
  method Visit<D>(blobs: map<Hash, D>, orphans: map<Hash, Time>, h: Hash, mark: Time,
                  now: Time, grace: Time, spared: set<Hash>,
                  ghost files: map<Hash, D>, ghost marks: map<Hash, Time>, ghost gone: set<Hash>)
    returns (left: map<Hash, D>, others: map<Hash, Time>, n: nat, ghost more: set<Hash>)
    requires blobs == files - gone && orphans == marks - gone
    ensures more == if now - mark >= grace && h !in spared then gone + {h} else gone
    ensures left == files - more && others == marks - more && n + |left| == |blobs|
  {
    if now - mark < grace || h in spared { return blobs, orphans, 0, gone; }
    MinusOne(files, gone, h);
    MinusOne(marks, gone, h);
    left, n := Remove(blobs, h);
    others, more := orphans - {h}, gone + {h};
  }

  lemma MinusNone<V>(m: map<Hash, V>)
    ensures m - {} == m
  {}

  /** Removes a file if it is there. */
  method Remove<D>(files: map<Hash, D>, h: Hash) returns (left: map<Hash, D>, n: nat)
    ensures left == files - {h} && n + |left| == |files|
  {
    if h in files {
      SmallerByOne(files, h);
      return files - {h}, 1;
    }
    assert files - {h} == files;
    return files, 0;
  }

  /** The marked blobs outside `todo` whose grace period is over. */
  function Expired(marks: map<Hash, Time>, todo: set<Hash>, now: Time, grace: Time, spared: set<Hash>): set<Hash> {
    set h | h in marks && h !in todo && now - marks[h] >= grace && h !in spared
  }

  lemma ExpiredOne(marks: map<Hash, Time>, todo: set<Hash>, h: Hash, now: Time, grace: Time, spared: set<Hash>)
    requires h in marks && h in todo
    ensures Expired(marks, todo - {h}, now, grace, spared)
            == var gone := Expired(marks, todo, now, grace, spared);
               if now - marks[h] >= grace && h !in spared then gone + {h} else gone
  {}

  lemma MinusOne<V>(m: map<Hash, V>, gone: set<Hash>, h: Hash)
    ensures m - gone - {h} == m - (gone + {h})
  {}

  /** The blob a log ends with. */
  function Last(log: seq<Update>): Option<Hash> {
    if log == [] then None else Some(log[|log| - 1].hash)
  }

  /** Without lag, and unless the reading passes the last sync, the answer by the logs of
      that sync is the one by the logs of now exactly when the updates since then left the
      name at the same blob. */
  lemma MissedExactly(before: Logs, logs: Logs, roots: map<string, Hash>, clock: Time, name: string)
    requires Bound(roots, logs, clock) && Extended(before, logs)
    ensures ValueAt(LogIn(before, name), clock) == ValueAt(LogIn(logs, name), clock) <==>
              Last(LogIn(before, name)) == Last(LogIn(logs, name))
  {
    assert LogGrows(before, logs, name);
    assert name in logs ==> Timed(LogIn(logs, name), clock);
  }

  /** Without any lag an update made at the reading of the last sync is missed: the primary
      had the value, the replica answers that there is none. */
  method NoLagMisses<D(==)>(hash: D -> Hash, data: D, now: Time) returns (r: Option<Hash>, had: Option<Hash>)
    requires now > 0.0
    ensures r == None && had == Some(hash(data))
  {
    var sim := new HazardSimulator<D>(hash, 0.0, 0.0, now);
    var h := sim.Write(data, now);
    r := sim.ResolveSecondary("x", now);
    assert "x" !in sim.syncedLogs;
    var ok := sim.Reference("x", h, now);
    r := sim.ResolveSecondary("x", now);
    had := ValueAt(LogIn(sim.refLog, "x"), now - 0.0);
  }
}
