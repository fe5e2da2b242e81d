/** A lagged replica against delayed deletion, as a timed state machine: which deletion
    grace periods keep every blob that the replica can still resolve. */
module Replication {
  import opened Basics

  type Time = real

  type Hash = Bytes

  /** One update of a name. */
  datatype Update = Update(ts: Time, hash: Hash)

  // ---------- the value of a name over time ----------

  /** How many updates of a log had happened by time `c`. */
  function CountAt(log: seq<Update>, c: Time): (n: nat)
    ensures n <= |log|
    ensures n > 0 ==> log[n - 1].ts <= c
    ensures forall i :: n <= i < |log| ==> log[i].ts > c
  {
    if log == [] then 0
    else if log[|log| - 1].ts <= c then |log|
    else CountAt(log[..|log| - 1], c)
  }

  /** The value a name had at time `c`. */
  function ValueAt(log: seq<Update>, c: Time): Option<Hash> {
    var n := CountAt(log, c);
    if n == 0 then None else Some(log[n - 1].hash)
  }

  predicate Ordered(log: seq<Update>) {
    forall i, j :: 0 <= i < j < |log| ==> log[i].ts <= log[j].ts
  }

  /** Updates made after time `c` do not change what the value was at `c`. */
  lemma {:induction false} LaterUpdates(log: seq<Update>, more: seq<Update>, c: Time)
    requires forall i :: 0 <= i < |more| ==> more[i].ts > c
    ensures CountAt(log + more, c) == CountAt(log, c) && ValueAt(log + more, c) == ValueAt(log, c)
    decreases |more|
  {
    if more == [] {
      assert log + more == log;
    } else {
      assert (log + more)[..|log + more| - 1] == log + more[..|more| - 1];
      LaterUpdates(log, more[..|more| - 1], c);
    }
  }

  /** Time never takes an update back. */
  lemma CountMonotone(log: seq<Update>, c: Time, c': Time)
    requires c <= c'
    ensures CountAt(log, c) <= CountAt(log, c')
  {}

  // ---------- the machine ----------

  /** The primary's blobs, the updates of every name, the blobs marked as orphaned with the
      time of the mark, and the last clock reading. */
  datatype Region = Region(blobs: set<Hash>, logs: map<string, seq<Update>>, orphans: map<Hash, Time>, clock: Time)

  datatype Action =
    | Write(hash: Hash)
    | Reference(name: string, hash: Hash)
    | Mark(hash: Hash)
    | Collect(spared: set<Hash>)
    | ReadSecondary(name: string)

  datatype Event = Event(at: Time, action: Action)

  function LogOf(r: Region, name: string): seq<Update> {
    if name in r.logs then r.logs[name] else []
  }

  /** What collection at time `now` deletes: marked blobs whose grace period is over, except
      those spared by a simulated race. */
  function Doomed(r: Region, now: Time, grace: Time, spared: set<Hash>): set<Hash> {
    set h | h in r.orphans && now - r.orphans[h] >= grace && h !in spared
  }

  function Next(r: Region, e: Event, grace: Time): Region {
    var s := r.(clock := e.at);
    match e.action
    case Write(h) => s.(blobs := r.blobs + {h})
    case Reference(n, h) => s.(logs := r.logs[n := LogOf(r, n) + [Update(e.at, h)]])
    case Mark(h) => s.(orphans := r.orphans[h := e.at])
    case Collect(spared) =>
      var doomed := Doomed(r, e.at, grace, spared);
      s.(blobs := r.blobs - doomed, orphans := r.orphans - doomed)
    case ReadSecondary(_) => s
  }

  /** The value that names currently have. */
  function Current(r: Region, name: string): Option<Hash> {
    var log := LogOf(r, name);
    if log == [] then None else Some(log[|log| - 1].hash)
  }

  /** The discipline of compaction: the clock does not go back; only stored blobs that are
      not marked are referenced; and a name that still points to a marked blob is pointed
      elsewhere within `d` of the mark. */
  predicate Disciplined(r: Region, e: Event, d: Time) {
    && r.clock <= e.at
    && (e.action.Reference? ==> e.action.hash in r.blobs && e.action.hash !in r.orphans)
    && (forall n :: n in r.logs && Current(r, n).Some? && Current(r, n).value in r.orphans ==>
          e.at <= r.orphans[Current(r, n).value] + d)
  }

  /** The `i`-th event of a run is disciplined and leads to the next state. */
  predicate RunStep(states: seq<Region>, events: seq<Event>, grace: Time, d: Time, i: nat)
    requires i < |events| < |states|
  {
    Disciplined(states[i], events[i], d) && states[i + 1] == Next(states[i], events[i], grace)
  }

  ghost predicate Run(states: seq<Region>, events: seq<Event>, grace: Time, d: Time) {
    && |states| == |events| + 1
    && forall i {:trigger RunStep(states, events, grace, d, i)} :: 0 <= i < |events| ==>
         RunStep(states, events, grace, d, i)
  }

  /** At the start no name is bound and nothing is marked. */
  predicate Fresh(r: Region) {
    r.logs == map[] && r.orphans == map[]
  }

  /** Whatever the replica resolves is still stored. */
  predicate Answered(r: Region, e: Event, lag: Time) {
    e.action.ReadSecondary? ==>
      var v := ValueAt(LogOf(r, e.action.name), e.at - lag);
      v.Some? ==> v.value in r.blobs
  }

  // ---------- safety ----------

  /** The `i`-th update of a log is the value at `c` or at some later time. */
  predicate Visible(log: seq<Update>, i: nat, c: Time) {
    i < |log| && (i + 1 < |log| ==> log[i + 1].ts > c)
  }

  /** The blob of a visible update is stored; if it is marked, the name left it within `d`
      of the mark. */
  predicate Held(r: Region, n: string, i: nat, lag: Time, d: Time) {
    var log := LogOf(r, n);
    Visible(log, i, r.clock - lag) ==>
      && log[i].hash in r.blobs
      && (log[i].hash in r.orphans && i + 1 < |log| ==> log[i + 1].ts <= r.orphans[log[i].hash] + d)
  }

  predicate Timed(log: seq<Update>, clock: Time) {
    Ordered(log) && forall i :: 0 <= i < |log| ==> log[i].ts <= clock
  }

  ghost predicate Guarded(r: Region, lag: Time, d: Time) {
    && (forall n {:trigger LogOf(r, n)} :: Timed(LogOf(r, n), r.clock))
    && (forall n, i: nat {:trigger Held(r, n, i, lag, d)} :: Held(r, n, i, lag, d))
  }

  /** A new update leaves its predecessor within `d` of a mark. */
  lemma HeldReference(r: Region, e: Event, lag: Time, grace: Time, d: Time, n: string, i: nat)
    requires lag > 0.0 && Guarded(r, lag, d) && Disciplined(r, e, d) && e.action.Reference?
    ensures Held(Next(r, e, grace), n, i, lag, d)
  {
    var s, log := Next(r, e, grace), LogOf(r, n);
    assert Held(r, n, i, lag, d);
    if i < |log| && Visible(LogOf(s, n), i, s.clock - lag) {
      assert LogOf(s, n)[i] == log[i];
      assert Visible(log, i, r.clock - lag);
      if i + 1 == |log| && log[i].hash in r.orphans { assert Current(r, n) == Some(log[i].hash); }
    }
  }

  /** What collection deletes is not visible any more. */
  lemma HeldCollect(r: Region, e: Event, lag: Time, grace: Time, d: Time, n: string, i: nat)
    requires lag > 0.0 && d >= 0.0 && grace >= lag + d
    requires Guarded(r, lag, d) && Disciplined(r, e, d) && e.action.Collect?
    ensures Held(Next(r, e, grace), n, i, lag, d)
  {
    var s, log := Next(r, e, grace), LogOf(r, n);
    assert Held(r, n, i, lag, d);
    if Visible(log, i, s.clock - lag) {
      assert Visible(log, i, r.clock - lag);
      if i + 1 == |log| && log[i].hash in r.orphans { assert Current(r, n) == Some(log[i].hash); }
    }
  }

  lemma HeldStep(r: Region, e: Event, lag: Time, grace: Time, d: Time, n: string, i: nat)
    requires lag > 0.0 && d >= 0.0 && grace >= lag + d
    requires Guarded(r, lag, d) && Disciplined(r, e, d)
    ensures Held(Next(r, e, grace), n, i, lag, d)
  {
    match e.action
    case Reference(_, _) => HeldReference(r, e, lag, grace, d, n, i);
    case Collect(_) => HeldCollect(r, e, lag, grace, d, n, i);
    case _ =>
      assert Held(r, n, i, lag, d) && Timed(LogOf(r, n), r.clock);
  }

  lemma TimedStep(r: Region, e: Event, grace: Time, n: string)
    requires r.clock <= e.at && Timed(LogOf(r, n), r.clock)
    ensures Timed(LogOf(Next(r, e, grace), n), e.at)
  {}

  lemma GuardedStep(r: Region, e: Event, lag: Time, grace: Time, d: Time)
    requires lag > 0.0 && d >= 0.0 && grace >= lag + d
    requires Guarded(r, lag, d) && Disciplined(r, e, d)
    ensures Guarded(Next(r, e, grace), lag, d)
  {
    var s := Next(r, e, grace);
    forall n ensures Timed(LogOf(s, n), s.clock) {
      assert Timed(LogOf(r, n), r.clock);
      TimedStep(r, e, grace, n);
    }
    forall n, i: nat ensures Held(s, n, i, lag, d) {
      HeldStep(r, e, lag, grace, d, n, i);
    }
  }

  lemma {:induction false} GuardedAlways(states: seq<Region>, events: seq<Event>, lag: Time, grace: Time, d: Time,
                                         i: nat)
    requires lag > 0.0 && d >= 0.0 && grace >= lag + d
    requires Run(states, events, grace, d) && Fresh(states[0]) && i < |states|
    ensures Guarded(states[i], lag, d)
    decreases i
  {
    if i > 0 {
      GuardedAlways(states, events, lag, grace, d, i - 1);
      assert RunStep(states, events, grace, d, i - 1);
      GuardedStep(states[i - 1], events[i - 1], lag, grace, d);
    }
  }

  /** With a grace period of at least the lag plus `d`, in every run whatever the replica
      resolves is still stored. */
  lemma SafeRuns(states: seq<Region>, events: seq<Event>, lag: Time, grace: Time, d: Time, i: nat)
    requires lag > 0.0 && d >= 0.0 && grace >= lag + d
    requires Run(states, events, grace, d) && Fresh(states[0]) && i < |events|
    ensures Answered(states[i], events[i], lag)
  {
    GuardedAlways(states, events, lag, grace, d, i);
    assert RunStep(states, events, grace, d, i);
    var r, e := states[i], events[i];
    if e.action.ReadSecondary? {
      var log := LogOf(r, e.action.name);
      var n := CountAt(log, e.at - lag);
      if n > 0 {
        assert Visible(log, n - 1, r.clock - lag) by { LastVisible(r, e.action.name, n, e.at, lag, d); }
        assert Held(r, e.action.name, n - 1, lag, d);
      }
    }
  }

  lemma LastVisible(r: Region, name: string, n: nat, at: Time, lag: Time, d: Time)
    requires Guarded(r, lag, d) && r.clock <= at && n == CountAt(LogOf(r, name), at - lag) && n > 0
    ensures Visible(LogOf(r, name), n - 1, r.clock - lag)
  {
    assert Timed(LogOf(r, name), r.clock);
  }

  // ---------- what the replica answers over time ----------

  lemma CountStep(r: Region, e: Event, grace: Time, name: string, c: Time)
    ensures CountAt(LogOf(r, name), c) <= CountAt(LogOf(Next(r, e, grace), name), c)
  {
    var log := LogOf(r, name);
    if e.action.Reference? && e.action.name == name {
      var more := log + [Update(e.at, e.action.hash)];
      assert more[..|log|] == log;
    }
  }

  /** From one state of a run to a later one the clock and the logs only grow. */
  ghost predicate Later(r: Region, s: Region, name: string, c: Time) {
    r.clock <= s.clock && CountAt(LogOf(r, name), c) <= CountAt(LogOf(s, name), c)
  }

  lemma LaterStep(r: Region, e: Event, grace: Time, d: Time, name: string, c: Time)
    requires Disciplined(r, e, d)
    ensures Later(r, Next(r, e, grace), name, c) && Next(r, e, grace).clock == e.at
  {
    CountStep(r, e, grace, name, c);
  }

  lemma RunStepLater(states: seq<Region>, events: seq<Event>, grace: Time, d: Time, name: string, c: Time, i: nat)
    requires Run(states, events, grace, d) && i < |events|
    ensures Later(states[i], states[i + 1], name, c) && states[i + 1].clock == events[i].at
  {
    assert RunStep(states, events, grace, d, i);
    LaterStep(states[i], events[i], grace, d, name, c);
  }

  lemma {:induction false} CountGrows(states: seq<Region>, events: seq<Event>, grace: Time, d: Time, name: string,
                                      c: Time, i: nat, j: nat)
    requires Run(states, events, grace, d) && i <= j < |states|
    ensures Later(states[i], states[j], name, c)
    decreases j - i
  {
    if i < j {
      CountGrows(states, events, grace, d, name, c, i, j - 1);
      RunStepLater(states, events, grace, d, name, c, j - 1);
    }
  }

  /** Of two reads of a name the later one never answers with an older update. */
  lemma NeverGoesBack(states: seq<Region>, events: seq<Event>, lag: Time, grace: Time, d: Time, name: string,
                      i: nat, j: nat)
    requires Run(states, events, grace, d) && i <= j < |events|
    ensures CountAt(LogOf(states[i], name), events[i].at - lag) <= CountAt(LogOf(states[j], name), events[j].at - lag)
  {
    var c := events[i].at - lag;
    if i < j {
      RunStepLater(states, events, grace, d, name, c, i);
      CountGrows(states, events, grace, d, name, c, i + 1, j);
      RunStepLater(states, events, grace, d, name, c, j);
      CountMonotone(LogOf(states[j], name), c, events[j].at - lag);
    }
  }

  /** Once the last update of a name is `lag` old, the replica answers as the primary does. */
  lemma CatchesUp(r: Region, name: string, at: Time, lag: Time)
    requires var log := LogOf(r, name); log != [] ==> log[|log| - 1].ts <= at - lag
    ensures ValueAt(LogOf(r, name), at - lag) == Current(r, name)
  {}

  // ---------- the bound is exact ----------

  /** The run that a shorter grace period loses: the only binding of "p" is marked at once,
      moved away `d` later, and collected before the replica has seen the move. */
  function LosingEvents(lag: Time, grace: Time, d: Time): seq<Event> {
    var late := if grace >= d then grace else d;
    [Event(1.0, Write([1])), Event(1.0, Reference("p", [1])), Event(1.0 + lag, Mark([1])),
     Event(1.0 + lag, Write([2])), Event(1.0 + lag + d, Reference("p", [2])),
     Event(1.0 + lag + late, Collect({})), Event(1.0 + lag + late, ReadSecondary("p"))]
  }

  function LosingStates(lag: Time, grace: Time, d: Time): seq<Region> {
    var late := if grace >= d then grace else d;
    var first, second := Update(1.0, [1]), Update(1.0 + lag + d, [2]);
    [Region({}, map[], map[], 0.0),
     Region({[1]}, map[], map[], 1.0),
     Region({[1]}, map["p" := [first]], map[], 1.0),
     Region({[1]}, map["p" := [first]], map[[1] := 1.0 + lag], 1.0 + lag),
     Region({[1], [2]}, map["p" := [first]], map[[1] := 1.0 + lag], 1.0 + lag),
     Region({[1], [2]}, map["p" := [first, second]], map[[1] := 1.0 + lag], 1.0 + lag + d),
     Region({[2]}, map["p" := [first, second]], map[], 1.0 + lag + late),
     Region({[2]}, map["p" := [first, second]], map[], 1.0 + lag + late)]
  }

  lemma LosingStep(lag: Time, grace: Time, d: Time, i: nat)
    requires lag > 0.0 && d >= 0.0 && 0.0 <= grace < lag + d && i < 7
    ensures var r, e := LosingStates(lag, grace, d)[i], LosingEvents(lag, grace, d)[i];
            Disciplined(r, e, d) && LosingStates(lag, grace, d)[i + 1] == Next(r, e, grace)
  {
    var states, events := LosingStates(lag, grace, d), LosingEvents(lag, grace, d);
    var first, second := Update(1.0, [1]), Update(1.0 + lag + d, [2]);
    if i == 1 {
      BindStep(states[1], states[2], events[1], grace, [], first, [first]);
    } else if i == 4 {
      BindStep(states[4], states[5], events[4], grace, [first], second, [first, second]);
    } else if i == 5 {
      assert Doomed(states[5], events[5].at, grace, {}) == {[1]};
    }
  }

  /** With any shorter grace period there is a disciplined run in which the replica resolves
      a deleted blob. */
  lemma UnsafeRun(lag: Time, grace: Time, d: Time) returns (states: seq<Region>, events: seq<Event>)
    requires lag > 0.0 && d >= 0.0 && 0.0 <= grace < lag + d
    ensures Run(states, events, grace, d) && Fresh(states[0]) && |events| == 7
    ensures !Answered(states[6], events[6], lag)
  {
    states, events := LosingStates(lag, grace, d), LosingEvents(lag, grace, d);
    forall i | 0 <= i < 7 ensures RunStep(states, events, grace, d, i) {
      LosingStep(lag, grace, d, i);
    }
    var log := states[6].logs["p"];
    assert CountAt(log[..1], events[6].at - lag) == 1;
  }

  /** In all disciplined runs, whatever the replica resolves is still stored. */
  ghost predicate AllSafe(lag: Time, grace: Time, d: Time) {
    forall states, events, i: nat ::
      Run(states, events, grace, d) && Fresh(states[0]) && i < |events| ==> Answered(states[i], events[i], lag)
  }

  /** The bound on the grace period is exact. */
  lemma GraceIsExact(lag: Time, grace: Time, d: Time)
    requires lag > 0.0 && d >= 0.0 && grace >= 0.0
    ensures AllSafe(lag, grace, d) <==> grace >= lag + d
  {
    if grace >= lag + d {
      forall states, events, i: nat | Run(states, events, grace, d) && Fresh(states[0]) && i < |events|
        ensures Answered(states[i], events[i], lag)
      {
        SafeRuns(states, events, lag, grace, d, i);
      }
    } else {
      var states, events := UnsafeRun(lag, grace, d);
      assert Run(states, events, grace, d) && !Answered(states[6], events[6], lag);
    }
  }

  /** Whatever collects later, and whatever it spares, the blob that a name points to stays. */
  ghost predicate Served(r: Region, name: string, grace: Time) {
    forall c: Time, spared :: r.clock <= c && Current(r, name).Some? ==>
      Current(r, name).value in Next(r, Event(c, Collect(spared)), grace).blobs
  }

  /** A late collection deletes every marked blob. */
  lemma LateCollect(r: Region, h: Hash, grace: Time) returns (c: Time)
    requires h in r.orphans
    ensures r.clock <= c && h !in Next(r, Event(c, Collect({})), grace).blobs
  {
    c := if r.orphans[h] + grace >= r.clock then r.orphans[h] + grace else r.clock;
    assert h in Doomed(r, c, grace, {});
  }

  /** Pointing any name at a stored blob is safe exactly when that blob is not marked:
      otherwise, however long the grace period, a collection takes away what the primary
      itself serves. */
  lemma RebindExact(r: Region, name: string, h: Hash, at: Time, grace: Time)
    requires h in r.blobs && r.clock <= at
    ensures Served(Next(r, Event(at, Reference(name, h)), grace), name, grace) <==> h !in r.orphans
  {
    var s := Next(r, Event(at, Reference(name, h)), grace);
    assert Current(s, name) == Some(h);
    if h in r.orphans {
      var c := LateCollect(s, h, grace);
      assert !Served(s, name, grace);
    }
  }

  /** Binding "p" once more. */
  lemma BindStep(r: Region, s: Region, e: Event, grace: Time, log: seq<Update>, u: Update, more: seq<Update>)
    requires more == log + [u] && LogOf(r, "p") == log && r.logs.Keys <= {"p"}
             && e == Event(u.ts, Reference("p", u.hash))
    requires s == Region(r.blobs, map["p" := more], r.orphans, u.ts)
    ensures s == Next(r, e, grace)
  {}
}
