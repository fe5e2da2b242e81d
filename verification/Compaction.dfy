/** `ConcurrentCompactionReplication`: packs are compacted and collected on the primary while
    a replica still resolves old ones. */
module Compaction {
  import opened Basics
  import opened Replication
  import opened HazardSimulator

  const PACK := "pack/current"

  /** Only the current pack is bound, to a blob that is not marked. */
  ghost predicate Settled(r: Region) {
    r.logs.Keys <= {PACK} && (Current(r, PACK).Some? ==> Current(r, PACK).value !in r.orphans)
  }

  /** What writing, compacting, collecting and reading keep. */
  ghost predicate Safe(r: Region, lag: Time, d: Time) {
    Guarded(r, lag, d) && Settled(r)
  }

  /** The grace period covers the lag and the time that a compaction takes. */
  predicate Covered(lag: Time, grace: Time, d: Time) {
    lag > 0.0 && d >= 0.0 && grace >= lag + d
  }

  function Wrote(r: Region, h: Hash, now: Time, later: Time, grace: Time): Region {
    Next(Next(r, Event(now, Write(h)), grace), Event(later, Reference(PACK, h)), grace)
  }

  /** Mark the old pack, write and bind the new one, collect. */
  function Compacted(r: Region, h: Hash, t1: Time, t2: Time, t3: Time, spared: set<Hash>, grace: Time): Region {
    var marked := if Current(r, PACK).Some? then Next(r, Event(t1, Mark(Current(r, PACK).value)), grace) else r;
    Next(Wrote(marked, h, t2, t2, grace), Event(t3, Collect(spared)), grace)
  }

  /** Binding a pack that is not marked, within `d` of the mark of the old one. */
  lemma WroteSafe(r: Region, h: Hash, now: Time, later: Time, lag: Time, grace: Time, d: Time)
    requires Covered(lag, grace, d) && Guarded(r, lag, d) && r.logs.Keys <= {PACK}
    requires r.clock <= now <= later && h !in r.orphans
    requires Current(r, PACK).Some? && Current(r, PACK).value in r.orphans ==>
               later <= r.orphans[Current(r, PACK).value] + d
    ensures Safe(Wrote(r, h, now, later, grace), lag, d)
  {
    var e1, e2 := Event(now, Write(h)), Event(later, Reference(PACK, h));
    var r1 := Next(r, e1, grace);
    GuardedStep(r, e1, lag, grace, d);
    assert LogOf(r1, PACK) == LogOf(r, PACK);
    GuardedStep(r1, e2, lag, grace, d);
  }

  lemma CollectSafe(r: Region, now: Time, spared: set<Hash>, lag: Time, grace: Time, d: Time)
    requires Covered(lag, grace, d) && Safe(r, lag, d) && r.clock <= now
    ensures Safe(Next(r, Event(now, Collect(spared)), grace), lag, d)
  {
    GuardedStep(r, Event(now, Collect(spared)), lag, grace, d);
    assert LogOf(Next(r, Event(now, Collect(spared)), grace), PACK) == LogOf(r, PACK);
  }

  /** A compaction that takes at most `d` and does not reinstate a marked pack. */
  lemma CompactSafe(r: Region, h: Hash, t1: Time, t2: Time, t3: Time, spared: set<Hash>,
                    lag: Time, grace: Time, d: Time)
    requires Covered(lag, grace, d) && Safe(r, lag, d) && r.clock <= t1 <= t2 <= t3 && t2 <= t1 + d
    requires h !in r.orphans && Current(r, PACK) != Some(h)
    ensures Safe(Compacted(r, h, t1, t2, t3, spared, grace), lag, d)
  {
    var marked := r;
    if Current(r, PACK).Some? {
      var e := Event(t1, Mark(Current(r, PACK).value));
      GuardedStep(r, e, lag, grace, d);
      marked := Next(r, e, grace);
      assert LogOf(marked, PACK) == LogOf(r, PACK);
    }
    WroteSafe(marked, h, t2, t2, lag, grace, d);
    CollectSafe(Wrote(marked, h, t2, t2, grace), t3, spared, lag, grace, d);
  }

  /** The replica finds the pack that it resolves. */
  predicate Found(r: Region, at: Time, lag: Time) {
    var pack := ValueAt(LogOf(r, PACK), at - lag);
    pack.Some? ==> pack.value in r.blobs
  }

  lemma ReadSafe(r: Region, at: Time, lag: Time, d: Time)
    requires Safe(r, lag, d) && r.clock <= at
    ensures Found(r, at, lag)
  {
    var n := CountAt(LogOf(r, PACK), at - lag);
    if n > 0 {
      LastVisible(r, PACK, n, at, lag, d);
      assert Held(r, PACK, n - 1, lag, d);
    }
  }

  /** As above, after the read, for the pack `h` that it resolves. */
  lemma StillFound(r: Region, s: Region, h: Option<Hash>, at: Time, lag: Time, grace: Time, d: Time)
    requires r.clock <= at && s == Next(r, Event(at, ReadSecondary(PACK)), grace)
    requires lag > 0.0 ==> h == ValueAt(LogOf(s, PACK), at - lag)
    ensures lag > 0.0 && Safe(r, lag, d) && h.Some? ==> h.value in s.blobs
  {
    if Safe(r, lag, d) { ReadSafe(r, at, lag, d); }
    assert LogOf(s, PACK) == LogOf(r, PACK);
  }

  /** When a compaction keeps a region safe. */
  ghost predicate Allowed(r: Region, h: Hash, t1: Time, t2: Time, lag: Time, grace: Time, d: Time) {
    Covered(lag, grace, d) && t2 <= t1 + d && Safe(r, lag, d) && h !in r.orphans && Current(r, PACK) != Some(h)
  }

  lemma AllowedSafe(r: Region, h: Hash, t1: Time, t2: Time, t3: Time, spared: set<Hash>,
                    lag: Time, grace: Time, d: Time)
    requires r.clock <= t1 <= t2 <= t3
    ensures Allowed(r, h, t1, t2, lag, grace, d) ==> Safe(Compacted(r, h, t1, t2, t3, spared, grace), lag, d)
  {
    if Allowed(r, h, t1, t2, lag, grace, d) { CompactSafe(r, h, t1, t2, t3, spared, lag, grace, d); }
  }

  /** Whatever is collected later, every later read of the replica finds the pack. */
  ghost predicate Lasting(r: Region, lag: Time, grace: Time) {
    forall c: Time, at: Time, spared :: r.clock <= c <= at ==>
      Found(Next(r, Event(c, Collect(spared)), grace), at, lag)
  }

  /** The new pack carries a mark: the one it had, or that of the old pack when it is the
      same. */
  predicate Marked(r: Region, h: Hash) {
    h in r.orphans || Current(r, PACK) == Some(h)
  }

  function MarkOf(r: Region, h: Hash, t1: Time): Time
    requires Marked(r, h)
  {
    if Current(r, PACK) == Some(h) then t1 else r.orphans[h]
  }

  /** Compacting to a marked pack: once its grace period is over, it is gone, and the replica
      will resolve it. */
  lemma MarkedIsLost(r: Region, h: Hash, t1: Time, t2: Time, t3: Time, spared: set<Hash>,
                     lag: Time, grace: Time, c: Time, at: Time)
    requires Marked(r, h) && r.clock <= t1 <= t2 <= t3 <= c && MarkOf(r, h, t1) + grace <= c && t2 <= at - lag
    ensures var s := Next(Compacted(r, h, t1, t2, t3, spared, grace), Event(c, Collect({})), grace);
            h !in s.blobs && ValueAt(LogOf(s, PACK), at - lag) == Some(h) && !Found(s, at, lag)
  {
    var s := Compacted(r, h, t1, t2, t3, spared, grace);
    assert h in s.orphans ==> s.orphans[h] == MarkOf(r, h, t1) && h in Doomed(s, c, grace, {});
    var log := LogOf(s, PACK);
    assert log[|log| - 1] == Update(t2, h);
  }

  lemma MarkedDoesNotLast(r: Region, h: Hash, t1: Time, t2: Time, t3: Time, spared: set<Hash>, lag: Time, grace: Time)
    requires Marked(r, h) && lag > 0.0 && r.clock <= t1 <= t2 <= t3
    ensures !Lasting(Compacted(r, h, t1, t2, t3, spared, grace), lag, grace)
  {
    var s := Compacted(r, h, t1, t2, t3, spared, grace);
    var due := MarkOf(r, h, t1) + grace;
    var c := if due >= t3 then due else t3;
    MarkedIsLost(r, h, t1, t2, t3, spared, lag, grace, c, c + lag);
    assert s.clock <= c <= c + lag;
  }

  lemma SafeLasts(s: Region, lag: Time, grace: Time, d: Time)
    requires Covered(lag, grace, d) && Safe(s, lag, d)
    ensures Lasting(s, lag, grace)
  {
    forall c: Time, at: Time, more | s.clock <= c <= at
      ensures Found(Next(s, Event(c, Collect(more)), grace), at, lag)
    {
      CollectSafe(s, c, more, lag, grace, d);
      ReadSafe(Next(s, Event(c, Collect(more)), grace), at, lag, d);
    }
  }

  /** What a compaction that takes at most `d` does to a safe region: the replica keeps
      finding the pack exactly when the new pack is neither marked nor the one it replaces. */
  lemma CompactExact(r: Region, h: Hash, t1: Time, t2: Time, t3: Time, spared: set<Hash>,
                     lag: Time, grace: Time, d: Time)
    requires Covered(lag, grace, d) && Safe(r, lag, d) && r.clock <= t1 <= t2 <= t3 && t2 <= t1 + d
    ensures Lasting(Compacted(r, h, t1, t2, t3, spared, grace), lag, grace) <==>
              h !in r.orphans && Current(r, PACK) != Some(h)
  {
    if Marked(r, h) {
      MarkedDoesNotLast(r, h, t1, t2, t3, spared, lag, grace);
    } else {
      CompactSafe(r, h, t1, t2, t3, spared, lag, grace, d);
      SafeLasts(Compacted(r, h, t1, t2, t3, spared, grace), lag, grace, d);
    }
  }

  /** The old pack outlives the collection at the end of its compaction exactly when that
      comes within the grace period, or spares it. */
  lemma OldPackStays(r: Region, h: Hash, t1: Time, t2: Time, t3: Time, spared: set<Hash>, grace: Time)
    ensures var pack := Current(r, PACK);
            pack.Some? && pack.value in r.blobs ==>
              (pack.value in Compacted(r, h, t1, t2, t3, spared, grace).blobs <==>
                t3 - t1 < grace || pack.value in spared)
  {
    var pack := Current(r, PACK);
    if pack.Some? && pack.value in r.blobs {
      var marked := Wrote(Next(r, Event(t1, Mark(pack.value)), grace), h, t2, t2, grace);
      assert pack.value in marked.blobs && marked.orphans[pack.value] == t1;
    }
  }

  class ConcurrentCompactionReplication<D(==)> {
    const sim: HazardSimulator<D>
    var compactedPacks: seq<Hash>

    constructor (sim: HazardSimulator<D>)
      ensures this.sim == sim && compactedPacks == []
    {
      this.sim := sim;
      compactedPacks := [];
    }

    /** Writes a pack and makes it the current one. */
    method WritePack(data: D, now: Time, later: Time, ghost d: Time) returns (h: Hash)
      requires sim.Valid() && sim.clock <= now <= later
      modifies sim`blobs, sim`roots, sim`refLog, sim`clock
      ensures sim.Valid() && h == sim.hash(data)
      ensures sim.State() == Wrote(old(sim.State()), h, now, later, sim.grace)
      ensures Covered(sim.lag, sim.grace, d) && old(Safe(sim.State(), sim.lag, d)) && h !in old(sim.orphanTs) ==>
                Safe(sim.State(), sim.lag, d)
    {
      ghost var r := sim.State();
      h := sim.Write(data, now);
      var ok := sim.Reference(PACK, h, later);
      if Covered(sim.lag, sim.grace, d) && Safe(r, sim.lag, d) && h !in r.orphans {
        WroteSafe(r, h, now, later, sim.lag, sim.grace, d);
      }
    }

    /** Replaces the current pack: the old one is marked, the new one written and bound, and
        what is due is collected.  As long as no marked pack is reinstated and the new pack
        is bound within `d` of the mark, every pack the replica can resolve stays. */
    method Compact(data: D, t1: Time, t2: Time, t3: Time, spared: set<Hash>, ghost d: Time) returns (h: Hash)
      requires sim.Valid() && sim.clock <= t1 <= t2 <= t3
      modifies this`compactedPacks, sim`blobs, sim`roots, sim`refLog, sim`clock, sim`orphanTs
      ensures sim.Valid() && h == sim.hash(data)
      ensures sim.State() == Compacted(old(sim.State()), h, t1, t2, t3, spared, sim.grace)
      ensures var old' := old(Current(sim.State(), PACK));
              compactedPacks == old(compactedPacks) + if old'.Some? then [old'.value] else []
      ensures var old' := old(Current(sim.State(), PACK));
              old'.Some? && old'.value in old(sim.blobs) ==>
                (old'.value in sim.blobs <==> t3 - t1 < sim.grace || old'.value in spared)
      ensures Allowed(old(sim.State()), h, t1, t2, sim.lag, sim.grace, d) ==> Safe(sim.State(), sim.lag, d)
    {
      ghost var r := sim.State();
      var pack := sim.Resolve(PACK);
      if pack.Some? {
        compactedPacks := compactedPacks + [pack.value];
        sim.MarkOrphaned(pack.value, t1);
      }
      ghost var marked := sim.State();
      h := sim.Write(data, t2);
      var ok := sim.Reference(PACK, h, t2);
      assert sim.State() == Wrote(marked, h, t2, t2, sim.grace);
      var deleted := sim.GcCollect(t3, spared);
      OldPackStays(r, h, t1, t2, t3, spared, sim.grace);
      AllowedSafe(r, h, t1, t2, t3, spared, sim.lag, sim.grace, d);
    }

    /** Collects on its own. */
    method Collect(now: Time, spared: set<Hash>, ghost d: Time) returns (deleted: nat)
      requires sim.Valid() && sim.clock <= now
      modifies sim`blobs, sim`orphanTs, sim`clock
      ensures sim.Valid() && sim.State() == Next(old(sim.State()), Event(now, Action.Collect(spared)), sim.grace)
      ensures Covered(sim.lag, sim.grace, d) && old(Safe(sim.State(), sim.lag, d)) ==> Safe(sim.State(), sim.lag, d)
    {
      ghost var r := sim.State();
      deleted := sim.GcCollect(now, spared);
      if Covered(sim.lag, sim.grace, d) && Safe(r, sim.lag, d) {
        CollectSafe(r, now, spared, sim.lag, sim.grace, d);
      }
    }

    /** `secondary_read_old_pack`: whether the last pack compacted away can still be read from
        the primary.  In a safe region it can as long as the replica resolves it. */
    method SecondaryReadOldPack(ghost now: Time, ghost d: Time) returns (ok: bool)
      requires sim.clock <= now
      ensures ok <==> compactedPacks != [] ==> compactedPacks[|compactedPacks| - 1] in sim.blobs
      ensures Safe(sim.State(), sim.lag, d) && compactedPacks != []
              && ValueAt(LogOf(sim.State(), PACK), now - sim.lag) == Some(compactedPacks[|compactedPacks| - 1]) ==>
                ok
    {
      if compactedPacks == [] { return true; }
      if Safe(sim.State(), sim.lag, d) { ReadSafe(sim.State(), now, sim.lag, d); }
      ok := compactedPacks[|compactedPacks| - 1] in sim.blobs;
    }

    /** The replica resolves the pack and reads it from the primary: in a safe region it is
        there. */
    method SecondaryRead(now: Time, ghost d: Time) returns (h: Option<Hash>, data: Option<D>)
      requires sim.Valid() && sim.clock <= now
      modifies sim`secondary, sim`lastSync, sim`syncedLogs, sim`clock
      ensures sim.Valid()
      ensures sim.State() == Next(old(sim.State()), Event(now, ReadSecondary(PACK)), sim.grace)
      ensures sim.lag > 0.0 ==> h == ValueAt(LogOf(sim.State(), PACK), now - sim.lag)
      ensures sim.lag > 0.0 && old(Safe(sim.State(), sim.lag, d)) && h.Some? ==> data.Some?
      ensures data == if h.Some? && h.value in sim.blobs then Some(sim.blobs[h.value]) else None
    {
      h := sim.ResolveSecondary(PACK, now);
      StillFound(old(sim.State()), sim.State(), h, now, sim.lag, sim.grace, d);
      if h.None? || h.value !in sim.blobs { return h, None; }
      return h, Some(sim.blobs[h.value]);
    }
  }

  /** Compacting to the data that the current pack already holds: whatever the grace period,
      after it the replica resolves a pack that is gone. */
  method Reinstated<D(==)>(hash: D -> Hash, data: D, lag: Time, grace: Time, now: Time)
    returns (h: Option<Hash>, found: Option<D>)
    requires lag > 0.0 && grace >= 0.0 && now > 0.0
    ensures h == Some(hash(data)) && found == None
  {
    var sim := new HazardSimulator<D>(hash, lag, grace, now);
    var packs := new ConcurrentCompactionReplication<D>(sim);
    var pack := packs.WritePack(data, now, now, 0.0);
    ghost var r := sim.State();
    assert Current(r, PACK) == Some(pack);
    pack := packs.Compact(data, now, now, now, {}, 0.0);
    var deleted := packs.Collect(now + grace, {}, 0.0);
    MarkedIsLost(r, pack, now, now, now, {}, lag, grace, now + grace, now + grace + lag);
    h, found := packs.SecondaryRead(now + grace + lag, 0.0);
  }
}
