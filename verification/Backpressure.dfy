/**
 The debt gate in front of every mutation. Time is in milliseconds and only sleeps advance it; while
 the gate sleeps, other mutations may record their own observations in the shared cache.
 */
module Backpressure {
  import opened Arithmetic
  import opened Records

  datatype DebtLevel = Low | Soft | Hard

  datatype LanceDebt = LanceDebt(fragments: nat, staleVersions: nat, filesFragments: nat, filesStaleVersions: nat)

  datatype DaemonConfig = DaemonConfig(
    softFragments: nat, softStaleVersions: nat, hardFragments: nat, hardStaleVersions: nat,
    maintenanceIntervalSecs: nat, softDelayMs: nat, hardBlockWaitSecs: nat, cacheTtlSecs: nat)

  function Classify(fragments: nat, staleVersions: nat, cfg: DaemonConfig): DebtLevel {
    if fragments >= cfg.hardFragments || staleVersions >= cfg.hardStaleVersions then Hard
    else if fragments >= cfg.softFragments || staleVersions >= cfg.softStaleVersions then Soft
    else Low
  }

  /** How bad a level is. */
  function Severity(level: DebtLevel): nat {
    match level
    case Low => 0
    case Soft => 1
    case Hard => 2
  }

  /** The level one signal alone calls for. */
  function SignalLevel(value: nat, soft: nat, hard: nat): DebtLevel {
    if value >= hard then Hard else if value >= soft then Soft else Low
  }

  /** The worse signal wins: the level is that of the signal which alone calls for more. */
  lemma WorseSignalWins(fragments: nat, staleVersions: nat, cfg: DaemonConfig)
    ensures var a := SignalLevel(fragments, cfg.softFragments, cfg.hardFragments);
      var b := SignalLevel(staleVersions, cfg.softStaleVersions, cfg.hardStaleVersions);
      Classify(fragments, staleVersions, cfg) == if Severity(a) >= Severity(b) then a else b
  {}

  /** More debt in either signal never lowers the level, whatever the thresholds. */
  lemma MoreDebtIsNoBetter(fragments: nat, staleVersions: nat, moreFragments: nat, moreStale: nat, cfg: DaemonConfig)
    requires fragments <= moreFragments && staleVersions <= moreStale
    ensures Severity(Classify(fragments, staleVersions, cfg)) <= Severity(Classify(moreFragments, moreStale, cfg))
  {}

  function PollSecs(cfg: DaemonConfig): nat {
    if cfg.cacheTtlSecs >= 1 then cfg.cacheTtlSecs else 1
  }

  /** The pairing of poll and wait that configuration loading accepts. */
  predicate Validated(cfg: DaemonConfig) {
    !(cfg.hardBlockWaitSecs > 0 && PollSecs(cfg) >= cfg.hardBlockWaitSecs)
  }

  /** When the i-th probe of a blocked mutation happens, counted from the first. */
  function ProbeTime(i: nat, poll: nat, wait: nat): nat {
    Min(i * poll, wait)
  }

  function MaxProbes(poll: nat, wait: nat): nat
    requires poll > 0
  {
    1 + CeilDiv(wait, poll)
  }

  lemma ProbeTimesAdvance(i: nat, poll: nat, wait: nat)
    requires poll > 0 && ProbeTime(i, poll, wait) < wait
    ensures ProbeTime(i + 1, poll, wait) == Min(ProbeTime(i, poll, wait) + poll, wait)
    ensures i + 2 <= MaxProbes(poll, wait)
  {
    assert (i + 1) * poll == i * poll + poll;
    assert i * poll + 1 <= wait;
    QuotientAtLeast(wait + poll - 1, poll, i + 1);
  }

  /** Probes stop exactly when their times reach the wait. */
  lemma LastProbe(i: nat, poll: nat, wait: nat)
    requires poll > 0 && ProbeTime(i, poll, wait) == wait && (i > 0 ==> ProbeTime(i - 1, poll, wait) < wait)
    ensures i + 1 == MaxProbes(poll, wait)
  {
    if i > 0 {
      ProbeTimesAdvance(i - 1, poll, wait);
    }
    assert i * poll >= wait;
    var c := CeilDiv(wait, poll);
    assert c * poll <= wait + poll - 1;
    assert (i + 1) * poll == i * poll + poll;
    ProductBelow(c, i + 1, poll);
  }

  /** A configuration is accepted exactly when a blocked mutation probes again before its deadline,
      or does not wait at all. */
  lemma ValidatedMeansReprobe(cfg: DaemonConfig)
    ensures Validated(cfg) <==>
      cfg.hardBlockWaitSecs == 0
      || 0 < ProbeTime(1, 1000 * PollSecs(cfg), 1000 * cfg.hardBlockWaitSecs) < 1000 * cfg.hardBlockWaitSecs
  {}

  /** A timestamped classification shared by all mutations. */
  class DebtCache {
    var last: Option<(DebtLevel, nat)>

    constructor ()
      ensures last == None
    {
      last := None;
    }

    method RecordAt(level: DebtLevel, at: nat)
      modifies this
      ensures last == Some((level, at))
    {
      last := Some((level, at));
    }

    /** The recorded level while it is younger than `ttl`. */
    function FreshLevelAt(ttl: nat, now: nat): (r: Option<DebtLevel>)
      reads this
      ensures r.Some? <==> last.Some? && now - last.value.1 < ttl && ttl > 0
      ensures r.Some? ==> r.value == last.value.0
    {
      if last.Some? && (if now >= last.value.1 then now - last.value.1 else 0) < ttl then Some(last.value.0) else None
    }
  }

  /** Where a probe's answer came from: a cached reading, a fresh one, or a failed read that counts as no debt. */
  datatype Source = Cached(at: nat) | Fresh | ReadFailed

  /** One probe: when it was made, the level it observed, the level it answered, and where that came from. */
  datatype Probe = Probe(time: nat, observed: DebtLevel, level: DebtLevel, source: Source)

  class DebtGate {
    const cfg: DaemonConfig
    const cache: DebtCache
    /** The store's answer to the n-th debt read. */
    const debtRead: nat -> Result<LanceDebt>
    /** What other mutations record during the n-th sleep, and how long after its start. */
    const others: nat -> Option<(DebtLevel, nat)>
    var clock: nat
    var readCount: nat
    var sleeps: nat
    ghost var log: seq<Probe>

    constructor (cfg: DaemonConfig, cache: DebtCache, debtRead: nat -> Result<LanceDebt>,
                 others: nat -> Option<(DebtLevel, nat)>)
      ensures this.cfg == cfg && this.cache == cache && log == []
    {
      this.cfg, this.cache, this.debtRead, this.others := cfg, cache, debtRead, others;
      clock, readCount, sleeps, log := 0, 0, 0, [];
    }

    method Sleep(ms: nat)
      modifies this`clock, this`sleeps, cache
      ensures clock == old(clock) + ms && sleeps == old(sleeps) + 1
      ensures cache.last == match others(old(sleeps))
        case Some((level, at)) => Some((level, old(clock) + Min(at, ms)))
        case None => old(cache.last)
    {
      if others(sleeps).Some? {
        cache.RecordAt(others(sleeps).value.0, clock + Min(others(sleeps).value.1, ms));
      }
      sleeps := sleeps + 1;
      clock := clock + ms;
    }

    /** What the n-th debt read amounts to: both tables' debt classified, and no debt for a failed read. */
    function ReadLevel(n: nat): DebtLevel {
      match debtRead(n)
      case Ok(d) => Classify(d.fragments + d.filesFragments, d.staleVersions + d.filesStaleVersions, cfg)
      case Err => Low
    }

    /** Reads real debt over both tables and records its level; a failed read fails open and records nothing. */
    method RefreshObserved() returns (level: DebtLevel, source: Source)
      modifies this`readCount, cache
      ensures readCount == old(readCount) + 1 && level == ReadLevel(old(readCount))
      ensures debtRead(old(readCount)).Err? ==> level == Low && source == ReadFailed && cache.last == old(cache.last)
      ensures debtRead(old(readCount)).Ok? ==> source == Fresh && cache.last == Some((level, clock))
      ensures debtRead(old(readCount)).Ok? ==>
        var d := debtRead(old(readCount)).value;
        level == Classify(d.fragments + d.filesFragments, d.staleVersions + d.filesStaleVersions, cfg)
    {
      var answer := debtRead(readCount);
      readCount := readCount + 1;
      if answer.Err? {
        return Low, ReadFailed;
      }
      var d := answer.value;
      level := Classify(d.fragments + d.filesFragments, d.staleVersions + d.filesStaleVersions, cfg);
      cache.RecordAt(level, clock);
      source := Fresh;
    }

    /** What a probe observes now: the cached level while it is fresh, else the next debt read. */
    function Observed(): DebtLevel
      reads this, cache
    {
      var young := cache.FreshLevelAt(1000 * cfg.cacheTtlSecs, clock);
      if young.Some? then young.value else ReadLevel(readCount)
    }

    /** One observation, answered as it is, but as Soft when it is Hard and nothing will ever pay it down. */
    method TakeProbe() returns (level: DebtLevel)
      modifies this`readCount, this`log, cache
      ensures |log| == |old(log)| + 1 && log[..|old(log)|] == old(log)
      ensures var p := log[|old(log)|];
        p.time == clock && p.level == level && p.observed == old(Observed()) && Honest(p)
      ensures level == Hard <==> old(Observed()) == Hard && cfg.maintenanceIntervalSecs != 0
      ensures cache.last == old(cache.last) || cache.last == Some((log[|old(log)|].observed, clock))
      ensures old(cache.FreshLevelAt(1000 * cfg.cacheTtlSecs, clock)).Some? ==>
        readCount == old(readCount) && cache.last == old(cache.last)
      ensures old(cache.FreshLevelAt(1000 * cfg.cacheTtlSecs, clock)).None? ==> readCount == old(readCount) + 1
    {
      var source, observed;
      var young := cache.FreshLevelAt(1000 * cfg.cacheTtlSecs, clock);
      if young.Some? {
        observed, source := young.value, Cached(cache.last.value.1);
      } else {
        observed, source := RefreshObserved();
      }
      level := observed;
      if level == Hard && cfg.maintenanceIntervalSecs == 0 {
        level := Soft;
      }
      log := log + [Probe(clock, observed, level, source)];
    }

    /** Debt is Hard wherever it is looked for: in the cache, in every read and in what others record. */
    ghost predicate HardThroughout()
      reads this, cache
    {
      && (cache.last.Some? ==> cache.last.value.0 == Hard)
      && (forall n :: ReadLevel(n) == Hard)
      && (forall n :: others(n).Some? ==> others(n).value.0 == Hard)
    }

    /** The answer is what was observed, lowered to Soft exactly if that was Hard and maintenance is off;
        a cached one is younger than the cache allows. */
    predicate Honest(p: Probe) {
      && p.level == (if p.observed == Hard && cfg.maintenanceIntervalSecs == 0 then Soft else p.observed)
      && (p.source.Cached? ==> p.time - p.source.at < 1000 * cfg.cacheTtlSecs)
    }

    /** The probes of one mutation, the first at index `base` and time `t0`; all but the last found Hard. */
    ghost predicate Probed(log: seq<Probe>, base: nat, t0: nat, poll: nat, wait: nat) {
      && base < |log|
      && (forall n: nat {:trigger log[n]} :: base <= n < |log| ==>
            log[n].time == t0 + ProbeTime(n - base, poll, wait) && Honest(log[n]))
      && (forall n: nat {:trigger log[n]} :: base <= n < |log| - 1 ==> log[n].level.Hard?)
    }

    lemma ProbedNext(before: seq<Probe>, after: seq<Probe>, base: nat, t0: nat, poll: nat, wait: nat)
      requires Probed(before, base, t0, poll, wait) && before[|before|-1].level.Hard?
      requires |after| == |before| + 1 && after[..|before|] == before && Honest(after[|before|])
      requires after[|before|].time == t0 + ProbeTime(|before| - base, poll, wait)
      ensures Probed(after, base, t0, poll, wait)
    {
      assert forall n: nat :: n < |before| ==> after[n] == before[n];
    }

    /** Sleeps one poll, or up to the deadline, and probes again. */
    method SleepAndProbe(poll: nat, deadline: nat) returns (level: DebtLevel)
      requires clock < deadline
      modifies this`clock, this`sleeps, this`readCount, this`log, cache
      ensures clock == Min(old(clock) + poll, deadline)
      ensures |log| == |old(log)| + 1 && log[..|old(log)|] == old(log)
      ensures var p := log[|old(log)|]; p.time == clock && p.level == level && Honest(p)
      ensures old(HardThroughout()) ==> HardThroughout() && (cfg.maintenanceIntervalSecs != 0 ==> level == Hard)
    {
      Sleep(Min(clock + poll, deadline) - clock);
      level := TakeProbe();
    }

    /** Probes every `poll` until less than Hard is found or the wait is over. */
    method Block(ghost base: nat, wait: nat, poll: nat) returns (r: Result<()>)
      requires poll > 0 && cfg.maintenanceIntervalSecs != 0
      requires |log| == base + 1 && Probed(log, base, clock, poll, wait) && log[base].level.Hard?
      modifies this, cache
      ensures |log| > base && log[..base+1] == old(log) && Probed(log, base, old(clock), poll, wait)
      ensures |log| - base <= MaxProbes(poll, wait) && clock == log[|log|-1].time
      ensures r.Err? <==> log[|log|-1].level.Hard?
      ensures r.Err? ==> |log| - base == MaxProbes(poll, wait) && clock == old(clock) + wait
      ensures r.Ok? ==> |log| > base + 1
      ensures old(HardThroughout()) ==> r.Err?
    {
      ghost var t0 := clock;
      var deadline := clock + wait;
      ghost var i := 0;
      while clock < deadline
        invariant deadline == t0 + wait && clock == t0 + ProbeTime(i, poll, wait)
        invariant |log| == base + i + 1 && log[..base+1] == old(log) && i + 1 <= MaxProbes(poll, wait)
        invariant i > 0 ==> ProbeTime(i - 1, poll, wait) < wait
        invariant Probed(log, base, t0, poll, wait) && log[|log|-1].level.Hard?
        invariant old(HardThroughout()) ==> HardThroughout()
        decreases deadline - clock
      {
        ProbeTimesAdvance(i, poll, wait);
        ghost var before := log;
        var level := SleepAndProbe(poll, deadline);
        ProbedNext(before, log, base, t0, poll, wait);
        assert log[..base+1] == before[..base+1];
        i := i + 1;
        if level != Hard {
          return Ok(());
        }
      }
      LastProbe(i, poll, wait);
      return Err;
    }

    /**
     Admits at once below Soft, after a delay at Soft, and at Hard as soon as a probe finds less; a
     mutation fails exactly when every probe it may make found Hard, and then exactly at the deadline.
     */
    method Gate(softDelay: nat, wait: nat, poll: nat) returns (r: Result<()>)
      requires poll > 0
      modifies this, cache
      ensures |log| > |old(log)| && log[..|old(log)|] == old(log) && Probed(log, |old(log)|, old(clock), poll, wait)
      ensures |log| - |old(log)| <= MaxProbes(poll, wait)
      ensures r.Err? <==> log[|log|-1].level.Hard?
      ensures r.Err? ==> |log| - |old(log)| == MaxProbes(poll, wait) && clock == old(clock) + wait
      ensures r.Ok? && |log| == |old(log)| + 1 ==>
        clock == old(clock) + if log[|log|-1].level.Soft? then softDelay else 0
      ensures r.Ok? && |log| > |old(log)| + 1 ==> clock == log[|log|-1].time
      ensures cfg.maintenanceIntervalSecs == 0 ==> r.Ok?
      ensures log[|old(log)|].observed == old(Observed())
      ensures log[|old(log)|].level != Hard ==> r.Ok? && |log| == |old(log)| + 1
      ensures old(HardThroughout()) && cfg.maintenanceIntervalSecs != 0 ==> r.Err?
    {
      ghost var base := |log|;
      var level := TakeProbe();
      match level {
        case Low => return Ok(());
        case Soft =>
          Sleep(softDelay);
          return Ok(());
        case Hard =>
          ghost var first := log;
          r := Block(base, wait, poll);
          assert log[base] == first[base] && log[..base] == first[..base];
      }
    }

    /**
     The gate as configured. Hard debt that nothing relieves fails at exactly the deadline; less than Hard
     at the first look admits at once, or after the soft delay. A probe one full poll after the last
     never reuses a reading that old.
     */
    method AwaitDebtGate() returns (r: Result<()>)
      modifies this, cache
      ensures |log| > |old(log)| && log[..|old(log)|] == old(log) && log[|old(log)|].observed == old(Observed())
      ensures cfg.maintenanceIntervalSecs == 0 ==> r.Ok?
      ensures cfg.maintenanceIntervalSecs != 0 && old(HardThroughout()) ==> r.Err?
      ensures old(Observed()) == Low ==> r.Ok? && clock == old(clock)
      ensures old(Observed()) == Soft || (old(Observed()) == Hard && cfg.maintenanceIntervalSecs == 0) ==>
        r.Ok? && clock == old(clock) + cfg.softDelayMs
      ensures r.Ok? && old(Observed()) == Hard && cfg.maintenanceIntervalSecs != 0 ==>
        |log| > |old(log)| + 1 && log[|log|-1].observed != Hard && clock == log[|log|-1].time
      ensures r.Err? ==> clock == old(clock) + 1000 * cfg.hardBlockWaitSecs
      ensures r.Err? ==> |log| - |old(log)| == MaxProbes(1000 * PollSecs(cfg), 1000 * cfg.hardBlockWaitSecs)
      ensures r.Err? ==> forall n :: |old(log)| <= n < |log| ==> log[n].level.Hard?
      ensures r.Err? && Validated(cfg) && cfg.hardBlockWaitSecs > 0 ==>
        |log| >= |old(log)| + 2 && log[|old(log)| + 1].time < old(clock) + 1000 * cfg.hardBlockWaitSecs
      ensures forall n: nat {:trigger log[n]} ::
        |old(log)| < n < |log| && log[n].source.Cached? && log[n].time == log[n-1].time + 1000 * PollSecs(cfg) ==>
          log[n].source.at > log[n-1].time
    {
      var poll, wait := 1000 * PollSecs(cfg), 1000 * cfg.hardBlockWaitSecs;
      r := Gate(cfg.softDelayMs, wait, poll);
      if r.Err? && Validated(cfg) && cfg.hardBlockWaitSecs > 0 {
        ProbeTimesAdvance(0, poll, wait);
        assert log[|old(log)| + 1].time == old(clock) + ProbeTime(1, poll, wait);
      }
    }
  }
}
