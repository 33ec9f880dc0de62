/**
 The maintenance loop's waiting: the interval sleep, the bounded deferral, and the paced pass. Time
 is in milliseconds and only sleeps advance it. Activity, I/O pressure, debt and cancellation are
 adversarial: each sample may read anything.
 */
module Maintenance {
  import opened Arithmetic
  import opened Records

  const CHUNK: nat := 60_000
  const DEFER_RECHECK: nat := 60_000

  datatype DeferReason = Active | IoPressure

  datatype Pace = Full | Paced(sliceBudget: nat, sleepMs: nat)

  datatype PaceConfig = PaceConfig(slice: nat, sleepMs: nat)

  /** What the loop reads at its n-th look at the defer gates, and how far into the sleep after that
      look a cancellation arrives, if one does. */
  datatype Readings = Readings(
    reason: nat -> Option<DeferReason>, hard: nat -> bool, elevated: nat -> bool, cancelled: nat -> Option<nat>)

  datatype Wait = Cancelled | Run(pace: Pace, hardForced: bool)

  /** Pace of a pass that runs despite a defer reason: paced under pressure, with a budget of at least one. */
  function ForcedPace(elevated: bool, cfg: PaceConfig): (pace: Pace)
    ensures pace.Paced? <==> elevated
    ensures pace.Paced? ==> pace.sliceBudget >= 1 && (cfg.slice >= 1 ==> pace.sliceBudget == cfg.slice)
    ensures pace.Paced? ==> pace.sleepMs == cfg.sleepMs
  {
    if elevated then Paced(if cfg.slice >= 1 then cfg.slice else 1, cfg.sleepMs) else Full
  }

  // ----- the interval sleep -----

  /** Bump times of a sleep that woke `k` times at chunk ends. */
  function ChunkBumps(k: nat): (times: seq<nat>)
    ensures |times| == k
  {
    seq(k, i requires 0 <= i < k => CHUNK * (i + 1))
  }

  /**
   Sleeps `total`, bumping at every chunk end, and stops at a chunk end that finds Hard debt. The
   last stretch of at most one chunk has no bump.
   */
  method SleepWithHeartbeat(total: nat, hard: nat -> bool) returns (slept: nat, bumps: seq<nat>)
    ensures slept <= total && forall i :: 0 <= i < |bumps| ==> bumps[i] == 60_000 * (i + 1)
    ensures bumps == ChunkBumps(|bumps|) && CHUNK * |bumps| <= slept <= CHUNK * |bumps| + CHUNK
    ensures slept < total ==> |bumps| > 0 && hard(|bumps| - 1) && slept == CHUNK * |bumps|
    ensures forall i :: 0 <= i < |bumps| && hard(i) ==> i == |bumps| - 1 && slept == CHUNK * |bumps|
  {
    var remaining: nat := total;
    slept, bumps := 0, [];
    while remaining > CHUNK
      invariant slept + remaining == total && slept == CHUNK * |bumps|
      invariant bumps == ChunkBumps(|bumps|)
      invariant forall i :: 0 <= i < |bumps| ==> !hard(i)
    {
      slept := slept + CHUNK;
      bumps := bumps + [slept];
      if hard(|bumps| - 1) {
        return;
      }
      remaining := remaining - CHUNK;
    }
    slept := slept + remaining;
  }

  // ----- the deferral -----

  /** When the n-th look happens, counted from the moment the pass became due. */
  function SampleTime(bound: nat, n: nat): nat {
    Min(DEFER_RECHECK * n, bound)
  }

  /** How long the loop sleeps after its n-th look. */
  function Recheck(bound: nat, n: nat): nat
    requires SampleTime(bound, n) <= bound
  {
    Min(DEFER_RECHECK, bound - SampleTime(bound, n))
  }

  /** A cancellation ends the sleep after the n-th look; it wins over a sleep that ends with it. */
  predicate Interrupted(bound: nat, o: Readings, n: nat) {
    o.cancelled(n).Some? && o.cancelled(n).value <= Recheck(bound, n)
  }

  /** The n-th look defers: a reason stands, debt is not Hard and the bound is not reached. */
  predicate Defers(bound: nat, o: Readings, n: nat) {
    o.reason(n).Some? && !o.hard(n) && SampleTime(bound, n) < bound
  }

  /** The first `n` looks all deferred and slept through. */
  predicate AllDeferred(bound: nat, o: Readings, n: nat) {
    forall i :: 0 <= i < n ==> Defers(bound, o, i) && !Interrupted(bound, o, i)
  }

  function DeferBumps(bound: nat, n: nat): (times: seq<nat>)
    ensures |times| == n
  {
    seq(n, i requires 0 <= i < n => SampleTime(bound, i + 1))
  }

  /** Why the look after `n` full sleeps ended the wait, and with what pace. */
  predicate EndsWait(bound: nat, cfg: PaceConfig, o: Readings, n: nat, w: Wait) {
    match w
    case Cancelled => Defers(bound, o, n) && Interrupted(bound, o, n)
    case Run(pace, hardForced) =>
      if o.reason(n).None? then pace == Full && !hardForced
      else
        && (SampleTime(bound, n) == bound || o.hard(n))
        && pace == ForcedPace(o.elevated(n), cfg) && hardForced == o.hard(n)
  }

  /** How a wait with `n` full sleeps ended. Debt that is already Hard when the pass is due ends it at once. */
  predicate Outcome(bound: nat, cfg: PaceConfig, startHard: bool, startElevated: bool, o: Readings, n: nat, w: Wait) {
    if startHard then n == 0 && w == Run(ForcedPace(startElevated, cfg), true)
    else AllDeferred(bound, o, n) && EndsWait(bound, cfg, o, n, w)
  }

  /**
   Waits while a defer reason stands, at most `bound`. Returns the time waited, the full sleeps, and
   the deferrals counted, which include one that a cancellation cuts short.
   */
  method DeferPass(bound: nat, cfg: PaceConfig, startHard: bool, startElevated: bool, o: Readings)
    returns (w: Wait, waited: nat, sleeps: nat, counted: nat, bumps: seq<nat>)
    ensures Outcome(bound, cfg, startHard, startElevated, o, sleeps, w)
    ensures waited == SampleTime(bound, sleeps) + (if w.Cancelled? then o.cancelled(sleeps).value else 0) <= bound
    ensures counted == (if w.Cancelled? then sleeps + 1 else sleeps) <= CeilDiv(bound, 60_000)
    ensures bumps == DeferBumps(bound, sleeps)
  {
    w, waited, sleeps, counted, bumps := Run(Full, false), 0, 0, 0, [];
    if startHard {
      w := Run(ForcedPace(startElevated, cfg), true);
      return;
    }
    while o.reason(sleeps).Some?
      invariant AllDeferred(bound, o, sleeps) && w == Run(Full, false)
      invariant waited == SampleTime(bound, sleeps)
      invariant counted == sleeps <= CeilDiv(bound, DEFER_RECHECK)
      invariant bumps == DeferBumps(bound, sleeps)
      decreases bound - waited
    {
      if waited >= bound || o.hard(sleeps) {
        w := Run(ForcedPace(o.elevated(sleeps), cfg), o.hard(sleeps));
        return;
      }
      DeferCount(bound, sleeps);
      counted := counted + 1;
      var recheck := Min(DEFER_RECHECK, bound - waited);
      if o.cancelled(sleeps).Some? && o.cancelled(sleeps).value <= recheck {
        w := Cancelled;
        waited := waited + o.cancelled(sleeps).value;
        return;
      }
      waited := waited + recheck;
      sleeps := sleeps + 1;
      bumps := bumps + [waited];
    }
  }

  lemma DeferCount(bound: nat, n: nat)
    requires SampleTime(bound, n) < bound
    ensures n + 1 <= CeilDiv(bound, DEFER_RECHECK)
    ensures SampleTime(bound, n + 1) == SampleTime(bound, n) + Min(DEFER_RECHECK, bound - SampleTime(bound, n))
  {
    assert DEFER_RECHECK * n + 1 <= bound;
    assert (bound + DEFER_RECHECK - 1) / DEFER_RECHECK >= n + 1;
  }

  /** A pass that a reason holds back throughout starts exactly at the bound, after every deferral it may make. */
  lemma {:induction false} HeldBackPassStartsAtBound(bound: nat, cfg: PaceConfig, o: Readings, n: nat, w: Wait)
    requires AllDeferred(bound, o, n) && EndsWait(bound, cfg, o, n, w)
    requires forall i :: o.reason(i).Some? && !o.hard(i) && o.cancelled(i).None?
    ensures w == Run(ForcedPace(o.elevated(n), cfg), false)
    ensures SampleTime(bound, n) == bound && n == CeilDiv(bound, 60_000)
  {
    assert o.reason(n).Some?;
    if n > 0 {
      assert Defers(bound, o, n - 1);
      DeferCount(bound, n - 1);
    }
    var c := CeilDiv(bound, DEFER_RECHECK);
    assert DEFER_RECHECK * n >= bound;
    assert c <= n by { CeilAtMost(bound, n); }
  }

  lemma CeilAtMost(bound: nat, n: nat)
    requires DEFER_RECHECK * n >= bound
    ensures CeilDiv(bound, DEFER_RECHECK) <= n
  {}

  /** Hard debt that sets in at `onset` and stays ends the wait within one recheck: with a forced pass
      if a reason still stands at a look from then on, and always if the reasons never lift. */
  lemma HardActedOnWithinRecheck(bound: nat, cfg: PaceConfig, o: Readings, n: nat, w: Wait, onset: nat)
    requires AllDeferred(bound, o, n) && EndsWait(bound, cfg, o, n, w)
    requires forall i :: SampleTime(bound, i) >= onset ==> o.hard(i)
    ensures SampleTime(bound, n) <= onset + 60_000
    ensures SampleTime(bound, n) >= onset && o.reason(n).Some? ==> w == Run(ForcedPace(o.elevated(n), cfg), true)
    ensures onset <= bound && (forall i :: o.reason(i).Some? && o.cancelled(i).None?) ==>
      w == Run(ForcedPace(o.elevated(n), cfg), true)
  {
    if n > 0 {
      assert Defers(bound, o, n - 1);
    }
  }

  /** A pass forced by Hard debt, at the due moment or at a later look, runs at full pace exactly when
      pressure is not elevated then. */
  lemma HardForcedPassIsPaced(
    bound: nat, cfg: PaceConfig, startHard: bool, startElevated: bool, o: Readings, n: nat, w: Wait)
    requires Outcome(bound, cfg, startHard, startElevated, o, n, w) && w.Run? && w.hardForced
    ensures w.pace.Full? <==> !(if startHard then startElevated else o.elevated(n))
  {}

  /** Hard debt under pressure at the due moment: the forced pass is not at full pace. */
  lemma HardForcedPassNotFull(bound: nat, cfg: PaceConfig, o: Readings, n: nat, w: Wait)
    requires Outcome(bound, cfg, true, true, o, n, w)
    ensures w.Run? && w.hardForced && !w.pace.Full?
  {}

  // ----- heartbeats across both phases -----

  /** Times in order, each at most `gap` after the one before, starting from a bump at time zero. */
  predicate Spaced(times: seq<nat>, gap: nat) {
    forall i :: 0 <= i < |times| ==> (var last := if i == 0 then 0 else times[i-1]; last <= times[i] <= last + gap)
  }

  function Shifted(times: seq<nat>, offset: nat): (r: seq<nat>)
    ensures |r| == |times|
  {
    seq(|times|, i requires 0 <= i < |times| => offset + times[i])
  }

  /** All bumps of one wait, for a sleep of `slept` with `k` bumps and `n` deferrals. */
  function WaitBumps(slept: nat, k: nat, bound: nat, n: nat): seq<nat> {
    ChunkBumps(k) + Shifted(DeferBumps(bound, n), slept)
  }

  function LastBump(times: seq<nat>): nat {
    if times == [] then 0 else times[|times|-1]
  }

  /** The gap in front of the i-th bump: a chunk inside each phase, up to two where they meet. */
  lemma BumpGap(slept: nat, k: nat, bound: nat, n: nat, i: nat)
    requires CHUNK * k <= slept <= CHUNK * k + CHUNK && i < k + n
    ensures var times := WaitBumps(slept, k, bound, n);
      var last := if i == 0 then 0 else times[i-1];
      last <= times[i] <= last + 2 * CHUNK
  {
    var times := WaitBumps(slept, k, bound, n);
    if i < k {
      assert times[i] == CHUNK * (i + 1) && (i > 0 ==> times[i-1] == CHUNK * i);
    } else {
      assert times[i] == slept + SampleTime(bound, i - k + 1);
      if i > k {
        assert times[i-1] == slept + SampleTime(bound, i - k);
      } else if i > 0 {
        assert times[i-1] == CHUNK * k;
      }
    }
  }

  lemma WaitIsSpaced(slept: nat, k: nat, bound: nat, n: nat)
    requires CHUNK * k <= slept <= CHUNK * k + CHUNK
    ensures Spaced(WaitBumps(slept, k, bound, n), 120_000)
    ensures Spaced(ChunkBumps(k), 60_000) && Spaced(DeferBumps(bound, n), 60_000)
    ensures var last := LastBump(WaitBumps(slept, k, bound, n));
      last <= slept + SampleTime(bound, n) <= last + CHUNK
  {
    var times := WaitBumps(slept, k, bound, n);
    forall i | 0 <= i < |times|
      ensures var last := if i == 0 then 0 else times[i-1]; last <= times[i] <= last + 2 * CHUNK
    {
      BumpGap(slept, k, bound, n, i);
    }
    PhasesSpaced(k, bound, n);
    LastBumpOfWait(slept, k, bound, n);
  }

  lemma PhasesSpaced(k: nat, bound: nat, n: nat)
    ensures Spaced(ChunkBumps(k), CHUNK) && Spaced(DeferBumps(bound, n), CHUNK)
  {}

  lemma LastBumpOfWait(slept: nat, k: nat, bound: nat, n: nat)
    requires CHUNK * k <= slept <= CHUNK * k + CHUNK
    ensures var last := LastBump(WaitBumps(slept, k, bound, n));
      last <= slept + SampleTime(bound, n) <= last + CHUNK
  {
    var times := WaitBumps(slept, k, bound, n);
    if n > 0 {
      assert times[|times|-1] == slept + SampleTime(bound, n);
    } else if k > 0 {
      assert times[|times|-1] == CHUNK * k;
    }
  }

  /** The unbumped end of the sleep and the first deferral can leave the whole 120 seconds. */
  lemma GapIsReached()
    ensures WaitBumps(60_000, 0, 60_000, 1) == [120_000]
  {}

  /** One turn of the loop up to the pass: bumps are never further apart than two chunks. */
  method AwaitPass(interval: nat, bound: nat, cfg: PaceConfig, sleepHard: nat -> bool,
                   startHard: bool, startElevated: bool, o: Readings)
    returns (w: Wait, due: nat, start: nat, bumps: seq<nat>)
    ensures due <= interval && due <= start <= due + bound
    ensures Spaced(bumps, 120_000)
    ensures LastBump(bumps) <= start <= LastBump(bumps) + if w.Cancelled? then 2 * CHUNK else CHUNK
    ensures (forall i :: !sleepHard(i)) ==> due == interval
    ensures startHard ==> start == due
    ensures !startHard && (forall i :: o.reason(i).Some? && !o.hard(i) && o.cancelled(i).None?) ==>
      start == due + bound && w == Run(ForcedPace(o.elevated(CeilDiv(bound, DEFER_RECHECK)), cfg), false)
  {
    var chunkBumps: seq<nat>;
    due, chunkBumps := SleepWithHeartbeat(interval, sleepHard);
    var waited, sleeps, counted, deferBumps;
    w, waited, sleeps, counted, deferBumps := DeferPass(bound, cfg, startHard, startElevated, o);
    start := due + waited;
    bumps := chunkBumps + Shifted(deferBumps, due);
    WaitIsSpaced(due, |chunkBumps|, bound, sleeps);
    if !startHard && (forall i :: o.reason(i).Some? && !o.hard(i) && o.cancelled(i).None?) {
      HeldBackPassStartsAtBound(bound, cfg, o, sleeps, w);
    }
  }

  // ----- the pass -----

  datatype Tick = Continue | Stop

  /** How one tick ended: stopped, or done with the number of fragments it reports as removed. */
  datatype TickOutcome = Stopped | Done(removed: Option<nat>)

  datatype SliceCall = SliceCall(runGc: bool, budget: Option<nat>)

  /** Fragments removed by the first `n` ticks. */
  function Removed(tick: nat -> TickOutcome, n: nat): nat {
    if n == 0 then 0
    else Removed(tick, n - 1) + match tick(n - 1) case Done(Some(r)) => r case _ => 0
  }

  predicate FullSlice(tick: nat -> TickOutcome, n: nat, budget: nat) {
    tick(n).Done? && tick(n).removed.Some? && tick(n).removed.value >= budget
  }

  /**
   Runs one unbounded tick, or slices of one budget until a slice falls short of it. `limit` bounds
   what there is to remove; it bounds the slices too.
   */
  method RunPass(pace: Pace, allowGc: bool, tick: nat -> TickOutcome, cancelled: nat -> bool, ghost limit: nat)
    returns (result: Tick, calls: seq<SliceCall>)
    requires pace.Paced? ==> pace.sliceBudget >= 1 && forall n :: Removed(tick, n) <= limit
    ensures pace.Full? ==> calls == [SliceCall(allowGc, None)] && (result.Stop? <==> tick(0).Stopped?)
    ensures pace.Paced? ==>
      forall i :: 0 <= i < |calls| ==> calls[i] == SliceCall(allowGc && i == 0, Some(pace.sliceBudget))
    ensures pace.Paced? ==> |calls| >= 1 && forall i :: 0 <= i < |calls| - 1 ==> FullSlice(tick, i, pace.sliceBudget)
    ensures pace.Paced? ==> forall i :: 0 <= i < |calls| - 1 ==> !cancelled(i)
    ensures pace.Paced? ==> (|calls| - 1) * pace.sliceBudget <= Removed(tick, |calls| - 1)
    ensures pace.Paced? ==> |calls| <= limit / pace.sliceBudget + 1
    ensures pace.Paced? && result.Continue? ==>
      tick(|calls| - 1).Done? && !FullSlice(tick, |calls| - 1, pace.sliceBudget)
    ensures pace.Paced? && result.Stop? ==>
      tick(|calls| - 1).Stopped? || (FullSlice(tick, |calls| - 1, pace.sliceBudget) && cancelled(|calls| - 1))
  {
    if pace.Full? {
      return if tick(0).Stopped? then Stop else Continue, [SliceCall(allowGc, None)];
    }
    var budget := pace.sliceBudget;
    var runGc := allowGc;
    calls := [];
    while true
      invariant runGc == (allowGc && calls == [])
      invariant forall i :: 0 <= i < |calls| ==> calls[i] == SliceCall(allowGc && i == 0, Some(budget))
      invariant forall i :: 0 <= i < |calls| ==> FullSlice(tick, i, budget) && !cancelled(i)
      invariant |calls| * budget <= Removed(tick, |calls|)
      decreases limit - Removed(tick, |calls|)
    {
      var n := |calls|;
      SlicesFit(n, budget, Removed(tick, n), limit);
      calls := calls + [SliceCall(runGc, Some(budget))];
      runGc := false;
      match tick(n) {
        case Stopped => return Stop, calls;
        case Done(None) => return Continue, calls;
        case Done(Some(removed)) =>
          if removed < budget {
            return Continue, calls;
          }
          assert Removed(tick, n + 1) == Removed(tick, n) + removed <= limit;
          assert (n + 1) * budget == n * budget + budget;
      }
      if cancelled(n) {
        return Stop, calls;
      }
    }
  }

  lemma SlicesFit(n: nat, budget: nat, removed: nat, limit: nat)
    requires budget >= 1 && n * budget <= removed <= limit
    ensures n <= limit / budget
  {
    var q := limit / budget;
    assert limit < q * budget + budget;
    assert (q + 1) * budget == q * budget + budget;
    ProductBelow(n, q + 1, budget);
  }
}
