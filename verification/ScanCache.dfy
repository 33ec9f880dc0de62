/**
 Single-flight corpus walks as interleaved steps of requests, walk tasks, entry guards and blocking
 scan threads. The registry mutex is explicit: a request spawns its walk and inserts the entry
 while it holds the mutex, and a guard needs the mutex to remove the entry. A walk may start, end,
 panic or be cancelled at any moment in between.
 */
module ScanCache {
  import opened Records

  type Corpus = Text
  type FlightId = nat
  type RequestId = nat

  datatype Holder = ByRequest(request: RequestId) | ByGuard(flight: FlightId)

  /** Where a walk task is. Its guard lives from `Queued` to `Removing`. */
  datatype Task = Queued | Blocked | Ending | Removing | GuardDropped | Published

  datatype Flight = Flight(corpus: Corpus, task: Task)

  datatype Phase = Arriving | Locked | Spawned(flight: FlightId) | Joined(flight: FlightId) | Answered(flight: FlightId)

  datatype Request = Request(corpus: Corpus, phase: Phase)

  datatype State = State(
    lock: Option<Holder>, registry: map<Corpus, FlightId>, flights: map<FlightId, Flight>,
    requests: map<RequestId, Request>, scans: set<FlightId>, free: nat)

  datatype Step =
    | Arrive(r: RequestId, corpus: Corpus)
    | LockRegistry(r: RequestId)
    | JoinExisting(r: RequestId)
    | Spawn(r: RequestId, f: FlightId)
    | InsertEntry(r: RequestId)
    | TakePermit(f: FlightId)
    | ScanEnds(f: FlightId)
    | WalkReturns(f: FlightId)
    | TaskFails(f: FlightId)
    | GuardLocks(f: FlightId)
    | GuardRemoves(f: FlightId)
    | Publish(f: FlightId)
    | Observe(r: RequestId)
    | GiveUp(r: RequestId)

  predicate Live(task: Task) {
    task != GuardDropped && task != Published
  }

  predicate LiveFlight(s: State, f: FlightId) {
    f in s.flights && Live(s.flights[f].task)
  }

  predicate At(s: State, f: FlightId, task: Task) {
    f in s.flights && s.flights[f].task == task
  }

  predicate InPhase(s: State, r: RequestId, phase: Phase) {
    r in s.requests && s.requests[r].phase == phase
  }

  predicate Enabled(s: State, step: Step) {
    match step
    case Arrive(r, corpus) => r !in s.requests
    case LockRegistry(r) => InPhase(s, r, Arriving) && s.lock.None?
    case JoinExisting(r) => InPhase(s, r, Locked) && s.requests[r].corpus in s.registry
    case Spawn(r, f) => InPhase(s, r, Locked) && s.requests[r].corpus !in s.registry && f !in s.flights
    case InsertEntry(r) => r in s.requests && s.requests[r].phase.Spawned?
    case TakePermit(f) => At(s, f, Queued) && s.free > 0
    case ScanEnds(f) => f in s.scans
    case WalkReturns(f) => At(s, f, Blocked) && f !in s.scans
    case TaskFails(f) => At(s, f, Queued) || At(s, f, Blocked)
    case GuardLocks(f) => At(s, f, Ending) && s.lock.None?
    case GuardRemoves(f) => At(s, f, Removing)
    case Publish(f) => At(s, f, GuardDropped)
    case Observe(r) => r in s.requests && s.requests[r].phase.Joined? && At(s, s.requests[r].phase.flight, Published)
    case GiveUp(r) => r in s.requests && s.requests[r].phase.Joined?
  }

  function Move(s: State, f: FlightId, task: Task): map<FlightId, Flight>
    requires f in s.flights
  {
    s.flights[f := s.flights[f].(task := task)]
  }

  function Turn(s: State, r: RequestId, phase: Phase): map<RequestId, Request>
    requires r in s.requests
  {
    s.requests[r := s.requests[r].(phase := phase)]
  }

  function After(s: State, step: Step): State
    requires Enabled(s, step)
  {
    match step
    case Arrive(r, corpus) => s.(requests := s.requests[r := Request(corpus, Arriving)])
    case LockRegistry(r) => s.(lock := Some(ByRequest(r)), requests := Turn(s, r, Locked))
    case JoinExisting(r) => s.(lock := None, requests := Turn(s, r, Joined(s.registry[s.requests[r].corpus])))
    case Spawn(r, f) =>
      s.(flights := s.flights[f := Flight(s.requests[r].corpus, Queued)], requests := Turn(s, r, Spawned(f)))
    case InsertEntry(r) =>
      var f := s.requests[r].phase.flight;
      s.(lock := None, registry := s.registry[s.requests[r].corpus := f], requests := Turn(s, r, Joined(f)))
    case TakePermit(f) => s.(free := s.free - 1, scans := s.scans + {f}, flights := Move(s, f, Blocked))
    case ScanEnds(f) => s.(free := s.free + 1, scans := s.scans - {f})
    case WalkReturns(f) => s.(flights := Move(s, f, Ending))
    case TaskFails(f) => s.(flights := Move(s, f, Ending))
    case GuardLocks(f) => s.(lock := Some(ByGuard(f)), flights := Move(s, f, Removing))
    case GuardRemoves(f) =>
      s.(lock := None, registry := s.registry - {s.flights[f].corpus}, flights := Move(s, f, GuardDropped))
    case Publish(f) => s.(flights := Move(s, f, Published))
    case Observe(r) => s.(requests := Turn(s, r, Answered(s.requests[r].phase.flight)))
    case GiveUp(r) => s.(requests := s.requests - {r})
  }

  function Start(permits: nat): State {
    State(None, map[], map[], map[], {}, permits)
  }

  // ----- the invariant -----

  /** The request or guard that is inside the registry. */
  predicate Inside(s: State, h: Holder) {
    match h
    case ByRequest(r) => r in s.requests && (s.requests[r].phase.Locked? || s.requests[r].phase.Spawned?)
    case ByGuard(f) => At(s, f, Removing)
  }

  /** The mutex is held by exactly the one that is inside the registry. */
  predicate LockSound(s: State) {
    && (forall r :: r in s.requests && (s.requests[r].phase.Locked? || s.requests[r].phase.Spawned?) ==>
          s.lock == Some(ByRequest(r)))
    && (forall f :: f in s.flights && s.flights[f].task == Removing ==> s.lock == Some(ByGuard(f)))
    && (s.lock.Some? ==> Inside(s, s.lock.value))
  }

  /** An entry is the flight of that corpus whose guard is still live. */
  predicate EntriesLive(s: State) {
    forall c :: c in s.registry ==> LiveFlight(s, s.registry[c]) && s.flights[s.registry[c]].corpus == c
  }

  /** A request between spawn and insert owns a live flight, and its corpus has no entry yet. */
  predicate SpawnsPending(s: State) {
    forall r :: r in s.requests && s.requests[r].phase.Spawned? ==>
      && LiveFlight(s, s.requests[r].phase.flight)
      && s.flights[s.requests[r].phase.flight].corpus == s.requests[r].corpus
      && s.requests[r].corpus !in s.registry
  }

  predicate Entered(s: State, f: FlightId)
    requires f in s.flights
  {
    s.flights[f].corpus in s.registry && s.registry[s.flights[f].corpus] == f
  }

  predicate Pending(s: State, f: FlightId) {
    s.lock.Some? && s.lock.value.ByRequest? && InPhase(s, s.lock.value.request, Spawned(f))
  }

  /** A live flight is the entry of its corpus, or the request that spawned it is about to insert it. */
  predicate LiveEntered(s: State) {
    forall f :: f in s.flights && Live(s.flights[f].task) ==> Entered(s, f) || Pending(s, f)
  }

  predicate JoinsSound(s: State) {
    forall r :: r in s.requests && (s.requests[r].phase.Joined? || s.requests[r].phase.Answered?) ==>
      var f := s.requests[r].phase.flight;
      && f in s.flights && s.flights[f].corpus == s.requests[r].corpus
      && (s.requests[r].phase.Answered? ==> s.flights[f].task == Published)
  }

  predicate PermitsSound(s: State, permits: nat) {
    s.free + |s.scans| == permits && forall f :: f in s.scans ==> f in s.flights && s.flights[f].task != Queued
  }

  predicate FlightsSound(s: State) {
    EntriesLive(s) && SpawnsPending(s) && LiveEntered(s) && JoinsSound(s)
  }

  predicate RegistrySound(s: State) {
    LockSound(s) && FlightsSound(s)
  }

  predicate Inv(s: State, permits: nat) {
    RegistrySound(s) && PermitsSound(s, permits)
  }

  /** A change of requests alone keeps what is known of flights, if the pending spawn stays pending and
      no request newly claims a flight. */
  lemma RequestsKeepFlights(s: State, t: State)
    requires FlightsSound(s) && t.flights == s.flights && t.registry == s.registry
    requires forall f :: Pending(s, f) ==> Pending(t, f)
    requires forall r :: r in t.requests && t.requests[r].phase.Spawned? ==>
      r in s.requests && t.requests[r] == s.requests[r]
    requires JoinsSound(t)
    ensures FlightsSound(t)
  {
    forall f | f in t.flights && Live(t.flights[f].task)
      ensures Entered(t, f) || Pending(t, f)
    {
      assert Entered(s, f) || Pending(s, f);
    }
  }

  lemma RequestKeepsLock(s: State, step: Step)
    requires LockSound(s) && Enabled(s, step)
    requires step.Arrive? || step.LockRegistry? || step.Observe? || step.GiveUp?
    ensures LockSound(After(s, step))
  {}

  lemma RequestKeepsJoins(s: State, step: Step)
    requires JoinsSound(s) && Enabled(s, step)
    requires step.Arrive? || step.LockRegistry? || step.Observe? || step.GiveUp?
    ensures JoinsSound(After(s, step))
  {}

  lemma RequestStep(s: State, step: Step, permits: nat)
    requires Inv(s, permits) && Enabled(s, step)
    requires step.Arrive? || step.LockRegistry? || step.Observe? || step.GiveUp?
    ensures Inv(After(s, step), permits)
  {
    RequestKeepsLock(s, step);
    RequestKeepsJoins(s, step);
    RequestsKeepFlights(s, After(s, step));
  }

  lemma LookupStep(s: State, step: Step, permits: nat)
    requires Inv(s, permits) && Enabled(s, step) && (step.JoinExisting? || step.InsertEntry?)
    ensures Inv(After(s, step), permits)
  {
    var t := After(s, step);
    forall f | f in t.flights && Live(t.flights[f].task)
      ensures Entered(t, f) || Pending(t, f)
    {
      assert f in s.flights ==> Entered(s, f) || Pending(s, f);
    }
  }

  lemma SpawnKeepsLock(s: State, r: RequestId, f: FlightId)
    requires LockSound(s) && Enabled(s, Spawn(r, f))
    ensures LockSound(After(s, Spawn(r, f)))
  {}

  lemma SpawnKeepsFlights(s: State, r: RequestId, f: FlightId)
    requires RegistrySound(s) && Enabled(s, Spawn(r, f))
    ensures FlightsSound(After(s, Spawn(r, f)))
  {
    var t := After(s, Spawn(r, f));
    assert s.lock == Some(ByRequest(r));
    forall g | g in t.flights && Live(t.flights[g].task)
      ensures Entered(t, g) || Pending(t, g)
    {
      assert g in s.flights ==> Entered(s, g) || Pending(s, g);
    }
  }

  lemma SpawnStep(s: State, r: RequestId, f: FlightId, permits: nat)
    requires Inv(s, permits) && Enabled(s, Spawn(r, f))
    ensures Inv(After(s, Spawn(r, f)), permits)
  {
    SpawnKeepsLock(s, r, f);
    SpawnKeepsFlights(s, r, f);
  }

  lemma MoveKeepsLock(s: State, f: FlightId, task: Task)
    requires LockSound(s) && f in s.flights && s.flights[f].task != Removing && task != Removing
    ensures LockSound(s.(flights := Move(s, f, task)))
  {
    var t := s.(flights := Move(s, f, task));
    assert forall g :: g in t.flights && g != f ==> t.flights[g] == s.flights[g];
  }

  lemma MoveKeepsEntered(s: State, f: FlightId, task: Task, lock: Option<Holder>)
    requires LiveEntered(s) && f in s.flights && Live(s.flights[f].task) == Live(task)
    requires lock == s.lock || s.lock.None?
    ensures LiveEntered(s.(lock := lock, flights := Move(s, f, task)))
  {
    var t := s.(lock := lock, flights := Move(s, f, task));
    forall g | g in t.flights && Live(t.flights[g].task)
      ensures Entered(t, g) || Pending(t, g)
    {
      assert g in s.flights && Live(s.flights[g].task) && t.flights[g].corpus == s.flights[g].corpus;
      assert Entered(s, g) || Pending(s, g);
    }
  }

  lemma MoveKeepsJoins(s: State, f: FlightId, task: Task)
    requires JoinsSound(s) && f in s.flights && (s.flights[f].task == Published ==> task == Published)
    ensures JoinsSound(s.(flights := Move(s, f, task)))
  {}

  /** Moving a task on without dropping its guard keeps what is known of flights. */
  lemma MoveKeepsFlights(s: State, f: FlightId, task: Task, lock: Option<Holder>)
    requires FlightsSound(s) && f in s.flights && (lock == s.lock || s.lock.None?)
    requires Live(s.flights[f].task) == Live(task) && (s.flights[f].task == Published ==> task == Published)
    ensures FlightsSound(s.(lock := lock, flights := Move(s, f, task)))
  {
    var t := s.(lock := lock, flights := Move(s, f, task));
    assert forall g :: g in t.flights ==> g in s.flights && t.flights[g].corpus == s.flights[g].corpus;
    assert forall g :: g in t.flights ==> Live(t.flights[g].task) == Live(s.flights[g].task);
    MoveKeepsJoins(s, f, task);
    MoveKeepsEntered(s, f, task, lock);
  }

  lemma MoveKeepsRegistry(s: State, f: FlightId, task: Task)
    requires RegistrySound(s) && f in s.flights && s.flights[f].task != Removing && task != Removing
    requires Live(s.flights[f].task) == Live(task) && (s.flights[f].task == Published ==> task == Published)
    ensures RegistrySound(s.(flights := Move(s, f, task)))
  {
    MoveKeepsLock(s, f, task);
    MoveKeepsFlights(s, f, task, s.lock);
  }

  lemma PermitsAreNoConcern(s: State, scans: set<FlightId>, free: nat)
    requires RegistrySound(s)
    ensures RegistrySound(s.(scans := scans, free := free))
  {
    var t := s.(scans := scans, free := free);
    forall g | g in t.flights && Live(t.flights[g].task)
      ensures Entered(t, g) || Pending(t, g)
    {
      assert Entered(s, g) || Pending(s, g);
    }
  }

  lemma PermitStep(s: State, step: Step, permits: nat)
    requires Inv(s, permits) && Enabled(s, step) && (step.TakePermit? || step.ScanEnds?)
    ensures Inv(After(s, step), permits)
  {
    var t := After(s, step);
    if step.TakePermit? {
      MoveKeepsRegistry(s, step.f, Blocked);
      PermitsAreNoConcern(s.(flights := Move(s, step.f, Blocked)), t.scans, t.free);
      assert step.f !in s.scans;
    } else {
      PermitsAreNoConcern(s, t.scans, t.free);
    }
  }

  lemma GuardTakesLock(s: State, f: FlightId)
    requires LockSound(s) && Enabled(s, GuardLocks(f))
    ensures LockSound(After(s, GuardLocks(f)))
  {
    var t := After(s, GuardLocks(f));
    assert forall g :: g in t.flights && g != f ==> t.flights[g] == s.flights[g];
  }

  lemma GuardLocksStep(s: State, f: FlightId, permits: nat)
    requires Inv(s, permits) && Enabled(s, GuardLocks(f))
    ensures Inv(After(s, GuardLocks(f)), permits)
  {
    GuardTakesLock(s, f);
    MoveKeepsFlights(s, f, Removing, Some(ByGuard(f)));
  }

  lemma TaskStep(s: State, step: Step, permits: nat)
    requires Inv(s, permits) && Enabled(s, step)
    requires step.WalkReturns? || step.TaskFails? || step.Publish?
    ensures Inv(After(s, step), permits)
  {
    MoveKeepsRegistry(s, step.f, if step.Publish? then Published else Ending);
  }

  /** A guard removes its own entry, never another flight's. */
  lemma GuardOwnsEntry(s: State, f: FlightId, permits: nat)
    requires Inv(s, permits) && At(s, f, Removing)
    ensures Entered(s, f)
  {
    assert Entered(s, f) || Pending(s, f);
  }

  lemma RemoveStep(s: State, f: FlightId, permits: nat)
    requires Inv(s, permits) && Enabled(s, GuardRemoves(f))
    ensures Inv(After(s, GuardRemoves(f)), permits)
  {
    GuardOwnsEntry(s, f, permits);
    var t := After(s, GuardRemoves(f));
    forall g | g in t.flights && Live(t.flights[g].task)
      ensures Entered(t, g) || Pending(t, g)
    {
      assert Entered(s, g) || Pending(s, g);
    }
  }

  lemma StepKeepsInv(s: State, step: Step, permits: nat)
    requires Inv(s, permits) && Enabled(s, step)
    ensures Inv(After(s, step), permits)
  {
    if step.GuardRemoves? {
      RemoveStep(s, step.f, permits);
    } else if step.TakePermit? || step.ScanEnds? {
      PermitStep(s, step, permits);
    } else if step.GuardLocks? {
      GuardLocksStep(s, step.f, permits);
    } else if step.WalkReturns? || step.TaskFails? || step.Publish? {
      TaskStep(s, step, permits);
    } else if step.JoinExisting? || step.InsertEntry? {
      LookupStep(s, step, permits);
    } else if step.Spawn? {
      SpawnStep(s, step.r, step.f, permits);
    } else {
      RequestStep(s, step, permits);
    }
  }

  // ----- runs -----

  predicate Runs(s: State, steps: seq<Step>)
    decreases |steps|
  {
    steps == [] || (Enabled(s, steps[0]) && Runs(After(s, steps[0]), steps[1..]))
  }

  function Final(s: State, steps: seq<Step>): State
    requires Runs(s, steps)
    decreases |steps|
  {
    if steps == [] then s else Final(After(s, steps[0]), steps[1..])
  }

  lemma {:induction false} RunKeepsInv(s: State, steps: seq<Step>, permits: nat)
    requires Inv(s, permits) && Runs(s, steps)
    ensures Inv(Final(s, steps), permits)
    decreases |steps|
  {
    if steps != [] {
      StepKeepsInv(s, steps[0], permits);
      RunKeepsInv(After(s, steps[0]), steps[1..], permits);
    }
  }

  /** In every reachable state at most one live walk per corpus exists, every entry names a live walk
      of its own corpus, and permits are conserved. */
  lemma SingleFlight(permits: nat, steps: seq<Step>)
    requires Runs(Start(permits), steps)
    ensures var s := Final(Start(permits), steps);
      && (forall f, g :: LiveFlight(s, f) && LiveFlight(s, g) && s.flights[f].corpus == s.flights[g].corpus ==> f == g)
      && EntriesLive(s)
      && s.free + |s.scans| == permits
  {
    RunKeepsInv(Start(permits), steps, permits);
    var s := Final(Start(permits), steps);
    forall f, g | LiveFlight(s, f) && LiveFlight(s, g) && s.flights[f].corpus == s.flights[g].corpus
      ensures f == g
    {
      assert Entered(s, f) || Pending(s, f);
      assert Entered(s, g) || Pending(s, g);
    }
  }

  lemma {:induction false} Above(ids: set<FlightId>) returns (bound: FlightId)
    ensures forall f :: f in ids ==> f < bound
  {
    bound := 0;
    if ids != {} {
      var f :| f in ids;
      var rest := Above(ids - {f});
      assert forall g :: g in ids ==> g == f || g in ids - {f};
      bound := if rest > f then rest else f + 1;
    }
  }

  /** The step that `h` takes. */
  predicate TakenBy(step: Step, h: Holder) {
    match h
    case ByRequest(r) => (step.JoinExisting? || step.Spawn? || step.InsertEntry?) && step.r == r
    case ByGuard(f) => step == GuardRemoves(f)
  }

  /** Nobody waits for the mutex in vain: whoever holds it can give it back with steps of its own, one or
      two, that wait for nothing. */
  lemma MutexComesFree(permits: nat, steps: seq<Step>) returns (more: seq<Step>)
    requires Runs(Start(permits), steps) && Final(Start(permits), steps).lock.Some?
    ensures var s := Final(Start(permits), steps);
      && 1 <= |more| <= 2 && (forall step :: step in more ==> TakenBy(step, s.lock.value))
      && Runs(s, more) && Final(s, more).lock.None?
  {
    RunKeepsInv(Start(permits), steps, permits);
    var s := Final(Start(permits), steps);
    match s.lock.value
    case ByGuard(f) =>
      more := [GuardRemoves(f)];
      OneStep(s, GuardRemoves(f));
    case ByRequest(r) =>
      if s.requests[r].phase.Spawned? {
        more := [InsertEntry(r)];
        OneStep(s, InsertEntry(r));
      } else if s.requests[r].corpus in s.registry {
        more := [JoinExisting(r)];
        OneStep(s, JoinExisting(r));
      } else {
        var f := Above(s.flights.Keys);
        assert Enabled(s, Spawn(r, f));
        more := [Spawn(r, f), InsertEntry(r)];
        OneStep(After(s, Spawn(r, f)), InsertEntry(r));
        assert more[1..] == [InsertEntry(r)];
      }
  }

  lemma OneStep(s: State, step: Step)
    requires Enabled(s, step)
    ensures Runs(s, [step]) && Final(s, [step]) == After(s, step)
  {
    assert [step][1..] == [];
  }

  /** The step a walk waits for: a permit, its scan, its return, the mutex, the removal, the publication. */
  ghost predicate WalkGoesOn(s: State, f: FlightId)
    requires f in s.flights
  {
    match s.flights[f].task
    case Queued => s.free > 0 ==> Enabled(s, TakePermit(f))
    case Blocked => if f in s.scans then Enabled(s, ScanEnds(f)) else Enabled(s, WalkReturns(f))
    case Ending => s.lock.None? ==> Enabled(s, GuardLocks(f))
    case Removing => Enabled(s, GuardRemoves(f))
    case GuardDropped => Enabled(s, Publish(f))
    case Published => forall r :: InPhase(s, r, Joined(f)) ==> Enabled(s, Observe(r))
  }

  lemma PermitComesFree(s: State, permits: nat) returns (g: FlightId)
    requires PermitsSound(s, permits) && permits > 0 && s.free == 0
    ensures g in s.scans && Enabled(s, ScanEnds(g))
  {
    assert |s.scans| > 0;
    g :| g in s.scans;
  }

  lemma NextOfWalk(s: State, f: FlightId)
    requires f in s.flights
    ensures WalkGoesOn(s, f)
  {}

  /** No walk is ever stuck: it has its next step unless it waits for a permit or the mutex; while no permit
      is free some scan that holds one can end; and a request that waits for the mutex gets it when free. */
  lemma WalksGoOn(permits: nat, steps: seq<Step>, f: FlightId, r: RequestId)
    requires Runs(Start(permits), steps) && f in Final(Start(permits), steps).flights
    ensures var s := Final(Start(permits), steps);
      && WalkGoesOn(s, f)
      && (permits > 0 && s.free == 0 ==> exists g :: g in s.scans && Enabled(s, ScanEnds(g)))
      && (r !in s.requests ==> forall c :: Enabled(s, Arrive(r, c)))
      && (InPhase(s, r, Arriving) && s.lock.None? ==> Enabled(s, LockRegistry(r)))
      && (InPhase(s, r, Joined(f)) ==> Enabled(s, GiveUp(r)))
  {
    RunKeepsInv(Start(permits), steps, permits);
    var s := Final(Start(permits), steps);
    NextOfWalk(s, f);
    if permits > 0 && s.free == 0 {
      var g := PermitComesFree(s, permits);
    }
  }

  /** The mutex changes hands only by a step of its holder. */
  lemma OnlyHolderReleases(s: State, step: Step, permits: nat)
    requires Inv(s, permits) && Enabled(s, step) && s.lock.Some? && !TakenBy(step, s.lock.value)
    ensures After(s, step).lock == s.lock
  {}

  /** A guard that is about to remove the entry of its corpus always finds its own flight there. */
  lemma GuardRemovesOwnEntry(permits: nat, steps: seq<Step>, f: FlightId)
    requires Runs(Start(permits), steps) && At(Final(Start(permits), steps), f, Removing)
    ensures var s := Final(Start(permits), steps);
      s.flights[f].corpus in s.registry && s.registry[s.flights[f].corpus] == f
  {
    RunKeepsInv(Start(permits), steps, permits);
    GuardOwnsEntry(Final(Start(permits), steps), f, permits);
  }

  /** While a walk is live, a request for its corpus that holds the mutex can only join it. */
  lemma ConcurrentRequestsShare(permits: nat, steps: seq<Step>, f: FlightId, r: RequestId)
    requires Runs(Start(permits), steps)
    requires LiveFlight(Final(Start(permits), steps), f) && InPhase(Final(Start(permits), steps), r, Locked)
    requires Final(Start(permits), steps).requests[r].corpus == Final(Start(permits), steps).flights[f].corpus
    ensures var s := Final(Start(permits), steps);
      && Enabled(s, JoinExisting(r)) && InPhase(After(s, JoinExisting(r)), r, Joined(f))
      && forall g :: !Enabled(s, Spawn(r, g))
  {
    RunKeepsInv(Start(permits), steps, permits);
    var s := Final(Start(permits), steps);
    assert Entered(s, f) || Pending(s, f);
  }

  // ----- a finished walk never serves a later request -----

  predicate Refers(s: State, r: RequestId, f: FlightId) {
    && r in s.requests
    && (s.requests[r].phase.Spawned? || s.requests[r].phase.Joined? || s.requests[r].phase.Answered?)
    && s.requests[r].phase.flight == f
  }

  lemma StepNeverServesOld(s: State, step: Step, permits: nat, r: RequestId, f: FlightId)
    requires Inv(s, permits) && Enabled(s, step) && At(s, f, Published) && !Refers(s, r, f)
    ensures At(After(s, step), f, Published) && !Refers(After(s, step), r, f)
  {
    if step.JoinExisting? {
      assert LiveFlight(s, s.registry[s.requests[step.r].corpus]);
    }
  }

  lemma {:induction false} RunNeverServesOld(s: State, steps: seq<Step>, permits: nat, r: RequestId, f: FlightId)
    requires Inv(s, permits) && Runs(s, steps) && At(s, f, Published) && !Refers(s, r, f)
    ensures !Refers(Final(s, steps), r, f)
    decreases |steps|
  {
    if steps != [] {
      StepKeepsInv(s, steps[0], permits);
      StepNeverServesOld(s, steps[0], permits, r, f);
      RunNeverServesOld(After(s, steps[0]), steps[1..], permits, r, f);
    }
  }

  /** Once any caller has a walk's result, a request that arrives later is never given that walk. */
  lemma LaterRequestsWalkAgain(permits: nat, before: seq<Step>, after: seq<Step>, first: RequestId, f: FlightId,
                               later: RequestId)
    requires Runs(Start(permits), before) && InPhase(Final(Start(permits), before), first, Answered(f))
    requires later !in Final(Start(permits), before).requests && Runs(Final(Start(permits), before), after)
    ensures !Refers(Final(Final(Start(permits), before), after), later, f)
  {
    RunKeepsInv(Start(permits), before, permits);
    RunNeverServesOld(Final(Start(permits), before), after, permits, later, f);
  }

  // ----- a walk from request to answer -----

  lemma {:induction false} RunSnoc(s: State, steps: seq<Step>, step: Step)
    requires Runs(s, steps) && Enabled(Final(s, steps), step)
    ensures Runs(s, steps + [step]) && Final(s, steps + [step]) == After(Final(s, steps), step)
    decreases |steps|
  {
    if steps == [] {
      assert [] + [step] == [step] && [step][1..] == [];
    } else {
      assert (steps + [step])[1..] == steps[1..] + [step];
      RunSnoc(After(s, steps[0]), steps[1..], step);
    }
  }

  /** A run from the start and where it leads. */
  datatype Trace = Trace(steps: seq<Step>, state: State)

  predicate IsTrace(permits: nat, t: Trace) {
    Runs(Start(permits), t.steps) && Final(Start(permits), t.steps) == t.state
  }

  lemma Take(permits: nat, t: Trace, step: Step) returns (u: Trace)
    requires IsTrace(permits, t) && Enabled(t.state, step)
    ensures IsTrace(permits, u) && u.state == After(t.state, step)
  {
    RunSnoc(Start(permits), t.steps, step);
    u := Trace(t.steps + [step], After(t.state, step));
  }

  /** Two requests for one corpus: the first spawns the walk, the second joins it. */
  lemma TwoJoin(permits: nat, c: Corpus) returns (t: Trace)
    ensures IsTrace(permits, t)
    ensures t.state == State(None, map[c := 7], map[7 := Flight(c, Queued)], BothJoined(c), {}, permits)
  {
    t := Trace([], Start(permits));
    t := Take(permits, t, Arrive(0, c));
    t := Take(permits, t, Arrive(1, c));
    t := Take(permits, t, LockRegistry(0));
    t := Take(permits, t, Spawn(0, 7));
    t := Take(permits, t, InsertEntry(0));
    t := Take(permits, t, LockRegistry(1));
    t := Take(permits, t, JoinExisting(1));
    assert t.state.requests == BothJoined(c);
  }

  function BothJoined(c: Corpus): map<RequestId, Request> {
    map[0 := Request(c, Joined(7)), 1 := Request(c, Joined(7))]
  }

  /** The walk scans under a permit and returns. */
  lemma WalkScans(permits: nat, c: Corpus) returns (t: Trace)
    requires permits > 0
    ensures IsTrace(permits, t)
    ensures t.state == State(None, map[c := 7], map[7 := Flight(c, Ending)], BothJoined(c), {}, permits)
  {
    t := TwoJoin(permits, c);
    t := Take(permits, t, TakePermit(7));
    t := Take(permits, t, ScanEnds(7));
    assert t.state.scans == {};
    t := Take(permits, t, WalkReturns(7));
    assert t.state.flights == map[7 := Flight(c, Ending)];
  }

  /** Its guard removes the entry, and then the result is published. */
  lemma WalkEnds(permits: nat, c: Corpus) returns (t: Trace)
    requires permits > 0
    ensures IsTrace(permits, t)
    ensures t.state == State(None, map[], map[7 := Flight(c, Published)], BothJoined(c), {}, permits)
  {
    t := WalkScans(permits, c);
    t := Take(permits, t, GuardLocks(7));
    t := Take(permits, t, GuardRemoves(7));
    assert t.state.registry == map[];
    t := Take(permits, t, Publish(7));
    assert t.state.flights == map[7 := Flight(c, Published)];
  }

  /** For every corpus there is a run in which two requests share one walk and both get its result; after
      it no entry is left and every permit is free. */
  lemma TwoRequestsOneWalk(permits: nat, c: Corpus) returns (t: Trace)
    requires permits > 0
    ensures IsTrace(permits, t) && t.state.flights == map[7 := Flight(c, Published)]
    ensures InPhase(t.state, 0, Answered(7)) && InPhase(t.state, 1, Answered(7))
    ensures t.state.registry == map[] && t.state.lock.None? && t.state.free == permits && t.state.scans == {}
  {
    t := WalkEnds(permits, c);
    t := Take(permits, t, Observe(0));
    t := Take(permits, t, Observe(1));
  }
}
