/**
 Group deletes that outlive their collection. A run in which no commit enters the gate for content
 that such a delete is about to take refines the private stores; one that does can lose content.
 */
module LateDeletes {
  import opened Records
  import opened StoreTables
  import opened StoreProtocol

  // ----- when late deletes do no harm -----

  predicate Committing(op: Op) {
    op.Checking? || op.ContentWritten?
  }

  /** The content a commit counts on is there, and what a late delete will take is mapped by nobody. */
  ghost predicate OpBacked(cfg: Config, table: seq<ContentRow>, files: Files, op: Op) {
    match op
    case Checking(batch, _, _, stored) =>
      forall f :: f in batch && cfg.derive(f) in stored ==> RowsFor(table, cfg.derive(f)) != []
    case ContentWritten(batch) => forall f :: f in batch && f.chunks != [] ==> RowsFor(table, cfg.derive(f)) != []
    case Outstanding(orphans) => forall id :: id in files ==> files[id].key !in orphans
    case _ => true
  }

  ghost predicate Apart(cfg: Config, s: State) {
    forall o, c :: o in s.ops && c in s.ops && s.ops[o].Outstanding? && Committing(s.ops[c]) ==>
      s.ops[o].orphans !! BatchKeys(cfg, s.ops[c].batch)
  }

  ghost predicate Backed(cfg: Config, s: State) {
    (forall o :: o in s.ops ==> OpBacked(cfg, s.table, s.files, s.ops[o])) && Apart(cfg, s)
  }

  /** No commit enters the gate for a key that an outstanding delete is about to take. */
  ghost predicate Careful(cfg: Config, s: State, step: Step)
    requires Enabled(cfg, s, step)
  {
    step.TakeCommitGate? ==>
      forall o :: o in s.ops && s.ops[o].Outstanding? ==> s.ops[o].orphans !! BatchKeys(cfg, s.ops[step.op].batch)
  }

  ghost predicate CarefulAlong(cfg: Config, s: State, steps: seq<Step>)
    requires Runs(cfg, s, steps)
    decreases |steps|
  {
    steps == [] || (Careful(cfg, s, steps[0]) && CarefulAlong(cfg, After(cfg, s, steps[0]), steps[1..]))
  }

  lemma BackedIsSafe(cfg: Config, s: State, step: Step)
    requires Core(cfg, s) && Backed(cfg, s) && Enabled(cfg, s, step)
    ensures Safe(cfg, s, step)
  {
    if step.WriteMap? {
      var batch := s.ops[step.op].batch;
      assert OpBacked(cfg, s.table, s.files, s.ops[step.op]);
      forall id | Winner(batch, id).Some? && Winner(batch, id).value.chunks != []
        ensures RowsFor(s.table, cfg.derive(Winner(batch, id).value)) != []
      {
        WinnerIsMember(batch, id);
      }
    } else if step.LateDelete? {
      assert OpBacked(cfg, s.table, s.files, s.ops[step.op]);
    }
  }

  lemma BackedAfterAdd(cfg: Config, s: State, op: OpId)
    requires Core(cfg, s) && Backed(cfg, s) && Enabled(cfg, s, AddContent(op))
    ensures Backed(cfg, After(cfg, s, AddContent(op)))
  {
    var t := After(cfg, s, AddContent(op));
    forall o | o in t.ops
      ensures OpBacked(cfg, t.table, t.files, t.ops[o])
    {
      assert OpBacked(cfg, s.table, s.files, s.ops[o]);
      if o == op {
        forall f | f in t.ops[o].batch && f.chunks != []
          ensures RowsFor(t.table, cfg.derive(f)) != []
        {
          AddBacksBatch(cfg, s, op, f);
        }
      } else {
        assert !Gated(s.ops[o]);
      }
    }
    assert forall c :: c in t.ops && Committing(t.ops[c]) ==> t.ops[c].batch == s.ops[c].batch;
  }

  lemma BackedAfterDrop(cfg: Config, s: State, step: Step)
    requires Core(cfg, s) && Backed(cfg, s) && Enabled(cfg, s, step) && (step.DeleteGroup? || step.LateDelete?)
    ensures Backed(cfg, After(cfg, s, step))
  {
    var t, orphans := After(cfg, s, step), s.ops[step.op].orphans;
    forall o | o in t.ops
      ensures OpBacked(cfg, t.table, t.files, t.ops[o])
    {
      assert OpBacked(cfg, s.table, s.files, s.ops[o]);
      if Committing(t.ops[o]) && step.LateDelete? {
        assert orphans !! BatchKeys(cfg, s.ops[o].batch);
        forall f | f in t.ops[o].batch
          ensures RowsFor(t.table, cfg.derive(f)) == RowsFor(s.table, cfg.derive(f))
        {
          assert cfg.derive(f) in BatchKeys(cfg, s.ops[o].batch);
          RowsForDrop(s.table, orphans, cfg.derive(f));
        }
      }
    }
  }

  lemma BackedAfterMap(cfg: Config, s: State, op: OpId)
    requires Core(cfg, s) && Backed(cfg, s) && Enabled(cfg, s, WriteMap(op))
    ensures Backed(cfg, After(cfg, s, WriteMap(op)))
  {
    var t, batch := After(cfg, s, WriteMap(op)), s.ops[op].batch;
    forall id | id in t.files
      ensures t.files[id].key in BatchKeys(cfg, batch) || (id in s.files && t.files[id] == s.files[id])
    {
      MergeLookup(cfg, s.files, batch, id);
      WinnerIsMember(batch, id);
    }
    forall o | o in t.ops
      ensures OpBacked(cfg, t.table, t.files, t.ops[o])
    {
      assert OpBacked(cfg, s.table, s.files, s.ops[o]);
      assert t.ops[o].Outstanding? ==> t.ops[o].orphans !! BatchKeys(cfg, batch);
    }
  }

  /** What an operation becomes is apart from the others: a commit from the outstanding deletes, an
      outstanding delete from the commits. */
  ghost predicate ApartFrom(cfg: Config, s: State, next: Op) {
    && (Committing(next) ==>
          forall o :: o in s.ops && s.ops[o].Outstanding? ==> s.ops[o].orphans !! BatchKeys(cfg, next.batch))
    && (next.Outstanding? ==>
          forall c :: c in s.ops && Committing(s.ops[c]) ==> next.orphans !! BatchKeys(cfg, s.ops[c].batch))
  }

  lemma MoveBacked(cfg: Config, s: State, op: OpId, next: Op, gate: Option<OpId>)
    requires Backed(cfg, s) && OpBacked(cfg, s.table, s.files, next) && ApartFrom(cfg, s, next)
    ensures Backed(cfg, s.(gate := gate, ops := s.ops[op := next]))
  {
    var t := s.(gate := gate, ops := s.ops[op := next]);
    forall o | o in t.ops
      ensures OpBacked(cfg, t.table, t.files, t.ops[o])
    {
      assert o != op ==> OpBacked(cfg, s.table, s.files, s.ops[o]);
    }
  }

  lemma LookupBacked(cfg: Config, s: State, op: OpId, group: set<Key>)
    requires Core(cfg, s) && Backed(cfg, s) && Enabled(cfg, s, CheckStored(op, group))
    ensures OpBacked(cfg, s.table, s.files, After(cfg, s, CheckStored(op, group)).ops[op])
  {
    assert OpBacked(cfg, s.table, s.files, s.ops[op]);
    forall k | k in group
      ensures Stored(s.table, k) ==> RowsFor(s.table, k) != []
    {
      StoredIsFaithful(s.table, k);
    }
  }

  /** While a collection holds the gate no commit is inside, and what it rechecked is unmapped. */
  lemma AbandonedBacked(cfg: Config, s: State, op: OpId)
    requires Core(cfg, s) && Enabled(cfg, s, Abandon(op))
    ensures var next := Outstanding(s.ops[op].orphans);
      OpBacked(cfg, s.table, s.files, next) && ApartFrom(cfg, s, next)
  {
    assert OpSound(cfg, s.table, s.files, s.ops[op]);
    assert forall c :: c in s.ops && Committing(s.ops[c]) ==> s.gate == Some(c);
  }

  lemma BackedAfterQuiet(cfg: Config, s: State, step: Step)
    requires Core(cfg, s) && Backed(cfg, s) && Enabled(cfg, s, step) && Careful(cfg, s, step)
    requires !TouchesTables(step) && !step.End?
    ensures Backed(cfg, After(cfg, s, step))
  {
    QuietMoves(cfg, s, step);
    var next := After(cfg, s, step).ops[step.op];
    match step {
      case CheckStored(op, group) =>
        LookupBacked(cfg, s, op, group);
        assert next.batch == s.ops[op].batch;
      case Abandon(op) => AbandonedBacked(cfg, s, op);
      case _ =>
    }
    MoveBacked(cfg, s, step.op, next, GateAfter(s, step.op, next));
  }

  /** Fewer map rows or fewer operations take nothing away from the others. */
  lemma BackedAfterLess(cfg: Config, s: State, step: Step)
    requires Backed(cfg, s) && Enabled(cfg, s, step)
    requires step.End? || step.DeleteFile? || step.DeleteRoot? || step.TouchMtime?
    ensures Backed(cfg, After(cfg, s, step))
  {
    var t := After(cfg, s, step);
    assert forall id :: id in t.files ==> id in s.files && t.files[id].key == s.files[id].key;
    forall o | o in t.ops
      ensures OpBacked(cfg, t.table, t.files, t.ops[o])
    {
      assert OpBacked(cfg, s.table, s.files, s.ops[o]);
    }
  }

  lemma BackedStep(cfg: Config, s: State, step: Step)
    requires Core(cfg, s) && Backed(cfg, s) && Enabled(cfg, s, step) && Careful(cfg, s, step)
    ensures Backed(cfg, After(cfg, s, step))
  {
    if step.AddContent? {
      BackedAfterAdd(cfg, s, step.op);
    } else if TouchesContent(step) {
      BackedAfterDrop(cfg, s, step);
    } else if step.WriteMap? {
      BackedAfterMap(cfg, s, step.op);
    } else if TouchesTables(step) || step.End? {
      BackedAfterLess(cfg, s, step);
    } else {
      BackedAfterQuiet(cfg, s, step);
    }
  }

  lemma {:induction false} CarefulIsSafe(cfg: Config, s: State, steps: seq<Step>)
    requires KeysIdentifyContent(cfg) && Core(cfg, s) && Backed(cfg, s)
    requires Runs(cfg, s, steps) && CarefulAlong(cfg, s, steps)
    ensures SafeAlong(cfg, s, steps)
    decreases |steps|
  {
    if steps != [] {
      BackedIsSafe(cfg, s, steps[0]);
      StepKeepsCore(cfg, s, steps[0]);
      BackedStep(cfg, s, steps[0]);
      CarefulIsSafe(cfg, After(cfg, s, steps[0]), steps[1..]);
    }
  }

  /** Late deletes are invisible over whole runs as long as no commit enters the gate for a key that
      one of them still has to take. */
  lemma CarefulRunsRefine(cfg: Config, steps: seq<Step>)
    requires KeysIdentifyContent(cfg) && Runs(cfg, INIT, steps) && CarefulAlong(cfg, INIT, steps)
    ensures ShowsAlong(cfg, INIT, steps, map[])
    ensures var t := Final(cfg, INIT, steps);
      CountsHold(t.table, t.files) && Shown(t.table, t.files) == FinalPrivate(cfg, INIT, steps, map[])
  {
    EmptyStore(cfg);
    CarefulIsSafe(cfg, INIT, steps);
    StoreRefinesPrivateCopies(cfg, steps);
  }

  lemma {:induction false} NoAbandonIsCareful(cfg: Config, s: State, steps: seq<Step>)
    requires Runs(cfg, s, steps) && forall step :: step in steps ==> !step.Abandon?
    requires forall o :: o in s.ops ==> !s.ops[o].Outstanding?
    ensures CarefulAlong(cfg, s, steps)
    decreases |steps|
  {
    if steps != [] {
      assert steps[0] in steps;
      NoAbandonIsCareful(cfg, After(cfg, s, steps[0]), steps[1..]);
    }
  }

  /** If no collection is dropped while a group delete is under way, every interleaving of everything
      else refines, wherever operations stop. */
  lemma UnabandonedRunsRefine(cfg: Config, steps: seq<Step>)
    requires KeysIdentifyContent(cfg) && Runs(cfg, INIT, steps) && forall step :: step in steps ==> !step.Abandon?
    ensures ShowsAlong(cfg, INIT, steps, map[])
    ensures var t := Final(cfg, INIT, steps);
      CountsHold(t.table, t.files) && Shown(t.table, t.files) == FinalPrivate(cfg, INIT, steps, map[])
  {
    NoAbandonIsCareful(cfg, INIT, steps);
    CarefulRunsRefine(cfg, steps);
  }

  // ----- the run that loses content -----

  lemma {:induction false} RunSnoc(cfg: Config, s: State, steps: seq<Step>, step: Step, p: Private)
    requires Runs(cfg, s, steps) && Enabled(cfg, Final(cfg, s, steps), step)
    ensures Runs(cfg, s, steps + [step])
    ensures Final(cfg, s, steps + [step]) == After(cfg, Final(cfg, s, steps), step)
    ensures FinalPrivate(cfg, s, steps + [step], p)
      == Effect(cfg, Final(cfg, s, steps), step, FinalPrivate(cfg, s, steps, p))
    decreases |steps|
  {
    if steps == [] {
      assert [] + [step] == [step] && [step][1..] == [];
    } else {
      assert (steps + [step])[1..] == steps[1..] + [step];
      RunSnoc(cfg, After(cfg, s, steps[0]), steps[1..], step, Effect(cfg, s, steps[0], p));
    }
  }

  /** A run from the empty store, with the state and the private store it leads to. */
  datatype Trace = Trace(steps: seq<Step>, state: State, copies: Private)

  ghost predicate IsTrace(cfg: Config, t: Trace) {
    && Runs(cfg, INIT, t.steps)
    && Final(cfg, INIT, t.steps) == t.state && FinalPrivate(cfg, INIT, t.steps, map[]) == t.copies
  }

  lemma Take(cfg: Config, t: Trace, step: Step) returns (u: Trace)
    requires IsTrace(cfg, t) && Enabled(cfg, t.state, step)
    ensures IsTrace(cfg, u) && u.state == After(cfg, t.state, step) && u.copies == Effect(cfg, t.state, step, t.copies)
  {
    RunSnoc(cfg, INIT, t.steps, step, map[]);
    u := Trace(t.steps + [step], After(cfg, t.state, step), Effect(cfg, t.state, step, t.copies));
  }

  lemma TraceIsCore(cfg: Config, t: Trace)
    requires KeysIdentifyContent(cfg) && IsTrace(cfg, t)
    ensures Core(cfg, t.state)
  {
    EmptyStore(cfg);
    RunKeepsCore(cfg, INIT, t.steps);
  }

  /** The commit of one file after its lookup. */
  function LookedUp(cfg: Config, s: State, op: OpId, f: PreparedFile): State {
    var stored := if Stored(s.table, cfg.derive(f)) then {cfg.derive(f)} else {};
    s.(gate := Some(op), ops := s.ops[op := Checking([f], PreparedVectors(cfg, [f], {}), {}, stored)])
  }

  lemma EnterGate(cfg: Config, t: Trace, op: OpId, f: PreparedFile) returns (u: Trace)
    requires IsTrace(cfg, t) && Storable(f) && t.state.gate.None? && op !in t.state.ops
    ensures IsTrace(cfg, u) && u.copies == t.copies
    ensures u.state == t.state.(
      gate := Some(op), ops := t.state.ops[op := Checking([f], PreparedVectors(cfg, [f], {}), {cfg.derive(f)}, {})])
  {
    assert BatchKeys(cfg, [f]) == {cfg.derive(f)};
    u := Take(cfg, t, Prepare(op, [f], {}));
    u := Take(cfg, u, TakeCommitGate(op));
  }

  lemma LookUpFile(cfg: Config, t: Trace, op: OpId, f: PreparedFile) returns (u: Trace)
    requires IsTrace(cfg, t) && Storable(f) && t.state.gate.None? && op !in t.state.ops
    ensures IsTrace(cfg, u) && u.copies == t.copies && u.state == LookedUp(cfg, t.state, op, f)
  {
    var k := cfg.derive(f);
    u := EnterGate(cfg, t, op, f);
    u := Take(cfg, u, CheckStored(op, {k}));
    var p := u.state.ops[op];
    assert p.unchecked == {} && p.stored == if Stored(t.state.table, k) then {k} else {};
  }

  /** One file is prepared and committed up to its map row, its gate still held. */
  lemma CommitFile(cfg: Config, t: Trace, op: OpId, f: PreparedFile) returns (u: Trace)
    requires KeysIdentifyContent(cfg) && IsTrace(cfg, t) && Storable(f) && f.chunks != []
    requires t.state.gate.None? && op !in t.state.ops
    ensures IsTrace(cfg, u) && u.copies == t.copies[IdOf(f) := PrivateCopy(cfg, f)]
    ensures u.state.files == t.state.files[IdOf(f) := MapRowOf(cfg, f)]
    ensures u.state.gate == Some(op) && u.state.ops == t.state.ops[op := MapWritten]
    ensures Stored(u.state.table, cfg.derive(f))
    ensures forall r :: r in u.state.table ==> r in t.state.table || r.key == cfg.derive(f)
  {
    var c := LookUpFile(cfg, t, op, f);
    var d := AddFile(cfg, c, op, f);
    u := MapFile(cfg, d, op, f);
  }

  lemma MapFile(cfg: Config, t: Trace, op: OpId, f: PreparedFile) returns (u: Trace)
    requires IsTrace(cfg, t) && op in t.state.ops && t.state.ops[op] == ContentWritten([f]) && HoldsGate(t.state, op)
    ensures IsTrace(cfg, u) && u.copies == t.copies[IdOf(f) := PrivateCopy(cfg, f)]
    ensures u.state == t.state.(
      files := t.state.files[IdOf(f) := MapRowOf(cfg, f)], ops := t.state.ops[op := MapWritten])
  {
    u := Take(cfg, t, WriteMap(op));
    assert [f][..0] == [];
    assert MergeFiles(cfg, t.state.files, []) == t.state.files && PutCopies(cfg, t.copies, []) == t.copies;
  }

  lemma AddFile(cfg: Config, t: Trace, op: OpId, f: PreparedFile) returns (u: Trace)
    requires KeysIdentifyContent(cfg) && IsTrace(cfg, t) && Storable(f) && f.chunks != []
    requires op in t.state.ops && t.state.ops[op].Checking? && t.state.ops[op].batch == [f] && HoldsGate(t.state, op)
    requires t.state.ops[op].unchecked == {}
    requires t.state.ops[op].stored == if Stored(t.state.table, cfg.derive(f)) then {cfg.derive(f)} else {}
    ensures IsTrace(cfg, u) && u.copies == t.copies && u.state.files == t.state.files && u.state.gate == t.state.gate
    ensures u.state.ops == t.state.ops[op := ContentWritten([f])] && Stored(u.state.table, cfg.derive(f))
    ensures forall r :: r in u.state.table ==> r in t.state.table || r.key == cfg.derive(f)
  {
    var p := t.state.ops[op];
    TraceIsCore(cfg, t);
    assert OpSound(cfg, t.state.table, t.state.files, p);
    EmbeddedForNewContent(cfg, [f], p.embedded, p.stored);
    u := Take(cfg, t, AddContent(op));
    OneFileAdds(cfg, t.state.table, p.embedded, f, p.stored);
    StoredIsFaithful(t.state.table, cfg.derive(f));
    AddBacksBatch(cfg, t.state, op, f);
    TraceIsCore(cfg, u);
    StoredIsFaithful(u.state.table, cfg.derive(f));
  }

  /** The add of a one-file batch writes rows of its own key only, and none if the key was found. */
  lemma OneFileAdds(cfg: Config, table: seq<ContentRow>, embedded: Embedded, f: PreparedFile, stored: set<Key>)
    requires EmbeddedFor(cfg, embedded, NewContent(KeyedBatch(cfg, [f]), stored))
    ensures var after := table + NewRows(cfg, embedded, NewContent(KeyedBatch(cfg, [f]), stored));
      && (cfg.derive(f) in stored ==> after == table)
      && forall r :: r in after ==> r in table || r.key == cfg.derive(f)
  {
    var e := Keyed(f, cfg.derive(f));
    assert KeyedBatch(cfg, [f]) == [e] && [e][1..] == [];
    var entries := NewContent([e], stored);
    if cfg.derive(f) !in stored && f.chunks != [] {
      assert NewContent([], stored + {e.key}) == [];
      assert entries == [e];
      assert NewRows(cfg, embedded, entries)
        == ContentRows(f, e.key, EntryVectors(cfg, embedded, e)) + NewRows(cfg, embedded, []);
    } else {
      assert entries == NewContent([], stored) == [];
    }
  }

  lemma {:induction false} DropAll(table: seq<ContentRow>, key: Key)
    requires forall r :: r in table ==> r.key == key
    ensures DropKeys(table, {key}) == []
  {
    if table != [] {
      assert table[0] in table;
      DropAll(table[1..], key);
    }
  }

  /** A collection finds the one key of a store without map rows. */
  lemma FindCandidate(cfg: Config, t: Trace, k: Key) returns (u: Trace)
    requires IsTrace(cfg, t) && t.state.ops == map[] && t.state.files == map[]
    requires Stored(t.state.table, k) && forall r :: r in t.state.table ==> r.key == k
    ensures IsTrace(cfg, u) && u.copies == t.copies && u.state == t.state.(ops := map[1 := Candidates({k})])
  {
    u := Take(cfg, t, ScanStored(1));
    assert u.state.ops[1].stored == {k};
    u := Take(cfg, u, ScanReferenced(1));
    assert u.state.ops[1].candidates == {k};
  }

  /** It is dropped as it deletes the key. */
  lemma DropCollection(cfg: Config, t: Trace, k: Key) returns (u: Trace)
    requires IsTrace(cfg, t) && t.state.gate.None? && t.state.files == map[] && t.state.ops == map[1 := Candidates({k})]
    ensures IsTrace(cfg, u) && u.copies == t.copies && u.state == t.state.(ops := map[1 := Outstanding({k})])
  {
    u := Take(cfg, t, TakeSweepGate(1));
    u := Take(cfg, u, RecheckGroup(1, {k}));
    assert u.state.ops[1].orphans == {k};
    u := Take(cfg, u, Abandon(1));
  }

  /** The file is indexed and deleted, and a collection finds its key unmapped and is dropped. */
  lemma AbandonedCollection(cfg: Config, f: PreparedFile) returns (t: Trace)
    requires KeysIdentifyContent(cfg) && Storable(f) && f.chunks != []
    ensures IsTrace(cfg, t) && t.copies == map[] && t.state.files == map[]
    ensures t.state.gate.None? && t.state.ops == map[1 := Outstanding({cfg.derive(f)})]
    ensures Stored(t.state.table, cfg.derive(f)) && forall r :: r in t.state.table ==> r.key == cfg.derive(f)
  {
    t := CommitFile(cfg, Trace([], INIT, map[]), 0, f);
    t := Take(cfg, t, End(0));
    t := Take(cfg, t, DeleteFile(IdOf(f)));
    assert t.state.files == map[] && t.state.ops == map[] && t.copies == map[];
    t := FindCandidate(cfg, t, cfg.derive(f));
    t := DropCollection(cfg, t, cfg.derive(f));
  }

  /**
   For every file with chunks: indexed, deleted, found unreferenced by a collection that is then
   dropped, and indexed again before the delete it had issued happens. The file is mapped and its
   content is gone.
   */
  lemma LateDeleteLosesContent(cfg: Config, f: PreparedFile) returns (t: Trace)
    requires KeysIdentifyContent(cfg) && Storable(f) && f.chunks != []
    ensures IsTrace(cfg, t) && !SafeAlong(cfg, INIT, t.steps) && !ShowsAlong(cfg, INIT, t.steps, map[])
    ensures t.copies == map[IdOf(f) := PrivateCopy(cfg, f)]
    ensures t.state.files == map[IdOf(f) := MapRowOf(cfg, f)] && t.state.table == []
    ensures !CountsHold(t.state.table, t.state.files) && Shown(t.state.table, t.state.files) != t.copies
  {
    var k := cfg.derive(f);
    t := AbandonedCollection(cfg, f);
    t := CommitFile(cfg, t, 2, f);
    DropAll(t.state.table, k);
    t := Take(cfg, t, LateDelete(1));
    assert Shown(t.state.table, t.state.files)[IdOf(f)].rows == [] && |t.copies[IdOf(f)].rows| == |f.chunks|;
    assert |RowsFor(t.state.table, t.state.files[IdOf(f)].key)| == 0;
    StoreRefinesPrivateCopies(cfg, t.steps);
  }

  /** The other way to lose it: the delete happens between the commit's lookup and its map write. */
  lemma LateDeleteUnderCommit(cfg: Config, f: PreparedFile) returns (t: Trace)
    requires KeysIdentifyContent(cfg) && Storable(f) && f.chunks != []
    ensures IsTrace(cfg, t) && !SafeAlong(cfg, INIT, t.steps) && !ShowsAlong(cfg, INIT, t.steps, map[])
    ensures t.state.files == map[IdOf(f) := MapRowOf(cfg, f)] && t.state.table == []
    ensures !CountsHold(t.state.table, t.state.files)
  {
    var k := cfg.derive(f);
    t := AbandonedCollection(cfg, f);
    DropAll(t.state.table, k);
    t := LookUpFile(cfg, t, 2, f);
    t := Take(cfg, t, LateDelete(1));
    TraceIsCore(cfg, t);
    var p := t.state.ops[2];
    assert OpSound(cfg, t.state.table, t.state.files, p);
    EmbeddedForNewContent(cfg, [f], p.embedded, p.stored);
    OneFileAdds(cfg, [], p.embedded, f, p.stored);
    t := Take(cfg, t, AddContent(2));
    t := MapFile(cfg, t, 2, f);
    assert |RowsFor(t.state.table, t.state.files[IdOf(f)].key)| == 0;
    StoreRefinesPrivateCopies(cfg, t.steps);
  }
}
