/** When a batch write rebuilds the full-text index, and what the rebuilds cost over a run. */
module FtsRefresh {
  import opened Arithmetic
  import opened Records

  const FTS_REFRESH_DIVISOR: nat := 10

  datatype IndexType = FullText | Fm | BTree | Vectors | Other

  datatype IndexConfig = IndexConfig(name: Text, kind: IndexType)

  /** Text indexes are rebuilt whole, so a batch leaves them alone unless their bound is reached. */
  predicate RefreshedPerBatch(kind: IndexType) {
    kind != FullText && kind != Fm
  }

  function SaturatingMul(a: nat, b: nat): nat {
    if a * b <= USIZE_MAX then a * b else USIZE_MAX
  }

  predicate Due(unindexed: nat, indexed: nat) {
    unindexed > 0 && SaturatingMul(unindexed, FTS_REFRESH_DIVISOR) >= indexed
  }

  /** The rows the full-text index covers, the rows it does not, and the table size at each build that
      a batch made. */
  datatype Index = Index(indexed: nat, unindexed: nat, present: bool, builds: seq<nat>) {
    function Rows(): nat {
      indexed + unindexed
    }
  }

  /** How building the missing search indexes ended. The full-text index is built first. */
  datatype Ensured = FailedBeforeText | FailedAfterText | Complete

  /** What a batch added, and how its statistics read, its refresh call and its missing builds went. */
  datatype Event =
    | Batch(added: nat, statsRead: bool, refreshed: bool, ensured: Ensured)
    | MaintenanceMerge

  function Built(ix: Index): Index {
    ix.(indexed := ix.Rows(), unindexed := 0, present := true, builds := ix.builds + [ix.Rows()])
  }

  function After(ix: Index, e: Event): Index {
    match e
    case Batch(added, statsRead, refreshed, ensured) =>
      var grown := ix.(unindexed := ix.unindexed + added);
      if !refreshed then grown
      else if !ix.present then (if ensured.FailedBeforeText? then grown else Built(grown))
      else if statsRead && Due(grown.unindexed, grown.indexed) then Built(grown)
      else grown
    case MaintenanceMerge => if ix.present then ix.(indexed := ix.Rows(), unindexed := 0) else ix
  }

  function Run(ix: Index, events: seq<Event>): Index {
    if events == [] then ix else After(Run(ix, events[..|events|-1]), events[|events|-1])
  }

  function Sum(s: seq<nat>): nat {
    if s == [] then 0 else Sum(s[..|s|-1]) + s[|s|-1]
  }

  function Last(s: seq<nat>): nat {
    if s == [] then 0 else s[|s|-1]
  }

  predicate Sound(ix: Index) {
    && Last(ix.builds) <= ix.indexed
    && (ix.present || ix.indexed == 0)
    && Sum(ix.builds) <= 11 * Last(ix.builds)
  }

  const EMPTY := Index(0, 0, false, [])

  /** A build that was due finds the table at least a tenth larger than the index it replaces. */
  lemma BuildKeepsSound(ix: Index)
    requires Sound(ix) && (ix.present ==> 10 * ix.unindexed >= ix.indexed)
    ensures Sound(Built(ix))
  {
    assert Built(ix).builds[..|ix.builds|] == ix.builds;
  }

  lemma EventKeepsSound(ix: Index, e: Event)
    requires Sound(ix) && After(ix, e).Rows() <= USIZE_MAX
    ensures Sound(After(ix, e))
  {
    if e.Batch? {
      var grown := ix.(unindexed := ix.unindexed + e.added);
      if !ix.present || Due(grown.unindexed, grown.indexed) {
        BuildKeepsSound(grown);
      }
    }
  }

  /** A batch that changes what is indexed built the index over the whole table, and its size is recorded;
      a maintenance merge indexes every row of an index that exists. */
  lemma BuildsAreRecorded(ix: Index, e: Event)
    ensures var t := After(ix, e);
      && (e.Batch? && t.indexed != ix.indexed ==> t.indexed == t.Rows() && t.builds == ix.builds + [t.Rows()])
      && (e.MaintenanceMerge? && ix.present ==> t.indexed == ix.Rows() && t.unindexed == 0 && t.builds == ix.builds)
  {}

  lemma RowsGrow(ix: Index, e: Event)
    ensures After(ix, e).Rows() >= ix.Rows()
  {}

  lemma {:induction false} RunKeepsSound(ix: Index, events: seq<Event>)
    requires Sound(ix) && Run(ix, events).Rows() <= USIZE_MAX
    ensures Sound(Run(ix, events))
  {
    if events != [] {
      var before := Run(ix, events[..|events|-1]);
      RowsGrow(before, events[|events|-1]);
      RunKeepsSound(ix, events[..|events|-1]);
      EventKeepsSound(before, events[|events|-1]);
    }
  }

  /** Over any run without row deletions, all batch builds together cost at most eleven times the last. */
  lemma BuildsAreGeometric(events: seq<Event>)
    requires Run(EMPTY, events).Rows() <= USIZE_MAX
    ensures var t := Run(EMPTY, events); Sum(t.builds) <= 11 * Last(t.builds) && Last(t.builds) <= t.Rows()
  {
    RunKeepsSound(EMPTY, events);
  }

  /** After a batch whose statistics and refresh succeed, the flat scan covers less than a tenth of
      the indexed rows, unless the index could never be built. */
  lemma UnindexedStaysSmall(events: seq<Event>, added: nat, ensured: Ensured)
    requires Run(EMPTY, events + [Batch(added, true, true, ensured)]).Rows() <= USIZE_MAX
    ensures var t := Run(EMPTY, events + [Batch(added, true, true, ensured)]);
      && (t.present ==> t.unindexed == 0 || 10 * t.unindexed < t.indexed)
      && (!ensured.FailedBeforeText? ==> t.present)
  {
    var all := events + [Batch(added, true, true, ensured)];
    assert all[..|all|-1] == events;
    RunKeepsSound(EMPTY, all);
  }

  /** The search indexes of one content table. */
  class SearchIndexes {
    var state: Index

    constructor ()
      ensures state == EMPTY
    {
      state := EMPTY;
    }

    /** Chooses what a batch refreshes: every index but the text ones, and the full-text index when due. */
    method ChooseRefreshed(existing: seq<IndexConfig>, statsRead: bool) returns (names: seq<Text>, fts: Option<Text>)
      ensures fts.Some? <==> exists i :: 0 <= i < |existing| && existing[i].kind == FullText
      ensures fts.Some? ==> exists i :: 0 <= i < |existing| && existing[i] == IndexConfig(fts.value, FullText)
      ensures forall i :: 0 <= i < |existing| && existing[i].kind != FullText && existing[i].kind != Fm ==>
        existing[i].name in names
      ensures forall n :: n in names ==>
        (exists i :: 0 <= i < |existing| && existing[i].name == n
           && existing[i].kind != FullText && existing[i].kind != Fm)
        || (fts == Some(n) && statsRead && Due(state.unindexed, state.indexed))
      ensures fts.Some? && statsRead && Due(state.unindexed, state.indexed) ==> fts.value in names
    {
      names, fts := [], None;
      for i := 0 to |existing|
        invariant fts.Some? <==> exists j :: 0 <= j < i && existing[j].kind == FullText
        invariant fts.Some? ==> exists j :: 0 <= j < i && existing[j] == IndexConfig(fts.value, FullText)
        invariant forall j :: 0 <= j < i && RefreshedPerBatch(existing[j].kind) ==> existing[j].name in names
        invariant forall n :: n in names ==>
          exists j :: 0 <= j < i && existing[j].name == n && RefreshedPerBatch(existing[j].kind)
      {
        if RefreshedPerBatch(existing[i].kind) {
          names := names + [existing[i].name];
        } else if existing[i].kind == FullText {
          fts := Some(existing[i].name);
        }
      }
      if fts.Some? && statsRead && Due(state.unindexed, state.indexed) {
        names := names + [fts.value];
      }
    }

    /** The index work after a batch added `added` rows. `refreshed` is how the refresh call would end;
        it is made only when some index is chosen. */
    method RefreshIndexes(existing: seq<IndexConfig>, added: nat, statsRead: bool, refreshed: bool, ensured: Ensured)
      returns (r: Result<()>, called: bool)
      requires state.present <==> exists i :: 0 <= i < |existing| && existing[i].kind == FullText
      requires forall i, j :: 0 <= i < j < |existing| ==> existing[i].name != existing[j].name
      modifies this
      ensures called <==>
        || (exists i :: 0 <= i < |existing| && existing[i].kind != FullText && existing[i].kind != Fm)
        || (old(state).present && statsRead && Due(old(state).unindexed + added, old(state).indexed))
      ensures state == After(old(state), Batch(added, statsRead, called ==> refreshed, ensured))
      ensures r.Ok? <==> (called ==> refreshed) && ensured.Complete?
    {
      state := state.(unindexed := state.unindexed + added);
      var names, fts := ChooseRefreshed(existing, statsRead);
      called := names != [];
      assert called ==> names[0] in names;
      if called && !refreshed {
        return Err, called;
      }
      if fts.Some? && fts.value in names {
        assert statsRead && Due(state.unindexed, state.indexed);
        state := Built(state);
      }
      if fts.None? && !ensured.FailedBeforeText? {
        state := Built(state);
      }
      return if ensured.Complete? then Ok(()) else Err, called;
    }
  }
}
