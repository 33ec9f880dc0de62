/** The collection phases of a maintenance tick: retired roots first, then unreferenced content. */
module RootCollection {
  import opened Collections
  import opened Records
  import opened StoreTables
  import opened StoreProtocol
  import opened LanceStores
  import ContentKeys

  datatype GcError = RecheckPanicked | DeleteFailed | OrphansFailed

  datatype GcResult = Fine | Failed(error: GcError)

  datatype GcStats = GcStats(rootsCollected: nat, rowsRemoved: nat, contentRowsRemoved: nat)

  /** What the recheck right before a delete finds: still retired, back again, or a failed task. */
  datatype Recheck = StillRetired | Recreated | TaskFailed

  /** The answers the outside world gives for the n-th candidate. */
  datatype World = World(recheck: nat -> Recheck, cancelled: nat -> bool)

  /** The candidates of `roots[..n]` that were still retired when their turn came. */
  function Retired(world: World, roots: seq<Text>, n: nat): set<Text>
    requires n <= |roots|
  {
    if n == 0 then {}
    else if world.recheck(n - 1).StillRetired? then Retired(world, roots, n - 1) + {roots[n-1]}
    else Retired(world, roots, n - 1)
  }

  function RetiredCount(world: World, n: nat): nat {
    if n == 0 then 0 else RetiredCount(world, n - 1) + if world.recheck(n - 1).StillRetired? then 1 else 0
  }

  function DropRoots(files: Files, roots: set<Text>): Files {
    map id | id in files && id.root !in roots :: files[id]
  }

  lemma DropOneMore(files: Files, roots: set<Text>, root: Text)
    ensures DropRoot(DropRoots(files, roots), root) == DropRoots(files, roots + {root})
  {}

  lemma DropNoRoots(files: Files)
    ensures DropRoots(files, {}) == files
  {}

  /** Rechecks one candidate and deletes its map rows if it is still retired. */
  method CollectRoot(store: LanceStore, root: Text, recheck: Recheck, before: GcStats)
    returns (stats: GcStats, result: GcResult)
    requires store.Valid()
    modifies store`calls, store`files
    ensures store.Valid()
    ensures result.Fine? && recheck.StillRetired? ==>
      store.files == DropRoot(old(store.files), root) && stats.rootsCollected == before.rootsCollected + 1
    ensures result.Failed? || !recheck.StillRetired? ==> store.files == old(store.files) && stats == before
    ensures stats.rowsRemoved == before.rowsRemoved + |old(store.files)| - |store.files|
    ensures stats.contentRowsRemoved == before.contentRowsRemoved
    ensures result == Reported(recheck, recheck.StillRetired? && store.fails(old(store.calls)))
    ensures store.calls == old(store.calls) + if recheck.StillRetired? then 1 else 0
  {
    match recheck {
      case TaskFailed => return before, Failed(RecheckPanicked);
      case Recreated => return before, Fine;
      case StillRetired =>
        var removed := store.DeleteRoot(root);
        if removed.Err? {
          return before, Failed(DeleteFailed);
        }
        return before.(rootsCollected := before.rootsCollected + 1,
                       rowsRemoved := before.rowsRemoved + removed.value), Fine;
    }
  }

  /** What handling one candidate reports. */
  function Reported(recheck: Recheck, deleteFails: bool): GcResult {
    if recheck.TaskFailed? then Failed(RecheckPanicked)
    else if deleteFails then Failed(DeleteFailed)
    else Fine
  }

  /**
   Deletes the map rows of each candidate that is still retired. The counts cover exactly the rows
   that went, also when a later root fails. `done` is how many candidates were handled; it stops short
   only at a cancellation, a recheck that panicked, or a delete that failed.
   */
  method GcDelete(store: LanceStore, roots: seq<Text>, world: World)
    returns (stats: GcStats, result: GcResult, done: nat)
    requires store.Valid()
    modifies store`calls, store`files
    ensures store.Valid()
    ensures done <= |roots| && store.files == DropRoots(old(store.files), Retired(world, roots, done))
    ensures stats.rowsRemoved == |old(store.files)| - |store.files| && stats.contentRowsRemoved == 0
    ensures stats.rootsCollected == RetiredCount(world, done)
    ensures done < |roots| && result.Fine? ==> world.cancelled(done)
    ensures result.Failed? ==> done < |roots| && !world.cancelled(done) && !world.recheck(done).Recreated?
    ensures result.Failed? ==>
      result.error == if world.recheck(done).TaskFailed? then RecheckPanicked else DeleteFailed
    ensures DeletesSucceed(store.fails, old(store.calls), world, done)
    ensures result == Failed(DeleteFailed) ==> DeleteFails(store.fails, old(store.calls), world, done)
    ensures Unhindered(store, world, |roots|, old(store.calls)) ==> result.Fine? && done == |roots|
    ensures LeavesOthers(old(store.files), store.files, roots, world, done)
  {
    stats, result, done := CollectRoots(store, roots, world);
    RetiredRowsGo(old(store.files), roots, world, done);
  }

  /** Where the loop stands after `done` candidates, none of whose deletes failed. */
  ghost predicate AtRoot(store: LanceStore, roots: seq<Text>, world: World, done: nat, start: nat, was: Files,
                         stats: GcStats)
    requires done <= |roots|
    reads store
  {
    && Progress(world, roots, done, was, store.files, stats) && DeletesSucceed(store.fails, start, world, done)
    && store.calls == start + RetiredCount(world, done)
  }

  /** The loop over the candidates. */
  method CollectRoots(store: LanceStore, roots: seq<Text>, world: World)
    returns (stats: GcStats, result: GcResult, done: nat)
    requires store.Valid()
    modifies store`calls, store`files
    ensures store.Valid() && done <= |roots| && Progress(world, roots, done, old(store.files), store.files, stats)
    ensures DeletesSucceed(store.fails, old(store.calls), world, done)
    ensures result.Fine? ==> done == |roots| || world.cancelled(done)
    ensures result.Failed? ==> done < |roots| && !world.cancelled(done)
    ensures result.Failed? ==>
      result == Reported(world.recheck(done), DeleteFails(store.fails, old(store.calls), world, done))
  {
    stats := GcStats(0, 0, 0);
    result := Fine;
    done := 0;
    ghost var was, start := store.files, store.calls;
    DropNoRoots(was);
    while done < |roots| && !world.cancelled(done)
      invariant done <= |roots| && store.Valid() && result.Fine?
      invariant AtRoot(store, roots, world, done, start, was, stats)
    {
      stats, result := CollectNext(store, roots, world, done, stats, start, was);
      if result.Failed? {
        return;
      }
      done := done + 1;
    }
  }

  /** The delete of the n-th candidate is made, and its call fails. */
  predicate DeleteFails(fails: nat -> bool, start: nat, world: World, n: nat) {
    world.recheck(n).StillRetired? && fails(start + RetiredCount(world, n))
  }

  predicate DeletesSucceed(fails: nat -> bool, start: nat, world: World, done: nat) {
    forall i :: 0 <= i < done ==> !DeleteFails(fails, start, world, i)
  }

  /** One turn of the loop. */
  method CollectNext(store: LanceStore, roots: seq<Text>, world: World, done: nat, before: GcStats,
                     ghost start: nat, ghost was: Files)
    returns (stats: GcStats, result: GcResult)
    requires store.Valid() && done < |roots| && AtRoot(store, roots, world, done, start, was, before)
    modifies store`calls, store`files
    ensures store.Valid() && result == Reported(world.recheck(done), DeleteFails(store.fails, start, world, done))
    ensures result.Fine? ==> AtRoot(store, roots, world, done + 1, start, was, stats)
    ensures result.Failed? ==> Progress(world, roots, done, was, store.files, stats)
  {
    ghost var files := store.files;
    stats, result := CollectRoot(store, roots[done], world.recheck(done), before);
    if result.Fine? {
      OneMoreRoot(world, roots, done, was, files, store.files, before, stats);
    }
  }

  /** Nothing is cancelled, no recheck panics and no call fails. */
  ghost predicate Unhindered(store: LanceStore, world: World, n: nat, calls: nat) {
    && (forall i :: 0 <= i < n ==> !world.cancelled(i) && !world.recheck(i).TaskFailed?)
    && (forall c :: c >= calls ==> !store.fails(c))
  }

  /** The row's root is none of the first `done` candidates that were still retired. */
  predicate Spared(id: FileId, roots: seq<Text>, world: World, done: nat)
    requires done <= |roots|
  {
    forall i :: 0 <= i < done && world.recheck(i).StillRetired? ==> id.root != roots[i]
  }

  /** The map rows of the retired candidates are gone, and every other row is as it was. */
  ghost predicate LeavesOthers(was: Files, now: Files, roots: seq<Text>, world: World, done: nat)
    requires done <= |roots|
  {
    && (forall id :: id in now <==> id in was && Spared(id, roots, world, done))
    && (forall id :: id in now ==> now[id] == was[id])
  }

  lemma {:induction false} RetiredMember(world: World, roots: seq<Text>, done: nat, id: FileId)
    requires done <= |roots|
    ensures id.root in Retired(world, roots, done) <==> !Spared(id, roots, world, done)
  {
    if done > 0 {
      RetiredMember(world, roots, done - 1, id);
    }
  }

  lemma RetiredRowsGo(was: Files, roots: seq<Text>, world: World, done: nat)
    requires done <= |roots|
    ensures LeavesOthers(was, DropRoots(was, Retired(world, roots, done)), roots, world, done)
  {
    forall id: FileId
      ensures id.root in Retired(world, roots, done) <==> !Spared(id, roots, world, done)
    {
      RetiredMember(world, roots, done, id);
    }
  }

  /** Exactly the rows of the first `done` candidates that were still retired are gone, and counted. */
  predicate Progress(world: World, roots: seq<Text>, done: nat, was: Files, now: Files, stats: GcStats)
    requires done <= |roots|
  {
    && now == DropRoots(was, Retired(world, roots, done))
    && stats.rowsRemoved == |was| - |now| && stats.contentRowsRemoved == 0
    && stats.rootsCollected == RetiredCount(world, done)
  }

  lemma OneMoreRoot(world: World, roots: seq<Text>, done: nat, was: Files, before: Files, now: Files,
                    statsBefore: GcStats, stats: GcStats)
    requires done < |roots| && Progress(world, roots, done, was, before, statsBefore)
    requires now == if world.recheck(done).StillRetired? then DropRoot(before, roots[done]) else before
    requires stats.rootsCollected == statsBefore.rootsCollected + if world.recheck(done).StillRetired? then 1 else 0
    requires stats.rowsRemoved == statsBefore.rowsRemoved + |before| - |now| && stats.contentRowsRemoved == 0
    ensures Progress(world, roots, done + 1, was, now, stats)
  {
    DropOneMore(was, Retired(world, roots, done), roots[done]);
  }

  /** The calls a collection of the store's unreferenced content needs. */
  function Needed(store: LanceStore): nat
    reads store
  {
    CollectionCalls(|OrphanKeys(store.table, store.files)|)
  }

  /** What the pass adds to the count is what it removed. */
  predicate CountExact(before: GcStats, stats: GcStats, removed: int) {
    stats.contentRowsRemoved - before.contentRowsRemoved == removed
  }

  /**
   Collects unreferenced content even when deleting roots failed, and reports the delete's error before
   its own. A collection that fails adds nothing to the count, so the count is exact if and only if no
   call it needs fails, or one up to the first delete does.
   */
  method GcOrphansAfterDelete(store: LanceStore, before: GcStats, cancelled: bool, deleteResult: GcResult)
    returns (stats: GcStats, result: GcResult)
    requires store.Valid()
    modifies store`calls, store`table
    ensures store.Valid() && Shown(store.table, store.files) == old(Shown(store.table, store.files))
    ensures cancelled ==> stats == before && store.table == old(store.table) && result == deleteResult
    ensures deleteResult.Failed? ==> result == deleteResult
    ensures !cancelled && deleteResult.Fine? ==>
      (result == if store.Faulted(old(store.calls), old(store.calls + Needed(store)))
                 then Failed(OrphansFailed) else Fine)
    ensures stats == before.(contentRowsRemoved := stats.contentRowsRemoved) && |store.table| <= |old(store.table)|
    ensures !cancelled && store.Faulted(old(store.calls), old(store.calls + Needed(store))) ==> stats == before
    ensures !cancelled && !store.Faulted(old(store.calls), old(store.calls + Needed(store))) ==>
      store.table == MappedRows(old(store.table), store.files)
    ensures !cancelled ==>
      (CountExact(before, stats, |old(store.table)| - |store.table|) <==>
        || !store.Faulted(old(store.calls), old(store.calls + Needed(store)))
        || store.Faulted(old(store.calls), old(store.calls) + 4))
  {
    stats := before;
    if cancelled {
      return stats, deleteResult;
    }
    var removed := store.DeleteOrphanContent();
    if removed.Err? {
      return stats, if deleteResult.Failed? then deleteResult else Failed(OrphansFailed);
    }
    stats := stats.(contentRowsRemoved := stats.contentRowsRemoved + removed.value);
    return stats, deleteResult;
  }

  // ----- a collection whose removals no counter reports -----

  /** A file with one chunk, unlike every other page in its summary. */
  function Page(i: nat): PreparedFile {
    PreparedFile([], CorpusKey([], []), 0, [], seq(i, _ => 0), [], None, 0, [Chunk(0, [], 1, 1, [], [], None, None, 0)])
  }

  function Pages(n: nat): (pages: seq<PreparedFile>)
    ensures |pages| == n
  {
    seq(n, i requires 0 <= i < n => Page(i))
  }

  lemma PageStorable(i: nat)
    requires i < ContentKeys.WORD
    ensures Storable(Page(i)) && Page(i).chunks != []
  {
    assert forall c :: c in Page(i).chunks ==> c == Page(i).chunks[0];
  }

  lemma PageKeysDiffer(cfg: Config, i: nat, j: nat)
    requires KeysIdentifyContent(cfg) && i < j < ContentKeys.WORD
    ensures cfg.derive(Page(i)) != cfg.derive(Page(j))
  {
    PageStorable(i);
    PageStorable(j);
    assert |SharedOf(Page(i)).summary| == i && |SharedOf(Page(j)).summary| == j;
  }

  lemma {:induction false} PagesHaveOwnKeys(cfg: Config, n: nat)
    requires KeysIdentifyContent(cfg) && n < ContentKeys.WORD
    ensures |BatchKeys(cfg, Pages(n))| == n
  {
    if n == 0 {
      assert BatchKeys(cfg, Pages(n)) == {};
    } else {
      PagesHaveOwnKeys(cfg, n - 1);
      PagesSnoc(n - 1);
      BatchKeysSnoc(cfg, Pages(n - 1), Page(n - 1));
      NextPageIsNew(cfg, n - 1);
    }
  }

  lemma PagesSnoc(n: nat)
    ensures Pages(n + 1) == Pages(n) + [Page(n)]
  {}

  lemma BatchKeysSnoc(cfg: Config, batch: seq<PreparedFile>, f: PreparedFile)
    ensures BatchKeys(cfg, batch + [f]) == BatchKeys(cfg, batch) + {cfg.derive(f)}
  {}

  lemma NextPageIsNew(cfg: Config, n: nat)
    requires KeysIdentifyContent(cfg) && n < ContentKeys.WORD
    ensures cfg.derive(Page(n)) !in BatchKeys(cfg, Pages(n))
  {
    forall f | f in Pages(n)
      ensures cfg.derive(f) != cfg.derive(Page(n))
    {
      var i :| 0 <= i < n && Pages(n)[i] == f;
      PageKeysDiffer(cfg, i, n);
    }
  }

  /** Rows for every key of a batch of storable files with chunks, and no map row. */
  lemma UnmappedTable(cfg: Config, batch: seq<PreparedFile>)
    requires KeysIdentifyContent(cfg) && forall f :: f in batch ==> Storable(f) && f.chunks != []
    ensures var table := NewRows(cfg, map[], NewContent(KeyedBatch(cfg, batch), {}));
      TableSound(cfg, table) && MapSound(cfg, table, map[]) && BatchKeys(cfg, batch) <= OrphanKeys(table, map[])
  {
    var keyed := KeyedBatch(cfg, batch);
    var entries := NewContent(keyed, {});
    var table := NewRows(cfg, map[], entries);
    NewContentEntries(keyed, {});
    EmptyStore(cfg);
    AddKeepsTable(cfg, [], map[], entries);
    assert [] + table == table;
    forall f | f in batch
      ensures cfg.derive(f) in OrphanKeys(table, map[])
    {
      AddedIsStored(cfg, batch, f);
      assert !Mapped(map[], cfg.derive(f));
    }
  }

  lemma AddedIsStored(cfg: Config, batch: seq<PreparedFile>, f: PreparedFile)
    requires (forall g :: g in batch ==> Storable(g)) && f in batch && f.chunks != []
    ensures Stored(NewRows(cfg, map[], NewContent(KeyedBatch(cfg, batch), {})), cfg.derive(f))
  {
    var keyed := KeyedBatch(cfg, batch);
    var entries := NewContent(keyed, {});
    NewContentEntries(keyed, {});
    var n :| 0 <= n < |batch| && batch[n] == f;
    NewContentCovers(keyed, {}, keyed[n]);
    assert HasKey(entries, cfg.derive(f));
    var table := NewRows(cfg, map[], entries);
    assert [] + table == table;
    forall x | x in entries
      ensures WellFormed(x.file)
    {
      var i :| 0 <= i < |keyed| && keyed[i] == x;
      assert batch[i] in batch;
    }
    var e := RowsAfterAdd(cfg, [], map[], entries, cfg.derive(f));
    assert e.Some? && OrdsComplete(RowsFor(table, cfg.derive(f)));
    assert e.value.file.chunks != [] && |Views(RowsFor(table, cfg.derive(f)))| != 0;
    StoredIsFaithful(table, cfg.derive(f));
  }

  /** The content of 513 pages that no map row references. */
  function PageTable(cfg: Config): seq<ContentRow> {
    var entries := NewContent(KeyedBatch(cfg, Pages(513)), {});
    assert EmbeddedFor(cfg, map[], entries);
    NewRows(cfg, map[], entries)
  }

  lemma PagesAreOrphans(cfg: Config)
    requires KeysIdentifyContent(cfg)
    ensures TableSound(cfg, PageTable(cfg)) && MapSound(cfg, PageTable(cfg), map[])
    ensures |OrphanKeys(PageTable(cfg), map[])| >= 513
  {
    var batch := Pages(513);
    forall f | f in batch
      ensures Storable(f) && f.chunks != []
    {
      var i :| 0 <= i < |batch| && batch[i] == f;
      PageStorable(i);
    }
    UnmappedTable(cfg, batch);
    PagesHaveOwnKeys(cfg, 513);
    SubsetSize(BatchKeys(cfg, batch), OrphanKeys(PageTable(cfg), map[]));
  }

  /**
   With 513 unreferenced keys and a store that fails from its fifth call on, the first group is
   deleted, the pass reports an error, and the count of removed rows stays at zero.
   */
  method PartialCollectionIsNotCounted(cfg: Config) returns (rowsBefore: nat, rowsAfter: nat, stats: GcStats,
                                       result: GcResult)
    requires KeysIdentifyContent(cfg)
    ensures rowsAfter < rowsBefore && result == Failed(OrphansFailed) && stats == GcStats(0, 0, 0)
  {
    PagesAreOrphans(cfg);
    var store := new LanceStore.Open(cfg, n => n >= 4, PageTable(cfg), map[]);
    rowsBefore := |store.table|;
    assert store.fails(4) && Needed(store) >= 6;
    stats, result := GcOrphansAfterDelete(store, GcStats(0, 0, 0), false, Fine);
    rowsAfter := |store.table|;
  }
}
