/**
 Batch writes, deletions and orphan collection as interleaved steps over the two tables.

 A batch is prepared without the write gate and committed under it; the collection scans without
 the gate and deletes under it; file-map deletions and mtime updates never take it. Any operation
 may stop between two of its steps. A collection that is dropped while it waits for a group delete
 frees the gate, but the delete is a task of its own and still happens, at any later moment.

 The store shows each root the files a store private to that root would hold, in every state of a
 run, if and only if no late delete takes content that is mapped by then and no commit maps content
 that a late delete took after its lookup.
 */
module StoreProtocol {
  import opened Records
  import opened StoreTables
  import ContentKeys

  type OpId = nat

  datatype Op =
    | Prepared(batch: seq<PreparedFile>, embedded: Embedded)
    | Checking(batch: seq<PreparedFile>, embedded: Embedded, unchecked: set<Key>, stored: set<Key>)
    | ContentWritten(batch: seq<PreparedFile>)
    | MapWritten
    | StoredScanned(stored: set<Key>)
    | Candidates(candidates: set<Key>)
    | Sweeping(left: set<Key>)
    | Deleting(left: set<Key>, orphans: set<Key>)
    /** A group delete whose collection was dropped; it runs on without the gate. */
    | Outstanding(orphans: set<Key>)

  datatype State = State(table: seq<ContentRow>, files: Files, gate: Option<OpId>, ops: map<OpId, Op>)

  const INIT := State([], map[], None, map[])

  datatype Step =
    | Prepare(op: OpId, batch: seq<PreparedFile>, precheck: set<Key>)
    | TakeCommitGate(op: OpId)
    | CheckStored(op: OpId, group: set<Key>)
    | AddContent(op: OpId)
    | WriteMap(op: OpId)
    | ScanStored(op: OpId)
    | ScanReferenced(op: OpId)
    | TakeSweepGate(op: OpId)
    | RecheckGroup(op: OpId, group: set<Key>)
    | DeleteGroup(op: OpId)
    | Abandon(op: OpId)
    | LateDelete(op: OpId)
    | End(op: OpId)
    | DeleteFile(id: FileId)
    | DeleteRoot(root: Text)
    | TouchMtime(id: FileId, mtimeMs: int)

  /** A file whose lengths fit the machine and whose chunks are numbered from zero. */
  predicate Storable(file: PreparedFile) {
    WellFormed(file) && ContentKeys.Fits(file)
  }

  predicate StorableBatch(batch: seq<PreparedFile>) {
    forall f :: f in batch ==> Storable(f)
  }

  predicate SameCorpus(batch: seq<PreparedFile>) {
    forall f, g :: f in batch && g in batch ==> f.corpusKey == g.corpusKey
  }

  /** Equal keys mean equal content rows. `ConfigWithEncodedKeys` shows the derivation provides it. */
  ghost predicate KeysIdentifyContent(cfg: Config) {
    forall f, g {:trigger cfg.derive(f), cfg.derive(g)} ::
      Storable(f) && Storable(g) && cfg.derive(f) == cfg.derive(g) ==> SharedOf(f) == SharedOf(g)
  }

  function BatchKeys(cfg: Config, batch: seq<PreparedFile>): set<Key> {
    set f | f in batch :: cfg.derive(f)
  }

  /** What `prepare_batch` embeds when its unguarded lookup reported `precheck`. */
  function PreparedVectors(cfg: Config, batch: seq<PreparedFile>, precheck: set<Key>): Embedded {
    if !cfg.enabled then map[] else VectorsOf(cfg, NewContent(KeyedBatch(cfg, batch), precheck))
  }

  function VectorsOf(cfg: Config, entries: seq<Keyed>): Embedded {
    if entries == [] then map[]
    else VectorsOf(cfg, entries[1..])[entries[0].key := FileVectors(cfg, entries[0].file)]
  }

  predicate HoldsGate(s: State, op: OpId) {
    s.gate == Some(op)
  }

  ghost predicate Enabled(cfg: Config, s: State, step: Step) {
    match step
    case Prepare(op, batch, precheck) => op !in s.ops && StorableBatch(batch)
    case TakeCommitGate(op) =>
      op in s.ops && s.ops[op].Prepared? && s.gate.None? && s.ops[op].batch != [] && SameCorpus(s.ops[op].batch)
    case CheckStored(op, group) =>
      op in s.ops && s.ops[op].Checking? && HoldsGate(s, op) && group <= s.ops[op].unchecked
    case AddContent(op) =>
      op in s.ops && s.ops[op].Checking? && HoldsGate(s, op) && s.ops[op].unchecked == {}
      && EmbeddedFor(cfg, s.ops[op].embedded, NewContent(KeyedBatch(cfg, s.ops[op].batch), s.ops[op].stored))
    case WriteMap(op) => op in s.ops && s.ops[op].ContentWritten? && HoldsGate(s, op)
    case ScanStored(op) => op !in s.ops
    case ScanReferenced(op) => op in s.ops && s.ops[op].StoredScanned?
    case TakeSweepGate(op) => op in s.ops && s.ops[op].Candidates? && s.gate.None?
    case RecheckGroup(op, group) =>
      op in s.ops && s.ops[op].Sweeping? && HoldsGate(s, op) && group <= s.ops[op].left
    case DeleteGroup(op) => op in s.ops && s.ops[op].Deleting? && HoldsGate(s, op)
    case Abandon(op) => op in s.ops && s.ops[op].Deleting? && HoldsGate(s, op)
    case LateDelete(op) => op in s.ops && s.ops[op].Outstanding?
    case End(op) => op in s.ops
    case DeleteFile(_) => true
    case DeleteRoot(_) => true
    case TouchMtime(_, _) => true
  }

  /** The state after one enabled step. */
  ghost function After(cfg: Config, s: State, step: Step): State
    requires Enabled(cfg, s, step)
  {
    match step
    case Prepare(op, batch, precheck) =>
      s.(ops := s.ops[op := Prepared(batch, PreparedVectors(cfg, batch, precheck))])
    case TakeCommitGate(op) =>
      var p := s.ops[op];
      s.(gate := Some(op), ops := s.ops[op := Checking(p.batch, p.embedded, BatchKeys(cfg, p.batch), {})])
    case CheckStored(op, group) =>
      var p := s.ops[op];
      var found := set k | k in group && Stored(s.table, k);
      s.(ops := s.ops[op := p.(unchecked := p.unchecked - group, stored := p.stored + found)])
    case AddContent(op) =>
      var p := s.ops[op];
      var entries := NewContent(KeyedBatch(cfg, p.batch), p.stored);
      s.(table := s.table + NewRows(cfg, p.embedded, entries), ops := s.ops[op := ContentWritten(p.batch)])
    case WriteMap(op) =>
      s.(files := MergeFiles(cfg, s.files, s.ops[op].batch), ops := s.ops[op := MapWritten])
    case ScanStored(op) =>
      s.(ops := s.ops[op := StoredScanned(set r | r in s.table && r.chunk.ord == 0 :: r.key)])
    case ScanReferenced(op) =>
      s.(ops := s.ops[op := Candidates(set k | k in s.ops[op].stored && !Mapped(s.files, k))])
    case TakeSweepGate(op) =>
      s.(gate := Some(op), ops := s.ops[op := Sweeping(s.ops[op].candidates)])
    case RecheckGroup(op, group) =>
      var orphans := set k | k in group && !Mapped(s.files, k);
      s.(ops := s.ops[op := Deleting(s.ops[op].left - group, orphans)])
    case DeleteGroup(op) =>
      var p := s.ops[op];
      s.(table := DropKeys(s.table, p.orphans), ops := s.ops[op := Sweeping(p.left)])
    case Abandon(op) =>
      s.(gate := None, ops := s.ops[op := Outstanding(s.ops[op].orphans)])
    case LateDelete(op) =>
      s.(table := DropKeys(s.table, s.ops[op].orphans), ops := s.ops - {op})
    case End(op) =>
      s.(gate := if s.gate == Some(op) then None else s.gate, ops := s.ops - {op})
    case DeleteFile(id) => s.(files := DropFile(s.files, id))
    case DeleteRoot(root) => s.(files := DropRoot(s.files, root))
    case TouchMtime(id, mtimeMs) => s.(files := SetMtime(s.files, id, mtimeMs))
  }

  // ----- the store each root believes it has -----

  /** One file as a store without sharing would keep it. */
  datatype Copy = Copy(mtimeMs: int, contentHash: Text, indexedAtMs: int, rows: seq<RowView>)

  type Private = map<FileId, Copy>

  function PrivateCopy(cfg: Config, file: PreparedFile): Copy {
    Copy(file.mtimeMs, file.contentHash, file.indexedAtMs, FileViews(cfg, file))
  }

  function PutCopies(cfg: Config, p: Private, batch: seq<PreparedFile>): Private {
    if batch == [] then p
    else PutCopies(cfg, p, batch[..|batch|-1])[IdOf(batch[|batch|-1]) := PrivateCopy(cfg, batch[|batch|-1])]
  }

  /** What a step means for the private store. Only the map write of a commit and the ungated
      map operations mean anything. */
  ghost function Effect(cfg: Config, s: State, step: Step, p: Private): Private
    requires Enabled(cfg, s, step)
  {
    match step
    case WriteMap(op) => PutCopies(cfg, p, s.ops[op].batch)
    case DeleteFile(id) => p - {id}
    case DeleteRoot(root) => map id | id in p && id.root != root :: p[id]
    case TouchMtime(id, mtimeMs) => if id in p then p[id := p[id].(mtimeMs := mtimeMs)] else p
    case _ => p
  }

  function CopyOf(table: seq<ContentRow>, row: MapRow): Copy {
    Copy(row.mtimeMs, row.contentHash, row.indexedAtMs, Views(RowsFor(table, row.key)))
  }

  /** The private store that the shared tables stand for. */
  function Shown(table: seq<ContentRow>, files: Files): Private {
    map id | id in files :: CopyOf(table, files[id])
  }

  // ----- the invariant -----

  ghost predicate TableSound(cfg: Config, table: seq<ContentRow>) {
    && OrdsSound(table)
    && (forall r :: r in table ==> r.vector == ChunkVector(cfg, r.chunk))
    && (forall f :: Storable(f) ==> KeySound(cfg, table, f))
  }

  ghost predicate KeySound(cfg: Config, table: seq<ContentRow>, f: PreparedFile) {
    var rows := RowsFor(table, cfg.derive(f));
    rows == [] || Views(rows) == FileViews(cfg, f)
  }

  ghost predicate MapSound(cfg: Config, table: seq<ContentRow>, files: Files) {
    && (forall id :: id in files ==> |RowsFor(table, files[id].key)| == files[id].chunkCount)
    && (forall id, f {:trigger files[id], Storable(f)} ::
          id in files && Storable(f) && cfg.derive(f) == files[id].key ==> |f.chunks| == files[id].chunkCount)
  }

  predicate Gated(op: Op) {
    op.Checking? || op.ContentWritten? || op.MapWritten? || op.Sweeping? || op.Deleting?
  }

  ghost predicate EmbeddedSound(cfg: Config, embedded: Embedded) {
    && (!cfg.enabled ==> embedded == map[])
    && forall f :: Storable(f) && cfg.derive(f) in embedded ==> embedded[cfg.derive(f)] == FileVectors(cfg, f)
  }

  ghost predicate OpSound(cfg: Config, table: seq<ContentRow>, files: Files, op: Op) {
    match op
    case Prepared(batch, embedded) => StorableBatch(batch) && EmbeddedSound(cfg, embedded)
    case Checking(batch, embedded, unchecked, stored) =>
      && StorableBatch(batch) && EmbeddedSound(cfg, embedded)
      && forall f :: f in batch ==>
           cfg.derive(f) in unchecked || cfg.derive(f) in stored || RowsFor(table, cfg.derive(f)) == []
    case ContentWritten(batch) => StorableBatch(batch)
    case Deleting(_, orphans) => forall id :: id in files ==> files[id].key !in orphans
    case _ => true
  }

  ghost predicate OpsSound(cfg: Config, s: State) {
    && (forall o :: o in s.ops ==> OpSound(cfg, s.table, s.files, s.ops[o]))
    && (forall o :: o in s.ops && Gated(s.ops[o]) ==> s.gate == Some(o))
    && (s.gate.Some? ==> s.gate.value in s.ops && Gated(s.ops[s.gate.value]))
  }

  /** What every step keeps, late deletes included. */
  ghost predicate Core(cfg: Config, s: State) {
    TableSound(cfg, s.table) && OpsSound(cfg, s)
  }

  ghost predicate Inv(cfg: Config, s: State) {
    Core(cfg, s) && MapSound(cfg, s.table, s.files)
  }

  // ----- which steps are safe -----

  /** The file of the batch that the merge keeps for `id`. */
  function Winner(batch: seq<PreparedFile>, id: FileId): Option<PreparedFile> {
    if batch == [] then None
    else if IdOf(batch[|batch|-1]) == id then Some(batch[|batch|-1])
    else Winner(batch[..|batch|-1], id)
  }

  /** Every file that the merge keeps still has the content its commit found or added. */
  ghost predicate BatchBacked(cfg: Config, table: seq<ContentRow>, batch: seq<PreparedFile>) {
    forall id :: Winner(batch, id).Some? && Winner(batch, id).value.chunks != [] ==>
      RowsFor(table, cfg.derive(Winner(batch, id).value)) != []
  }

  /** No map row that counts chunks references one of `keys`. */
  predicate Unreferenced(files: Files, keys: set<Key>) {
    forall id :: id in files && files[id].key in keys ==> files[id].chunkCount == 0
  }

  /** A late delete is safe while its keys are unreferenced, a map write while its content is there;
      every other step is always safe. */
  ghost predicate Safe(cfg: Config, s: State, step: Step)
    requires Enabled(cfg, s, step)
  {
    match step
    case LateDelete(op) => Unreferenced(s.files, s.ops[op].orphans)
    case WriteMap(op) => BatchBacked(cfg, s.table, s.ops[op].batch)
    case _ => true
  }

  // ----- steps that leave both tables alone -----

  lemma {:induction false} VectorsAreSound(cfg: Config, entries: seq<Keyed>)
    requires KeysIdentifyContent(cfg) && cfg.enabled
    requires forall e :: e in entries ==> Storable(e.file) && e.key == cfg.derive(e.file)
    ensures EmbeddedSound(cfg, VectorsOf(cfg, entries))
  {
    if entries != [] {
      assert entries[0] in entries;
      VectorsAreSound(cfg, entries[1..]);
      forall f | Storable(f) && cfg.derive(f) == entries[0].key
        ensures FileVectors(cfg, f) == FileVectors(cfg, entries[0].file)
      {
        assert SharedOf(f) == SharedOf(entries[0].file);
      }
    }
  }

  lemma PreparedVectorsAreSound(cfg: Config, batch: seq<PreparedFile>, precheck: set<Key>)
    requires KeysIdentifyContent(cfg) && StorableBatch(batch)
    ensures EmbeddedSound(cfg, PreparedVectors(cfg, batch, precheck))
  {
    NewContentEntries(KeyedBatch(cfg, batch), precheck);
    if cfg.enabled {
      VectorsAreSound(cfg, NewContent(KeyedBatch(cfg, batch), precheck));
    }
  }

  lemma EmbeddedForNewContent(cfg: Config, batch: seq<PreparedFile>, embedded: Embedded, stored: set<Key>)
    requires StorableBatch(batch) && EmbeddedSound(cfg, embedded)
    ensures EmbeddedFor(cfg, embedded, NewContent(KeyedBatch(cfg, batch), stored))
  {
    NewContentEntries(KeyedBatch(cfg, batch), stored);
  }

  predicate TouchesTables(step: Step) {
    || step.AddContent? || step.WriteMap? || step.DeleteGroup? || step.LateDelete?
    || step.DeleteFile? || step.DeleteRoot? || step.TouchMtime?
  }

  /** The gate after `op` has become `next`: it holds the gate exactly if `next` is inside. */
  function GateAfter(s: State, op: OpId, next: Op): Option<OpId> {
    if Gated(next) then Some(op) else if s.gate == Some(op) then None else s.gate
  }

  /** An operation may move on to any sound state of its own, and inside the gate if that is free. */
  lemma MoveOp(cfg: Config, s: State, op: OpId, next: Op)
    requires Core(cfg, s) && OpSound(cfg, s.table, s.files, next)
    requires Gated(next) ==> s.gate.None? || s.gate == Some(op)
    ensures Core(cfg, s.(gate := GateAfter(s, op, next), ops := s.ops[op := next]))
  {
    var t := s.(gate := GateAfter(s, op, next), ops := s.ops[op := next]);
    forall o | o in t.ops
      ensures OpSound(cfg, t.table, t.files, t.ops[o]) && (Gated(t.ops[o]) ==> t.gate == Some(o))
    {
      assert o != op ==> OpSound(cfg, s.table, s.files, s.ops[o]);
    }
  }

  lemma EndOp(cfg: Config, s: State, op: OpId)
    requires Core(cfg, s) && Enabled(cfg, s, End(op))
    ensures Core(cfg, After(cfg, s, End(op)))
  {
    var t := After(cfg, s, End(op));
    forall o | o in t.ops
      ensures OpSound(cfg, t.table, t.files, t.ops[o])
    {
      assert OpSound(cfg, s.table, s.files, s.ops[o]);
    }
  }

  lemma CheckedOp(cfg: Config, s: State, op: OpId, group: set<Key>)
    requires Core(cfg, s) && Enabled(cfg, s, CheckStored(op, group))
    ensures OpSound(cfg, s.table, s.files, After(cfg, s, CheckStored(op, group)).ops[op])
  {
    assert OpSound(cfg, s.table, s.files, s.ops[op]);
    forall k | k in group
      ensures Stored(s.table, k) <==> RowsFor(s.table, k) != []
    {
      StoredIsFaithful(s.table, k);
    }
  }

  lemma RecheckedOp(cfg: Config, s: State, op: OpId, group: set<Key>)
    requires Enabled(cfg, s, RecheckGroup(op, group))
    ensures OpSound(cfg, s.table, s.files, After(cfg, s, RecheckGroup(op, group)).ops[op])
  {
    var orphans := set k | k in group && !Mapped(s.files, k);
    assert forall id :: id in s.files ==> s.files[id].key !in orphans;
  }

  /** Where a step that touches no table leaves the operation it belongs to. */
  lemma NextOpSound(cfg: Config, s: State, step: Step)
    requires KeysIdentifyContent(cfg) && Core(cfg, s) && Enabled(cfg, s, step) && !TouchesTables(step) && !step.End?
    ensures OpSound(cfg, s.table, s.files, After(cfg, s, step).ops[step.op])
  {
    match step
    case Prepare(op, batch, precheck) => PreparedVectorsAreSound(cfg, batch, precheck);
    case TakeCommitGate(op) =>
      assert OpSound(cfg, s.table, s.files, s.ops[op]);
    case CheckStored(op, group) => CheckedOp(cfg, s, op, group);
    case RecheckGroup(op, group) => RecheckedOp(cfg, s, op, group);
    case _ =>
  }

  /** Such a step only moves that operation. */
  lemma QuietMoves(cfg: Config, s: State, step: Step)
    requires Core(cfg, s) && Enabled(cfg, s, step) && !TouchesTables(step) && !step.End?
    ensures var t := After(cfg, s, step);
      && step.op in t.ops
      && t == s.(gate := GateAfter(s, step.op, t.ops[step.op]), ops := s.ops[step.op := t.ops[step.op]])
      && (Gated(t.ops[step.op]) ==> s.gate.None? || s.gate == Some(step.op))
  {}

  lemma QuietStep(cfg: Config, s: State, step: Step)
    requires KeysIdentifyContent(cfg) && Core(cfg, s) && Enabled(cfg, s, step) && !TouchesTables(step)
    ensures Core(cfg, After(cfg, s, step))
  {
    if step.End? {
      EndOp(cfg, s, step.op);
    } else {
      NextOpSound(cfg, s, step);
      QuietMoves(cfg, s, step);
      MoveOp(cfg, s, step.op, After(cfg, s, step).ops[step.op]);
    }
  }

  // ----- adding content -----

  /** After an add, a new key has exactly the rows its file stands for. */
  lemma AddedRows(cfg: Config, table: seq<ContentRow>, embedded: Embedded, entries: seq<Keyed>, e: Keyed)
    requires EmbeddedFor(cfg, embedded, entries) && DistinctKeys(entries) && e in entries
    requires RowsFor(table, e.key) == [] && WellFormed(e.file)
    ensures var rows := RowsFor(table + NewRows(cfg, embedded, entries), e.key);
      OrdsComplete(rows) && Views(rows) == FileViews(cfg, e.file)
  {
    RowsForConcat(table, NewRows(cfg, embedded, entries), e.key);
    var n :| 0 <= n < |entries| && entries[n] == e;
    NewRowsPresent(cfg, embedded, entries, n);
    ContentRowsAreFaithful(cfg, embedded, entries, e);
  }

  /** Every other key keeps its rows. */
  lemma KeptRows(cfg: Config, table: seq<ContentRow>, embedded: Embedded, entries: seq<Keyed>, key: Key)
    requires EmbeddedFor(cfg, embedded, entries) && forall e :: e in entries ==> e.key != key
    ensures RowsFor(table + NewRows(cfg, embedded, entries), key) == RowsFor(table, key)
  {
    RowsForConcat(table, NewRows(cfg, embedded, entries), key);
    NewRowsAbsent(cfg, embedded, entries, key);
  }

  predicate HasKey(entries: seq<Keyed>, key: Key) {
    exists e :: e in entries && e.key == key
  }

  /** What an add leaves under a key: sound rows of some shared content, or what was there. */
  lemma RowsAfterAdd(cfg: Config, table: seq<ContentRow>, embedded: Embedded, entries: seq<Keyed>, key: Key)
    returns (e: Option<Keyed>)
    requires EmbeddedFor(cfg, embedded, entries) && DistinctKeys(entries)
    requires forall x :: x in entries ==> RowsFor(table, x.key) == [] && WellFormed(x.file)
    ensures e.None? ==> !HasKey(entries, key)
    ensures e.None? ==> RowsFor(table + NewRows(cfg, embedded, entries), key) == RowsFor(table, key)
    ensures e.Some? ==> e.value in entries && e.value.key == key
    ensures e.Some? ==> var rows := RowsFor(table + NewRows(cfg, embedded, entries), key);
      OrdsComplete(rows) && Views(rows) == FileViews(cfg, e.value.file)
  {
    if HasKey(entries, key) {
      var x :| x in entries && x.key == key;
      AddedRows(cfg, table, embedded, entries, x);
      e := Some(x);
    } else {
      KeptRows(cfg, table, embedded, entries, key);
      e := None;
    }
  }

  lemma AddKeepsVectors(cfg: Config, table: seq<ContentRow>, added: seq<ContentRow>, r: ContentRow, shared: Shared)
    requires r in table + added && Views(RowsFor(table + added, r.key)) == SharedViews(cfg, shared)
    ensures r.vector == ChunkVector(cfg, r.chunk)
  {
    var rows := RowsFor(table + added, r.key);
    RowsForMember(table + added, r.key, r);
    var i :| 0 <= i < |rows| && rows[i] == r;
    assert Views(rows)[i] == ViewOf(r);
    assert SharedViews(cfg, shared)[i].vector == ChunkVector(cfg, SharedViews(cfg, shared)[i].chunk);
  }

  lemma AddKeepsTable(cfg: Config, table: seq<ContentRow>, embedded: Embedded, entries: seq<Keyed>)
    requires KeysIdentifyContent(cfg) && TableSound(cfg, table)
    requires EmbeddedFor(cfg, embedded, entries) && DistinctKeys(entries)
    requires forall e :: e in entries ==> RowsFor(table, e.key) == [] && Storable(e.file) && e.key == cfg.derive(e.file)
    ensures TableSound(cfg, table + NewRows(cfg, embedded, entries))
  {
    var added := NewRows(cfg, embedded, entries);
    var after := table + added;
    forall k
      ensures OrdsComplete(RowsFor(after, k))
    {
      var e := RowsAfterAdd(cfg, table, embedded, entries, k);
    }
    forall f | Storable(f)
      ensures KeySound(cfg, after, f)
    {
      var e := RowsAfterAdd(cfg, table, embedded, entries, cfg.derive(f));
      assert KeySound(cfg, table, f);
      assert e.Some? ==> SharedOf(e.value.file) == SharedOf(f);
    }
    forall r | r in after
      ensures r.vector == ChunkVector(cfg, r.chunk)
    {
      var e := RowsAfterAdd(cfg, table, embedded, entries, r.key);
      if e.Some? {
        AddKeepsVectors(cfg, table, added, r, SharedOf(e.value.file));
      } else {
        RowsForMember(after, r.key, r);
        RowsForMember(table, r.key, r);
      }
    }
  }

  lemma AddKeepsMap(cfg: Config, table: seq<ContentRow>, files: Files, embedded: Embedded, entries: seq<Keyed>)
    requires MapSound(cfg, table, files)
    requires EmbeddedFor(cfg, embedded, entries) && DistinctKeys(entries)
    requires forall e :: e in entries ==>
      RowsFor(table, e.key) == [] && Storable(e.file) && e.key == cfg.derive(e.file) && e.file.chunks != []
    ensures MapSound(cfg, table + NewRows(cfg, embedded, entries), files)
    ensures Shown(table + NewRows(cfg, embedded, entries), files) == Shown(table, files)
  {
    forall id | id in files
      ensures RowsFor(table + NewRows(cfg, embedded, entries), files[id].key) == RowsFor(table, files[id].key)
    {
      assert forall e :: e in entries ==> e.key != files[id].key;
      KeptRows(cfg, table, embedded, entries, files[id].key);
    }
  }

  lemma AddContentCore(cfg: Config, s: State, op: OpId)
    requires KeysIdentifyContent(cfg) && Core(cfg, s) && Enabled(cfg, s, AddContent(op))
    ensures Core(cfg, After(cfg, s, AddContent(op)))
  {
    var p := s.ops[op];
    var entries := NewContent(KeyedBatch(cfg, p.batch), p.stored);
    NewContentEntries(KeyedBatch(cfg, p.batch), p.stored);
    AddKeepsTable(cfg, s.table, p.embedded, entries);
    var t := After(cfg, s, AddContent(op));
    forall o | o in t.ops
      ensures OpSound(cfg, t.table, t.files, t.ops[o])
    {
      assert o == op || !Gated(s.ops[o]);
    }
  }

  /** Adding content is invisible, whatever happened between the lookup and the add. */
  lemma AddContentStep(cfg: Config, s: State, op: OpId)
    requires KeysIdentifyContent(cfg) && Inv(cfg, s) && Enabled(cfg, s, AddContent(op))
    ensures Inv(cfg, After(cfg, s, AddContent(op)))
    ensures Shown(After(cfg, s, AddContent(op)).table, s.files) == Shown(s.table, s.files)
  {
    var p := s.ops[op];
    NewContentEntries(KeyedBatch(cfg, p.batch), p.stored);
    AddContentCore(cfg, s, op);
    AddKeepsMap(cfg, s.table, s.files, p.embedded, NewContent(KeyedBatch(cfg, p.batch), p.stored));
  }

  /** If the content found by the lookup is still there, the add completes the batch. */
  lemma AddBacksBatch(cfg: Config, s: State, op: OpId, f: PreparedFile)
    requires Core(cfg, s) && Enabled(cfg, s, AddContent(op)) && f in s.ops[op].batch && f.chunks != []
    requires cfg.derive(f) in s.ops[op].stored ==> RowsFor(s.table, cfg.derive(f)) != []
    ensures RowsFor(After(cfg, s, AddContent(op)).table, cfg.derive(f)) != []
  {
    var p := s.ops[op];
    var keyed := KeyedBatch(cfg, p.batch);
    var entries := NewContent(keyed, p.stored);
    NewContentEntries(keyed, p.stored);
    var n :| 0 <= n < |p.batch| && p.batch[n] == f;
    assert keyed[n] == Keyed(f, cfg.derive(f));
    if cfg.derive(f) !in p.stored {
      NewContentCovers(keyed, p.stored, keyed[n]);
    }
    assert OpSound(cfg, s.table, s.files, p);
    forall x | x in entries
      ensures RowsFor(s.table, x.key) == [] && WellFormed(x.file)
    {
      var i :| 0 <= i < |keyed| && keyed[i] == x;
      assert p.batch[i] in p.batch;
    }
    var e := RowsAfterAdd(cfg, s.table, p.embedded, entries, cfg.derive(f));
    assert e.Some? ==> e.value.file.chunks != [];
  }

  // ----- removing content -----

  lemma DropKeepsTable(cfg: Config, table: seq<ContentRow>, keys: set<Key>)
    requires TableSound(cfg, table)
    ensures TableSound(cfg, DropKeys(table, keys))
  {
    forall k
      ensures OrdsComplete(RowsFor(DropKeys(table, keys), k))
    {
      RowsForDrop(table, keys, k);
    }
    forall f | Storable(f)
      ensures KeySound(cfg, DropKeys(table, keys), f)
    {
      RowsForDrop(table, keys, cfg.derive(f));
      assert KeySound(cfg, table, f);
    }
    forall r | r in DropKeys(table, keys)
      ensures r.vector == ChunkVector(cfg, r.chunk)
    {
      DropKeysMember(table, keys, r);
    }
  }

  lemma DropKeepsMap(cfg: Config, table: seq<ContentRow>, files: Files, keys: set<Key>)
    requires MapSound(cfg, table, files) && Unreferenced(files, keys)
    ensures MapSound(cfg, DropKeys(table, keys), files)
    ensures Shown(DropKeys(table, keys), files) == Shown(table, files)
  {
    forall id | id in files
      ensures RowsFor(DropKeys(table, keys), files[id].key) == RowsFor(table, files[id].key)
    {
      RowsForDrop(table, keys, files[id].key);
    }
  }

  lemma DropCore(cfg: Config, s: State, step: Step)
    requires Core(cfg, s) && Enabled(cfg, s, step) && (step.DeleteGroup? || step.LateDelete?)
    ensures Core(cfg, After(cfg, s, step))
  {
    var orphans := s.ops[step.op].orphans;
    DropKeepsTable(cfg, s.table, orphans);
    var t := After(cfg, s, step);
    forall o | o in t.ops
      ensures OpSound(cfg, t.table, t.files, t.ops[o])
    {
      if o != step.op {
        assert OpSound(cfg, s.table, s.files, s.ops[o]);
        DropKeepsOp(cfg, s.table, s.files, s.ops[o], orphans);
      }
    }
  }

  /** What an operation in flight relies on survives any deletion of content. */
  lemma DropKeepsOp(cfg: Config, table: seq<ContentRow>, files: Files, op: Op, keys: set<Key>)
    requires OpSound(cfg, table, files, op)
    ensures OpSound(cfg, DropKeys(table, keys), files, op)
  {
    if op.Checking? {
      forall f | f in op.batch
        ensures RowsFor(table, cfg.derive(f)) == [] ==> RowsFor(DropKeys(table, keys), cfg.derive(f)) == []
      {
        RowsForDrop(table, keys, cfg.derive(f));
      }
    }
  }

  /** Under the gate a group delete is invisible: what the recheck found unmapped still is. */
  lemma DeleteGroupStep(cfg: Config, s: State, op: OpId)
    requires Inv(cfg, s) && Enabled(cfg, s, DeleteGroup(op))
    ensures Inv(cfg, After(cfg, s, DeleteGroup(op)))
    ensures Shown(After(cfg, s, DeleteGroup(op)).table, s.files) == Shown(s.table, s.files)
    ensures forall r :: r in After(cfg, s, DeleteGroup(op)).table <==> r in s.table && r.key !in s.ops[op].orphans
  {
    forall r
      ensures r in DropKeys(s.table, s.ops[op].orphans) <==> r in s.table && r.key !in s.ops[op].orphans
    {
      DropKeysMember(s.table, s.ops[op].orphans, r);
    }
    DropCore(cfg, s, DeleteGroup(op));
    assert OpSound(cfg, s.table, s.files, s.ops[op]);
    DropKeepsMap(cfg, s.table, s.files, s.ops[op].orphans);
  }

  /** The map rows count the rows of their keys. */
  predicate CountsHold(table: seq<ContentRow>, files: Files) {
    forall id :: id in files ==> |RowsFor(table, files[id].key)| == files[id].chunkCount
  }

  /** A late delete is invisible, and keeps every count, exactly while its keys are unreferenced. */
  lemma LateDeleteStep(cfg: Config, s: State, op: OpId)
    requires Inv(cfg, s) && Enabled(cfg, s, LateDelete(op))
    ensures var t := After(cfg, s, LateDelete(op));
      && (Unreferenced(s.files, s.ops[op].orphans) <==> Shown(t.table, t.files) == Shown(s.table, s.files))
      && (Unreferenced(s.files, s.ops[op].orphans) <==> CountsHold(t.table, t.files))
      && (Unreferenced(s.files, s.ops[op].orphans) ==> Inv(cfg, t))
  {
    var keys, t := s.ops[op].orphans, After(cfg, s, LateDelete(op));
    DropCore(cfg, s, LateDelete(op));
    if Unreferenced(s.files, keys) {
      DropKeepsMap(cfg, s.table, s.files, keys);
    } else {
      var id :| id in s.files && s.files[id].key in keys && s.files[id].chunkCount != 0;
      RowsForDrop(s.table, keys, s.files[id].key);
      assert Shown(t.table, t.files)[id].rows == [] && |Shown(s.table, s.files)[id].rows| != 0;
    }
  }

  // ----- writing the map -----

  /** A stored file's map row shows its private copy. */
  lemma MapRowShowsCopy(cfg: Config, table: seq<ContentRow>, file: PreparedFile)
    requires TableSound(cfg, table) && Storable(file)
    requires file.chunks != [] ==> RowsFor(table, cfg.derive(file)) != []
    ensures |RowsFor(table, cfg.derive(file))| == |file.chunks|
    ensures CopyOf(table, MapRowOf(cfg, file)) == PrivateCopy(cfg, file)
  {
    assert KeySound(cfg, table, file);
    assert Views(RowsFor(table, cfg.derive(file))) == FileViews(cfg, file);
  }

  lemma {:induction false} WinnerIsMember(batch: seq<PreparedFile>, id: FileId)
    ensures Winner(batch, id).Some? ==> Winner(batch, id).value in batch && IdOf(Winner(batch, id).value) == id
  {
    if batch != [] {
      WinnerIsMember(batch[..|batch|-1], id);
    }
  }

  lemma {:induction false} MergeLookup(cfg: Config, files: Files, batch: seq<PreparedFile>, id: FileId)
    ensures var w, merged := Winner(batch, id), MergeFiles(cfg, files, batch);
      && (id in merged <==> w.Some? || id in files)
      && (id in merged ==> merged[id] == if w.Some? then MapRowOf(cfg, w.value) else files[id])
  {
    if batch != [] {
      MergeLookup(cfg, files, batch[..|batch|-1], id);
    }
  }

  lemma {:induction false} PutLookup(cfg: Config, p: Private, batch: seq<PreparedFile>, id: FileId)
    ensures var w, put := Winner(batch, id), PutCopies(cfg, p, batch);
      && (id in put <==> w.Some? || id in p)
      && (id in put ==> put[id] == if w.Some? then PrivateCopy(cfg, w.value) else p[id])
  {
    if batch != [] {
      PutLookup(cfg, p, batch[..|batch|-1], id);
    }
  }

  // ----- what a written batch shows, file by file -----

  /** `p` holds the file under its own corpus, root and reference, with its times, its hash and one row per
      chunk that carries the vector of its own search text. */
  predicate ShowsFile(cfg: Config, p: Private, f: PreparedFile) {
    var id := FileId(f.corpusKey.name, f.corpusKey.root, f.fileRef);
    && id in p && p[id].mtimeMs == f.mtimeMs && p[id].contentHash == f.contentHash && p[id].indexedAtMs == f.indexedAtMs
    && |p[id].rows| == |f.chunks|
    && forall i :: 0 <= i < |f.chunks| ==>
         p[id].rows[i] == RowView(f.summary, f.keywords, f.frontmatter, f.chunks[i],
                                  if cfg.enabled then Some(cfg.embed(f.chunks[i].searchText)) else None)
  }

  /** No file of the batch has this corpus, root and reference. */
  predicate NotIn(batch: seq<PreparedFile>, id: FileId) {
    forall f :: f in batch ==> id != FileId(f.corpusKey.name, f.corpusKey.root, f.fileRef)
  }

  predicate DistinctRefs(batch: seq<PreparedFile>) {
    forall i, j :: 0 <= i < j < |batch| ==>
      batch[i].fileRef != batch[j].fileRef || batch[i].corpusKey != batch[j].corpusKey
  }

  /** `after` is `before` with exactly the files of the batch put in. */
  ghost predicate HoldsBatch(cfg: Config, before: Private, after: Private, batch: seq<PreparedFile>) {
    && (forall f :: f in batch ==> ShowsFile(cfg, after, f))
    && (forall id :: NotIn(batch, id) ==> (id in after <==> id in before) && (id in after ==> after[id] == before[id]))
  }

  lemma {:induction false} OnlyOneWins(batch: seq<PreparedFile>, i: nat)
    requires DistinctRefs(batch) && i < |batch|
    ensures Winner(batch, FileId(batch[i].corpusKey.name, batch[i].corpusKey.root, batch[i].fileRef)) == Some(batch[i])
  {
    var last := |batch| - 1;
    if i < last {
      assert batch[i].corpusKey == CorpusKey(batch[i].corpusKey.name, batch[i].corpusKey.root);
      OnlyOneWins(batch[..last], i);
    }
  }

  /** Putting a batch of distinct references puts each of its files under its own name, and nothing else. */
  lemma PutHoldsBatch(cfg: Config, p: Private, batch: seq<PreparedFile>)
    requires DistinctRefs(batch)
    ensures HoldsBatch(cfg, p, PutCopies(cfg, p, batch), batch)
  {
    forall f | f in batch
      ensures ShowsFile(cfg, PutCopies(cfg, p, batch), f)
    {
      var i :| 0 <= i < |batch| && batch[i] == f;
      OnlyOneWins(batch, i);
      PutLookup(cfg, p, batch, FileId(f.corpusKey.name, f.corpusKey.root, f.fileRef));
    }
    forall id | NotIn(batch, id)
      ensures var put := PutCopies(cfg, p, batch); (id in put <==> id in p) && (id in put ==> put[id] == p[id])
    {
      WinnerIsMember(batch, id);
      PutLookup(cfg, p, batch, id);
    }
  }

  /** After a map write of distinct references whose content is there, each file is shown under its own
      corpus, root and reference, and every other file is as before. */
  lemma WriteMapHoldsBatch(cfg: Config, s: State, op: OpId)
    requires KeysIdentifyContent(cfg) && Inv(cfg, s) && Enabled(cfg, s, WriteMap(op))
    requires DistinctRefs(s.ops[op].batch) && BatchBacked(cfg, s.table, s.ops[op].batch)
    ensures var t := After(cfg, s, WriteMap(op));
      HoldsBatch(cfg, Shown(s.table, s.files), Shown(t.table, t.files), s.ops[op].batch)
  {
    WriteMapStep(cfg, s, op);
    PutHoldsBatch(cfg, Shown(s.table, s.files), s.ops[op].batch);
  }

  lemma WriteMapCore(cfg: Config, s: State, op: OpId)
    requires Core(cfg, s) && Enabled(cfg, s, WriteMap(op))
    ensures Core(cfg, After(cfg, s, WriteMap(op)))
  {
    var t := After(cfg, s, WriteMap(op));
    forall o | o in t.ops
      ensures OpSound(cfg, t.table, t.files, t.ops[o])
    {
      assert o == op || !Gated(s.ops[o]);
    }
  }

  lemma MergeKeepsMap(cfg: Config, table: seq<ContentRow>, files: Files, batch: seq<PreparedFile>)
    requires KeysIdentifyContent(cfg) && TableSound(cfg, table) && MapSound(cfg, table, files)
    requires StorableBatch(batch) && BatchBacked(cfg, table, batch)
    ensures MapSound(cfg, table, MergeFiles(cfg, files, batch))
  {
    var merged := MergeFiles(cfg, files, batch);
    forall id | id in merged
      ensures |RowsFor(table, merged[id].key)| == merged[id].chunkCount
      ensures forall f :: Storable(f) && cfg.derive(f) == merged[id].key ==> |f.chunks| == merged[id].chunkCount
    {
      MergeLookup(cfg, files, batch, id);
      var w := Winner(batch, id);
      if w.Some? {
        WinnerIsMember(batch, id);
        MapRowShowsCopy(cfg, table, w.value);
        forall f | Storable(f) && cfg.derive(f) == merged[id].key
          ensures |f.chunks| == merged[id].chunkCount
        {
          assert SharedOf(f) == SharedOf(w.value);
        }
      }
    }
  }

  lemma MergeShowsCopies(cfg: Config, table: seq<ContentRow>, files: Files, batch: seq<PreparedFile>)
    requires TableSound(cfg, table) && StorableBatch(batch) && BatchBacked(cfg, table, batch)
    ensures Shown(table, MergeFiles(cfg, files, batch)) == PutCopies(cfg, Shown(table, files), batch)
  {
    var shown, put := Shown(table, MergeFiles(cfg, files, batch)), PutCopies(cfg, Shown(table, files), batch);
    forall id
      ensures id in shown <==> id in put
      ensures id in shown ==> shown[id] == put[id]
    {
      MergeLookup(cfg, files, batch, id);
      PutLookup(cfg, Shown(table, files), batch, id);
      WinnerIsMember(batch, id);
      if Winner(batch, id).Some? {
        MapRowShowsCopy(cfg, table, Winner(batch, id).value);
      }
    }
  }

  /** A file mapped without its content shows no rows where a private copy has some. */
  lemma UnbackedMergeShows(cfg: Config, table: seq<ContentRow>, files: Files, batch: seq<PreparedFile>)
    requires !BatchBacked(cfg, table, batch)
    ensures Shown(table, MergeFiles(cfg, files, batch)) != PutCopies(cfg, Shown(table, files), batch)
    ensures !CountsHold(table, MergeFiles(cfg, files, batch))
  {
    var shown, put := Shown(table, MergeFiles(cfg, files, batch)), PutCopies(cfg, Shown(table, files), batch);
    var id :| Winner(batch, id).Some? && Winner(batch, id).value.chunks != []
      && RowsFor(table, cfg.derive(Winner(batch, id).value)) == [];
    MergeLookup(cfg, files, batch, id);
    PutLookup(cfg, Shown(table, files), batch, id);
    assert id in shown && |shown[id].rows| == 0 && |put[id].rows| != 0;
  }

  /** The map write shows the whole batch at once, and keeps every count, exactly while the content of
      the batch is there. */
  lemma WriteMapStep(cfg: Config, s: State, op: OpId)
    requires KeysIdentifyContent(cfg) && Inv(cfg, s) && Enabled(cfg, s, WriteMap(op))
    ensures var t, batch := After(cfg, s, WriteMap(op)), s.ops[op].batch;
      && (BatchBacked(cfg, s.table, batch) <==>
            Shown(t.table, t.files) == PutCopies(cfg, Shown(s.table, s.files), batch))
      && (BatchBacked(cfg, s.table, batch) <==> CountsHold(t.table, t.files))
      && (BatchBacked(cfg, s.table, batch) ==> Inv(cfg, t))
  {
    var batch := s.ops[op].batch;
    WriteMapCore(cfg, s, op);
    assert OpSound(cfg, s.table, s.files, s.ops[op]);
    if BatchBacked(cfg, s.table, batch) {
      MergeKeepsMap(cfg, s.table, s.files, batch);
      MergeShowsCopies(cfg, s.table, s.files, batch);
    } else {
      UnbackedMergeShows(cfg, s.table, s.files, batch);
    }
  }

  /** Dropping or touching map rows changes the private copies in the same way. */
  lemma UngatedEffect(cfg: Config, s: State, step: Step)
    requires Enabled(cfg, s, step) && (step.DeleteFile? || step.DeleteRoot? || step.TouchMtime?)
    ensures Shown(s.table, After(cfg, s, step).files) == Effect(cfg, s, step, Shown(s.table, s.files))
  {}

  lemma UngatedCore(cfg: Config, s: State, step: Step)
    requires Core(cfg, s) && Enabled(cfg, s, step) && (step.DeleteFile? || step.DeleteRoot? || step.TouchMtime?)
    ensures Core(cfg, After(cfg, s, step))
  {
    var t := After(cfg, s, step);
    assert forall id :: id in t.files ==> id in s.files && t.files[id].key == s.files[id].key;
    forall o | o in t.ops
      ensures OpSound(cfg, t.table, t.files, t.ops[o])
    {
      assert OpSound(cfg, s.table, s.files, s.ops[o]);
    }
  }

  lemma UngatedStep(cfg: Config, s: State, step: Step)
    requires Inv(cfg, s) && Enabled(cfg, s, step)
    requires step.DeleteFile? || step.DeleteRoot? || step.TouchMtime?
    ensures Inv(cfg, After(cfg, s, step))
    ensures Shown(s.table, After(cfg, s, step).files) == Effect(cfg, s, step, Shown(s.table, s.files))
  {
    UngatedEffect(cfg, s, step);
    UngatedCore(cfg, s, step);
    var t := After(cfg, s, step);
    assert forall id :: id in t.files ==> id in s.files && t.files[id] == s.files[id].(mtimeMs := t.files[id].mtimeMs);
  }

  // ----- main results -----

  /** The steps that write or delete content rows. */
  predicate TouchesContent(step: Step) {
    step.AddContent? || step.DeleteGroup? || step.LateDelete?
  }

  lemma TableStepCore(cfg: Config, s: State, step: Step)
    requires KeysIdentifyContent(cfg) && Core(cfg, s) && Enabled(cfg, s, step) && TouchesTables(step)
    ensures Core(cfg, After(cfg, s, step))
  {
    if step.AddContent? {
      AddContentCore(cfg, s, step.op);
    } else if TouchesContent(step) {
      DropCore(cfg, s, step);
    } else if step.WriteMap? {
      WriteMapCore(cfg, s, step.op);
    } else {
      UngatedCore(cfg, s, step);
    }
  }

  lemma StepKeepsCore(cfg: Config, s: State, step: Step)
    requires KeysIdentifyContent(cfg) && Core(cfg, s) && Enabled(cfg, s, step)
    ensures Core(cfg, After(cfg, s, step))
  {
    if TouchesTables(step) {
      TableStepCore(cfg, s, step);
    } else {
      QuietStep(cfg, s, step);
    }
  }

  /** The step keeps the invariant if it is safe, and has exactly its effect on the private store if and
      only if it is. */
  ghost predicate RefinesIfSafe(cfg: Config, s: State, step: Step)
    requires Enabled(cfg, s, step)
  {
    var t := After(cfg, s, step);
    && (Safe(cfg, s, step) ==> Inv(cfg, t))
    && (Safe(cfg, s, step) <==> Shown(t.table, t.files) == Effect(cfg, s, step, Shown(s.table, s.files)))
    && (Safe(cfg, s, step) <==> CountsHold(t.table, t.files))
  }

  lemma ContentStepRefines(cfg: Config, s: State, step: Step)
    requires KeysIdentifyContent(cfg) && Inv(cfg, s) && Enabled(cfg, s, step) && TouchesContent(step)
    ensures RefinesIfSafe(cfg, s, step)
  {
    if step.AddContent? {
      AddContentStep(cfg, s, step.op);
    } else if step.DeleteGroup? {
      DeleteGroupStep(cfg, s, step.op);
    } else {
      LateDeleteStep(cfg, s, step.op);
    }
  }

  lemma QuietStepRefines(cfg: Config, s: State, step: Step)
    requires KeysIdentifyContent(cfg) && Inv(cfg, s) && Enabled(cfg, s, step) && !TouchesTables(step)
    ensures RefinesIfSafe(cfg, s, step)
  {
    QuietStep(cfg, s, step);
    assert After(cfg, s, step).table == s.table && After(cfg, s, step).files == s.files;
  }

  /** A step has exactly its effect on the private store, and keeps every count, if and only if it is
      safe; then it keeps the invariant. */
  lemma StepRefines(cfg: Config, s: State, step: Step)
    requires KeysIdentifyContent(cfg) && Inv(cfg, s) && Enabled(cfg, s, step)
    ensures RefinesIfSafe(cfg, s, step)
  {
    if !TouchesTables(step) {
      QuietStepRefines(cfg, s, step);
    } else if TouchesContent(step) {
      ContentStepRefines(cfg, s, step);
    } else if step.WriteMap? {
      WriteMapStep(cfg, s, step.op);
    } else {
      UngatedStep(cfg, s, step);
    }
  }

  /** `steps` can be taken one after the other from `s`. */
  ghost predicate Runs(cfg: Config, s: State, steps: seq<Step>)
    decreases |steps|
  {
    steps == [] || (Enabled(cfg, s, steps[0]) && Runs(cfg, After(cfg, s, steps[0]), steps[1..]))
  }

  ghost function Final(cfg: Config, s: State, steps: seq<Step>): State
    requires Runs(cfg, s, steps)
    decreases |steps|
  {
    if steps == [] then s else Final(cfg, After(cfg, s, steps[0]), steps[1..])
  }

  /** What the same steps make of a private store `p`. */
  ghost function FinalPrivate(cfg: Config, s: State, steps: seq<Step>, p: Private): Private
    requires Runs(cfg, s, steps)
    decreases |steps|
  {
    if steps == [] then p
    else FinalPrivate(cfg, After(cfg, s, steps[0]), steps[1..], Effect(cfg, s, steps[0], p))
  }

  /** Every step of the run is safe when it is taken. */
  ghost predicate SafeAlong(cfg: Config, s: State, steps: seq<Step>)
    requires Runs(cfg, s, steps)
    decreases |steps|
  {
    steps == [] || (Safe(cfg, s, steps[0]) && SafeAlong(cfg, After(cfg, s, steps[0]), steps[1..]))
  }

  /** In every state of the run the tables show what the private store holds by then. */
  ghost predicate ShowsAlong(cfg: Config, s: State, steps: seq<Step>, p: Private)
    requires Runs(cfg, s, steps)
    decreases |steps|
  {
    && Shown(s.table, s.files) == p
    && (steps == [] || ShowsAlong(cfg, After(cfg, s, steps[0]), steps[1..], Effect(cfg, s, steps[0], p)))
  }

  /** In every state of the run each map row counts the rows of its key. */
  ghost predicate CountsAlong(cfg: Config, s: State, steps: seq<Step>)
    requires Runs(cfg, s, steps)
    decreases |steps|
  {
    && CountsHold(s.table, s.files)
    && (steps == [] || CountsAlong(cfg, After(cfg, s, steps[0]), steps[1..]))
  }

  lemma EmptyStore(cfg: Config)
    ensures Inv(cfg, INIT) && Shown(INIT.table, INIT.files) == map[]
  {
    assert forall k :: RowsFor([], k) == [];
  }

  lemma {:induction false} RunRefines(cfg: Config, s: State, steps: seq<Step>)
    requires KeysIdentifyContent(cfg) && Inv(cfg, s) && Runs(cfg, s, steps)
    ensures ShowsAlong(cfg, s, steps, Shown(s.table, s.files)) <==> SafeAlong(cfg, s, steps)
    ensures CountsAlong(cfg, s, steps) <==> SafeAlong(cfg, s, steps)
    ensures SafeAlong(cfg, s, steps) ==> var t := Final(cfg, s, steps);
      Inv(cfg, t) && Shown(t.table, t.files) == FinalPrivate(cfg, s, steps, Shown(s.table, s.files))
    decreases |steps|
  {
    if steps != [] {
      StepRefines(cfg, s, steps[0]);
      if Safe(cfg, s, steps[0]) {
        RunRefines(cfg, After(cfg, s, steps[0]), steps[1..]);
      }
    }
  }

  /** The refinement over whole runs: whatever the interleaving and whatever stops, the shared and
      collected store shows in every state what one private copy per root would hold, if and only if
      every late delete and every map write of the run is safe. */
  lemma StoreRefinesPrivateCopies(cfg: Config, steps: seq<Step>)
    requires KeysIdentifyContent(cfg) && Runs(cfg, INIT, steps)
    ensures ShowsAlong(cfg, INIT, steps, map[]) <==> SafeAlong(cfg, INIT, steps)
    ensures SafeAlong(cfg, INIT, steps) ==> var t := Final(cfg, INIT, steps);
      Inv(cfg, t) && Shown(t.table, t.files) == FinalPrivate(cfg, INIT, steps, map[])
  {
    EmptyStore(cfg);
    RunRefines(cfg, INIT, steps);
  }

  lemma {:induction false} RunKeepsCore(cfg: Config, s: State, steps: seq<Step>)
    requires KeysIdentifyContent(cfg) && Core(cfg, s) && Runs(cfg, s, steps)
    ensures Core(cfg, Final(cfg, s, steps))
    decreases |steps|
  {
    if steps != [] {
      StepKeepsCore(cfg, s, steps[0]);
      RunKeepsCore(cfg, After(cfg, s, steps[0]), steps[1..]);
    }
  }

  lemma ReachableOrds(cfg: Config, steps: seq<Step>)
    requires KeysIdentifyContent(cfg) && Runs(cfg, INIT, steps)
    ensures OrdsSound(Final(cfg, INIT, steps).table)
  {
    EmptyStore(cfg);
    RunKeepsCore(cfg, INIT, steps);
  }

  /** The table facts a reader may rely on in every reachable state, late deletes or not; the counts of
      the map hold in every state of a run if and only if its steps are safe. */
  lemma ReachableTables(cfg: Config, steps: seq<Step>)
    requires KeysIdentifyContent(cfg) && Runs(cfg, INIT, steps)
    ensures var t := Final(cfg, INIT, steps);
      && OrdsSound(t.table)
      && (forall k :: Stored(t.table, k) <==> RowsFor(t.table, k) != [])
      && (forall r :: r in t.table ==> r.vector == if cfg.enabled then Some(cfg.embed(r.chunk.searchText)) else None)
      && (CountsAlong(cfg, INIT, steps) <==> SafeAlong(cfg, INIT, steps))
      && (SafeAlong(cfg, INIT, steps) ==> CountsHold(t.table, t.files))
  {
    EmptyStore(cfg);
    RunKeepsCore(cfg, INIT, steps);
    RunRefines(cfg, INIT, steps);
    var t := Final(cfg, INIT, steps);
    forall k
      ensures Stored(t.table, k) <==> RowsFor(t.table, k) != []
    {
      StoredIsFaithful(t.table, k);
    }
  }

  /** A commit is never stuck on its prepared vectors, one operation at most is inside the gate, and
      the gate is never left taken by an operation that ended. */
  lemma ReachableGate(cfg: Config, steps: seq<Step>)
    requires KeysIdentifyContent(cfg) && Runs(cfg, INIT, steps)
    ensures var s := Final(cfg, INIT, steps);
      && (forall o :: o in s.ops && s.ops[o].Checking? && s.ops[o].unchecked == {} ==> Enabled(cfg, s, AddContent(o)))
      && (forall o, o' :: o in s.ops && o' in s.ops && Gated(s.ops[o]) && Gated(s.ops[o']) ==> o == o')
      && (s.gate.Some? ==> s.gate.value in s.ops && Gated(s.ops[s.gate.value]))
  {
    EmptyStore(cfg);
    RunKeepsCore(cfg, INIT, steps);
    var s := Final(cfg, INIT, steps);
    forall o | o in s.ops && s.ops[o].Checking?
      ensures EmbeddedFor(cfg, s.ops[o].embedded, NewContent(KeyedBatch(cfg, s.ops[o].batch), s.ops[o].stored))
    {
      assert OpSound(cfg, s.table, s.files, s.ops[o]);
      EmbeddedForNewContent(cfg, s.ops[o].batch, s.ops[o].embedded, s.ops[o].stored);
    }
  }

  /** Where operation `o` can go from here. */
  ghost predicate GoesOn(cfg: Config, s: State, o: OpId)
    requires o in s.ops
  {
    && Enabled(cfg, s, End(o))
    && match s.ops[o]
       case Prepared(batch, _) =>
         batch != [] && SameCorpus(batch) && s.gate.None? ==> Enabled(cfg, s, TakeCommitGate(o))
       case Checking(_, _, unchecked, _) =>
         && (forall group :: group <= unchecked ==> Enabled(cfg, s, CheckStored(o, group)))
         && (unchecked == {} ==> Enabled(cfg, s, AddContent(o)))
       case ContentWritten(_) => Enabled(cfg, s, WriteMap(o))
       case MapWritten => true
       case StoredScanned(_) => Enabled(cfg, s, ScanReferenced(o))
       case Candidates(_) => s.gate.None? ==> Enabled(cfg, s, TakeSweepGate(o))
       case Sweeping(left) => forall group :: group <= left ==> Enabled(cfg, s, RecheckGroup(o, group))
       case Deleting(_, _) => Enabled(cfg, s, DeleteGroup(o)) && Enabled(cfg, s, Abandon(o))
       case Outstanding(_) => Enabled(cfg, s, LateDelete(o))
  }

  /** Only a batch of one corpus and root gets into the gate. */
  lemma CommitsAreOfOneCorpus(cfg: Config, s: State, op: OpId)
    requires Enabled(cfg, s, TakeCommitGate(op))
    ensures forall i, j :: 0 <= i < |s.ops[op].batch| && 0 <= j < |s.ops[op].batch| ==>
      s.ops[op].batch[i].corpusKey == s.ops[op].batch[j].corpusKey
  {}

  /** No operation is ever stuck: in every reachable state each has its next step, except that one outside
      the gate may have to wait for it; and whoever holds the gate can end and free it. */
  lemma OperationsGoOn(cfg: Config, steps: seq<Step>, o: OpId)
    requires KeysIdentifyContent(cfg) && Runs(cfg, INIT, steps) && o in Final(cfg, INIT, steps).ops
    ensures var s := Final(cfg, INIT, steps);
      GoesOn(cfg, s, o) && (s.gate == Some(o) ==> After(cfg, s, End(o)).gate.None?)
  {
    EmptyStore(cfg);
    RunKeepsCore(cfg, INIT, steps);
    OperationGoesOn(cfg, Final(cfg, INIT, steps), o);
  }

  lemma OperationGoesOn(cfg: Config, s: State, o: OpId)
    requires Core(cfg, s) && o in s.ops
    ensures GoesOn(cfg, s, o)
  {
    assert OpSound(cfg, s.table, s.files, s.ops[o]);
    assert Gated(s.ops[o]) ==> HoldsGate(s, o);
    if s.ops[o].Checking? {
      EmbeddedForNewContent(cfg, s.ops[o].batch, s.ops[o].embedded, s.ops[o].stored);
    }
  }

  /** Keys derived from the real hash input identify content, for every collision-free hash. */
  lemma ConfigWithEncodedKeys(cfg: Config, hash: Text -> Key, name: Text -> Text, fingerprint: Text)
    requires CollisionFree(hash) && |fingerprint| < ContentKeys.WORD && forall path :: |name(path)| <= |path|
    requires forall f :: cfg.derive(f) == hash(ContentKeys.KeyInput(f, name, fingerprint))
    ensures KeysIdentifyContent(cfg)
  {
    forall f, g | Storable(f) && Storable(g) && cfg.derive(f) == cfg.derive(g)
      ensures SharedOf(f) == SharedOf(g)
    {
      ContentKeys.KeyInputInjective(f, g, name, fingerprint, fingerprint);
    }
  }
}
