/**
 The two tables of the store as values: the shared content rows, and the map that binds each
 `(corpus, root, file_ref)` to a content key. The operations below are the ones a batch write and
 the orphan collection apply to them.
 */
module StoreTables {
  import opened Records

  /** Hex text of a content key. */
  type Key = Text

  /** What a store is opened with: key derivation, the embedder and whether it is used. */
  datatype Config = Config(derive: PreparedFile -> Key, embed: Text -> Vector, enabled: bool)

  datatype ContentRow = ContentRow(
    key: Key, summary: Text, keywords: seq<Text>, frontmatter: Option<Text>, indexedAtMs: int,
    chunk: Chunk, vector: Option<Vector>)

  datatype FileId = FileId(corpus: Text, root: Text, fileRef: Text)

  datatype MapRow = MapRow(mtimeMs: int, contentHash: Text, key: Key, chunkCount: nat, indexedAtMs: int)

  type Files = map<FileId, MapRow>

  /** A file of a batch with the key derived from it. */
  datatype Keyed = Keyed(file: PreparedFile, key: Key)

  type Embedded = map<Key, seq<Vector>>

  // ----- reading the content table -----

  function RowsFor(table: seq<ContentRow>, key: Key): seq<ContentRow> {
    if table == [] then []
    else (if table[0].key == key then [table[0]] else []) + RowsFor(table[1..], key)
  }

  /** The existence test of `stored_content_keys`: a row of the key with `ord = 0`. */
  predicate Stored(table: seq<ContentRow>, key: Key) {
    exists i :: 0 <= i < |table| && table[i].key == key && table[i].chunk.ord == 0
  }

  /** The rows a deletion of `keys` leaves. */
  function DropKeys(table: seq<ContentRow>, keys: set<Key>): seq<ContentRow> {
    if table == [] then []
    else (if table[0].key in keys then [] else [table[0]]) + DropKeys(table[1..], keys)
  }

  lemma {:induction false} RowsForConcat(a: seq<ContentRow>, b: seq<ContentRow>, key: Key)
    ensures RowsFor(a + b, key) == RowsFor(a, key) + RowsFor(b, key)
  {
    if a == [] {
      assert a + b == b;
    } else {
      RowsForConcat(a[1..], b, key);
      assert (a + b)[0] == a[0] && (a + b)[1..] == a[1..] + b;
      var head := if a[0].key == key then [a[0]] else [];
      assert head + (RowsFor(a[1..], key) + RowsFor(b, key)) == (head + RowsFor(a[1..], key)) + RowsFor(b, key);
    }
  }

  lemma {:induction false} RowsForDrop(table: seq<ContentRow>, keys: set<Key>, key: Key)
    ensures RowsFor(DropKeys(table, keys), key) == if key in keys then [] else RowsFor(table, key)
  {
    if table != [] {
      RowsForDrop(table[1..], keys, key);
      var rest := DropKeys(table[1..], keys);
      if table[0].key in keys {
        assert DropKeys(table, keys) == rest;
      } else {
        assert DropKeys(table, keys) == [table[0]] + rest;
        assert ([table[0]] + rest)[1..] == rest;
      }
    }
  }

  lemma {:induction false} RowsForMember(table: seq<ContentRow>, key: Key, row: ContentRow)
    ensures row in RowsFor(table, key) <==> row in table && row.key == key
  {
    if table != [] {
      RowsForMember(table[1..], key, row);
    }
  }

  lemma {:induction false} DropKeysMember(table: seq<ContentRow>, keys: set<Key>, row: ContentRow)
    ensures row in DropKeys(table, keys) <==> row in table && row.key !in keys
  {
    if table != [] {
      DropKeysMember(table[1..], keys, row);
    }
  }

  /** The rows of a key are numbered from zero, each ord once, in ord order. */
  predicate OrdsComplete(rows: seq<ContentRow>) {
    forall i :: 0 <= i < |rows| ==> rows[i].chunk.ord == i
  }

  /** Every key of the table has complete ords. */
  ghost predicate OrdsSound(table: seq<ContentRow>) {
    forall k :: OrdsComplete(RowsFor(table, k))
  }

  /** Why one `ord = 0` lookup decides whether a key has content. */
  lemma StoredIsFaithful(table: seq<ContentRow>, key: Key)
    requires OrdsComplete(RowsFor(table, key))
    ensures Stored(table, key) <==> RowsFor(table, key) != []
  {
    var rows := RowsFor(table, key);
    if rows != [] {
      assert rows[0] in rows;
      RowsForMember(table, key, rows[0]);
    }
    if Stored(table, key) {
      var i :| 0 <= i < |table| && table[i].key == key && table[i].chunk.ord == 0;
      RowsForMember(table, key, table[i]);
    }
  }

  // ----- what a row shows to a reader -----

  datatype RowView = RowView(
    summary: Text, keywords: seq<Text>, frontmatter: Option<Text>, chunk: Chunk, vector: Option<Vector>)

  function ViewOf(row: ContentRow): RowView {
    RowView(row.summary, row.keywords, row.frontmatter, row.chunk, row.vector)
  }

  function Views(rows: seq<ContentRow>): (views: seq<RowView>)
    ensures |views| == |rows|
  {
    seq(|rows|, i requires 0 <= i < |rows| => ViewOf(rows[i]))
  }

  /** The vector a chunk must carry: its own search text embedded, or null when embeddings are off. */
  function ChunkVector(cfg: Config, chunk: Chunk): Option<Vector> {
    if cfg.enabled then Some(cfg.embed(chunk.searchText)) else None
  }

  /** The rows a store private to one root would hold for `shared`. */
  function SharedViews(cfg: Config, shared: Shared): (views: seq<RowView>)
    ensures |views| == |shared.chunks|
  {
    seq(|shared.chunks|, i requires 0 <= i < |shared.chunks| =>
      RowView(shared.summary, shared.keywords, shared.frontmatter, shared.chunks[i],
              ChunkVector(cfg, shared.chunks[i])))
  }

  function FileViews(cfg: Config, file: PreparedFile): seq<RowView> {
    SharedViews(cfg, SharedOf(file))
  }

  // ----- writing -----

  function ContentRows(file: PreparedFile, key: Key, vectors: Option<seq<Vector>>): (rows: seq<ContentRow>)
    requires vectors.Some? ==> |vectors.value| == |file.chunks|
    ensures |rows| == |file.chunks|
  {
    seq(|file.chunks|, i requires 0 <= i < |file.chunks| =>
      ContentRow(key, file.summary, file.keywords, file.frontmatter, file.indexedAtMs, file.chunks[i],
                 if vectors.Some? then Some(vectors.value[i]) else None))
  }

  function KeyedBatch(cfg: Config, batch: seq<PreparedFile>): (keyed: seq<Keyed>)
    ensures |keyed| == |batch|
  {
    seq(|batch|, i requires 0 <= i < |batch| => Keyed(batch[i], cfg.derive(batch[i])))
  }

  /** One entry per distinct key that has chunks and is not in `stored`: the first file that has it. */
  function NewContent(keyed: seq<Keyed>, stored: set<Key>): (entries: seq<Keyed>) {
    if keyed == [] then []
    else if keyed[0].key in stored || keyed[0].file.chunks == [] then NewContent(keyed[1..], stored)
    else [keyed[0]] + NewContent(keyed[1..], stored + {keyed[0].key})
  }

  predicate DistinctKeys(entries: seq<Keyed>) {
    forall i, j :: 0 <= i < j < |entries| ==> entries[i].key != entries[j].key
  }

  lemma {:induction false} NewContentEntries(keyed: seq<Keyed>, stored: set<Key>)
    ensures forall e :: e in NewContent(keyed, stored) ==> e in keyed && e.key !in stored && e.file.chunks != []
    ensures DistinctKeys(NewContent(keyed, stored))
  {
    if keyed != [] {
      NewContentEntries(keyed[1..], stored);
      NewContentEntries(keyed[1..], stored + {keyed[0].key});
    }
  }

  lemma {:induction false} NewContentCovers(keyed: seq<Keyed>, stored: set<Key>, e: Keyed)
    requires e in keyed && e.key !in stored && e.file.chunks != []
    ensures exists n :: n in NewContent(keyed, stored) && n.key == e.key
  {
    var all := NewContent(keyed, stored);
    if keyed[0].key in stored || keyed[0].file.chunks == [] {
      NewContentCovers(keyed[1..], stored, e);
    } else if keyed[0].key == e.key {
      assert all[0] in all;
    } else {
      NewContentCovers(keyed[1..], stored + {keyed[0].key}, e);
      var n :| n in NewContent(keyed[1..], stored + {keyed[0].key}) && n.key == e.key;
      assert n in all;
    }
  }

  function FileVectors(cfg: Config, file: PreparedFile): (vectors: seq<Vector>)
    ensures |vectors| == |file.chunks|
  {
    seq(|file.chunks|, i requires 0 <= i < |file.chunks| => cfg.embed(file.chunks[i].searchText))
  }

  /** Vectors prepared ahead for some keys are the ones their files embed to. */
  predicate EmbeddedFor(cfg: Config, embedded: Embedded, entries: seq<Keyed>) {
    && (!cfg.enabled ==> embedded == map[])
    && forall e :: e in entries && e.key in embedded ==> embedded[e.key] == FileVectors(cfg, e.file)
  }

  /** The vectors `write_content` pairs with an entry: prepared ones, or ones made under the gate. */
  function EntryVectors(cfg: Config, embedded: Embedded, e: Keyed): Option<seq<Vector>> {
    if e.key in embedded then Some(embedded[e.key])
    else if cfg.enabled then Some(FileVectors(cfg, e.file))
    else None
  }

  function NewRows(cfg: Config, embedded: Embedded, entries: seq<Keyed>): seq<ContentRow>
    requires EmbeddedFor(cfg, embedded, entries)
  {
    if entries == [] then []
    else
      assert entries[0] in entries;
      ContentRows(entries[0].file, entries[0].key, EntryVectors(cfg, embedded, entries[0]))
      + NewRows(cfg, embedded, entries[1..])
  }

  lemma {:induction false} RowsForUniform(rows: seq<ContentRow>, key: Key, owner: Key)
    requires forall i :: 0 <= i < |rows| ==> rows[i].key == owner
    ensures RowsFor(rows, key) == if key == owner then rows else []
  {
    if rows != [] {
      RowsForUniform(rows[1..], key, owner);
      assert rows == [rows[0]] + rows[1..];
    }
  }

  /** The rows of a key among the new rows: those of the first entry, if it has the key, then the rest. */
  lemma NewRowsSplit(cfg: Config, embedded: Embedded, entries: seq<Keyed>, key: Key)
    requires EmbeddedFor(cfg, embedded, entries) && entries != []
    ensures entries[0] in entries
    ensures RowsFor(NewRows(cfg, embedded, entries), key)
      == (if entries[0].key == key
          then ContentRows(entries[0].file, key, EntryVectors(cfg, embedded, entries[0])) else [])
         + RowsFor(NewRows(cfg, embedded, entries[1..]), key)
  {
    var head := entries[0];
    var rows := ContentRows(head.file, head.key, EntryVectors(cfg, embedded, head));
    RowsForConcat(rows, NewRows(cfg, embedded, entries[1..]), key);
    RowsForUniform(rows, key, head.key);
  }

  lemma {:induction false} NewRowsAbsent(cfg: Config, embedded: Embedded, entries: seq<Keyed>, key: Key)
    requires EmbeddedFor(cfg, embedded, entries)
    requires forall e :: e in entries ==> e.key != key
    ensures RowsFor(NewRows(cfg, embedded, entries), key) == []
  {
    if entries != [] {
      NewRowsSplit(cfg, embedded, entries, key);
      NewRowsAbsent(cfg, embedded, entries[1..], key);
    }
  }

  lemma {:induction false} NewRowsPresent(cfg: Config, embedded: Embedded, entries: seq<Keyed>, n: nat)
    requires EmbeddedFor(cfg, embedded, entries) && DistinctKeys(entries) && n < |entries|
    ensures entries[n] in entries
    ensures RowsFor(NewRows(cfg, embedded, entries), entries[n].key)
      == ContentRows(entries[n].file, entries[n].key, EntryVectors(cfg, embedded, entries[n]))
  {
    var rest := entries[1..];
    NewRowsSplit(cfg, embedded, entries, entries[n].key);
    if n == 0 {
      assert forall e :: e in rest ==> e.key != entries[0].key;
      NewRowsAbsent(cfg, embedded, rest, entries[0].key);
    } else {
      assert rest[n-1] == entries[n] && entries[0].key != entries[n].key;
      NewRowsPresent(cfg, embedded, rest, n - 1);
    }
  }

  /** New rows hold exactly what a private store would hold for the entry. */
  lemma ContentRowsAreFaithful(cfg: Config, embedded: Embedded, entries: seq<Keyed>, e: Keyed)
    requires EmbeddedFor(cfg, embedded, entries) && e in entries && WellFormed(e.file)
    ensures var rows := ContentRows(e.file, e.key, EntryVectors(cfg, embedded, e));
      OrdsComplete(rows) && Views(rows) == FileViews(cfg, e.file)
  {
    var rows := ContentRows(e.file, e.key, EntryVectors(cfg, embedded, e));
    forall i | 0 <= i < |rows|
      ensures ViewOf(rows[i]) == FileViews(cfg, e.file)[i] && rows[i].chunk.ord == i
    {
    }
  }

  // ----- the file map -----

  function IdOf(file: PreparedFile): FileId {
    FileId(file.corpusKey.name, file.corpusKey.root, file.fileRef)
  }

  function MapRowOf(cfg: Config, file: PreparedFile): MapRow {
    MapRow(file.mtimeMs, file.contentHash, cfg.derive(file), |file.chunks|, file.indexedAtMs)
  }

  /** `merge_insert` on `(corpus, root, file_ref)`: matched rows are replaced, others inserted. */
  function MergeFiles(cfg: Config, files: Files, batch: seq<PreparedFile>): Files {
    if batch == [] then files
    else MergeFiles(cfg, files, batch[..|batch|-1])[IdOf(batch[|batch|-1]) := MapRowOf(cfg, batch[|batch|-1])]
  }

  function DropFile(files: Files, id: FileId): Files {
    files - {id}
  }

  function DropRoot(files: Files, root: Text): Files {
    map id | id in files && id.root != root :: files[id]
  }

  function SetMtime(files: Files, id: FileId, mtimeMs: int): Files {
    if id in files then files[id := files[id].(mtimeMs := mtimeMs)] else files
  }

  /** The keys some map row references. */
  predicate Mapped(files: Files, key: Key) {
    exists id :: id in files && files[id].key == key
  }
}
