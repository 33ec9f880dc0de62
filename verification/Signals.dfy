/** Loading a root's scope, naming its hits and indexing the ranked lists that a query returns. */
module Signals {
  import opened Collections
  import opened Records
  import opened StoreTables
  import opened TopK
  import opened ScopedRetrieval

  // ----- the root's map -----

  predicate InScope(id: FileId, corpus: CorpusKey) {
    id.corpus == corpus.name && id.root == corpus.root
  }

  /** Every mapped file is a map row of the root, filed under its own key. */
  predicate MapsOnly(mapped: MappedFiles, files: Files, corpus: CorpusKey) {
    forall k, i :: k in mapped && 0 <= i < |mapped[k]| ==> BoundTo(mapped[k][i], k, files, corpus)
  }

  predicate BoundTo(f: MappedFile, key: Key, files: Files, corpus: CorpusKey) {
    var id := FileId(corpus.name, corpus.root, f.fileRef);
    id in files && files[id].key == key && files[id].mtimeMs == f.mtimeMs
  }

  predicate MapsAll(mapped: MappedFiles, files: Files, corpus: CorpusKey) {
    forall id :: id in files && InScope(id, corpus) ==>
      files[id].key in mapped && MappedFile(id.fileRef, files[id].mtimeMs) in mapped[files[id].key]
  }

  /** No file reference is listed twice. */
  predicate DistinctFiles(mapped: MappedFiles) {
    && (forall k, i, j :: k in mapped && 0 <= i < j < |mapped[k]| ==> mapped[k][i].fileRef != mapped[k][j].fileRef)
    && (forall k, l, i, j :: k in mapped && l in mapped && k != l && 0 <= i < |mapped[k]| && 0 <= j < |mapped[l]| ==>
          mapped[k][i].fileRef != mapped[l][j].fileRef)
  }

  function FilesOf(mapped: MappedFiles, key: Key): seq<MappedFile> {
    if key in mapped then mapped[key] else []
  }

  /** `mapped` with one more file under `key`. */
  function Bind(mapped: MappedFiles, key: Key, file: MappedFile): MappedFiles {
    mapped[key := FilesOf(mapped, key) + [file]]
  }

  predicate Lists(mapped: MappedFiles, fileRef: Text) {
    exists k, i :: k in mapped && 0 <= i < |mapped[k]| && mapped[k][i].fileRef == fileRef
  }

  lemma BindKeepsOnly(mapped: MappedFiles, key: Key, file: MappedFile, files: Files, corpus: CorpusKey)
    requires MapsOnly(mapped, files, corpus) && BoundTo(file, key, files, corpus)
    ensures MapsOnly(Bind(mapped, key, file), files, corpus)
  {}

  lemma BindKeepsDistinct(mapped: MappedFiles, key: Key, file: MappedFile)
    requires DistinctFiles(mapped) && !Lists(mapped, file.fileRef)
    ensures DistinctFiles(Bind(mapped, key, file))
  {
    var more := Bind(mapped, key, file);
    assert forall k, i :: k in mapped && 0 <= i < |mapped[k]| ==> mapped[k][i].fileRef != file.fileRef;
  }

  method CollectMapped(files: Files, corpus: CorpusKey) returns (mapped: MappedFiles)
    ensures MapsOnly(mapped, files, corpus) && MapsAll(mapped, files, corpus)
    ensures EachKeyHasFiles(mapped) && DistinctFiles(mapped)
  {
    var left := set id | id in files && InScope(id, corpus);
    mapped := map[];
    while left != {}
      invariant left <= files.Keys && forall id :: id in left ==> InScope(id, corpus)
      invariant MapsOnly(mapped, files, corpus) && EachKeyHasFiles(mapped) && DistinctFiles(mapped)
      invariant forall id :: id in left ==> !Lists(mapped, id.fileRef)
      invariant forall id :: id in files && InScope(id, corpus) && id !in left ==>
        MappedFile(id.fileRef, files[id].mtimeMs) in FilesOf(mapped, files[id].key)
      decreases |left|
    {
      var id :| id in left;
      var key, file := files[id].key, MappedFile(id.fileRef, files[id].mtimeMs);
      assert id == FileId(corpus.name, corpus.root, id.fileRef);
      BindKeepsOnly(mapped, key, file, files, corpus);
      BindKeepsDistinct(mapped, key, file);
      BindLists(mapped, key, file);
      left := left - {id};
      mapped := Bind(mapped, key, file);
    }
  }

  lemma BindLists(mapped: MappedFiles, key: Key, file: MappedFile)
    ensures forall r :: Lists(Bind(mapped, key, file), r) ==> r == file.fileRef || Lists(mapped, r)
    ensures forall k, f :: f in FilesOf(mapped, k) ==> f in FilesOf(Bind(mapped, key, file), k)
    ensures file in FilesOf(Bind(mapped, key, file), key)
  {
    var more := Bind(mapped, key, file);
    forall r | Lists(more, r)
      ensures r == file.fileRef || Lists(mapped, r)
    {
      var k, i :| k in more && 0 <= i < |more[k]| && more[k][i].fileRef == r;
      if k == key && i == |FilesOf(mapped, key)| {
        assert more[k][i] == file;
      } else {
        assert k in mapped && i < |mapped[k]| && mapped[k][i] == more[k][i];
      }
    }
  }

  /** Splits the keys into prefilters of at most `size` keys. */
  method KeyGroups(keys: set<Key>, size: nat) returns (groups: seq<set<Key>>)
    requires size > 0
    ensures Union(groups) == keys && Disjoint(groups)
    ensures Bounded(groups, size)
  {
    groups := [];
    var left := keys;
    while left != {}
      invariant left <= keys && Union(groups) == keys - left && Disjoint(groups) && Beside(groups, left)
      invariant Bounded(groups, size)
      decreases left
    {
      var g := TakeUpTo(left, size);
      OneMoreGroup(groups, left, g);
      assert keys - (left - g) == (keys - left) + g;
      assert Bounded(groups + [g], size);
      groups := groups + [g];
      left := left - g;
    }
  }

  predicate Bounded(groups: seq<set<Key>>, size: nat) {
    forall i :: 0 <= i < |groups| ==> groups[i] != {} && |groups[i]| <= size
  }

  predicate Beside(groups: seq<set<Key>>, left: set<Key>) {
    forall i :: 0 <= i < |groups| ==> groups[i] !! left
  }

  lemma OneMoreGroup(groups: seq<set<Key>>, left: set<Key>, g: set<Key>)
    requires Disjoint(groups) && Beside(groups, left) && g <= left
    ensures Disjoint(groups + [g]) && Beside(groups + [g], left - g) && Union(groups + [g]) == Union(groups) + g
  {
    assert (groups + [g])[..|groups|] == groups;
  }

  // ----- no hit is decoded twice -----

  predicate DistinctRows(rows: seq<ScoredRow>) {
    forall i, j :: 0 <= i < j < |rows| ==>
      rows[i].row.key != rows[j].row.key || rows[i].row.chunk.ord != rows[j].row.chunk.ord
  }

  predicate DistinctHits(hits: seq<Hit>) {
    forall i, j :: 0 <= i < j < |hits| ==>
      hits[i].fileRef != hits[j].fileRef || hits[i].row.chunk.ord != hits[j].row.chunk.ord
  }

  /** The rows a query matches, each with its score. */
  function ScoreTable(table: seq<ContentRow>, score: ContentRow -> Option<int>): seq<ScoredRow> {
    if table == [] then []
    else (if score(table[0]).Some? then [ScoredRow(score(table[0]).value, table[0])] else [])
         + ScoreTable(table[1..], score)
  }

  lemma {:induction false} ScoreTableMember(table: seq<ContentRow>, score: ContentRow -> Option<int>, i: nat)
    requires i < |ScoreTable(table, score)|
    ensures ScoreTable(table, score)[i].row in table
  {
    var skip := if score(table[0]).Some? then 1 else 0;
    if i >= skip {
      ScoreTableMember(table[1..], score, i - skip);
    }
  }

  /** The place of a row among the rows of its key is its ord. */
  lemma OrdIsPlace(table: seq<ContentRow>, i: nat)
    requires i < |table| && OrdsComplete(RowsFor(table, table[i].key))
    ensures table[i].chunk.ord == |RowsFor(table[..i], table[i].key)|
  {
    var k := table[i].key;
    var before, rest := RowsFor(table[..i], k), RowsFor(table[i..], k);
    assert table == table[..i] + table[i..];
    RowsForConcat(table[..i], table[i..], k);
    assert rest[0] == table[i];
    assert RowsFor(table, k)[|before|] == table[i];
  }

  lemma TableRowsDistinct(table: seq<ContentRow>, i: nat, j: nat)
    requires i < j < |table| && table[i].key == table[j].key && OrdsComplete(RowsFor(table, table[i].key))
    ensures table[i].chunk.ord != table[j].chunk.ord
  {
    var k := table[i].key;
    OrdIsPlace(table, i);
    OrdIsPlace(table, j);
    assert table[..j] == table[..i] + table[i..j];
    RowsForConcat(table[..i], table[i..j], k);
    assert RowsFor(table[i..j], k)[0] == table[i];
  }

  lemma {:induction false} ScoredRowsDistinct(table: seq<ContentRow>, score: ContentRow -> Option<int>)
    requires forall i, j :: 0 <= i < j < |table| ==>
      table[i].key != table[j].key || table[i].chunk.ord != table[j].chunk.ord
    ensures DistinctRows(ScoreTable(table, score))
  {
    if table != [] {
      ScoredRowsDistinct(table[1..], score);
      var rest := ScoreTable(table[1..], score);
      forall j | 0 <= j < |rest|
        ensures table[0].key != rest[j].row.key || table[0].chunk.ord != rest[j].row.chunk.ord
      {
        ScoreTableMember(table[1..], score, j);
        var n :| 0 <= n < |table[1..]| && table[1..][n] == rest[j].row;
        assert table[n+1] == rest[j].row;
      }
    }
  }

  lemma {:induction false} HitComesFrom(rows: seq<ScoredRow>, mapped: MappedFiles, h: Hit)
    requires h in Decode(rows, mapped)
    ensures exists i, n :: 0 <= i < |rows| && rows[i].row == h.row && h.row.key in mapped &&
                           0 <= n < |mapped[h.row.key]| && mapped[h.row.key][n].fileRef == h.fileRef
  {
    if h in RowHits(rows[0], mapped) {
      var n :| 0 <= n < |RowHits(rows[0], mapped)| && RowHits(rows[0], mapped)[n] == h;
      assert mapped[h.row.key][n].fileRef == h.fileRef;
    } else {
      HitComesFrom(rows[1..], mapped, h);
      var i, n :| 0 <= i < |rows[1..]| && rows[1..][i].row == h.row && h.row.key in mapped
        && 0 <= n < |mapped[h.row.key]| && mapped[h.row.key][n].fileRef == h.fileRef;
      assert rows[i+1].row == h.row;
    }
  }

  lemma {:induction false} DecodedHitsDistinct(rows: seq<ScoredRow>, mapped: MappedFiles)
    requires DistinctRows(rows) && DistinctFiles(mapped)
    ensures DistinctHits(Decode(rows, mapped))
  {
    if rows != [] {
      DecodedHitsDistinct(rows[1..], mapped);
      var mine, rest := RowHits(rows[0], mapped), Decode(rows[1..], mapped);
      forall i, j | 0 <= i < |mine| && 0 <= j < |rest|
        ensures mine[i].fileRef != rest[j].fileRef || mine[i].row.chunk.ord != rest[j].row.chunk.ord
      {
        assert mine[i] in mine && rest[j] in rest;
        HitComesFrom(rows[1..], mapped, rest[j]);
        var p, n :| 0 <= p < |rows[1..]| && rows[1..][p].row == rest[j].row && rest[j].row.key in mapped
          && 0 <= n < |mapped[rest[j].row.key]| && mapped[rest[j].row.key][n].fileRef == rest[j].fileRef;
        assert rows[p+1].row == rest[j].row;
      }
    }
  }

  lemma PartStaysDistinct(part: seq<Hit>, all: seq<Hit>)
    requires DistinctHits(all) && multiset(part) <= multiset(all)
    ensures DistinctHits(part)
  {
    forall i, j | 0 <= i < j < |part|
      ensures part[i].fileRef != part[j].fileRef || part[i].row.chunk.ord != part[j].row.chunk.ord
    {
      if part[i] == part[j] {
        Twice(part, i, j);
        var p, q := TwoPlaces(all, part[i]);
      } else {
        assert part[i] in multiset(part) && part[j] in multiset(part);
        var p :| 0 <= p < |all| && all[p] == part[i];
        var q :| 0 <= q < |all| && all[q] == part[j];
      }
    }
  }

  /** A table with complete ords decodes to distinct hits. */
  lemma TableHitsDistinct(table: seq<ContentRow>, score: ContentRow -> Option<int>, mapped: MappedFiles)
    requires OrdsSound(table) && DistinctFiles(mapped)
    ensures DistinctHits(Decode(ScoreTable(table, score), mapped))
  {
    forall i, j | 0 <= i < j < |table|
      ensures table[i].key != table[j].key || table[i].chunk.ord != table[j].chunk.ord
    {
      if table[i].key == table[j].key {
        TableRowsDistinct(table, i, j);
      }
    }
    ScoredRowsDistinct(table, score);
    DecodedHitsDistinct(ScoreTable(table, score), mapped);
  }

  /** In every sound store, an exact answer names each `(file_ref, ord)` once. */
  lemma AnswerDistinct(table: seq<ContentRow>, score: ContentRow -> Option<int>, signal: Signal, mapped: MappedFiles,
                       limit: nat, r: seq<Hit>)
    requires OrdsSound(table) && DistinctFiles(mapped)
    requires Exact(signal, ScoreTable(table, score), mapped, limit, r)
    ensures DistinctHits(r)
  {
    var rows := ScoreTable(table, score);
    TableHitsDistinct(table, score, mapped);
    var rest :| IsTopK(HitRank(signal), r, rest, multiset(Decode(rows, mapped)), limit);
    PartStaysDistinct(r, Decode(rows, mapped));
  }

  // ----- chunk ids -----

  const HASH_SIGN: byte := 35

  predicate AllDigits(s: Text) {
    forall i :: 0 <= i < |s| ==> 48 <= s[i] <= 57
  }

  function Decimal(n: nat): (digits: Text)
    ensures digits != [] && AllDigits(digits)
  {
    if n < 10 then [(48 + n) as byte] else Decimal(n / 10) + [(48 + n % 10) as byte]
  }

  /** The number that decimal digits stand for. */
  function ReadDecimal(digits: Text): nat
    requires AllDigits(digits)
  {
    if digits == [] then 0
    else 10 * ReadDecimal(digits[..|digits|-1]) + (digits[|digits|-1] as nat - 48)
  }

  lemma {:induction false} DecimalReadsBack(n: nat)
    ensures ReadDecimal(Decimal(n)) == n && (n > 0 ==> Decimal(n)[0] != 48)
  {
    if n >= 10 {
      DecimalReadsBack(n / 10);
      assert Decimal(n)[..|Decimal(n)|-1] == Decimal(n / 10);
    } else {
      assert Decimal(n)[..0] == [];
    }
  }

  /** The bytes `chunk_id_for` hashes. */
  function ChunkIdInput(fileRef: Text, ord: nat): Text {
    fileRef + [HASH_SIGN] + Decimal(ord)
  }

  lemma {:induction false} DecimalInjective(m: nat, n: nat)
    requires Decimal(m) == Decimal(n)
    ensures m == n
  {
    var a, b := Decimal(m), Decimal(n);
    assert a[|a|-1] == b[|b|-1];
    if m >= 10 && n >= 10 {
      assert a[..|a|-1] == Decimal(m / 10) && b[..|b|-1] == Decimal(n / 10);
      DecimalInjective(m / 10, n / 10);
    }
  }

  lemma NoHashSignAfter(a: Text, i: nat)
    ensures forall p :: |a| < p < |ChunkIdInput(a, i)| ==> ChunkIdInput(a, i)[p] != HASH_SIGN
  {
    forall p | |a| < p < |ChunkIdInput(a, i)|
      ensures ChunkIdInput(a, i)[p] != HASH_SIGN
    {
      assert ChunkIdInput(a, i)[p] == Decimal(i)[p - |a| - 1];
      assert Decimal(i)[p - |a| - 1] in Decimal(i);
    }
  }

  /** The last `#` separates the reference from the ord, so the pair can be read back. */
  lemma ChunkIdInjective(a: Text, i: nat, b: Text, j: nat)
    requires ChunkIdInput(a, i) == ChunkIdInput(b, j)
    ensures a == b && i == j
  {
    var s := ChunkIdInput(a, i);
    NoHashSignAfter(a, i);
    NoHashSignAfter(b, j);
    assert s[|a|] == HASH_SIGN && ChunkIdInput(b, j)[|b|] == HASH_SIGN;
    assert |a| == |b|;
    assert s[..|a|] == a && ChunkIdInput(b, j)[..|b|] == b;
    assert s[|a|+1..] == Decimal(i) && ChunkIdInput(b, j)[|b|+1..] == Decimal(j);
    DecimalInjective(i, j);
  }

  /** The hashed bytes are the reference, a `#` and the ord in decimal, without leading zeros. */
  lemma ChunkIdReadsBack(fileRef: Text, ord: nat)
    ensures var s, n := ChunkIdInput(fileRef, ord), |fileRef|;
      && |s| > n + 1 && s[..n] == fileRef && s[n] == 35 && AllDigits(s[n+1..])
      && ReadDecimal(s[n+1..]) == ord && (ord > 0 ==> s[n+1] != 48)
  {
    assert ChunkIdInput(fileRef, ord)[|fileRef| + 1..] == Decimal(ord);
    DecimalReadsBack(ord);
  }

  function ChunkId(hash: Text -> Text, h: Hit): Text {
    hash(ChunkIdInput(h.fileRef, h.row.chunk.ord))
  }

  function ChunkIds(hash: Text -> Text, hits: seq<Hit>): (ids: seq<Text>)
    ensures |ids| == |hits|
  {
    seq(|hits|, i requires 0 <= i < |hits| => ChunkId(hash, hits[i]))
  }

  lemma DistinctIds(hash: Text -> Text, hits: seq<Hit>, i: nat, j: nat)
    requires CollisionFree(hash) && DistinctHits(hits) && i < j < |hits|
    ensures ChunkId(hash, hits[i]) != ChunkId(hash, hits[j])
  {
    if ChunkId(hash, hits[i]) == ChunkId(hash, hits[j]) {
      ChunkIdInjective(hits[i].fileRef, hits[i].row.chunk.ord, hits[j].fileRef, hits[j].row.chunk.ord);
    }
  }

  // ----- indexing the lists -----

  function Elements(s: seq<Text>): set<Text> {
    set x | x in s
  }

  lemma ElementsSnoc(s: seq<Text>, x: Text)
    ensures Elements(s + [x]) == Elements(s) + {x}
  {}

  /** `n` is the first place in `hits` of the id. */
  predicate FirstAt(hash: Text -> Text, hits: seq<Hit>, id: Text, n: nat) {
    && n < |hits| && ChunkId(hash, hits[n]) == id
    && forall m :: 0 <= m < n ==> ChunkId(hash, hits[m]) != id
  }

  /** `ids` with every repetition dropped. */
  function Deduped(ids: seq<Text>): seq<Text> {
    if ids == [] then []
    else
      var front, last := Deduped(ids[..|ids|-1]), ids[|ids|-1];
      if last in front then front else front + [last]
  }

  lemma {:induction false} DedupedOnce(ids: seq<Text>)
    ensures Elements(Deduped(ids)) == Elements(ids)
    ensures forall i, j :: 0 <= i < j < |Deduped(ids)| ==> Deduped(ids)[i] != Deduped(ids)[j]
  {
    if ids != [] {
      var front, last := ids[..|ids|-1], ids[|ids|-1];
      DedupedOnce(front);
      assert ids == front + [last];
      ElementsSnoc(front, last);
      ElementsSnoc(Deduped(front), last);
      assert last in Deduped(front) <==> last in Elements(Deduped(front));
    }
  }

  lemma {:induction false} DedupedDistinct(ids: seq<Text>)
    requires forall i, j :: 0 <= i < j < |ids| ==> ids[i] != ids[j]
    ensures Deduped(ids) == ids
  {
    if ids != [] {
      DedupedDistinct(ids[..|ids|-1]);
      assert ids == ids[..|ids|-1] + [ids[|ids|-1]];
    }
  }

  /** Nothing is dropped from an answer that names each chunk once. */
  lemma DistinctHitsKept(hash: Text -> Text, hits: seq<Hit>)
    requires CollisionFree(hash) && DistinctHits(hits)
    ensures Deduped(ChunkIds(hash, hits)) == ChunkIds(hash, hits)
  {
    forall i, j | 0 <= i < j < |hits|
      ensures ChunkIds(hash, hits)[i] != ChunkIds(hash, hits)[j]
    {
      DistinctIds(hash, hits, i, j);
    }
    DedupedDistinct(ChunkIds(hash, hits));
  }

  /** Each recorded id has the score of its first place, and a new id the hit of its first place. */
  ghost predicate FirstsRecorded(
    hash: Text -> Text, hits: seq<Hit>, pool0: map<Text, Hit>, pool: map<Text, Hit>, scores: map<Text, int>)
    requires scores.Keys <= pool.Keys
  {
    forall id, n: nat :: id in scores && FirstAt(hash, hits, id, n) ==>
      scores[id] == hits[n].score && (id !in pool0 ==> pool[id] == hits[n])
  }

  /** What indexing the hits up to `i` has produced. */
  ghost predicate Indexed(hash: Text -> Text, hits: seq<Hit>, i: nat, pool0: map<Text, Hit>,
                          order: seq<Text>, pool: map<Text, Hit>, scores: map<Text, int>)
    requires i <= |hits|
  {
    && order == Deduped(ChunkIds(hash, hits[..i])) && scores.Keys == Elements(order)
    && pool.Keys == pool0.Keys + Elements(order)
    && (forall id :: id in pool0 ==> pool[id] == pool0[id])
    && FirstsRecorded(hash, hits, pool0, pool, scores)
  }

  /** Records each id once, with the score and (for new ids) the hit of its first place. */
  method IndexSignal(hash: Text -> Text, hits: seq<Hit>, pool0: map<Text, Hit>)
    returns (order: seq<Text>, pool: map<Text, Hit>, scores: map<Text, int>)
    ensures order == Deduped(ChunkIds(hash, hits)) && scores.Keys == Elements(order)
    ensures pool.Keys == pool0.Keys + Elements(order)
    ensures forall id :: id in pool0 ==> pool[id] == pool0[id]
    ensures FirstsRecorded(hash, hits, pool0, pool, scores)
  {
    order, pool, scores := [], pool0, map[];
    for i := 0 to |hits|
      invariant Indexed(hash, hits, i, pool0, order, pool, scores)
    {
      var id := ChunkId(hash, hits[i]);
      IndexNext(hash, hits, i, pool0, order, pool, scores);
      if id in scores {
        continue;
      }
      scores := scores[id := hits[i].score];
      order := order + [id];
      pool := Pooled(pool, id, hits[i]);
    }
    assert hits[..|hits|] == hits;
  }

  function Pooled(pool: map<Text, Hit>, id: Text, h: Hit): (more: map<Text, Hit>)
    ensures more.Keys == pool.Keys + {id} && forall k :: k in pool ==> more[k] == pool[k]
  {
    if id in pool then pool else pool[id := h]
  }

  /** The next hit changes nothing if its id was seen, and is recorded as its id's first otherwise. */
  lemma IndexNext(hash: Text -> Text, hits: seq<Hit>, i: nat, pool0: map<Text, Hit>,
                  order: seq<Text>, pool: map<Text, Hit>, scores: map<Text, int>)
    requires i < |hits| && Indexed(hash, hits, i, pool0, order, pool, scores)
    ensures var id := ChunkId(hash, hits[i]);
      if id in scores then Indexed(hash, hits, i + 1, pool0, order, pool, scores)
      else Indexed(hash, hits, i + 1, pool0, order + [id], Pooled(pool, id, hits[i]), scores[id := hits[i].score])
  {
    NextId(hash, hits, i);
    if ChunkId(hash, hits[i]) !in scores {
      IndexNew(hash, hits, i, pool0, order, pool, scores);
    }
  }

  lemma IndexNew(hash: Text -> Text, hits: seq<Hit>, i: nat, pool0: map<Text, Hit>,
                 order: seq<Text>, pool: map<Text, Hit>, scores: map<Text, int>)
    requires i < |hits| && Indexed(hash, hits, i, pool0, order, pool, scores) && ChunkId(hash, hits[i]) !in scores
    ensures var id := ChunkId(hash, hits[i]);
      Indexed(hash, hits, i + 1, pool0, order + [id], Pooled(pool, id, hits[i]), scores[id := hits[i].score])
  {
    var id := ChunkId(hash, hits[i]);
    NextId(hash, hits, i);
    ElementsSnoc(order, id);
    RecordFirst(hash, hits, pool0, pool, scores, i);
  }

  /** One more hit adds its id unless it was seen, and then it is the id's first place. */
  lemma NextId(hash: Text -> Text, hits: seq<Hit>, i: nat)
    requires i < |hits|
    ensures var id, seen := ChunkId(hash, hits[i]), Deduped(ChunkIds(hash, hits[..i]));
      && Deduped(ChunkIds(hash, hits[..i+1])) == (if id in seen then seen else seen + [id])
      && (id !in seen ==> FirstAt(hash, hits, id, i))
  {
    var id, ids := ChunkId(hash, hits[i]), ChunkIds(hash, hits[..i]);
    assert ChunkIds(hash, hits[..i+1]) == ids + [id] && (ids + [id])[..i] == ids;
    DedupedOnce(ids);
    assert id in Deduped(ids) <==> id in Elements(ids);
    forall m | 0 <= m < i && ChunkId(hash, hits[m]) == id
      ensures id in ids
    {
      assert ids[m] == id;
    }
  }

  lemma RecordFirst(
    hash: Text -> Text, hits: seq<Hit>, pool0: map<Text, Hit>, pool: map<Text, Hit>, scores: map<Text, int>, i: nat)
    requires scores.Keys <= pool.Keys == pool0.Keys + scores.Keys && FirstsRecorded(hash, hits, pool0, pool, scores)
    requires i < |hits| && ChunkId(hash, hits[i]) !in scores && FirstAt(hash, hits, ChunkId(hash, hits[i]), i)
    ensures var id := ChunkId(hash, hits[i]);
      FirstsRecorded(hash, hits, pool0, Pooled(pool, id, hits[i]), scores[id := hits[i].score])
  {
    var id := ChunkId(hash, hits[i]);
    assert forall n: nat :: FirstAt(hash, hits, id, n) ==> n == i;
  }

  /** Both lists, their scores and the pool of hits that they name. */
  datatype SignalLists = SignalLists(
    fts: seq<Text>, nearest: seq<Text>, ftsScores: map<Text, int>, distances: map<Text, int>, hits: map<Text, Hit>)

  /** The id of a first place was recorded. */
  lemma FirstIsRecorded(hash: Text -> Text, hits: seq<Hit>, id: Text, n: nat)
    requires FirstAt(hash, hits, id, n)
    ensures id in Elements(Deduped(ChunkIds(hash, hits)))
  {
    DedupedOnce(ChunkIds(hash, hits));
    assert ChunkIds(hash, hits)[n] == id;
  }

  lemma DistinctIsFirst(hash: Text -> Text, hits: seq<Hit>, n: nat)
    requires CollisionFree(hash) && DistinctHits(hits) && n < |hits|
    ensures FirstAt(hash, hits, ChunkId(hash, hits[n]), n)
  {
    forall m | 0 <= m < n
      ensures ChunkId(hash, hits[m]) != ChunkId(hash, hits[n])
    {
      DistinctIds(hash, hits, m, n);
    }
  }

  /** Each id of `hits` has the score of its first hit. */
  ghost predicate FirstScores(hash: Text -> Text, hits: seq<Hit>, scores: map<Text, int>) {
    forall id, n: nat :: FirstAt(hash, hits, id, n) ==> id in scores && scores[id] == hits[n].score
  }

  /** Each hit of a list without repetitions has its own score. */
  lemma OwnScores(hash: Text -> Text, hits: seq<Hit>, scores: map<Text, int>)
    requires FirstScores(hash, hits, scores) && CollisionFree(hash) && DistinctHits(hits)
    ensures forall i :: 0 <= i < |hits| ==>
      ChunkId(hash, hits[i]) in scores && scores[ChunkId(hash, hits[i])] == hits[i].score
  {
    forall i | 0 <= i < |hits|
      ensures ChunkId(hash, hits[i]) in scores && scores[ChunkId(hash, hits[i])] == hits[i].score
    {
      DistinctIsFirst(hash, hits, i);
    }
  }

  /**
   Both lists with the score of each id's first hit, and a pool of every hit named: the first of the
   full-text list if the id occurs there, else the first of the nearest. Lists without repetitions are
   kept whole.
   */
  method CombineSignals(hash: Text -> Text, fts: seq<Hit>, nearest: seq<Hit>) returns (r: SignalLists)
    ensures r.hits.Keys == Elements(r.fts) + Elements(r.nearest)
    ensures r.ftsScores.Keys == Elements(r.fts) && r.distances.Keys == Elements(r.nearest)
    ensures FirstScores(hash, fts, r.ftsScores) && FirstScores(hash, nearest, r.distances)
    ensures forall id, n: nat :: FirstAt(hash, fts, id, n) ==> id in r.hits && r.hits[id] == fts[n]
    ensures forall id, n: nat :: FirstAt(hash, nearest, id, n) ==>
      id in r.hits && (id !in r.fts ==> r.hits[id] == nearest[n])
    ensures CollisionFree(hash) && DistinctHits(fts) ==> r.fts == ChunkIds(hash, fts)
    ensures CollisionFree(hash) && DistinctHits(nearest) ==> r.nearest == ChunkIds(hash, nearest)
  {
    var order, pool, scores := IndexSignal(hash, fts, map[]);
    var order2, pool2, scores2 := IndexSignal(hash, nearest, pool);
    if CollisionFree(hash) && DistinctHits(fts) {
      DistinctHitsKept(hash, fts);
    }
    if CollisionFree(hash) && DistinctHits(nearest) {
      DistinctHitsKept(hash, nearest);
    }
    forall id, n: nat | FirstAt(hash, fts, id, n)
      ensures id in scores && id in pool
    {
      FirstIsRecorded(hash, fts, id, n);
    }
    forall id, n: nat | FirstAt(hash, nearest, id, n)
      ensures id in scores2 && id in pool2
    {
      FirstIsRecorded(hash, nearest, id, n);
    }
    r := SignalLists(order, order2, scores, scores2, pool2);
  }
}
