/** Reads and writes together: what a query sees through the shared tables after any run. */
module PrivateReads {
  import opened Arithmetic
  import opened Collections
  import opened Records
  import opened StoreTables
  import opened StoreProtocol
  import opened TopK
  import opened ScopedRetrieval
  import opened Signals

  /** A query scores a row by what the row shows; other rows do not match it. */
  type Query = RowView -> Option<int>

  function Scores(q: Query): ContentRow -> Option<int> {
    (r: ContentRow) => q(ViewOf(r))
  }

  function IdIn(corpus: CorpusKey, fileRef: Text): FileId {
    FileId(corpus.name, corpus.root, fileRef)
  }

  /** A hit as its reader sees it, without the shared row behind it. */
  datatype SeenHit = SeenHit(score: int, fileRef: Text, mtimeMs: int, view: RowView)

  /** A private store of `corpus` would give this hit: a matching row of its own copy of the file. */
  predicate Holds(p: Private, corpus: CorpusKey, q: Query, h: SeenHit) {
    var id := IdIn(corpus, h.fileRef);
    id in p && h.view in p[id].rows && p[id].mtimeMs == h.mtimeMs && q(h.view) == Some(h.score)
  }

  predicate NoRepeats(hits: seq<SeenHit>) {
    forall i, j :: 0 <= i < j < |hits| ==> hits[i] != hits[j]
  }

  /** `all` lists the hits of the private store, each once. */
  ghost predicate ListsHits(all: seq<SeenHit>, p: Private, corpus: CorpusKey, q: Query) {
    NoRepeats(all) && forall h :: h in all <==> Holds(p, corpus, q, h)
  }

  function Seen(h: Hit): SeenHit {
    SeenHit(h.score, h.fileRef, h.mtimeMs, ViewOf(h.row))
  }

  function SeenAll(hits: seq<Hit>): (seen: seq<SeenHit>)
    ensures |seen| == |hits|
  {
    seq(|hits|, i requires 0 <= i < |hits| => Seen(hits[i]))
  }

  function SeenRank(signal: Signal): SeenHit -> int {
    (h: SeenHit) => Rank(signal, h.score)
  }

  // ----- the shared tables list the private hits -----

  lemma {:induction false} ScoredMember(table: seq<ContentRow>, q: Query, r: ScoredRow)
    ensures r in ScoreTable(table, Scores(q)) <==> r.row in table && q(ViewOf(r.row)) == Some(r.score)
  {
    if table != [] {
      ScoredMember(table[1..], q, r);
    }
  }

  lemma {:induction false} DecodeHolds(rows: seq<ScoredRow>, mapped: MappedFiles, r: ScoredRow, n: nat)
    requires r in rows && r.row.key in mapped && n < |mapped[r.row.key]|
    ensures Hit(r.score, mapped[r.row.key][n].fileRef, mapped[r.row.key][n].mtimeMs, r.row) in Decode(rows, mapped)
  {
    if r == rows[0] {
      assert RowHits(r, mapped)[n] in RowHits(r, mapped);
    } else {
      DecodeHolds(rows[1..], mapped, r, n);
    }
  }

  lemma {:induction false} DecodedFile(rows: seq<ScoredRow>, mapped: MappedFiles, h: Hit)
    requires h in Decode(rows, mapped)
    ensures ScoredRow(h.score, h.row) in rows && h.row.key in mapped
    ensures MappedFile(h.fileRef, h.mtimeMs) in mapped[h.row.key]
  {
    if h in RowHits(rows[0], mapped) {
      var n :| 0 <= n < |RowHits(rows[0], mapped)| && RowHits(rows[0], mapped)[n] == h;
      assert rows[0] in rows && mapped[h.row.key][n] == MappedFile(h.fileRef, h.mtimeMs);
    } else {
      DecodedFile(rows[1..], mapped, h);
    }
  }

  lemma SharedHitIsPrivate(table: seq<ContentRow>, files: Files, corpus: CorpusKey, mapped: MappedFiles, q: Query,
                           h: Hit)
    requires MapsOnly(mapped, files, corpus) && h in Decode(ScoreTable(table, Scores(q)), mapped)
    ensures Holds(Shown(table, files), corpus, q, Seen(h))
  {
    DecodedFile(ScoreTable(table, Scores(q)), mapped, h);
    ScoredMember(table, q, ScoredRow(h.score, h.row));
    var n :| 0 <= n < |mapped[h.row.key]| && mapped[h.row.key][n] == MappedFile(h.fileRef, h.mtimeMs);
    assert BoundTo(mapped[h.row.key][n], h.row.key, files, corpus);
    RowsForMember(table, h.row.key, h.row);
    var own := RowsFor(table, h.row.key);
    var m :| 0 <= m < |own| && own[m] == h.row;
    assert Views(own)[m] == ViewOf(h.row);
  }

  lemma PrivateHitIsShared(table: seq<ContentRow>, files: Files, corpus: CorpusKey, mapped: MappedFiles, q: Query,
                           h: SeenHit)
    requires MapsAll(mapped, files, corpus) && Holds(Shown(table, files), corpus, q, h)
    ensures h in SeenAll(Decode(ScoreTable(table, Scores(q)), mapped))
  {
    var id := IdIn(corpus, h.fileRef);
    var key := files[id].key;
    var own := RowsFor(table, key);
    var m :| 0 <= m < |own| && Views(own)[m] == h.view;
    assert own[m] in own;
    RowsForMember(table, key, own[m]);
    var r := ScoredRow(h.score, own[m]);
    ScoredMember(table, q, r);
    var n :| 0 <= n < |mapped[key]| && mapped[key][n] == MappedFile(h.fileRef, h.mtimeMs);
    var all := Decode(ScoreTable(table, Scores(q)), mapped);
    DecodeHolds(ScoreTable(table, Scores(q)), mapped, r, n);
    var i :| 0 <= i < |all| && all[i] == Hit(h.score, h.fileRef, h.mtimeMs, own[m]);
    assert SeenAll(all)[i] == h;
  }

  /** In a table with complete ords, a root's decoded hits are the hits of its private copies, each once. */
  lemma DecodedHitsListPrivate(table: seq<ContentRow>, files: Files, corpus: CorpusKey, mapped: MappedFiles, q: Query)
    requires OrdsSound(table)
    requires MapsOnly(mapped, files, corpus) && MapsAll(mapped, files, corpus) && DistinctFiles(mapped)
    ensures ListsHits(SeenAll(Decode(ScoreTable(table, Scores(q)), mapped)), Shown(table, files), corpus, q)
  {
    var all := Decode(ScoreTable(table, Scores(q)), mapped);
    TableHitsDistinct(table, Scores(q), mapped);
    forall h
      ensures h in SeenAll(all) <==> Holds(Shown(table, files), corpus, q, h)
    {
      if h in SeenAll(all) {
        var i :| 0 <= i < |all| && SeenAll(all)[i] == h;
        SharedHitIsPrivate(table, files, corpus, mapped, q, all[i]);
      }
      if Holds(Shown(table, files), corpus, q, h) {
        PrivateHitIsShared(table, files, corpus, mapped, q, h);
      }
    }
  }

  /**
   After any run of the protocol, a root's query hits are exactly the hits of the copies its map shows,
   each once; after a safe run these are the copies a store private to the root would hold.
   */
  lemma QueriesSeePrivateCopies(cfg: Config, steps: seq<Step>, corpus: CorpusKey, mapped: MappedFiles, q: Query)
    requires KeysIdentifyContent(cfg) && Runs(cfg, INIT, steps) && DistinctFiles(mapped)
    requires MapsOnly(mapped, Final(cfg, INIT, steps).files, corpus)
    requires MapsAll(mapped, Final(cfg, INIT, steps).files, corpus)
    ensures var t := Final(cfg, INIT, steps);
      var hits := SeenAll(Decode(ScoreTable(t.table, Scores(q)), mapped));
      && ListsHits(hits, Shown(t.table, t.files), corpus, q)
      && (SafeAlong(cfg, INIT, steps) ==> ListsHits(hits, FinalPrivate(cfg, INIT, steps, map[]), corpus, q))
  {
    StoreRefinesPrivateCopies(cfg, steps);
    ReachableOrds(cfg, steps);
    var t := Final(cfg, INIT, steps);
    DecodedHitsListPrivate(t.table, t.files, corpus, mapped, q);
  }

  // ----- ranked answers -----

  lemma ListedOnce(hits: seq<SeenHit>, h: SeenHit)
    requires NoRepeats(hits)
    ensures multiset(hits)[h] == if h in hits then 1 else 0
  {
    if multiset(hits)[h] >= 2 {
      var i, j := TwoPlaces(hits, h);
    }
  }

  lemma ListingsAgree(a: seq<SeenHit>, b: seq<SeenHit>, p: Private, corpus: CorpusKey, q: Query)
    requires ListsHits(a, p, corpus, q) && ListsHits(b, p, corpus, q)
    ensures multiset(a) == multiset(b)
  {
    forall h
      ensures multiset(a)[h] == multiset(b)[h]
    {
      ListedOnce(a, h);
      ListedOnce(b, h);
    }
  }

  lemma {:induction false} SeenPermutation(a: seq<Hit>, b: seq<Hit>)
    requires multiset(a) == multiset(b)
    ensures multiset(SeenAll(a)) == multiset(SeenAll(b))
    decreases |a|
  {
    if a == [] {
      assert |multiset(b)| == 0;
    } else {
      var front, back := RemoveFirst(a, b);
      SeenPermutation(a[1..], front + back);
      assert SeenAll(a) == [Seen(a[0])] + SeenAll(a[1..]);
      assert SeenAll(front + back) == SeenAll(front) + SeenAll(back);
      assert SeenAll(b) == SeenAll(front) + ([Seen(a[0])] + SeenAll(back));
    }
  }

  /** A best-first answer stays one when only what its reader sees of each hit is kept. */
  lemma SeenTopK(signal: Signal, r: seq<Hit>, rest: seq<Hit>, all: seq<Hit>, limit: nat)
    requires IsTopK(HitRank(signal), r, rest, multiset(all), limit)
    ensures IsTopK(SeenRank(signal), SeenAll(r), SeenAll(rest), multiset(SeenAll(all)), limit)
  {
    assert multiset(r + rest) == multiset(all);
    SeenPermutation(r + rest, all);
    assert SeenAll(r + rest) == SeenAll(r) + SeenAll(rest);
    assert |multiset(all)| == |all| == |SeenAll(all)|;
    forall x, y | x in SeenAll(r) && y in SeenAll(rest)
      ensures SeenRank(signal)(x) <= SeenRank(signal)(y)
    {
      var i :| 0 <= i < |r| && SeenAll(r)[i] == x;
      var j :| 0 <= j < |rest| && SeenAll(rest)[j] == y;
      assert r[i] in r && rest[j] in rest;
      assert HitRank(signal)(r[i]) <= HitRank(signal)(rest[j]);
    }
    forall i, j | 0 <= i < j < |r|
      ensures SeenRank(signal)(SeenAll(r)[i]) <= SeenRank(signal)(SeenAll(r)[j])
    {
      assert HitRank(signal)(r[i]) <= HitRank(signal)(r[j]);
    }
  }

  /** `r` is the best `limit` of the private hits: its hits are among them, all of them if it is shorter
      than the limit, and its ranks are those of the first `limit` when they are sorted. */
  ghost predicate AnswersPrivately(r: seq<SeenHit>, p: Private, corpus: CorpusKey, q: Query, signal: Signal,
                                   limit: nat) {
    && (forall h :: h in r ==> Holds(p, corpus, q, h)) && NoRepeats(r)
    && (|r| < limit ==> forall h :: Holds(p, corpus, q, h) ==> h in r)
    && forall all :: ListsHits(all, p, corpus, q) ==> RanksOfSorted(SeenRank(signal), r, all, limit)
  }

  lemma ShortAnswerIsAll(rank: SeenHit -> int, r: seq<SeenHit>, rest: seq<SeenHit>, all: seq<SeenHit>, limit: nat)
    requires IsTopK(rank, r, rest, multiset(all), limit) && |r| < limit
    ensures forall h :: h in all ==> h in r
  {
    assert |multiset(r) + multiset(rest)| == |r| + |rest|;
    assert rest == [];
    forall h | h in all
      ensures h in r
    {
      assert h in multiset(all) && h in multiset(r);
    }
  }

  lemma ExactAnswersPrivately(table: seq<ContentRow>, files: Files, corpus: CorpusKey, mapped: MappedFiles, q: Query,
                              signal: Signal, limit: nat, r: seq<Hit>)
    requires OrdsSound(table)
    requires MapsOnly(mapped, files, corpus) && MapsAll(mapped, files, corpus) && DistinctFiles(mapped)
    requires Exact(signal, ScoreTable(table, Scores(q)), mapped, limit, r)
    ensures AnswersPrivately(SeenAll(r), Shown(table, files), corpus, q, signal, limit)
  {
    var hits := Decode(ScoreTable(table, Scores(q)), mapped);
    var rest :| IsTopK(HitRank(signal), r, rest, multiset(hits), limit);
    SeenTopK(signal, r, rest, hits, limit);
    DecodedHitsListPrivate(table, files, corpus, mapped, q);
    forall h | h in SeenAll(r)
      ensures Holds(Shown(table, files), corpus, q, h)
    {
      assert h in multiset(SeenAll(r)) && h in multiset(SeenAll(hits));
    }
    if |r| < limit {
      ShortAnswerIsAll(SeenRank(signal), SeenAll(r), SeenAll(rest), SeenAll(hits), limit);
    }
    AnswerDistinct(table, Scores(q), signal, mapped, limit, r);
    forall all | ListsHits(all, Shown(table, files), corpus, q)
      ensures RanksOfSorted(SeenRank(signal), SeenAll(r), all, limit)
    {
      ListingsAgree(SeenAll(hits), all, Shown(table, files), corpus, q);
      TopKMatchesSorted(SeenRank(signal), SeenAll(r), SeenAll(rest), all, limit);
    }
  }

  /**
   One ranked signal of a query, from loading the root's map to the cut list: whatever path the scan
   takes and whatever other roots share the table, the answer is the one the root's private copies give.
   */
  method RetrieveSignal(table: seq<ContentRow>, files: Files, corpus: CorpusKey, groupSize: nat, limit: nat,
                        signal: Signal, scan: Scanner, ghost q: Query) returns (r: Result<seq<Hit>>)
    requires groupSize > 0 && limit <= USIZE_MAX && OrdsSound(table)
    requires RanksExactly(signal, ScoreTable(table, Scores(q)), scan)
    ensures r.Ok? ==> AnswersPrivately(SeenAll(r.value), Shown(table, files), corpus, q, signal, limit)
    ensures r.Err? ==> exists filter, n :: scan(filter, n).Err?
  {
    var mapped := CollectMapped(files, corpus);
    var groups := KeyGroups(mapped.Keys, groupSize);
    r := ScopedHits(signal, mapped, groups, limit, scan, ScoreTable(table, Scores(q)));
    if r.Ok? {
      ExactAnswersPrivately(table, files, corpus, mapped, q, signal, limit, r.value);
    }
  }

  /** A matching chunk of a file that the store shows is a hit of the file's own corpus and root, and an
      answer to the query that is shorter than its limit has it. */
  lemma ShownChunkIsFound(cfg: Config, p: Private, f: PreparedFile, i: nat, q: Query, signal: Signal, limit: nat,
                          r: seq<SeenHit>)
    requires ShowsFile(cfg, p, f) && i < |f.chunks|
    requires AnswersPrivately(r, p, CorpusKey(f.corpusKey.name, f.corpusKey.root), q, signal, limit)
    ensures var view := RowView(f.summary, f.keywords, f.frontmatter, f.chunks[i],
                                if cfg.enabled then Some(cfg.embed(f.chunks[i].searchText)) else None);
      q(view).Some? ==>
        var h := SeenHit(q(view).value, f.fileRef, f.mtimeMs, view);
        Holds(p, CorpusKey(f.corpusKey.name, f.corpusKey.root), q, h) && (|r| < limit ==> h in r)
  {
    var id := FileId(f.corpusKey.name, f.corpusKey.root, f.fileRef);
    assert p[id].rows[i] in p[id].rows;
  }

  /** After any safe run, an exact answer over the shared tables is the answer of the root's own store. */
  lemma AnswersArePrivate(cfg: Config, steps: seq<Step>, corpus: CorpusKey, mapped: MappedFiles, q: Query,
                          signal: Signal, limit: nat, r: seq<Hit>)
    requires KeysIdentifyContent(cfg) && Runs(cfg, INIT, steps) && SafeAlong(cfg, INIT, steps) && DistinctFiles(mapped)
    requires MapsOnly(mapped, Final(cfg, INIT, steps).files, corpus)
    requires MapsAll(mapped, Final(cfg, INIT, steps).files, corpus)
    requires Exact(signal, ScoreTable(Final(cfg, INIT, steps).table, Scores(q)), mapped, limit, r)
    ensures AnswersPrivately(SeenAll(r), FinalPrivate(cfg, INIT, steps, map[]), corpus, q, signal, limit)
  {
    StoreRefinesPrivateCopies(cfg, steps);
    ReachableOrds(cfg, steps);
    var t := Final(cfg, INIT, steps);
    ExactAnswersPrivately(t.table, t.files, corpus, mapped, q, signal, limit, r);
  }

  /** After any run, safe or not, an exact answer to a query names every chunk of a file at most once. */
  lemma AnswersNameChunksOnce(cfg: Config, steps: seq<Step>, mapped: MappedFiles, q: Query, signal: Signal,
                              limit: nat, r: seq<Hit>)
    requires KeysIdentifyContent(cfg) && Runs(cfg, INIT, steps) && DistinctFiles(mapped)
    requires Exact(signal, ScoreTable(Final(cfg, INIT, steps).table, Scores(q)), mapped, limit, r)
    ensures DistinctHits(r)
  {
    ReachableOrds(cfg, steps);
    AnswerDistinct(Final(cfg, INIT, steps).table, Scores(q), signal, mapped, limit, r);
  }
}
