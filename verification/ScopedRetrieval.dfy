/**
 Reading one root's hits from the shared content table. `scoped_hits` has three ways to do it; each
 returns the best hits of the root, whatever other roots share or crowd the table.
 */
module ScopedRetrieval {
  import opened Arithmetic
  import opened Records
  import opened StoreTables
  import opened TopK

  const OVERFETCH_FACTOR: nat := 8
  const OVERFETCH_FLOOR: nat := 64

  datatype Signal = Fts | Nearest | Scan

  /** A content row as a scan returns it. A score stands for its place in the total order of `f32`. */
  datatype ScoredRow = ScoredRow(score: int, row: ContentRow)

  datatype MappedFile = MappedFile(fileRef: Text, mtimeMs: int)

  type MappedFiles = map<Key, seq<MappedFile>>

  datatype Hit = Hit(score: int, fileRef: Text, mtimeMs: int, row: ContentRow)

  /** The place of a score in best-first order: relevance ranks high scores first, distance low ones. */
  function Rank(signal: Signal, score: int): int {
    match signal
    case Fts => -score
    case Nearest => score
    case Scan => 0
  }

  function RowRank(signal: Signal): ScoredRow -> int {
    (r: ScoredRow) => Rank(signal, r.score)
  }

  function HitRank(signal: Signal): Hit -> int {
    (h: Hit) => Rank(signal, h.score)
  }

  /** One hit per file the root's map binds to the row's key; none when it binds none. */
  function RowHits(r: ScoredRow, mapped: MappedFiles): (hits: seq<Hit>)
    ensures forall h :: h in hits ==> h.score == r.score && h.row == r.row && r.row.key in mapped
  {
    if r.row.key !in mapped then []
    else
      var files := mapped[r.row.key];
      seq(|files|, i requires 0 <= i < |files| => Hit(r.score, files[i].fileRef, files[i].mtimeMs, r.row))
  }

  function Decode(rows: seq<ScoredRow>, mapped: MappedFiles): seq<Hit> {
    if rows == [] then [] else RowHits(rows[0], mapped) + Decode(rows[1..], mapped)
  }

  /** The rows a scan under `filter` ranks. */
  function Matching(universe: seq<ScoredRow>, filter: Option<set<Key>>): seq<ScoredRow> {
    if filter.None? then universe else Within(universe, filter.value)
  }

  function Within(rows: seq<ScoredRow>, keys: set<Key>): seq<ScoredRow> {
    if rows == [] then []
    else (if rows[0].row.key in keys then [rows[0]] else []) + Within(rows[1..], keys)
  }

  type Scanner = (Option<set<Key>>, nat) -> Result<seq<ScoredRow>>

  /** A scan that succeeds returns the best rows of its filter, best first; ties fall either way. */
  ghost predicate RanksExactly(signal: Signal, universe: seq<ScoredRow>, scan: Scanner) {
    forall filter, limit :: scan(filter, limit).Ok? ==> ScanExact(signal, universe, scan, filter, limit)
  }

  ghost predicate ScanExact(signal: Signal, universe: seq<ScoredRow>, scan: Scanner, filter: Option<set<Key>>,
                            limit: nat)
    requires scan(filter, limit).Ok?
  {
    exists rest ::
      IsTopK(RowRank(signal), scan(filter, limit).value, rest, multiset(Matching(universe, filter)), limit)
  }

  predicate EachKeyHasFiles(mapped: MappedFiles) {
    forall k :: k in mapped ==> mapped[k] != []
  }

  function Union(groups: seq<set<Key>>): set<Key> {
    if groups == [] then {} else Union(groups[..|groups|-1]) + groups[|groups|-1]
  }

  predicate Disjoint(groups: seq<set<Key>>) {
    forall i, j :: 0 <= i < j < |groups| ==> groups[i] !! groups[j]
  }

  // ----- decoding -----

  lemma {:induction false} DecodeConcat(a: seq<ScoredRow>, b: seq<ScoredRow>, mapped: MappedFiles)
    ensures Decode(a + b, mapped) == Decode(a, mapped) + Decode(b, mapped)
  {
    if a == [] {
      assert a + b == b;
    } else {
      assert (a + b)[1..] == a[1..] + b;
      DecodeConcat(a[1..], b, mapped);
    }
  }

  /** One row in the middle adds its own hits. */
  lemma DecodeMiddle(front: seq<ScoredRow>, r: ScoredRow, back: seq<ScoredRow>, mapped: MappedFiles)
    ensures multiset(Decode(front + ([r] + back), mapped))
      == multiset(RowHits(r, mapped)) + multiset(Decode(front + back, mapped))
  {
    DecodeConcat(front, back, mapped);
    DecodeConcat(front, [r] + back, mapped);
    assert ([r] + back)[1..] == back;
  }

  lemma {:induction false} DecodePermutation(a: seq<ScoredRow>, b: seq<ScoredRow>, mapped: MappedFiles)
    requires multiset(a) == multiset(b)
    ensures multiset(Decode(a, mapped)) == multiset(Decode(b, mapped))
    decreases |a|
  {
    if a == [] {
      assert |multiset(b)| == 0;
    } else {
      var front, back := RemoveFirst(a, b);
      DecodePermutation(a[1..], front + back, mapped);
      DecodeMiddle(front, a[0], back, mapped);
    }
  }

  lemma {:induction false} DecodeMember(rows: seq<ScoredRow>, mapped: MappedFiles, h: Hit)
    requires h in Decode(rows, mapped)
    ensures exists r :: r in rows && r.score == h.score && r.row == h.row
  {
    if h in RowHits(rows[0], mapped) {
      assert rows[0] in rows;
    } else {
      DecodeMember(rows[1..], mapped, h);
    }
  }

  lemma {:induction false} DecodeAtLeast(rows: seq<ScoredRow>, mapped: MappedFiles)
    requires EachKeyHasFiles(mapped) && forall r :: r in rows ==> r.row.key in mapped
    ensures |Decode(rows, mapped)| >= |rows|
  {
    if rows != [] {
      assert rows[0] in rows;
      DecodeAtLeast(rows[1..], mapped);
    }
  }

  lemma {:induction false} DecodeSorted(signal: Signal, rows: seq<ScoredRow>, mapped: MappedFiles)
    requires Sorted(RowRank(signal), rows)
    ensures Sorted(HitRank(signal), Decode(rows, mapped))
  {
    if rows != [] {
      DecodeSorted(signal, rows[1..], mapped);
      forall x, y | x in RowHits(rows[0], mapped) && y in Decode(rows[1..], mapped)
        ensures HitRank(signal)(x) <= HitRank(signal)(y)
      {
        DecodeMember(rows[1..], mapped, y);
        var r :| r in rows[1..] && r.score == y.score;
        var i :| 0 <= i < |rows[1..]| && rows[1..][i] == r;
        assert RowRank(signal)(rows[0]) <= RowRank(signal)(rows[i+1]);
      }
      SortedConcat(HitRank(signal), RowHits(rows[0], mapped), Decode(rows[1..], mapped));
    }
  }

  lemma SortedConcat<T>(rank: T -> int, a: seq<T>, b: seq<T>)
    requires Sorted(rank, a) && Sorted(rank, b)
    requires forall x, y :: x in a && y in b ==> rank(x) <= rank(y)
    ensures Sorted(rank, a + b)
  {}

  lemma {:induction false} WithinMember(rows: seq<ScoredRow>, keys: set<Key>, r: ScoredRow)
    ensures r in Within(rows, keys) <==> r in rows && r.row.key in keys
  {
    if rows != [] {
      WithinMember(rows[1..], keys, r);
    }
  }

  lemma {:induction false} DecodeWithinMapped(rows: seq<ScoredRow>, mapped: MappedFiles)
    ensures Decode(Within(rows, mapped.Keys), mapped) == Decode(rows, mapped)
  {
    if rows != [] {
      DecodeWithinMapped(rows[1..], mapped);
      var rest := Within(rows[1..], mapped.Keys);
      if rows[0].row.key in mapped {
        assert Within(rows, mapped.Keys) == [rows[0]] + rest;
        assert ([rows[0]] + rest)[1..] == rest;
      } else {
        assert Within(rows, mapped.Keys) == rest && RowHits(rows[0], mapped) == [];
      }
    }
  }

  /** Disjoint key groups split the rows between them. */
  lemma {:induction false} WithinSplits(rows: seq<ScoredRow>, a: set<Key>, b: set<Key>)
    requires a !! b
    ensures multiset(Within(rows, a + b)) == multiset(Within(rows, a)) + multiset(Within(rows, b))
  {
    if rows != [] {
      WithinSplits(rows[1..], a, b);
    }
  }

  lemma {:induction false} WithinNothing(rows: seq<ScoredRow>)
    ensures Within(rows, {}) == []
  {
    if rows != [] {
      WithinNothing(rows[1..]);
    }
  }

  // ----- what one scan contributes -----

  /** What a successful scan left out. */
  ghost function LeftOut(signal: Signal, universe: seq<ScoredRow>, scan: Scanner, filter: Option<set<Key>>, limit: nat)
    : (rest: seq<ScoredRow>)
    requires RanksExactly(signal, universe, scan) && scan(filter, limit).Ok?
    ensures IsTopK(RowRank(signal), scan(filter, limit).value, rest, multiset(Matching(universe, filter)), limit)
  {
    assert ScanExact(signal, universe, scan, filter, limit);
    var rest :| IsTopK(RowRank(signal), scan(filter, limit).value, rest, multiset(Matching(universe, filter)), limit);
    rest
  }

  lemma DecodedParts(rows: seq<ScoredRow>, rest: seq<ScoredRow>, all: seq<ScoredRow>, mapped: MappedFiles)
    requires multiset(rows) + multiset(rest) == multiset(all)
    ensures multiset(Decode(rows, mapped)) + multiset(Decode(rest, mapped)) == multiset(Decode(all, mapped))
  {
    assert multiset(rows + rest) == multiset(all);
    DecodePermutation(rows + rest, all, mapped);
    DecodeConcat(rows, rest, mapped);
  }

  /** Hits decoded from the rows a scan kept rank no worse than hits of the rows it left out. */
  lemma KeptRanksFirst(signal: Signal, rows: seq<ScoredRow>, rest: seq<ScoredRow>, mapped: MappedFiles, d: Hit)
    requires forall x, y :: x in rows && y in rest ==> RowRank(signal)(x) <= RowRank(signal)(y)
    requires d in Decode(rest, mapped)
    ensures CountLe(HitRank(signal), Decode(rows, mapped), HitRank(signal)(d)) == |Decode(rows, mapped)|
  {
    DecodeMember(rest, mapped, d);
    var y :| y in rest && y.score == d.score;
    forall h | h in Decode(rows, mapped)
      ensures HitRank(signal)(h) <= HitRank(signal)(d)
    {
      DecodeMember(rows, mapped, h);
      var x :| x in rows && x.score == h.score;
      assert RowRank(signal)(x) <= RowRank(signal)(y);
    }
    CountLeAll(HitRank(signal), Decode(rows, mapped), HitRank(signal)(d));
  }

  /** A scan of mapped keys either kept every row or filled the limit with rows that rank no worse. */
  lemma GroupIsEnough(signal: Signal, rows: seq<ScoredRow>, rest: seq<ScoredRow>, all: seq<ScoredRow>, keys: set<Key>,
                      mapped: MappedFiles, limit: nat, d: Hit)
    requires IsTopK(RowRank(signal), rows, rest, multiset(Within(all, keys)), limit)
    requires keys <= mapped.Keys && EachKeyHasFiles(mapped) && d in Decode(rest, mapped)
    ensures CountLe(HitRank(signal), Decode(rows, mapped), HitRank(signal)(d)) >= limit
  {
    KeptRanksFirst(signal, rows, rest, mapped, d);
    assert rest != [];
    assert |multiset(rows) + multiset(rest)| == |rows| + |rest|;
    assert |rows| == limit;
    forall r | r in rows
      ensures r.row.key in mapped
    {
      assert r in multiset(rows) + multiset(rest);
      WithinMember(all, keys, r);
    }
    DecodeAtLeast(rows, mapped);
  }

  // ----- the three paths -----

  /** `r` is a best-first answer to the root's hits, and its scores are those of the full sorted list. */
  ghost predicate Exact(signal: Signal, universe: seq<ScoredRow>, mapped: MappedFiles, limit: nat, r: seq<Hit>) {
    var all := Decode(universe, mapped);
    && (exists rest :: IsTopK(HitRank(signal), r, rest, multiset(all), limit))
    && RanksOfSorted(HitRank(signal), r, all, limit)
  }

  lemma TopKIsExact(signal: Signal, universe: seq<ScoredRow>, mapped: MappedFiles, limit: nat, r: seq<Hit>,
                    rest: seq<Hit>)
    requires IsTopK(HitRank(signal), r, rest, multiset(Decode(universe, mapped)), limit)
    ensures Exact(signal, universe, mapped, limit, r)
  {
    TopKMatchesSorted(HitRank(signal), r, rest, Decode(universe, mapped), limit);
  }

  /** A hit left out ranks no better than any hit returned, and only a full answer leaves one out. */
  lemma OmittedRanksLast(signal: Signal, universe: seq<ScoredRow>, mapped: MappedFiles, limit: nat, r: seq<Hit>, h: Hit)
    requires Exact(signal, universe, mapped, limit, r) && h in Decode(universe, mapped) && h !in r
    ensures |r| == limit && forall x :: x in r ==> Rank(signal, x.score) <= Rank(signal, h.score)
  {
    var rank, all := HitRank(signal), multiset(Decode(universe, mapped));
    var rest :| IsTopK(rank, r, rest, all, limit);
    assert h in all && h !in multiset(r);
    assert h in multiset(rest) && h in rest;
    assert |all| == |r| + |rest|;
    forall x | x in r
      ensures Rank(signal, x.score) <= Rank(signal, h.score)
    {
      assert rank(x) <= rank(h);
    }
  }

  lemma AnswersAreSorted(signal: Signal, universe: seq<ScoredRow>, mapped: MappedFiles, limit: nat, r: seq<Hit>,
                         i: nat, j: nat)
    requires Exact(signal, universe, mapped, limit, r) && i < j < |r|
    ensures Rank(signal, r[i].score) <= Rank(signal, r[j].score)
  {
    var rest :| IsTopK(HitRank(signal), r, rest, multiset(Decode(universe, mapped)), limit);
    assert HitRank(signal)(r[i]) <= HitRank(signal)(r[j]);
  }

  /** Relevance comes highest first, distance lowest first, and no hit left out beats one returned. */
  lemma AnswersAreBestFirst(signal: Signal, universe: seq<ScoredRow>, mapped: MappedFiles, limit: nat, r: seq<Hit>,
                            h: Hit)
    requires Exact(signal, universe, mapped, limit, r) && h in Decode(universe, mapped) && h !in r
    ensures |r| == limit
    ensures signal.Fts? ==> forall j :: 0 <= j < |r| ==> r[j].score >= h.score
    ensures signal.Fts? ==> forall i, j :: 0 <= i < j < |r| ==> r[i].score >= r[j].score
    ensures signal.Nearest? ==> forall j :: 0 <= j < |r| ==> r[j].score <= h.score
    ensures signal.Nearest? ==> forall i, j :: 0 <= i < j < |r| ==> r[i].score <= r[j].score
  {
    OmittedRanksLast(signal, universe, mapped, limit, r, h);
    forall j | 0 <= j < |r|
      ensures Rank(signal, r[j].score) <= Rank(signal, h.score)
    {
      assert r[j] in r;
    }
    forall i, j | 0 <= i < j < |r|
      ensures Rank(signal, r[i].score) <= Rank(signal, r[j].score)
    {
      AnswersAreSorted(signal, universe, mapped, limit, r, i, j);
    }
  }

  /** Whichever way the hits were found, sorting and cutting them is exact once enough were found. */
  lemma FoundIsExact(signal: Signal, universe: seq<ScoredRow>, mapped: MappedFiles, limit: nat,
                     sorted: seq<Hit>, found: seq<Hit>, left: seq<Hit>)
    requires Sorted(HitRank(signal), sorted) && multiset(sorted) == multiset(found)
    requires multiset(found) + multiset(left) == multiset(Decode(universe, mapped))
    requires forall d :: d in left ==> CountLe(HitRank(signal), found, HitRank(signal)(d)) >= limit
    ensures Exact(signal, universe, mapped, limit, sorted[..Min(limit, |sorted|)])
  {
    FoundIsEnough(HitRank(signal), sorted, found, left, limit);
    var k := Min(limit, |sorted|);
    TopKIsExact(signal, universe, mapped, limit, sorted[..k], sorted[k..] + left);
  }

  method ScanOneGroup(signal: Signal, mapped: MappedFiles, limit: nat, scan: Scanner, ghost universe: seq<ScoredRow>)
    returns (r: Result<seq<Hit>>)
    requires EachKeyHasFiles(mapped) && RanksExactly(signal, universe, scan)
    ensures r.Ok? ==> Exact(signal, universe, mapped, limit, r.value)
    ensures r.Err? <==> scan(Some(mapped.Keys), limit).Err?
  {
    var keys := mapped.Keys;
    var answer := scan(Some(keys), limit);
    if answer.Err? {
      return Err;
    }
    var rows := answer.value;
    ghost var rest := LeftOut(signal, universe, scan, Some(keys), limit);
    var scored := Decode(rows, mapped);
    ghost var left := Decode(rest, mapped);
    DecodeSorted(signal, rows, mapped);
    DecodedParts(rows, rest, Within(universe, keys), mapped);
    DecodeWithinMapped(universe, mapped);
    forall d | d in left
      ensures CountLe(HitRank(signal), scored, HitRank(signal)(d)) >= limit
    {
      GroupIsEnough(signal, rows, rest, universe, keys, mapped, limit, d);
    }
    FoundIsExact(signal, universe, mapped, limit, scored, scored, left);
    return Ok(scored[..Min(limit, |scored|)]);
  }

  /** How many rows the unscoped scan asks for: eight times the limit, saturating, and at least 64. */
  function Fetched(limit: nat): (fetch: nat)
    ensures fetch >= 64 && (64 <= 8 * limit <= USIZE_MAX ==> fetch == 8 * limit)
    ensures 8 * limit <= 64 ==> fetch == 64
  {
    var product := if limit * OVERFETCH_FACTOR <= USIZE_MAX then limit * OVERFETCH_FACTOR else USIZE_MAX;
    if product >= OVERFETCH_FLOOR then product else OVERFETCH_FLOOR
  }

  /** One unscoped scan for a multiple of the limit; gives up when it does not fill the limit. */
  method ScanUnscoped(signal: Signal, mapped: MappedFiles, limit: nat, scan: Scanner, ghost universe: seq<ScoredRow>)
    returns (r: Result<Option<seq<Hit>>>)
    requires RanksExactly(signal, universe, scan)
    ensures r.Ok? && r.value.Some? ==> Exact(signal, universe, mapped, limit, r.value.value)
    ensures r.Err? <==> scan(None, Fetched(limit)).Err?
    ensures r.Ok? ==>
      (r.value.Some? <==> |Decode(scan(None, Fetched(limit)).value, mapped)| >= limit)
  {
    var fetch := Fetched(limit);
    var answer := scan(None, fetch);
    if answer.Err? {
      return Err;
    }
    var rows := answer.value;
    ghost var rest := LeftOut(signal, universe, scan, None, fetch);
    var scored := Decode(rows, mapped);
    if |scored| < limit {
      return Ok(None);
    }
    ghost var left := Decode(rest, mapped);
    DecodedParts(rows, rest, universe, mapped);
    forall d | d in left
      ensures CountLe(HitRank(signal), scored, HitRank(signal)(d)) >= limit
    {
      KeptRanksFirst(signal, rows, rest, mapped, d);
    }
    var sorted := SortBy(HitRank(signal), scored);
    SortBySorts(HitRank(signal), scored);
    FoundIsExact(signal, universe, mapped, limit, sorted, scored, left);
    return Ok(Some(sorted[..limit]));
  }

  /** One scan per key group, merged by rank. */
  method ScanGroups(signal: Signal, mapped: MappedFiles, groups: seq<set<Key>>, limit: nat, scan: Scanner,
                    ghost universe: seq<ScoredRow>) returns (r: Result<seq<Hit>>)
    requires EachKeyHasFiles(mapped) && RanksExactly(signal, universe, scan)
    requires Union(groups) == mapped.Keys && Disjoint(groups)
    ensures r.Ok? ==> Exact(signal, universe, mapped, limit, r.value)
    ensures r.Err? <==> GroupFails(groups, limit, scan)
  {
    var scored: seq<Hit> := [];
    ghost var left: seq<Hit> := [];
    WithinNothing(universe);
    for i := 0 to |groups|
      invariant !GroupFails(groups[..i], limit, scan)
      invariant FoundIn(signal, universe, mapped, Union(groups[..i]), limit, scored, left)
    {
      var answer := scan(Some(groups[i]), limit);
      NextGroupFails(groups, i, limit, scan);
      if answer.Err? {
        return Err;
      }
      var rows := answer.value;
      ghost var rest := LeftOut(signal, universe, scan, Some(groups[i]), limit);
      NextGroupFound(signal, universe, mapped, groups, i, limit, scored, left, rows, rest);
      scored := scored + Decode(rows, mapped);
      left := left + Decode(rest, mapped);
    }
    assert groups[..|groups|] == groups;
    var sorted := SortBy(HitRank(signal), scored);
    FoundInAllIsExact(signal, universe, mapped, limit, scored, left);
    return Ok(sorted[..Min(limit, |sorted|)]);
  }

  lemma NextGroupFails(groups: seq<set<Key>>, i: nat, limit: nat, scan: Scanner)
    requires i < |groups|
    ensures GroupFails(groups[..i+1], limit, scan) <==>
      GroupFails(groups[..i], limit, scan) || scan(Some(groups[i]), limit).Err?
    ensures scan(Some(groups[i]), limit).Err? ==> GroupFails(groups, limit, scan)
  {
    var more := groups[..i+1];
    if GroupFails(groups[..i], limit, scan) {
      var j :| 0 <= j < i && scan(Some(groups[..i][j]), limit).Err?;
      assert more[j] == groups[..i][j];
    }
    if scan(Some(groups[i]), limit).Err? {
      assert more[i] == groups[i];
    }
    if GroupFails(more, limit, scan) {
      var j :| 0 <= j <= i && scan(Some(more[j]), limit).Err?;
      assert j < i ==> groups[..i][j] == more[j];
    }
  }

  lemma FoundInAllIsExact(signal: Signal, universe: seq<ScoredRow>, mapped: MappedFiles, limit: nat,
                          scored: seq<Hit>, left: seq<Hit>)
    requires FoundIn(signal, universe, mapped, mapped.Keys, limit, scored, left)
    ensures var sorted := SortBy(HitRank(signal), scored);
      Exact(signal, universe, mapped, limit, sorted[..Min(limit, |sorted|)])
  {
    DecodeWithinMapped(universe, mapped);
    SortBySorts(HitRank(signal), scored);
    FoundIsExact(signal, universe, mapped, limit, SortBy(HitRank(signal), scored), scored, left);
  }

  /** `scored` and `left` are the hits of `keys`, and each hit left has `limit` hits found that rank no worse. */
  ghost predicate FoundIn(signal: Signal, universe: seq<ScoredRow>, mapped: MappedFiles, keys: set<Key>, limit: nat,
                          scored: seq<Hit>, left: seq<Hit>) {
    && multiset(scored) + multiset(left) == multiset(Decode(Within(universe, keys), mapped))
    && forall d :: d in left ==> CountLe(HitRank(signal), scored, HitRank(signal)(d)) >= limit
  }

  lemma NextGroupFound(signal: Signal, universe: seq<ScoredRow>, mapped: MappedFiles, groups: seq<set<Key>>, i: nat,
                       limit: nat,
                       scored: seq<Hit>, left: seq<Hit>, rows: seq<ScoredRow>, rest: seq<ScoredRow>)
    requires i < |groups| && Union(groups) == mapped.Keys && Disjoint(groups) && EachKeyHasFiles(mapped)
    requires FoundIn(signal, universe, mapped, Union(groups[..i]), limit, scored, left)
    requires IsTopK(RowRank(signal), rows, rest, multiset(Within(universe, groups[i])), limit)
    ensures FoundIn(signal, universe, mapped, Union(groups[..i+1]), limit,
                    scored + Decode(rows, mapped), left + Decode(rest, mapped))
  {
    UnionContains(groups, i);
    GroupJoins(universe, groups, i, rows, rest, mapped);
    MergeKeepsEnough(signal, universe, groups[i], rows, rest, mapped, limit, scored, left);
  }

  lemma {:induction false} UnionContains(groups: seq<set<Key>>, i: nat)
    requires i < |groups|
    ensures groups[i] <= Union(groups)
  {
    if i < |groups| - 1 {
      UnionContains(groups[..|groups|-1], i);
    }
  }

  lemma {:induction false} UnionDisjoint(groups: seq<set<Key>>, i: nat, n: nat)
    requires Disjoint(groups) && n <= i < |groups|
    ensures Union(groups[..n]) !! groups[i]
  {
    if n > 0 {
      UnionDisjoint(groups, i, n - 1);
      assert groups[..n][..n-1] == groups[..n-1];
    }
  }

  lemma GroupJoins(universe: seq<ScoredRow>, groups: seq<set<Key>>, i: nat, rows: seq<ScoredRow>, rest: seq<ScoredRow>,
                   mapped: MappedFiles)
    requires i < |groups| && Disjoint(groups)
    requires multiset(rows) + multiset(rest) == multiset(Within(universe, groups[i]))
    ensures multiset(Decode(Within(universe, Union(groups[..i+1])), mapped))
      == multiset(Decode(Within(universe, Union(groups[..i])), mapped))
         + multiset(Decode(rows, mapped)) + multiset(Decode(rest, mapped))
  {
    assert groups[..i+1][..i] == groups[..i];
    UnionDisjoint(groups, i, i);
    var before, mine := Within(universe, Union(groups[..i])), Within(universe, groups[i]);
    WithinSplits(universe, Union(groups[..i]), groups[i]);
    DecodedParts(before, mine, Within(universe, Union(groups[..i+1])), mapped);
    DecodedParts(rows, rest, mine, mapped);
  }

  lemma MergeKeepsEnough(signal: Signal, universe: seq<ScoredRow>, g: set<Key>, rows: seq<ScoredRow>,
                         rest: seq<ScoredRow>,
                         mapped: MappedFiles, limit: nat, scored: seq<Hit>, left: seq<Hit>)
    requires IsTopK(RowRank(signal), rows, rest, multiset(Within(universe, g)), limit)
    requires g <= mapped.Keys && EachKeyHasFiles(mapped)
    requires forall d :: d in left ==> CountLe(HitRank(signal), scored, HitRank(signal)(d)) >= limit
    ensures forall d :: d in left + Decode(rest, mapped) ==>
      CountLe(HitRank(signal), scored + Decode(rows, mapped), HitRank(signal)(d)) >= limit
  {
    forall d | d in left + Decode(rest, mapped)
      ensures CountLe(HitRank(signal), scored + Decode(rows, mapped), HitRank(signal)(d)) >= limit
    {
      CountLeConcat(HitRank(signal), scored, Decode(rows, mapped), HitRank(signal)(d));
      if d in Decode(rest, mapped) {
        GroupIsEnough(signal, rows, rest, universe, g, mapped, limit, d);
      }
    }
  }

  predicate Ranked(signal: Signal) {
    signal.Fts? || signal.Nearest?
  }

  predicate GroupFails(groups: seq<set<Key>>, limit: nat, scan: Scanner) {
    exists i :: 0 <= i < |groups| && scan(Some(groups[i]), limit).Err?
  }

  /** A scan fails that the answer needs: the one group's; or the unscoped one of a ranked signal; or, if
      that is missing or too short, a group's. */
  predicate ScansFail(signal: Signal, mapped: MappedFiles, groups: seq<set<Key>>, limit: nat, scan: Scanner) {
    if |groups| <= 1 then GroupFails(groups, limit, scan)
    else if !Ranked(signal) then GroupFails(groups, limit, scan)
    else
      || scan(None, Fetched(limit)).Err?
      || (|Decode(scan(None, Fetched(limit)).value, mapped)| < limit && GroupFails(groups, limit, scan))
  }

  /** The root's best `limit` hits, by whichever path its map size and the scores call for. */
  method ScopedHits(signal: Signal, mapped: MappedFiles, groups: seq<set<Key>>, limit: nat, scan: Scanner,
                    ghost universe: seq<ScoredRow>) returns (r: Result<seq<Hit>>)
    requires EachKeyHasFiles(mapped) && RanksExactly(signal, universe, scan)
    requires Union(groups) == mapped.Keys && Disjoint(groups) && limit <= USIZE_MAX
    ensures r.Ok? ==> Exact(signal, universe, mapped, limit, r.value)
    ensures r.Err? <==> ScansFail(signal, mapped, groups, limit, scan)
  {
    if groups == [] {
      DecodeWithinMapped(universe, mapped);
      WithinNothing(universe);
      TopKIsExact(signal, universe, mapped, limit, [], []);
      return Ok([]);
    }
    if |groups| == 1 {
      assert Union(groups[..0]) == {} && groups[0] == mapped.Keys;
      r := ScanOneGroup(signal, mapped, limit, scan, universe);
      return;
    }
    if Ranked(signal) {
      var quick := ScanUnscoped(signal, mapped, limit, scan, universe);
      if quick.Err? {
        return Err;
      }
      if quick.value.Some? {
        return Ok(quick.value.value);
      }
    }
    r := ScanGroups(signal, mapped, groups, limit, scan, universe);
  }
}
