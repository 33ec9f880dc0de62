/** Applying a reranker's answer to the hits in place, after checking that it is a permutation. */
module Crossencoder {
  import opened Collections
  import opened Records

  /** A hit: its score, and everything the reranker must not touch. */
  datatype Hit = Hit(payload: Text, score: real)

  /** One entry of the reranker's answer: the place of a document and its new score. */
  datatype Ranked = Ranked(index: nat, score: real)

  function Order(scored: seq<Ranked>): (order: seq<nat>)
    ensures |order| == |scored|
  {
    seq(|scored|, i requires 0 <= i < |scored| => scored[i].index)
  }

  function Upto(n: nat): (s: seq<nat>)
    ensures |s| == n
  {
    seq(n, i => i)
  }

  /** `order` lists 0..n, each place once. */
  ghost predicate IsPermutation(order: seq<nat>, n: nat) {
    multiset(order) == multiset(Upto(n))
  }

  predicate InRange(order: seq<nat>, n: nat) {
    forall i :: 0 <= i < |order| ==> order[i] < n
  }

  predicate NoDuplicates(order: seq<nat>) {
    forall i, j :: 0 <= i < j < |order| ==> order[i] != order[j]
  }

  function Without(order: seq<nat>, j: nat): (rest: seq<nat>)
    requires j < |order|
    ensures |rest| == |order| - 1
  {
    order[..j] + order[j+1..]
  }

  lemma WithoutCounts(order: seq<nat>, j: nat)
    requires j < |order|
    ensures multiset(order) == multiset(Without(order, j)) + multiset{order[j]}
  {
    assert order == order[..j] + ([order[j]] + order[j+1..]);
  }

  /** Without its one mention of the last place, an order stays below it. */
  lemma WithoutLast(order: seq<nat>, j: nat, n: nat)
    requires n > 0 && j < |order| && order[j] == n - 1 && InRange(order, n) && NoDuplicates(order)
    ensures InRange(Without(order, j), n - 1) && NoDuplicates(Without(order, j))
  {
    var rest := Without(order, j);
    assert forall i :: 0 <= i < |rest| ==> rest[i] == if i < j then order[i] else order[i+1];
  }

  /** Distinct places below n are at most n. */
  lemma {:induction false} FewerPlaces(order: seq<nat>, n: nat)
    requires InRange(order, n) && NoDuplicates(order)
    ensures |order| <= n
  {
    assert |order| > 0 ==> 0 <= order[0] < n;
    if n > 0 {
      if n - 1 in order {
        var j :| 0 <= j < |order| && order[j] == n - 1;
        WithoutLast(order, j, n);
        FewerPlaces(Without(order, j), n - 1);
      } else {
        FewerPlaces(order, n - 1);
      }
    }
  }

  /** Pigeonhole: n distinct places below n hit every place. */
  lemma {:induction false} DistinctPlacesFill(order: seq<nat>, n: nat)
    requires |order| == n && InRange(order, n) && NoDuplicates(order)
    ensures IsPermutation(order, n)
  {
    if n > 0 {
      if n - 1 !in order {
        FewerPlaces(order, n - 1);
      }
      var j :| 0 <= j < n && order[j] == n - 1;
      WithoutLast(order, j, n);
      WithoutCounts(order, j);
      DistinctPlacesFill(Without(order, j), n - 1);
      assert Upto(n) == Upto(n - 1) + [n - 1];
    }
  }

  lemma {:induction false} PermutationShape(order: seq<nat>, n: nat)
    requires IsPermutation(order, n)
    ensures |order| == n && InRange(order, n) && NoDuplicates(order)
  {
    assert |multiset(order)| == |multiset(Upto(n))|;
    forall i | 0 <= i < |order|
      ensures order[i] < n
    {
      assert order[i] in multiset(Upto(n));
    }
    forall i, j | 0 <= i < j < |order|
      ensures order[i] != order[j]
    {
      if order[i] == order[j] {
        Twice(order, i, j);
        UptoCounts(n, order[i]);
      }
    }
  }

  lemma {:induction false} UptoCounts(n: nat, x: nat)
    ensures multiset(Upto(n))[x] <= 1 && (x in multiset(Upto(n)) ==> x < n)
  {
    if n > 0 {
      UptoCounts(n - 1, x);
      assert Upto(n) == Upto(n - 1) + [n - 1];
    }
  }

  /** The length, range and duplicate checks accept exactly the permutations. */
  method CheckOrder(order: seq<nat>, n: nat) returns (ok: bool)
    ensures ok <==> IsPermutation(order, n)
  {
    if IsPermutationShape(order, n) {
      DistinctPlacesFill(order, n);
    }
    if |order| != n {
      ok := false;
    } else {
      ok := ScanOrder(order, n);
    }
    if IsPermutation(order, n) {
      PermutationShape(order, n);
    }
  }

  predicate IsPermutationShape(order: seq<nat>, n: nat) {
    |order| == n && InRange(order, n) && NoDuplicates(order)
  }

  /** Marks each place in `seen`; a place out of range or already marked rejects. */
  method ScanOrder(order: seq<nat>, n: nat) returns (ok: bool)
    ensures ok <==> InRange(order, n) && NoDuplicates(order)
  {
    var seen := new bool[n](_ => false);
    for i := 0 to |order|
      invariant InRange(order[..i], n) && NoDuplicates(order[..i])
      invariant forall p :: 0 <= p < n ==> (seen[p] <==> p in order[..i])
    {
      var place := order[i];
      if place >= n {
        return false;
      }
      if seen[place] {
        var j :| 0 <= j < i && order[..i][j] == place;
        assert order[j] == order[i];
        return false;
      }
      seen[place] := true;
      assert order[..i+1] == order[..i] + [place];
    }
    assert order[..|order|] == order;
    return true;
  }

  // ----- applying the answer -----

  function Payloads(hits: seq<Hit>): (texts: seq<Text>)
    ensures |texts| == |hits|
  {
    seq(|hits|, i requires 0 <= i < |hits| => hits[i].payload)
  }

  function Picked(texts: seq<Text>, order: seq<nat>): (picked: seq<Text>)
    requires InRange(order, |texts|)
    ensures |picked| == |order|
  {
    seq(|order|, i requires 0 <= i < |order| => texts[order[i]])
  }

  lemma PickWithout(texts: seq<Text>, order: seq<nat>, j: nat)
    requires |texts| > 0 && InRange(order, |texts|) && NoDuplicates(order) && j < |order| && order[j] == |texts| - 1
    ensures InRange(Without(order, j), |texts| - 1)
    ensures multiset(Picked(texts, order))
      == multiset(Picked(texts[..|texts|-1], Without(order, j))) + multiset{texts[|texts|-1]}
  {
    WithoutLast(order, j, |texts|);
    var picked := Picked(texts, order);
    assert picked == picked[..j] + ([texts[|texts|-1]] + picked[j+1..]);
    assert Picked(texts[..|texts|-1], Without(order, j)) == picked[..j] + picked[j+1..];
  }

  /** Reading a list through distinct places that fill it keeps its contents. */
  lemma {:induction false} PickKeepsContents(texts: seq<Text>, order: seq<nat>)
    requires |order| == |texts| && InRange(order, |texts|) && NoDuplicates(order)
    ensures multiset(Picked(texts, order)) == multiset(texts)
  {
    var n := |texts|;
    if n > 0 {
      if n - 1 !in order {
        FewerPlaces(order, n - 1);
      }
      var j :| 0 <= j < |order| && order[j] == n - 1;
      PickWithout(texts, order, j);
      WithoutLast(order, j, n);
      PickKeepsContents(texts[..n-1], Without(order, j));
      assert texts == texts[..n-1] + [texts[n-1]];
    }
  }

  /**
   Reorders `hits` by the reranker's answer and overwrites the scores. `answer` is the reranker's
   result for non-empty hits. On any error the hits are as before.
   */
  method Rerank(hits: array<Hit>, answer: Result<seq<Ranked>>) returns (r: Result<()>)
    modifies hits
    ensures r.Ok? <==> hits.Length == 0 || (answer.Ok? && IsPermutation(Order(answer.value), hits.Length))
    ensures r.Err? ==> hits[..] == old(hits[..])
    ensures r.Ok? && hits.Length > 0 ==> |answer.value| == hits.Length
    ensures r.Ok? && hits.Length > 0 ==> forall i :: 0 <= i < hits.Length ==>
      && answer.value[i].index < hits.Length
      && hits[i] == Hit(old(hits[..])[answer.value[i].index].payload, answer.value[i].score)
    ensures r.Ok? ==> multiset(Payloads(hits[..])) == multiset(Payloads(old(hits[..])))
  {
    if hits.Length == 0 {
      return Ok(());
    }
    if answer.Err? {
      return Err;
    }
    var scored := answer.value;
    var order := Order(scored);
    var ok := CheckOrder(order, hits.Length);
    if !ok {
      return Err;
    }
    ghost var before := hits[..];
    PermutationShape(order, hits.Length);
    OverwriteScores(hits, scored);
    ghost var rescored := hits[..];
    ApplyPermutation(hits, order);
    assert forall i :: 0 <= i < hits.Length ==> order[i] == scored[i].index && hits[i] == rescored[order[i]];
    assert Payloads(hits[..]) == Picked(Payloads(before), order);
    PickKeepsContents(Payloads(before), order);
    return Ok(());
  }

  method OverwriteScores(hits: array<Hit>, scored: seq<Ranked>)
    requires InRange(Order(scored), hits.Length) && NoDuplicates(Order(scored))
    modifies hits
    ensures forall p :: 0 <= p < hits.Length ==> hits[p].payload == old(hits[p]).payload
    ensures forall i :: 0 <= i < |scored| ==>
      scored[i].index < hits.Length && hits[scored[i].index].score == scored[i].score
  {
    assert forall i :: 0 <= i < |scored| ==> Order(scored)[i] == scored[i].index;
    for i := 0 to |scored|
      invariant forall p :: 0 <= p < hits.Length ==> hits[p].payload == old(hits[p]).payload
      invariant forall k :: 0 <= k < i ==> hits[scored[k].index].score == scored[k].score
    {
      hits[scored[i].index] := hits[scored[i].index].(score := scored[i].score);
    }
  }

  method ApplyPermutation(hits: array<Hit>, order: seq<nat>)
    requires |order| == hits.Length && InRange(order, hits.Length)
    modifies hits
    ensures forall i :: 0 <= i < hits.Length ==> hits[i] == old(hits[..])[order[i]]
  {
    var reordered := seq(|order|, i requires 0 <= i < |order| reads hits => hits[order[i]]);
    for i := 0 to hits.Length
      invariant forall k :: 0 <= k < i ==> hits[k] == reordered[k]
    {
      hits[i] := reordered[i];
    }
  }
}
