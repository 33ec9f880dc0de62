/** Ranked prefixes: the best `limit` elements of a collection, lowest rank first. */
module TopK {
  import opened Arithmetic

  predicate Sorted<T>(rank: T -> int, s: seq<T>) {
    forall i, j :: 0 <= i < j < |s| ==> rank(s[i]) <= rank(s[j])
  }

  /** `best` is a best-first answer of at most `limit` elements to `all`; `rest` is what it leaves out. */
  ghost predicate IsTopK<T(!new)>(rank: T -> int, best: seq<T>, rest: seq<T>, all: multiset<T>, limit: nat) {
    && multiset(best) + multiset(rest) == all
    && |best| == Min(limit, |all|)
    && Sorted(rank, best)
    && forall x, y :: x in best && y in rest ==> rank(x) <= rank(y)
  }

  function CountLe<T>(rank: T -> int, s: seq<T>, bound: int): (n: nat)
    ensures n <= |s|
  {
    if s == [] then 0 else (if rank(s[0]) <= bound then 1 else 0) + CountLe(rank, s[1..], bound)
  }

  lemma {:induction false} CountLeConcat<T>(rank: T -> int, a: seq<T>, b: seq<T>, bound: int)
    ensures CountLe(rank, a + b, bound) == CountLe(rank, a, bound) + CountLe(rank, b, bound)
  {
    if a == [] {
      assert a + b == b;
    } else {
      assert (a + b)[1..] == a[1..] + b;
      CountLeConcat(rank, a[1..], b, bound);
    }
  }

  /** The first element of `a` stands somewhere in `b`; without it both still have the same elements. */
  lemma RemoveFirst<T>(a: seq<T>, b: seq<T>) returns (front: seq<T>, back: seq<T>)
    requires multiset(a) == multiset(b) && a != []
    ensures b == front + ([a[0]] + back) && multiset(a[1..]) == multiset(front + back)
  {
    assert a == [a[0]] + a[1..];
    assert a[0] in multiset(b);
    var j :| 0 <= j < |b| && b[j] == a[0];
    front, back := b[..j], b[j+1..];
    assert b == front + ([b[j]] + back);
    assert multiset(b) == multiset(front) + multiset{b[j]} + multiset(back);
    assert multiset(front + back) == multiset(b) - multiset{b[j]};
    assert multiset(a[1..]) == multiset(a) - multiset{a[0]};
  }

  lemma {:induction false} CountLePermutation<T>(rank: T -> int, a: seq<T>, b: seq<T>, bound: int)
    requires multiset(a) == multiset(b)
    ensures CountLe(rank, a, bound) == CountLe(rank, b, bound)
    decreases |a|
  {
    if a == [] {
      assert |multiset(b)| == 0;
    } else {
      var front, back := RemoveFirst(a, b);
      CountLePermutation(rank, a[1..], front + back, bound);
      CountLeConcat(rank, front, back, bound);
      CountLeConcat(rank, front, [a[0]] + back, bound);
      assert ([a[0]] + back)[1..] == back;
    }
  }

  lemma {:induction false} CountLeAll<T>(rank: T -> int, s: seq<T>, bound: int)
    requires forall x :: x in s ==> rank(x) <= bound
    ensures CountLe(rank, s, bound) == |s|
  {
    if s != [] {
      CountLeAll(rank, s[1..], bound);
    }
  }

  lemma {:induction false} CountLeNone<T>(rank: T -> int, s: seq<T>, bound: int)
    requires forall x :: x in s ==> rank(x) > bound
    ensures CountLe(rank, s, bound) == 0
  {
    if s != [] {
      CountLeNone(rank, s[1..], bound);
    }
  }

  lemma CountLeCut<T>(rank: T -> int, s: seq<T>, i: nat, bound: int)
    requires Sorted(rank, s) && i < |s|
    ensures rank(s[i]) > bound ==> CountLe(rank, s, bound) <= i
    ensures rank(s[i]) <= bound ==> CountLe(rank, s, bound) >= i + 1
  {
    if rank(s[i]) > bound {
      CountLeNone(rank, s[i..], bound);
      assert s == s[..i] + s[i..];
      CountLeConcat(rank, s[..i], s[i..], bound);
    } else {
      CountLeAll(rank, s[..i+1], bound);
      assert s == s[..i+1] + s[i+1..];
      CountLeConcat(rank, s[..i+1], s[i+1..], bound);
    }
  }

  /** One answer never ranks worse than another at the same place. */
  lemma TopKNotWorse<T(!new)>(rank: T -> int, a: seq<T>, restA: seq<T>, b: seq<T>, restB: seq<T>, all: multiset<T>,
                       limit: nat, i: nat)
    requires IsTopK(rank, a, restA, all, limit) && IsTopK(rank, b, restB, all, limit) && i < |a|
    ensures |a| == |b| && rank(a[i]) <= rank(b[i])
  {
    var bound := rank(b[i]);
    if rank(a[i]) > bound {
      CountLeCut(rank, a, i, bound);
      CountLeCut(rank, b, i, bound);
      assert a[i] in a;
      CountLeNone(rank, restA, bound);
      CountLeConcat(rank, a, restA, bound);
      CountLeConcat(rank, b, restB, bound);
      assert multiset(a + restA) == multiset(b + restB);
      CountLePermutation(rank, a + restA, b + restB, bound);
    }
  }

  /** Ties aside, a ranked answer is unique: its sequence of ranks is determined. */
  lemma TopKRanksUnique<T(!new)>(rank: T -> int, a: seq<T>, restA: seq<T>, b: seq<T>, restB: seq<T>,
                          all: multiset<T>, limit: nat)
    requires IsTopK(rank, a, restA, all, limit) && IsTopK(rank, b, restB, all, limit)
    ensures |a| == |b| && forall i :: 0 <= i < |a| ==> rank(a[i]) == rank(b[i])
  {
    forall i | 0 <= i < |a|
      ensures rank(a[i]) == rank(b[i])
    {
      TopKNotWorse(rank, a, restA, b, restB, all, limit, i);
      TopKNotWorse(rank, b, restB, a, restA, all, limit, i);
    }
  }

  // ----- sorting -----

  function Insert<T>(rank: T -> int, x: T, s: seq<T>): seq<T> {
    if s == [] then [x]
    else if rank(x) <= rank(s[0]) then [x] + s
    else [s[0]] + Insert(rank, x, s[1..])
  }

  /** A stable sort, lowest rank first. */
  function SortBy<T>(rank: T -> int, s: seq<T>): seq<T> {
    if s == [] then [] else Insert(rank, s[0], SortBy(rank, s[1..]))
  }

  lemma {:induction false} InsertKeeps<T>(rank: T -> int, x: T, s: seq<T>)
    ensures multiset(Insert(rank, x, s)) == multiset{x} + multiset(s)
  {
    if s != [] {
      assert s == [s[0]] + s[1..];
      if rank(x) > rank(s[0]) {
        InsertKeeps(rank, x, s[1..]);
      }
    }
  }

  /** An element that ranks no worse than all of a sorted list may go in front of it. */
  lemma SortedCons<T>(rank: T -> int, x: T, s: seq<T>)
    requires Sorted(rank, s) && forall y :: y in s ==> rank(x) <= rank(y)
    ensures Sorted(rank, [x] + s)
  {}

  lemma {:induction false} InsertSorts<T>(rank: T -> int, x: T, s: seq<T>)
    requires Sorted(rank, s)
    ensures Sorted(rank, Insert(rank, x, s))
  {
    if s == [] || rank(x) <= rank(s[0]) {
      SortedCons(rank, x, s);
    } else {
      InsertSorts(rank, x, s[1..]);
      InsertKeeps(rank, x, s[1..]);
      forall y | y in Insert(rank, x, s[1..])
        ensures rank(s[0]) <= rank(y)
      {
        assert y in multiset(Insert(rank, x, s[1..]));
      }
      SortedCons(rank, s[0], Insert(rank, x, s[1..]));
    }
  }

  lemma SameSize<T>(a: seq<T>, b: seq<T>)
    requires multiset(a) == multiset(b)
    ensures |a| == |b|
  {
    assert |multiset(a)| == |a| && |multiset(b)| == |b|;
  }

  lemma {:induction false} SortByKeeps<T>(rank: T -> int, s: seq<T>)
    ensures multiset(SortBy(rank, s)) == multiset(s)
  {
    if s != [] {
      SortByKeeps(rank, s[1..]);
      InsertKeeps(rank, s[0], SortBy(rank, s[1..]));
      assert s == [s[0]] + s[1..];
    }
  }

  lemma {:induction false} SortByOrders<T>(rank: T -> int, s: seq<T>)
    ensures Sorted(rank, SortBy(rank, s))
  {
    if s != [] {
      SortByOrders(rank, s[1..]);
      InsertSorts(rank, s[0], SortBy(rank, s[1..]));
    }
  }

  lemma SortBySorts<T>(rank: T -> int, s: seq<T>)
    ensures Sorted(rank, SortBy(rank, s)) && multiset(SortBy(rank, s)) == multiset(s) && |SortBy(rank, s)| == |s|
  {
    SortByKeeps(rank, s);
    SortByOrders(rank, s);
    SameSize(SortBy(rank, s), s);
  }

  /**
   The best `limit` of what was found is the best `limit` of everything, when for each element left
   behind at least `limit` found ones rank no worse.
   */
  lemma FoundIsEnough<T(!new)>(rank: T -> int, sorted: seq<T>, found: seq<T>, left: seq<T>, limit: nat)
    requires Sorted(rank, sorted) && multiset(sorted) == multiset(found)
    requires forall d :: d in left ==> CountLe(rank, found, rank(d)) >= limit
    ensures var k := Min(limit, |sorted|);
      IsTopK(rank, sorted[..k], sorted[k..] + left, multiset(found) + multiset(left), limit)
  {
    var k := Min(limit, |sorted|);
    assert sorted == sorted[..k] + sorted[k..];
    CutIsTopK(rank, sorted[..k], sorted[k..], found, left, limit);
  }

  lemma CutIsTopK<T(!new)>(rank: T -> int, best: seq<T>, tail: seq<T>, found: seq<T>, left: seq<T>, limit: nat)
    requires Sorted(rank, best + tail) && multiset(best + tail) == multiset(found)
    requires |best| == Min(limit, |best + tail|)
    requires forall d :: d in left ==> CountLe(rank, found, rank(d)) >= limit
    ensures IsTopK(rank, best, tail + left, multiset(found) + multiset(left), limit)
  {
    var sorted := best + tail;
    SameSize(sorted, found);
    forall i, y | 0 <= i < |best| && y in tail + left
      ensures rank(best[i]) <= rank(y)
    {
      assert sorted[i] == best[i];
      if y in left {
        FoundRanksFirst(rank, sorted, found, i, limit, rank(y));
      } else {
        var j :| 0 <= j < |tail| && tail[j] == y;
        assert sorted[|best| + j] == y;
      }
    }
    assert forall i :: 0 <= i < |best| ==> best[i] == sorted[i];
    if left != [] {
      assert left[0] in left;
      assert |found| >= limit;
    }
  }

  lemma FoundRanksFirst<T>(rank: T -> int, sorted: seq<T>, found: seq<T>, i: nat, limit: nat, bound: int)
    requires Sorted(rank, sorted) && multiset(sorted) == multiset(found) && CountLe(rank, found, bound) >= limit
    requires i < limit && i < |sorted|
    ensures rank(sorted[i]) <= bound
  {
    CountLePermutation(rank, sorted, found, bound);
    CountLeCut(rank, sorted, i, bound);
  }

  /** `r` carries the ranks of the first `limit` elements of `all` in sorted order. */
  ghost predicate RanksOfSorted<T(!new)>(rank: T -> int, r: seq<T>, all: seq<T>, limit: nat) {
    var sorted := SortBy(rank, all);
    |r| == Min(limit, |sorted|) && forall i :: 0 <= i < |r| ==> rank(r[i]) == rank(sorted[i])
  }

  lemma TopKMatchesSorted<T(!new)>(rank: T -> int, r: seq<T>, rest: seq<T>, all: seq<T>, limit: nat)
    requires IsTopK(rank, r, rest, multiset(all), limit)
    ensures RanksOfSorted(rank, r, all, limit)
  {
    var sorted := SortBy(rank, all);
    SortBySorts(rank, all);
    FoundIsEnough(rank, sorted, all, [], limit);
    var k := Min(limit, |sorted|);
    assert multiset(all) + multiset([]) == multiset(all);
    TopKRanksUnique(rank, r, rest, sorted[..k], sorted[k..] + [], multiset(all), limit);
  }
}
