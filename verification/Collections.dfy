/** Repetitions in sequences, and bounded groups out of sets. */
module Collections {

  lemma Twice<T>(s: seq<T>, i: nat, j: nat)
    requires i < j < |s| && s[i] == s[j]
    ensures multiset(s)[s[i]] >= 2
  {
    assert s == s[..j] + s[j..] && s[..j][i] == s[i] && s[j..][0] == s[i];
    assert s[i] in s[..j] && s[i] in s[j..];
    assert multiset(s) == multiset(s[..j]) + multiset(s[j..]);
  }

  lemma {:induction false} TwoPlaces<T>(s: seq<T>, x: T) returns (i: nat, j: nat)
    requires multiset(s)[x] >= 2
    ensures i < j < |s| && s[i] == x && s[j] == x
  {
    assert s == [s[0]] + s[1..];
    if s[0] == x {
      assert multiset(s[1..])[x] >= 1;
      assert x in s[1..];
      var n :| 0 <= n < |s[1..]| && s[1..][n] == x;
      i, j := 0, n + 1;
    } else {
      i, j := TwoPlaces(s[1..], x);
      i, j := i + 1, j + 1;
    }
  }

  lemma SubsetSize<T>(a: set<T>, b: set<T>)
    requires a <= b
    ensures |a| <= |b|
  {
    assert b == a + (b - a);
  }

  /** Some of `elements`: as many as there are, but at most `size`. */
  method TakeUpTo<T(==)>(elements: set<T>, size: nat) returns (group: set<T>)
    requires size > 0 && elements != {}
    ensures group <= elements && group != {} && |group| <= size
    ensures |group| == size || group == elements
    ensures |elements - group| < |elements|
  {
    group := {};
    while group != elements && |group| < size
      invariant group <= elements && |group| <= size
      decreases |elements - group|
    {
      var x :| x in elements - group;
      assert elements - (group + {x}) < elements - group;
      group := group + {x};
    }
    assert elements - group < elements;
  }
}
