/** Lists that stand for sets: which elements they hold, and whether they hold one twice. */
module Sequences {

  function Elements<T(==)>(s: seq<T>): set<T> {
    set x | x in s
  }

  predicate Distinct<T(==)>(s: seq<T>) {
    forall i, j | 0 <= i < j < |s| :: s[i] != s[j]
  }

  lemma DistinctCons<T>(x: T, rest: seq<T>)
    ensures Distinct([x] + rest) <==> x !in rest && Distinct(rest)
  {
    var s := [x] + rest;
    if Distinct(s) {
      forall j | 0 <= j < |rest| ensures rest[j] != x { assert s[j + 1] == rest[j] && s[0] == x; }
      forall i, j | 0 <= i < j < |rest|
        ensures rest[i] != rest[j]
      {
        assert rest[i] == s[i + 1] && rest[j] == s[j + 1];
      }
    } else {
      var i, j :| 0 <= i < j < |s| && s[i] == s[j];
      assert s[j] == rest[j - 1] && (i > 0 ==> s[i] == rest[i - 1]);
    }
  }

  /** Comparing sizes tells whether an element is repeated. */
  lemma {:induction false} DistinctIff<T>(s: seq<T>)
    ensures |Elements(s)| <= |s|
    ensures |Elements(s)| == |s| <==> Distinct(s)
  {
    if s != [] {
      var rest := s[1..];
      DistinctIff(rest);
      assert s == [s[0]] + rest;
      DistinctCons(s[0], rest);
      assert Elements(s) == {s[0]} + Elements(rest);
      hide Distinct;
      if s[0] in rest {
        assert Elements(s) == Elements(rest);
      }
    }
  }
}
