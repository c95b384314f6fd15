/** What several modules say of sequences and numbers. */
module Seqs {
  function Max(a: int, b: int): int { if a < b then b else a }

  function Min(a: int, b: int): int { if a < b then a else b }

  function Elements<T>(s: seq<T>): set<T> {
    set x | x in s
  }

  ghost predicate Distinct<T>(s: seq<T>) {
    forall i, j | 0 <= i < j < |s| :: s[i] != s[j]
  }

  lemma DistinctFirst<T>(x: T, s: seq<T>)
    ensures Distinct([x] + s) <==> Distinct(s) && x !in s
  {
    var all := [x] + s;
    if Distinct(all) {
      assert forall i | 0 <= i < |s| :: s[i] == all[i + 1] && all[0] != all[i + 1];
    }
    if Distinct(s) && x !in s {
      forall i, j | 0 <= i < j < |all| ensures all[i] != all[j] {
        assert all[j] == s[j - 1] && s[j - 1] in s;
      }
    }
  }

  /** A sequence without one element, wherever it lies. */
  function Without<T(==)>(s: seq<T>, x: T): seq<T> {
    if s == [] then [] else (if s[0] == x then [] else [s[0]]) + Without(s[1..], x)
  }

  lemma {:induction false} WithoutMembers<T(!new)>(s: seq<T>, x: T)
    ensures forall y :: y in Without(s, x) <==> y in s && y != x
    ensures |Without(s, x)| <= |s|
  {
    if s != [] {
      WithoutMembers(s[1..], x);
      assert s == [s[0]] + s[1..];
    }
  }

  lemma {:induction false} WithoutAbsent<T>(s: seq<T>, x: T)
    requires x !in s
    ensures Without(s, x) == s
  {
    if s != [] { WithoutAbsent(s[1..], x); }
  }

  lemma WithoutHead<T>(s: seq<T>)
    requires Distinct(s) && s != []
    ensures Without(s, s[0]) == s[1..]
  {
    assert s == [s[0]] + s[1..];
    DistinctFirst(s[0], s[1..]);
    WithoutAbsent(s[1..], s[0]);
  }

  lemma {:induction false} WithoutAt<T>(s: seq<T>, i: nat)
    requires Distinct(s) && i < |s|
    ensures Without(s, s[i]) == s[..i] + s[i + 1..]
  {
    hide Distinct;
    var rest := s[1..];
    assert s == [s[0]] + rest;
    DistinctFirst(s[0], rest);
    if i == 0 {
      WithoutAbsent(rest, s[0]);
      assert Without(s, s[0]) == rest;
    } else {
      WithoutAt(rest, i - 1);
      assert rest[i - 1] == s[i] && s[0] != s[i];
      assert s[..i] + s[i + 1..] == [s[0]] + (rest[..i - 1] + rest[i..]);
    }
  }

  lemma {:induction false} WithoutDistinct<T(!new)>(s: seq<T>, x: T)
    requires Distinct(s)
    ensures Distinct(Without(s, x))
    ensures |Without(s, x)| == if x in s then |s| - 1 else |s|
  {
    hide Distinct;
    if s != [] {
      assert s == [s[0]] + s[1..];
      DistinctFirst(s[0], s[1..]);
      WithoutDistinct(s[1..], x);
      WithoutMembers(s[1..], x);
      DistinctFirst(s[0], Without(s[1..], x));
      assert [] + Without(s[1..], x) == Without(s[1..], x);
    }
  }
}
