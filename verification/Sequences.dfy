/** Sequences without repetition. */
module Sequences {
  predicate Distinct<T(==)>(s: seq<T>) { forall i, j | 0 <= i < j < |s| :: s[i] != s[j] }

  lemma DistinctWith<T>(s: seq<T>, k: nat, x: T)
    requires Distinct(s) && k <= |s| && x !in s
    ensures Distinct(s[..k] + [x] + s[k..])
  {
    var t := s[..k] + [x] + s[k..];
    assert forall i | 0 <= i < |t| :: t[i] == if i < k then s[i] else if i == k then x else s[i - 1];
  }

  lemma DistinctWithout<T>(s: seq<T>, k: nat)
    requires Distinct(s) && k < |s|
    ensures Distinct(s[..k] + s[k + 1..])
  {
    var t := s[..k] + s[k + 1..];
    assert forall i | 0 <= i < |t| :: t[i] == s[if i < k then i else i + 1];
  }

  lemma DistinctRest<T>(s: seq<T>)
    requires Distinct(s) && s != []
    ensures Distinct(s[1..])
  {
  }

  lemma OnlyFront<T>(s: seq<T>, x: T)
    requires s != [] && x !in s[1..]
    ensures x in s ==> x == s[0]
  {
    assert s == [s[0]] + s[1..];
  }

  lemma InsertedAt<T>(s: seq<T>, k: nat, x: T, i: nat)
    requires k <= |s| && i <= |s|
    ensures var t := s[..k] + [x] + s[k..]; t[i] == if i < k then s[i] else if i == k then x else s[i - 1]
  {
  }

  lemma InsertedHolds<T>(s: seq<T>, k: nat, x: T, y: T)
    requires k <= |s|
    ensures y in s[..k] + [x] + s[k..] <==> y == x || y in s
  {
    assert s == s[..k] + s[k..];
  }
}
