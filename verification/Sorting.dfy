/** std::sort and std::unique, specified by what they leave in the vector. */
module Sorting {
  import opened Basics

  function Identity(): nat -> int { (n: nat) => n }

  ghost predicate SortedBy<T>(s: seq<T>, key: T -> int) {
    forall i, j :: 0 <= i < j < |s| ==> key(s[i]) <= key(s[j])
  }

  /** Any order the C++ sort may choose among equal keys meets this contract. */
  method SortBy<T>(s: seq<T>, key: T -> int) returns (t: seq<T>)
    ensures SortedBy(t, key) && multiset(t) == multiset(s)
  {
    t := [];
    for i := 0 to |s|
      invariant SortedBy(t, key) && multiset(t) == multiset(s[..i])
    {
      t := Inserted(t, s[i], key);
      assert s[..i + 1] == s[..i] + [s[i]];
    }
    assert s[..|s|] == s;
  }

  method Inserted<T>(s: seq<T>, x: T, key: T -> int) returns (t: seq<T>)
    requires SortedBy(s, key)
    ensures SortedBy(t, key) && multiset(t) == multiset(s) + multiset{x}
  {
    var k := |s|;
    while k > 0 && key(s[k - 1]) > key(x)
      invariant 0 <= k <= |s|
      invariant forall j :: k <= j < |s| ==> key(x) < key(s[j])
    {
      k := k - 1;
    }
    InsertionKeepsOrder(s, x, k, key);
    assert s == s[..k] + s[k..];
    t := s[..k] + [x] + s[k..];
  }

  lemma InsertionKeepsOrder<T>(s: seq<T>, x: T, k: nat, key: T -> int)
    requires SortedBy(s, key) && k <= |s|
    requires k > 0 ==> key(s[k - 1]) <= key(x)
    requires forall j :: k <= j < |s| ==> key(x) < key(s[j])
    ensures SortedBy(s[..k] + [x] + s[k..], key)
  {
    var t := s[..k] + [x] + s[k..];
    assert forall j :: 0 <= j < k ==> t[j] == s[j] && key(s[j]) <= key(x);
    assert forall j :: k < j < |t| ==> t[j] == s[j - 1];
    assert t[k] == x;
  }

  lemma SameElems<T>(s: seq<T>, t: seq<T>)
    requires multiset(s) == multiset(t)
    ensures SameMembers(s, t) && |s| == |t|
  {
    assert |multiset(s)| == |s| && |multiset(t)| == |t|;
    forall x ensures x in s <==> x in t {
      assert x in multiset(s) <==> x in multiset(t);
    }
  }

  ghost predicate HasRepeat<T>(s: seq<T>, key: T -> int) {
    exists i, j :: 0 <= i < j < |s| && key(s[i]) == key(s[j])
  }

  /** Whether some key occurs twice does not depend on the order. */
  lemma RepeatSurvives<T>(s: seq<T>, t: seq<T>, key: T -> int)
    requires multiset(s) == multiset(t) && HasRepeat(s, key)
    ensures HasRepeat(t, key)
  {
    var i, j :| 0 <= i < j < |s| && key(s[i]) == key(s[j]);
    SameElems(s, t);
    assert s[i] in s && s[j] in s;
    if s[i] == s[j] {
      assert s == s[..i] + [s[i]] + s[i + 1..];
      assert s[i + 1..][j - i - 1] == s[j];
      assert multiset(s)[s[i]] >= 2;
      OccursTwice(t, s[i]);
    } else {
      var u :| 0 <= u < |t| && t[u] == s[i];
      var v :| 0 <= v < |t| && t[v] == s[j];
      if u < v { assert key(t[u]) == key(t[v]); } else { assert key(t[v]) == key(t[u]); }
    }
  }

  lemma OccursTwice<T>(t: seq<T>, x: T)
    requires multiset(t)[x] >= 2
    ensures exists i, j :: 0 <= i < j < |t| && t[i] == x && t[j] == x
  {
    assert x in multiset(t);
    var i :| 0 <= i < |t| && t[i] == x;
    var before, after := t[..i], t[i + 1..];
    assert t == before + [x] + after;
    assert x in multiset(before) || x in multiset(after);
    if x in before {
      var j :| 0 <= j < i && before[j] == x;
      assert t[j] == x;
    } else {
      assert x in after;
      var j :| 0 <= j < |after| && after[j] == x;
      assert t[i + 1 + j] == x;
    }
  }

  /** Drops repeats of a sorted sequence, which leaves it strictly sorted. */
  method Unique<T(==)>(s: seq<T>, key: T -> int) returns (t: seq<T>)
    requires SortedBy(s, key)
    requires forall x, y :: x in s && y in s && key(x) == key(y) ==> x == y
    ensures SameMembers(t, s) && StrictBy(t, key)
  {
    t := [];
    for i := 0 to |s|
      invariant SameMembers(t, s[..i]) && StrictBy(t, key)
      invariant t == [] <==> i == 0
      invariant t != [] ==> t[|t| - 1] == s[i - 1]
    {
      assert s[..i + 1] == s[..i] + [s[i]];
      if t == [] || t[|t| - 1] != s[i] {
        assert t != [] ==> t[|t| - 1] in s && s[i] in s;
        t := t + [s[i]];
      }
    }
    assert s[..|s|] == s;
  }
}
