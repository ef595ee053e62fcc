/** Datatypes and small sequence facts shared by the models. */
module Basics {

  datatype Option<+T> = None | Some(value: T)

  function Max(a: int, b: int): int { if a < b then b else a }

  function Min(a: int, b: int): int { if b < a then b else a }

  lemma PositiveFactor(d: int, p: int)
    requires 0 < p && 0 < d * p
    ensures 0 < d
  {}

  lemma LessByFactor(k: int, m: int, p: int)
    requires 0 < p && k * p < m * p
    ensures k < m
  {
    assert (m - k) * p == m * p - k * p;
    PositiveFactor(m - k, p);
  }

  /** x / p is the q with q * p <= x < (q + 1) * p. */
  lemma QuotientIs(q: int, x: int, p: int)
    requires 0 < p && q * p <= x < (q + 1) * p
    ensures x / p == q
  {
    var q' := x / p;
    assert x == q' * p + x % p;
    assert (q' + 1) * p == q' * p + p;
    LessByFactor(q, q' + 1, p);
    LessByFactor(q', q + 1, p);
  }

  lemma QuotientBound(k: int, p: int, x: int)
    requires 0 < p && k * p <= x
    ensures k <= x / p
  {
    var q := x / p;
    assert x == q * p + x % p;
    assert (q + 1) * p == q * p + p;
    LessByFactor(k, q + 1, p);
  }

  lemma QuotientShift(x: int, p: int)
    requires 0 < p
    ensures (x + 2 * p) / p == x / p + 2
  {
    var q := x / p;
    assert x == q * p + x % p;
    assert (q + 2) * p == q * p + 2 * p;
    assert (q + 3) * p == q * p + 3 * p;
    QuotientIs(q + 2, x + 2 * p, p);
  }

  ghost predicate Distinct<T>(s: seq<T>) {
    forall i, j :: 0 <= i < j < |s| ==> s[i] != s[j]
  }

  ghost predicate SameMembers<T>(s: seq<T>, t: seq<T>) {
    (forall x :: x in s ==> x in t) && (forall x :: x in t ==> x in s)
  }

  ghost predicate StrictBy<T>(s: seq<T>, key: T -> int) {
    forall i, j :: 0 <= i < j < |s| ==> key(s[i]) < key(s[j])
  }

  /** A sequence strictly sorted by a key is determined by its members. */
  lemma {:induction false} StrictUnique<T>(s: seq<T>, t: seq<T>, key: T -> int)
    requires StrictBy(s, key) && StrictBy(t, key)
    requires SameMembers(s, t)
    ensures s == t
    decreases |s|
  {
    if s == [] || t == [] {
      NoMembers(s);
      NoMembers(t);
    } else {
      var m, n := |s| - 1, |t| - 1;
      assert s[m] in t && t[n] in s;
      assert s[m] == t[n];
      forall x ensures x in s[..m] <==> x in t[..n] {
        if x in s[..m] { assert x in t; assert key(x) < key(s[m]); }
        if x in t[..n] { assert x in s; assert key(x) < key(t[n]); }
      }
      StrictUnique(s[..m], t[..n], key);
      assert s == s[..m] + [s[m]] && t == t[..n] + [t[n]];
    }
  }

  lemma NoMembers<T>(s: seq<T>)
    ensures (forall x :: x !in s) <==> s == []
  {
    if s != [] { assert s[0] in s; }
  }
}
