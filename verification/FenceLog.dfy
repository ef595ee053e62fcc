/** Counting fences: in a log of descriptors, and in a table of them. */
module FenceLog {
  import opened Basics

  /** A fence descriptor; an invalid one is None. */
  type Fence = nat

  function One(entry: Option<Fence>, f: Fence): nat {
    if entry == Some(f) then 1 else 0
  }

  /** How often a log names a fence. */
  ghost function Count(log: seq<Option<Fence>>, f: Fence): nat {
    if log == [] then 0 else Count(log[..|log| - 1], f) + One(log[|log| - 1], f)
  }

  lemma CountSnoc(log: seq<Option<Fence>>, entry: Option<Fence>, f: Fence)
    ensures Count(log + [entry], f) == Count(log, f) + One(entry, f)
  {
    assert (log + [entry])[..|log|] == log;
  }

  lemma {:induction false} CountConcat(a: seq<Option<Fence>>, b: seq<Option<Fence>>, f: Fence)
    ensures Count(a + b, f) == Count(a, f) + Count(b, f)
    decreases |b|
  {
    if b == [] {
      assert a + b == a;
    } else {
      var n := |b| - 1;
      assert a + b == a + b[..n] + [b[n]];
      CountConcat(a, b[..n], f);
      CountSnoc(a + b[..n], b[n], f);
    }
  }

  /** The entries of a table that hold a fence. */
  ghost function Holders(m: map<nat, Option<Fence>>, f: Fence): set<nat> {
    set k | k in m && m[k] == Some(f)
  }

  lemma HoldersTake(m: map<nat, Option<Fence>>, k: nat, f: Fence)
    requires k in m
    ensures |Holders(m, f)| == |Holders(m - {k}, f)| + One(m[k], f)
  {
    var fewer := Holders(m - {k}, f);
    assert k !in fewer;
    if m[k] == Some(f) {
      assert Holders(m, f) == fewer + {k};
    } else {
      assert Holders(m, f) == fewer;
    }
  }

  lemma HoldersSet(m: map<nat, Option<Fence>>, k: nat, entry: Option<Fence>, f: Fence)
    requires k in m
    ensures |Holders(m[k := entry], f)| + One(m[k], f) == |Holders(m, f)| + One(entry, f)
  {
    HoldersTake(m, k, f);
    HoldersTake(m[k := entry], k, f);
    assert m[k := entry] - {k} == m - {k};
  }

  lemma HoldersAdd(m: map<nat, Option<Fence>>, k: nat, entry: Option<Fence>, f: Fence)
    requires k !in m
    ensures |Holders(m[k := entry], f)| == |Holders(m, f)| + One(entry, f)
  {
    HoldersTake(m[k := entry], k, f);
    assert m[k := entry] - {k} == m;
  }

  /** The entries of a table, in the order of the keys given. */
  ghost function InOrder(m: map<nat, Option<Fence>>, order: seq<nat>): seq<Option<Fence>>
    requires forall k :: k in order ==> k in m
  {
    if order == [] then [] else InOrder(m, order[..|order| - 1]) + [m[order[|order| - 1]]]
  }

  /** Naming each key once, the entries in order hold each fence as often as the table does. */
  lemma {:induction false} InOrderCounts(m: map<nat, Option<Fence>>, order: seq<nat>, f: Fence)
    requires Distinct(order) && forall k :: k in order <==> k in m
    ensures Count(InOrder(m, order), f) == |Holders(m, f)|
    decreases |order|
  {
    if order == [] {
      assert Holders(m, f) == {};
    } else {
      var n := |order| - 1;
      var init, k := order[..n], order[n];
      assert order == init + [k] && k !in init;
      InOrderCounts(m - {k}, init, f);
      InOrderShrinks(m, k, init);
      CountSnoc(InOrder(m, init), m[k], f);
      HoldersTake(m, k, f);
    }
  }

  lemma {:induction false} InOrderShrinks(m: map<nat, Option<Fence>>, k: nat, order: seq<nat>)
    requires forall j :: j in order ==> j in m && j != k
    ensures InOrder(m - {k}, order) == InOrder(m, order)
    decreases |order|
  {
    if order != [] { InOrderShrinks(m, k, order[..|order| - 1]); }
  }
}
