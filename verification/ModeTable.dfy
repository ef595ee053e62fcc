/** The mode table of a display (src/Display.cpp, BuildModes and FindInitialConfig). */
module ModeTable {
  import opened Basics
  import opened Sorting
  import opened RefreshRates

  datatype Mode = Mode(id: nat, period: int)

  /** A period the table must offer: of a supported rate, or the configured one. */
  ghost predicate Offered(rates: seq<nat>, configured: int, p: int) {
    && p > 0
    && (p == configured || exists i :: 0 <= i < |rates| && Period(rates[i]) == p)
  }

  ghost predicate OffersAny(rates: seq<nat>, configured: int) {
    exists p :: Offered(rates, configured, p)
  }

  /**
   * The table lists every offered period once, slowest first, with each mode's
   * id equal to its index; an empty offer becomes 60 Hz.
   */
  ghost predicate IsTable(rates: seq<nat>, configured: int, modes: seq<Mode>) {
    && (forall i :: 0 <= i < |modes| ==> modes[i].id == i)
    && (forall i, j :: 0 <= i < j < |modes| ==> modes[i].period > modes[j].period)
    && (forall p :: HasPeriod(modes, p) <==>
                    Offered(rates, configured, p) || (!OffersAny(rates, configured) && p == Period(60)))
  }

  ghost predicate HasPeriod(modes: seq<Mode>, p: int) {
    exists i :: 0 <= i < |modes| && modes[i].period == p
  }

  function Descending(): int -> int { (p: int) => -p }

  method CollectPeriods(rates: seq<nat>, configured: int) returns (periods: seq<int>)
    ensures periods != []
    ensures forall p :: p in periods <==>
      Offered(rates, configured, p) || (!OffersAny(rates, configured) && p == Period(60))
  {
    periods := [];
    for i := 0 to |rates|
      invariant forall p :: p in periods <==> p > 0 && exists k :: 0 <= k < i && Period(rates[k]) == p
    {
      var p := Period(rates[i]);
      if p > 0 { periods := periods + [p]; }
    }
    if configured > 0 { periods := periods + [configured]; }
    assert forall p :: p in periods <==> Offered(rates, configured, p);
    NoMembers(periods);
    if periods == [] {
      periods := [Period(60)];
    } else {
      assert Offered(rates, configured, periods[0]);
    }
  }

  method BuildModes(rates: seq<nat>, configured: int) returns (modes: seq<Mode>)
    ensures IsTable(rates, configured, modes) && modes != []
  {
    var periods := CollectPeriods(rates, configured);
    var sorted := SortBy(periods, Descending());
    SameElems(periods, sorted);
    var unique := Unique(sorted, Descending());
    NoMembers(periods);
    NoMembers(unique);
    modes := Numbered(unique);
    NumberedPeriods(unique, modes);
  }

  method Numbered(periods: seq<int>) returns (modes: seq<Mode>)
    ensures |modes| == |periods| && forall k :: 0 <= k < |modes| ==> modes[k] == Mode(k, periods[k])
  {
    modes := [];
    for i := 0 to |periods|
      invariant |modes| == i
      invariant forall k :: 0 <= k < i ==> modes[k] == Mode(k, periods[k])
    {
      modes := modes + [Mode(i, periods[i])];
    }
  }

  lemma NumberedPeriods(periods: seq<int>, modes: seq<Mode>)
    requires |modes| == |periods| && forall k :: 0 <= k < |modes| ==> modes[k] == Mode(k, periods[k])
    requires StrictBy(periods, Descending())
    ensures forall i, j :: 0 <= i < j < |modes| ==> modes[i].period > modes[j].period
    ensures forall p :: HasPeriod(modes, p) <==> p in periods
  {
    forall i, j | 0 <= i < j < |modes| ensures modes[i].period > modes[j].period {
      assert Descending()(periods[i]) < Descending()(periods[j]);
    }
    forall p ensures HasPeriod(modes, p) <==> p in periods {
      if p in periods {
        var k :| 0 <= k < |periods| && periods[k] == p;
        assert modes[k].period == p;
      }
    }
  }

  method FindInitialConfig(modes: seq<Mode>, initial: int) returns (config: nat)
    requires modes != []
    ensures HasPeriod(modes, initial) ==>
              exists i :: 0 <= i < |modes| && modes[i].period == initial && config == modes[i].id
    ensures !HasPeriod(modes, initial) ==> config == modes[|modes| - 1].id
  {
    for i := 0 to |modes|
      invariant forall k :: 0 <= k < i ==> modes[k].period != initial
    {
      if modes[i].period == initial { return modes[i].id; }
    }
    return modes[|modes| - 1].id;
  }

  function PeriodsOf(rates: seq<nat>): seq<int> {
    seq(|rates|, i requires 0 <= i < |rates| => Period(rates[i]))
  }

  lemma LimitedPeriods(supported: seq<nat>, cap: nat, rates: seq<nat>)
    requires 0 < cap <= LAST_DISTINCT_RATE && Limited(supported, cap, rates)
    ensures StrictBy(PeriodsOf(rates), Descending()) && Period(cap) > 0
  {
    CapIsLast(supported, cap, rates);
    PeriodAtLeast(1, cap);
    var periods := PeriodsOf(rates);
    forall i, j | 0 <= i < j < |rates| ensures periods[i] > periods[j] {
      assert rates[j] in rates && Identity()(rates[i]) < Identity()(rates[j]);
      assert rates[i] in rates;
      PeriodsDrop(rates[i], rates[j]);
    }
  }

  /** No two rates of a list share a period, and none rounds to nothing. */
  ghost predicate ClearlyApart(rates: seq<nat>) {
    rates != [] && StrictBy(PeriodsOf(rates), Descending()) && Period(rates[|rates| - 1]) > 0
  }

  ghost predicate OneModeEach(rates: seq<nat>, modes: seq<Mode>) {
    rates != [] && |modes| == |rates| && forall i :: 0 <= i < |modes| ==> modes[i] == Mode(i, Period(rates[i]))
  }

  /** Where the configured period belongs to a rate, the offer is the periods of the rates. */
  lemma OfferIs(rates: seq<nat>, p: int)
    requires rates != [] && forall q :: q in PeriodsOf(rates) ==> q > 0
    ensures Offered(rates, Period(rates[|rates| - 1]), p) <==> p in PeriodsOf(rates)
  {
    var periods := PeriodsOf(rates);
    assert periods[|rates| - 1] in periods;
    if p in periods {
      var i :| 0 <= i < |rates| && periods[i] == p;
      assert Period(rates[i]) == p;
    }
    if exists i :: 0 <= i < |rates| && Period(rates[i]) == p {
      var i :| 0 <= i < |rates| && Period(rates[i]) == p;
      assert periods[i] == p;
    }
  }

  lemma TableOfApart(rates: seq<nat>, modes: seq<Mode>)
    requires ClearlyApart(rates) && IsTable(rates, Period(rates[|rates| - 1]), modes)
    ensures OneModeEach(rates, modes)
  {
    var last := |rates| - 1;
    var expected, actual := PeriodsOf(rates), seq(|modes|, i requires 0 <= i < |modes| => modes[i].period);
    forall q | q in expected ensures q > 0 {
      var i :| 0 <= i <= last && expected[i] == q;
      if i < last { assert Descending()(expected[i]) < Descending()(expected[last]); }
    }
    assert expected[last] in expected;
    assert Offered(rates, Period(rates[last]), Period(rates[last])) by { OfferIs(rates, Period(rates[last])); }
    forall p ensures p in expected <==> p in actual {
      OfferIs(rates, p);
      assert p in actual <==> HasPeriod(modes, p) by {
        if HasPeriod(modes, p) {
          var k :| 0 <= k < |modes| && modes[k].period == p;
          assert actual[k] == p;
        }
      }
    }
    StrictUnique(expected, actual, Descending());
    forall i | 0 <= i < |modes| ensures modes[i] == Mode(i, Period(rates[i])) {
      assert actual[i] == expected[i];
    }
  }

  lemma ApartOfTable(rates: seq<nat>, configured: int, modes: seq<Mode>)
    requires IsTable(rates, configured, modes) && OneModeEach(rates, modes)
    ensures ClearlyApart(rates)
  {
    var last := |rates| - 1;
    assert HasPeriod(modes, modes[last].period);
    forall i, j | 0 <= i < j < |rates| ensures PeriodsOf(rates)[i] > PeriodsOf(rates)[j] {
      assert modes[i].period > modes[j].period;
    }
  }

  lemma NeverFaster(supported: seq<nat>, cap: nat, rates: seq<nat>, p: int)
    requires Limited(supported, cap, rates)
    requires Offered(rates, Period(cap), p)
    ensures p >= Period(cap)
  {
    if p != Period(cap) {
      var i :| 0 <= i < |rates| && Period(rates[i]) == p;
      if cap > 0 {
        CapIsLast(supported, cap, rates);
        assert rates[i] in rates;
        PeriodNeverRises(rates[i], cap);
      }
    }
  }

  lemma CapEndsTable(supported: seq<nat>, cap: nat, rates: seq<nat>, modes: seq<Mode>)
    requires Limited(supported, cap, rates) && IsTable(rates, Period(cap), modes)
    ensures forall i :: 0 <= i < |modes| ==> modes[i].period >= Period(cap)
    ensures Period(cap) > 0 ==> modes != [] && modes[|modes| - 1] == Mode(|modes| - 1, Period(cap))
  {
    forall i | 0 <= i < |modes| ensures modes[i].period >= Period(cap) {
      var p := modes[i].period;
      assert HasPeriod(modes, p);
      if Offered(rates, Period(cap), p) {
        NeverFaster(supported, cap, rates, p);
      } else {
        assert !Offered(rates, Period(cap), Period(cap));
      }
    }
    if Period(cap) > 0 {
      assert Offered(rates, Period(cap), Period(cap));
      assert HasPeriod(modes, Period(cap));
      var k :| 0 <= k < |modes| && modes[k].period == Period(cap);
      assert modes[|modes| - 1].period <= modes[k].period;
    }
  }

  /**
   * The mode table of the primary display, for any list and any cap: no mode is
   * faster than the cap, whose own mode is the last one. There is one mode per
   * limited rate, slowest first, exactly if the periods of the rates differ and
   * do not round to nothing, as they do for every cap up to 31796 Hz.
   */
  lemma PrimaryTable(supported: seq<nat>, cap: nat, rates: seq<nat>, modes: seq<Mode>)
    requires Limited(supported, cap, rates) && IsTable(rates, Period(cap), modes)
    ensures forall i :: 0 <= i < |modes| ==> modes[i].period >= Period(cap)
    ensures Period(cap) > 0 ==> modes != [] && modes[|modes| - 1] == Mode(|modes| - 1, Period(cap))
    ensures OneModeEach(rates, modes) <==> ClearlyApart(rates)
    ensures 0 < cap <= LAST_DISTINCT_RATE ==> ClearlyApart(rates)
  {
    CapEndsTable(supported, cap, rates, modes);
    if cap > 0 { CapIsLast(supported, cap, rates); }
    if ClearlyApart(rates) { TableOfApart(rates, modes); }
    if OneModeEach(rates, modes) { ApartOfTable(rates, Period(cap), modes); }
    if 0 < cap <= LAST_DISTINCT_RATE { LimitedPeriods(supported, cap, rates); }
  }

  /** LoadPrimaryDisplayConfig and the constructor: the initial mode is the last, and is the cap. */
  method PrimaryModes(supported: seq<nat>, cap: nat) returns (rates: seq<nat>, modes: seq<Mode>, initial: nat)
    requires 0 < cap <= LAST_DISTINCT_RATE
    ensures Limited(supported, cap, rates) && OneModeEach(rates, modes)
    ensures forall i, j :: 0 <= i < j < |modes| ==> modes[i].period > modes[j].period >= Period(cap)
    ensures initial == |modes| - 1 && rates[initial] == cap
  {
    rates := LimitRefreshRates(supported, cap);
    modes := BuildModes(rates, Period(cap));
    PrimaryTable(supported, cap, rates, modes);
    CapIsLast(supported, cap, rates);
    initial := FindInitialConfig(modes, Period(cap));
    assert HasPeriod(modes, Period(cap));
    assert forall i, j :: 0 <= i < j < |modes| ==> modes[i].period > modes[j].period;
  }

  /** Every added rate is faster than the whole table, or is already in it, or has no mode. */
  ghost predicate OnlyFaster(modes: seq<Mode>, extra: seq<nat>)
    requires modes != []
  {
    forall r :: r in extra && Period(r) > 0 && !HasPeriod(modes, Period(r)) ==>
      Period(r) < modes[|modes| - 1].period
  }

  lemma OfferGrows(rates: seq<nat>, extra: seq<nat>, configured: int, p: int)
    ensures Offered(rates + extra, configured, p) <==>
            Offered(rates, configured, p) || (p > 0 && exists r :: r in extra && Period(r) == p)
  {
    var all := rates + extra;
    if Offered(rates, configured, p) && p != configured {
      var i :| 0 <= i < |rates| && Period(rates[i]) == p;
      assert Period(all[i]) == p;
    }
    if p > 0 && exists r :: r in extra && Period(r) == p {
      var r :| r in extra && Period(r) == p;
      var k :| 0 <= k < |extra| && extra[k] == r;
      assert Period(all[|rates| + k]) == p;
    }
    if Offered(all, configured, p) && p != configured {
      var i :| 0 <= i < |all| && Period(all[i]) == p;
      if i < |rates| { assert Period(rates[i]) == p; } else { assert extra[i - |rates|] in extra; }
    }
  }

  /**
   * Config ids are stable exactly when only faster modes are added: for a
   * display that offers some period of its own, the old table is a prefix of
   * the new one if and only if no added rate falls among the old modes.
   */
  lemma PrefixStable(rates: seq<nat>, extra: seq<nat>, configured: int, modes: seq<Mode>, more: seq<Mode>)
    requires IsTable(rates, configured, modes) && IsTable(rates + extra, configured, more)
    requires modes != [] && OffersAny(rates, configured)
    ensures modes <= more <==> OnlyFaster(modes, extra)
  {
    forall p { OfferGrows(rates, extra, configured, p); }
    var any :| Offered(rates, configured, any);
    assert Offered(rates + extra, configured, any);
    assert forall p :: HasPeriod(more, p) <==>
      HasPeriod(modes, p) || (p > 0 && exists r :: r in extra && Period(r) == p);
    if OnlyFaster(modes, extra) {
      PrefixUpTo(modes, more, extra, |modes|);
    }
    if modes <= more {
      forall r | r in extra && Period(r) > 0 && !HasPeriod(modes, Period(r))
        ensures Period(r) < modes[|modes| - 1].period
      {
        assert HasPeriod(more, Period(r));
        var j :| 0 <= j < |more| && more[j].period == Period(r);
        assert forall i :: 0 <= i < |modes| ==> more[i] == modes[i] && HasPeriod(modes, modes[i].period);
      }
    }
  }

  lemma {:induction false} PrefixUpTo(modes: seq<Mode>, more: seq<Mode>, extra: seq<nat>, k: nat)
    requires forall i :: 0 <= i < |modes| ==> modes[i].id == i
    requires forall i :: 0 <= i < |more| ==> more[i].id == i
    requires forall i, j :: 0 <= i < j < |modes| ==> modes[i].period > modes[j].period
    requires forall i, j :: 0 <= i < j < |more| ==> more[i].period > more[j].period
    requires forall p :: HasPeriod(more, p) <==>
      HasPeriod(modes, p) || (p > 0 && exists r :: r in extra && Period(r) == p)
    requires modes != [] && OnlyFaster(modes, extra)
    requires k <= |modes|
    ensures k <= |more| && modes[..k] == more[..k]
    decreases k
  {
    if k > 0 {
      var i := k - 1;
      PrefixUpTo(modes, more, extra, i);
      var p := modes[i].period;
      assert HasPeriod(modes, p) && HasPeriod(more, p);
      assert forall x :: 0 <= x < i ==> more[..i][x] == more[x] && modes[..i][x] == modes[x];
      var j :| 0 <= j < |more| && more[j].period == p;
      assert i <= j;
      var q := more[i].period;
      assert HasPeriod(more, q) && q >= p >= modes[|modes| - 1].period;
      assert HasPeriod(modes, q);
      var l :| 0 <= l < |modes| && modes[l].period == q;
      assert i <= l;
      assert modes[..k] == modes[..i] + [modes[i]] && more[..k] == more[..i] + [more[i]];
    }
  }

  /** No added rate has a period, or 60 Hz is added and nothing slower. */
  predicate KeepsDefault(extra: seq<nat>) {
    || (forall r :: r in extra ==> r == 0 || r > 2 * NANOS)
    || (60 in extra && forall r :: r in extra ==> r == 0 || r >= 60)
  }

  /** A rate's place beside 60 Hz shows in its period. */
  lemma BesideDefault(r: nat)
    ensures Period(r) == 0 <==> r == 0 || r > 2 * NANOS
    ensures Period(r) == Period(60) <==> r == 60
    ensures Period(r) <= Period(60) <==> r == 0 || r >= 60
  {
    if 0 < r < 60 {
      PeriodsDrop(r, 60);
      PeriodAtLeast(1, r);
    }
    if r > 60 {
      PeriodsDrop(60, 61);
      PeriodNeverRises(61, r);
      if r <= 2 * NANOS {
        PeriodAtLeast(1, r);
      } else {
        QuotientIs(0, NANOS + r / 2, r);
      }
    }
  }

  lemma DefaultTable(rates: seq<nat>, configured: int, modes: seq<Mode>)
    requires IsTable(rates, configured, modes) && !OffersAny(rates, configured)
    ensures modes == [Mode(0, Period(60))]
  {
    assert forall p :: HasPeriod(modes, p) <==> p == Period(60);
    if |modes| > 1 {
      assert HasPeriod(modes, modes[1].period) && HasPeriod(modes, modes[0].period);
    }
    assert HasPeriod(modes, Period(60));
  }

  /**
   * A display that offers no period has the 60 Hz default. The table stays a
   * prefix of the new one if and only if nothing with a period is added, or 60 Hz
   * is added and nothing slower.
   */
  lemma DefaultTableStable(rates: seq<nat>, extra: seq<nat>, configured: int, modes: seq<Mode>, more: seq<Mode>)
    requires IsTable(rates, configured, modes) && IsTable(rates + extra, configured, more)
    requires !OffersAny(rates, configured)
    ensures modes <= more <==> KeepsDefault(extra)
  {
    DefaultTable(rates, configured, modes);
    forall p
      ensures Offered(rates + extra, configured, p) <==> p > 0 && exists r :: r in extra && Period(r) == p
    {
      OfferGrows(rates, extra, configured, p);
    }
    forall r: nat { BesideDefault(r); }
    if forall r :: r in extra ==> Period(r) == 0 {
      assert !OffersAny(rates + extra, configured);
      DefaultTable(rates + extra, configured, more);
    } else {
      var r :| r in extra && Period(r) != 0;
      assert Offered(rates + extra, configured, Period(r));
      DefaultReplaced(extra, more);
    }
  }

  lemma DefaultReplaced(extra: seq<nat>, more: seq<Mode>)
    requires forall i :: 0 <= i < |more| ==> more[i].id == i
    requires forall i, j :: 0 <= i < j < |more| ==> more[i].period > more[j].period
    requires forall p :: HasPeriod(more, p) <==> p > 0 && exists r :: r in extra && Period(r) == p
    requires exists r :: r in extra && Period(r) != 0
    ensures [Mode(0, Period(60))] <= more <==> KeepsDefault(extra)
  {
    if [Mode(0, Period(60))] <= more {
      assert more[0].period == Period(60) && HasPeriod(more, Period(60));
      var r60 :| r60 in extra && Period(r60) == Period(60);
      BesideDefault(r60);
      forall r | r in extra ensures r == 0 || r >= 60 {
        BesideDefault(r);
        if Period(r) > 0 {
          assert HasPeriod(more, Period(r));
          var k :| 0 <= k < |more| && more[k].period == Period(r);
        }
      }
    }
    if KeepsDefault(extra) {
      var some :| some in extra && Period(some) != 0;
      BesideDefault(some);
      assert HasPeriod(more, Period(60));
      var k :| 0 <= k < |more| && more[k].period == Period(60);
      assert HasPeriod(more, more[0].period);
      var first :| first in extra && Period(first) == more[0].period;
      BesideDefault(first);
      assert more[0].period == Period(60);
    }
  }

  /** So a faster rate may renumber: 60 Hz gives way to any faster rates added without it. */
  lemma DefaultTableNotStable(extra: seq<nat>, modes: seq<Mode>, more: seq<Mode>)
    requires IsTable([], 0, modes) && IsTable([] + extra, 0, more) && modes != []
    requires extra != [] && forall r :: r in extra ==> 60 < r <= 2 * NANOS
    ensures OnlyFaster(modes, extra) && !(modes <= more)
  {
    assert extra[0] in extra;
    assert !OffersAny([], 0);
    DefaultTable([], 0, modes);
    DefaultTableStable([], extra, 0, modes, more);
    forall r | r in extra ensures 0 < Period(r) < Period(60) { BesideDefault(r); }
  }
}
