/** Which failures are logged (src/StreamFrameSink.cpp, ShouldLogFailure and RecordFailure). */
module FailureLog {

  /** Bitwise and of two unsigned numbers, digit by digit. */
  function And(a: nat, b: nat): nat {
    if a == 0 then 0 else 2 * And(a / 2, b / 2) + (if a % 2 == 1 && b % 2 == 1 then 1 else 0)
  }

  function Bit(n: nat, k: nat): bool {
    if k == 0 then n % 2 == 1 else Bit(n / 2, k - 1)
  }

  lemma {:induction false} ZeroHasNoBits(k: nat)
    ensures !Bit(0, k)
  {
    if k > 0 { ZeroHasNoBits(k - 1); }
  }

  lemma {:induction false} AndIsBitwise(a: nat, b: nat, k: nat)
    ensures Bit(And(a, b), k) <==> Bit(a, k) && Bit(b, k)
    decreases k
  {
    var rest := And(a / 2, b / 2);
    assert And(a, b) / 2 == if a == 0 then 0 else rest;
    if a == 0 {
      ZeroHasNoBits(k);
    } else if k > 0 {
      AndIsBitwise(a / 2, b / 2, k - 1);
    }
  }

  predicate ShouldLogFailure(count: nat) {
    count != 0 && And(count, count - 1) == 0
  }

  function Pow2(k: nat): nat {
    if k == 0 then 1 else 2 * Pow2(k - 1)
  }

  /** The exponent of the greatest power of two not above n. */
  function Log2(n: nat): nat
    requires n > 0
  {
    if n == 1 then 0 else 1 + Log2(n / 2)
  }

  lemma {:induction false} Log2Bounds(n: nat)
    requires n > 0
    ensures Pow2(Log2(n)) <= n < Pow2(Log2(n) + 1)
  {
    if n > 1 { Log2Bounds(n / 2); }
  }

  lemma {:induction false} AndSelf(n: nat)
    ensures And(n, n) == n
  {
    if n > 0 { AndSelf(n / 2); }
  }

  /** The test recognises exactly the powers of two. */
  lemma {:induction false} LogsPowersOfTwo(count: nat)
    ensures ShouldLogFailure(count) <==> count > 0 && count == Pow2(Log2(count))
  {
    if count > 1 {
      var half := count / 2;
      if count % 2 == 1 {
        assert (count - 1) / 2 == half;
        AndSelf(half);
      } else {
        assert (count - 1) / 2 == half - 1;
        LogsPowersOfTwo(half);
      }
    }
  }

  /** Lines written by the first n failures. */
  function Lines(n: nat): nat {
    if n == 0 then 0 else Lines(n - 1) + (if ShouldLogFailure(n) then 1 else 0)
  }

  lemma {:induction false} Log2Step(n: nat)
    requires n > 0
    ensures Log2(n + 1) == if n + 1 == Pow2(Log2(n + 1)) then Log2(n) + 1 else Log2(n)
  {
    if n == 1 {
      assert Log2(2) == 1 && Pow2(1) == 2;
    } else {
      var half := n / 2;
      if n % 2 == 1 {
        assert (n + 1) / 2 == half + 1;
        Log2Step(half);
      } else {
        assert (n + 1) / 2 == half;
        assert (n + 1) % 2 == 1 && Pow2(Log2(n + 1)) % 2 == 0;
      }
    }
  }

  /** n failures of one kind produce floor(log2 n) + 1 lines. */
  lemma {:induction false} LinesAreLogarithmic(n: nat)
    requires n > 0
    ensures Lines(n) == Log2(n) + 1
  {
    LogsPowersOfTwo(n);
    if n == 1 {
      assert Lines(1) == 1;
    } else {
      LinesAreLogarithmic(n - 1);
      Log2Step(n - 1);
    }
  }

  /** One of the failure counters, with the lines its warnings produced. */
  class FailureCounter {
    var failures: nat
    var lines: nat

    ghost predicate Valid()
      reads this
    {
      lines == Lines(failures)
    }

    constructor ()
      ensures Valid() && failures == 0
    {
      failures, lines := 0, 0;
    }

    method RecordFailure()
      requires Valid()
      modifies this
      ensures Valid() && failures == old(failures) + 1
    {
      failures := failures + 1;
      if ShouldLogFailure(failures) { lines := lines + 1; }
    }
  }
}
