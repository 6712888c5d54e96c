/** `kafka/retry.go`: the bounded retry loop and its capped exponential delay. */
module Retry {

  // ---------- RetryDelayWithBase ----------

  const TWO_62 := 0x4000_0000_0000_0000
  const TWO_63 := 0x8000_0000_0000_0000
  const TWO_64 := 0x1_0000_0000_0000_0000

  // time.Duration is a 64-bit integer that wraps around.
  predicate Int64(x: int) { -TWO_63 <= x < TWO_63 }

  function Wrap64(x: int): (r: int)
    ensures Int64(r) && (Int64(x) ==> r == x)
  {
    (x + TWO_63) % TWO_64 - TWO_63
  }

  function Pow2(n: nat): (p: nat)
    ensures 1 <= p
  {
    if n == 0 then 1 else 2 * Pow2(n - 1)
  }

  function Min(a: int, b: int): int { if a < b then a else b }

  // `delay` after up to `rounds` doublings that stop once it reaches `max`.
  function Doubled(delay: int, max: int, rounds: nat): int
    decreases rounds
  {
    if rounds == 0 || max <= delay then delay else Doubled(Wrap64(2 * delay), max, rounds - 1)
  }

  function Delay(attempt: int, base: int, max: int): int {
    if base <= 0 then 0
    else
      var d := Doubled(base, max, if attempt < 1 then 0 else attempt - 1);
      if 0 < max < d then max else d
  }

  method RetryDelayWithBase(attempt: int, base: int, max: int) returns (delay: int)
    requires Int64(base) && Int64(max)
    ensures delay == Delay(attempt, base, max)
    ensures base <= 0 ==> delay == 0
    ensures 0 < base && max <= 0 ==> delay == base
    ensures 0 < base && 0 < max <= TWO_62 ==> delay == Min(base * Pow2(if attempt < 1 then 0 else attempt - 1), max)
  {
    var n := if attempt < 1 then 1 else attempt;
    if base <= 0 {
      return 0;
    }
    delay := base;
    var i := 1;
    while i < n && delay < max
      invariant 1 <= i <= n
      invariant Doubled(delay, max, n - i) == Doubled(base, max, n - 1)
    {
      delay := Wrap64(delay * 2);
      i := i + 1;
    }
    if 0 < max <= TWO_62 {
      DelayIsCappedPower(attempt, base, max);
    }
    if max > 0 && delay > max {
      return max;
    }
  }

  lemma {:induction false} DoubledIsPower(delay: int, max: int, rounds: nat)
    requires 0 < delay && 0 < max <= TWO_62
    ensures Min(Doubled(delay, max, rounds), max) == Min(delay * Pow2(rounds), max)
    decreases rounds
  {
    hide Wrap64;
    if rounds > 0 && delay < max {
      assert Wrap64(2 * delay) == 2 * delay;
      DoubledIsPower(2 * delay, max, rounds - 1);
      MulRegroup(delay, Pow2(rounds - 1));
    } else {
      MulGrows(delay, Pow2(rounds));
    }
  }

  lemma MulRegroup(a: int, b: int)
    ensures (2 * a) * b == a * (2 * b)
  {
  }

  lemma MulGrows(a: nat, b: nat)
    requires 1 <= b
    ensures a <= a * b
    ensures b == 1 ==> a == a * b
  {
  }

  lemma DelayIsCappedPower(attempt: int, base: int, max: int)
    requires 0 < base && 0 < max <= TWO_62
    ensures Delay(attempt, base, max) == Min(base * Pow2(if attempt < 1 then 0 else attempt - 1), max)
  {
    DoubledIsPower(base, max, if attempt < 1 then 0 else attempt - 1);
  }

  ghost predicate CapWorks(max: int) {
    forall attempt, base :: 0 < base < TWO_63 ==>
      Delay(attempt, base, max) == Min(base * Pow2(if attempt < 1 then 0 else attempt - 1), max)
  }

  /** A positive cap gives min(base * 2^(attempt-1), cap) for all bases and attempts exactly up to 2^62. */
  lemma CapWorksIff(max: int)
    requires 0 < max < TWO_63
    ensures CapWorks(max) <==> max <= TWO_62
  {
    if max <= TWO_62 {
      forall attempt, base | 0 < base < TWO_63
        ensures Delay(attempt, base, max) == Min(base * Pow2(if attempt < 1 then 0 else attempt - 1), max)
      {
        DelayIsCappedPower(attempt, base, max);
      }
    } else {
      assert Doubled(TWO_62, max, 1) == Doubled(Wrap64(2 * TWO_62), max, 0) == -TWO_63;
      assert Delay(2, TWO_62, max) == -TWO_63;
      assert Pow2(1) == 2 * Pow2(0) == 2;
    }
  }

  // ---------- RetryPolicy.Run ----------

  datatype Outcome = Done | Failed | Cancelled

  function Limit(maxAttempts: int): (n: nat)
    ensures 1 <= n && maxAttempts <= n && n in {1, maxAttempts}
  {
    if maxAttempts < 1 then 1 else maxAttempts
  }

  // The first `calls` attempts have all failed.
  ghost predicate AllFailed(succeeds: int -> bool, calls: nat) {
    forall k :: 1 <= k <= calls ==> !succeeds(k)
  }

  /**
    `succeeds(k)` says whether the k-th call returns nil, `cancelledBefore(k)` whether the
    context is done when the k-th attempt begins, `cancelledAfter(k)` whether it is done
    before the delay that follows it has passed.
   */
  method Run(maxAttempts: int, delay: int -> int, succeeds: int -> bool,
             cancelledBefore: int -> bool, cancelledAfter: int -> bool)
    returns (outcome: Outcome, calls: nat, waits: seq<int>)
    ensures calls <= Limit(maxAttempts)
    ensures outcome == Done <==> 1 <= calls && succeeds(calls)
    ensures outcome == Failed ==> calls == Limit(maxAttempts)
    ensures outcome == Cancelled ==>
              calls < Limit(maxAttempts) && (cancelledBefore(calls + 1) || (1 <= calls && 0 < delay(calls) && cancelledAfter(calls)))
    ensures AllFailed(succeeds, if outcome == Done then calls - 1 else calls)
    ensures forall k :: 1 <= k <= calls ==> !cancelledBefore(k)
    ensures |waits| == if calls == 0 then 0
                       else if outcome == Cancelled && !(0 < delay(calls) && cancelledAfter(calls)) then calls else calls - 1
    ensures forall k :: 0 <= k < |waits| ==> waits[k] == delay(k + 1)
  {
    var n := Limit(maxAttempts);
    var attempt := 1;
    calls, waits := 0, [];
    while attempt <= n
      invariant 1 <= attempt <= n && calls == attempt - 1 == |waits|
      invariant AllFailed(succeeds, calls)
      invariant forall k :: 1 <= k <= calls ==> !cancelledBefore(k) && !(0 < delay(k) && cancelledAfter(k))
      invariant forall k :: 0 <= k < |waits| ==> waits[k] == delay(k + 1)
      decreases n - attempt
    {
      if cancelledBefore(attempt) {
        return Cancelled, calls, waits;
      }
      calls := attempt;
      if succeeds(attempt) {
        return Done, calls, waits;
      }
      if attempt == n {
        return Failed, calls, waits;
      }
      var d := delay(attempt);
      if 0 < d && cancelledAfter(attempt) {
        return Cancelled, calls, waits;
      }
      waits := waits + [d];
      attempt := attempt + 1;
    }
    outcome := Failed;
  }
}
