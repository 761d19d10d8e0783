/** Two-decimal money: exact decimals and half-up rounding (ties away from zero). */
module Money {

  function Round2(x: real): real {
    if x >= 0.0 then (x * 100.0 + 0.5).Floor as real / 100.0
    else -((-x * 100.0 + 0.5).Floor as real / 100.0)
  }

  predicate Cents(x: real) {
    (x * 100.0).Floor as real == x * 100.0
  }

  lemma CentsOf(x: real, n: int)
    requires x * 100.0 == n as real
    ensures Cents(x)
  {
  }

  lemma RoundedIsCents(x: real)
    ensures Cents(Round2(x))
  {
    if x >= 0.0 {
      CentsOf(Round2(x), (x * 100.0 + 0.5).Floor);
    } else {
      CentsOf(Round2(x), -(-x * 100.0 + 0.5).Floor);
    }
  }

  lemma RoundKeepsCents(x: real)
    requires Cents(x)
    ensures Round2(x) == x
  {
    var n := (x * 100.0).Floor;
    if x >= 0.0 {
      assert (n as real + 0.5).Floor == n;
    } else {
      assert ((-n) as real + 0.5).Floor == -n;
    }
  }

  lemma RoundMonotone(x: real, y: real)
    requires x <= y
    ensures Round2(x) <= Round2(y)
  {
    if x >= 0.0 {
      FloorMonotone(x * 100.0 + 0.5, y * 100.0 + 0.5);
    } else if y < 0.0 {
      FloorMonotone(-y * 100.0 + 0.5, -x * 100.0 + 0.5);
    } else {
      RoundNear(x);
      RoundNear(y);
    }
  }

  lemma FloorMonotone(x: real, y: real)
    requires x <= y
    ensures x.Floor <= y.Floor
  {
  }

  /** Rounding is off by at most half a cent, and keeps the sign. */
  lemma RoundNear(x: real)
    ensures -0.005 <= Round2(x) - x <= 0.005
    ensures x >= 0.0 ==> Round2(x) >= 0.0
    ensures x <= 0.0 ==> Round2(x) <= 0.0
  {
  }

  /** Ties go away from zero. */
  lemma TiesAwayFromZero(n: nat)
    ensures Round2((n as real + 0.5) / 100.0) == (n + 1) as real / 100.0
    ensures Round2(-((n as real + 0.5) / 100.0)) == -((n + 1) as real / 100.0)
  {
    assert (n as real + 0.5) / 100.0 * 100.0 + 0.5 == (n + 1) as real;
  }

  /** The nearest two-decimal amount, a tie going away from zero. */
  predicate Nearest(exact: real, amount: real) {
    && Cents(amount)
    && if exact >= 0.0 then -0.005 < amount - exact <= 0.005 else -0.005 <= amount - exact < 0.005
  }

  lemma RoundIsNearest(x: real)
    ensures Nearest(x, Round2(x))
  {
    RoundedIsCents(x);
    hide Cents;
  }

  /** There is only one. */
  lemma NearestIsRound(x: real, amount: real)
    requires Nearest(x, amount)
    ensures amount == Round2(x)
  {
    RoundIsNearest(x);
    var a, b := (amount * 100.0).Floor, (Round2(x) * 100.0).Floor;
    assert a as real == amount * 100.0 && b as real == Round2(x) * 100.0;
    assert -1.0 < (a - b) as real < 1.0;
    hide Round2;
  }

  lemma CentsAdd(x: real, y: real)
    requires Cents(x) && Cents(y)
    ensures Cents(x + y) && Cents(x - y)
  {
    CentsOf(x + y, (x * 100.0).Floor + (y * 100.0).Floor);
    CentsOf(x - y, (x * 100.0).Floor - (y * 100.0).Floor);
  }

  lemma CentsTimes(x: real, n: nat)
    requires Cents(x)
    ensures Cents(x * n as real)
  {
    var k := (x * 100.0).Floor;
    assert x * n as real * 100.0 == (x * 100.0) * n as real == k as real * n as real == (k * n) as real;
    CentsOf(x * n as real, k * n);
  }

  // ---------------------------------------------------------------------------
  // Count-weighted sums, accumulated in list order.

  function Weighted(amounts: seq<real>, counts: seq<nat>): real
    requires |amounts| == |counts|
  {
    if amounts == [] then 0.0
    else
      var n := |amounts| - 1;
      Weighted(amounts[..n], counts[..n]) + amounts[n] * counts[n] as real
  }

  function Heads(counts: seq<nat>): nat {
    if counts == [] then 0 else Heads(counts[..|counts| - 1]) + counts[|counts| - 1]
  }

  lemma {:induction false} WeightedSum(a: seq<real>, b: seq<real>, sum: seq<real>, counts: seq<nat>)
    requires |a| == |b| == |sum| == |counts|
    requires forall i | 0 <= i < |a| :: sum[i] == a[i] + b[i]
    ensures Weighted(sum, counts) == Weighted(a, counts) + Weighted(b, counts)
  {
    if a != [] {
      var n := |a| - 1;
      WeightedSum(a[..n], b[..n], sum[..n], counts[..n]);
      assert sum[n] * counts[n] as real == a[n] * counts[n] as real + b[n] * counts[n] as real;
    }
  }

  lemma {:induction false} WeightedMonotone(a: seq<real>, b: seq<real>, counts: seq<nat>)
    requires |a| == |b| == |counts|
    requires forall i | 0 <= i < |a| :: a[i] <= b[i]
    ensures Weighted(a, counts) <= Weighted(b, counts)
  {
    if a != [] {
      var n := |a| - 1;
      WeightedMonotone(a[..n], b[..n], counts[..n]);
      assert (b[n] - a[n]) * counts[n] as real >= 0.0;
    }
  }

  lemma {:induction false} WeightedConstant(amount: real, a: seq<real>, counts: seq<nat>)
    requires |a| == |counts|
    requires forall i | 0 <= i < |a| :: a[i] == amount
    ensures Weighted(a, counts) == amount * Heads(counts) as real
  {
    if a != [] {
      var n := |a| - 1;
      WeightedConstant(amount, a[..n], counts[..n]);
      assert Heads(counts) as real == Heads(counts[..n]) as real + counts[n] as real;
    }
  }

  lemma {:induction false} WeightedCents(a: seq<real>, counts: seq<nat>)
    requires |a| == |counts|
    requires forall i | 0 <= i < |a| :: Cents(a[i])
    ensures Cents(Weighted(a, counts))
  {
    if a != [] {
      var n := |a| - 1;
      WeightedCents(a[..n], counts[..n]);
      var amount, count := a[n], counts[n];
      CentsTimes(amount, count);
      CentsAdd(Weighted(a[..n], counts[..n]), amount * count as real);
      assert Weighted(a, counts) == Weighted(a[..n], counts[..n]) + amount * count as real;
    }
  }

  /** A bound on every entry is, times the head count, a bound on the sum. */
  lemma WeightedBound(a: seq<real>, counts: seq<nat>, low: real, high: real)
    requires |a| == |counts|
    requires forall i | 0 <= i < |a| :: low <= a[i] <= high
    ensures low * Heads(counts) as real <= Weighted(a, counts) <= high * Heads(counts) as real
  {
    var lows, highs := seq(|a|, _ => low), seq(|a|, _ => high);
    WeightedMonotone(lows, a, counts);
    WeightedMonotone(a, highs, counts);
    WeightedConstant(low, lows, counts);
    WeightedConstant(high, highs, counts);
  }

  /** Half a cent off in every entry is at most half a cent a head off in the sum. */
  lemma WeightedNear(rounded: seq<real>, exact: seq<real>, counts: seq<nat>)
    requires |rounded| == |exact| == |counts|
    requires forall i | 0 <= i < |rounded| :: -0.005 <= rounded[i] - exact[i] <= 0.005
    ensures -0.005 * Heads(counts) as real <= Weighted(rounded, counts) - Weighted(exact, counts) <= 0.005 * Heads(counts) as real
  {
    hide Weighted, Heads;
    var gap := seq(|rounded|, i requires 0 <= i < |rounded| => rounded[i] - exact[i]);
    WeightedSum(gap, exact, rounded, counts);
    WeightedBound(gap, counts, -0.005, 0.005);
  }
}
