/** Whole runs of the default policy: an average of the payload sizes and the sticky size rule. */
module Hysteresis {
  import opened Reals
  import opened CostModel

  datatype Classifier = Classifier(ewma: real, route: Route)

  /** One message moves the average and then decides. */
  function Classify(alpha: real, c: Classifier, size: nat): Classifier {
    var e := Ewma(alpha, c.ewma, size as real);
    Classifier(e, SizeRule(e, c.route))
  }

  const START: Classifier := Classifier(0.0, NONE)

  function Run(alpha: real, c: Classifier, sizes: seq<nat>): Classifier {
    if sizes == [] then c
    else Classify(alpha, Run(alpha, c, sizes[..|sizes| - 1]), sizes[|sizes| - 1])
  }

  function Switches(alpha: real, c: Classifier, sizes: seq<nat>): nat {
    if sizes == [] then 0
    else
      var before := Run(alpha, c, sizes[..|sizes| - 1]).route;
      Switches(alpha, c, sizes[..|sizes| - 1]) +
      (if before != NONE && Run(alpha, c, sizes).route != before then 1 else 0)
  }

  /** The gap to a bound is averaged like the value itself. */
  lemma EwmaGap(alpha: real, e: real, x: real, bound: real)
    ensures bound - Ewma(alpha, e, x) == alpha * (bound - x) + (1.0 - alpha) * (bound - e)
  {
  }

  lemma PositiveSum(x: real, y: real, u: real, v: real)
    requires x > 0.0 && y > 0.0 && u >= 0.0 && v > 0.0
    ensures x * u + y * v > 0.0
  {
    NonNegative(x, u);
    assert y * v > 0.0;
  }

  /** A step of the average from below a bound, towards a size at most the bound, stays below. */
  lemma EwmaBelow(alpha: real, e: real, x: real, bound: real)
    requires 0.0 < alpha < 1.0 && e < bound && x <= bound
    ensures Ewma(alpha, e, x) < bound
  {
    EwmaGap(alpha, e, x, bound);
    PositiveSum(alpha, 1.0 - alpha, bound - x, bound - e);
  }

  lemma EwmaAbove(alpha: real, e: real, x: real, bound: real)
    requires 0.0 < alpha < 1.0 && e > bound && x >= bound
    ensures Ewma(alpha, e, x) > bound
  {
    EwmaGap(alpha, e, x, bound);
    PositiveSum(alpha, 1.0 - alpha, x - bound, e - bound);
    assert alpha * (bound - x) == -(alpha * (x - bound));
    assert (1.0 - alpha) * (bound - e) == -((1.0 - alpha) * (e - bound));
  }

  /** From the start, payloads of at most TAU_HIGH bytes never leave the datagram route. */
  lemma {:induction false} SmallPayloadsStay(alpha: real, sizes: seq<nat>)
    requires 0.0 < alpha < 1.0 && forall i :: 0 <= i < |sizes| ==> sizes[i] <= 4096
    ensures var c := Run(alpha, START, sizes);
            c.ewma < TAU_HIGH && c.route == (if sizes == [] then NONE else UDS)
    ensures Switches(alpha, START, sizes) == 0
  {
    if sizes != [] {
      var n := |sizes| - 1;
      SmallPayloadsStay(alpha, sizes[..n]);
      EwmaBelow(alpha, Run(alpha, START, sizes[..n]).ewma, sizes[n] as real, TAU_HIGH);
    }
  }

  /** Once on the ring with the average above TAU_LOW, payloads of at least TAU_LOW bytes stay there. */
  lemma {:induction false} LargePayloadsStay(alpha: real, c: Classifier, sizes: seq<nat>)
    requires 0.0 < alpha < 1.0 && c.route == SHM && c.ewma > TAU_LOW
    requires forall i :: 0 <= i < |sizes| ==> sizes[i] >= 1024
    ensures var r := Run(alpha, c, sizes);
            r.ewma > TAU_LOW && r.route == SHM
    ensures Switches(alpha, c, sizes) == 0
  {
    if sizes != [] {
      var n := |sizes| - 1;
      LargePayloadsStay(alpha, c, sizes[..n]);
      EwmaAbove(alpha, Run(alpha, c, sizes[..n]).ewma, sizes[n] as real, TAU_LOW);
    }
  }

  /** Payloads inside the band. */
  predicate InBand(sizes: seq<nat>) {
    forall i :: 0 <= i < |sizes| ==> 1024 <= sizes[i] <= 4096
  }

  /** Of the smoothing factors the program accepts, only 1 lets payloads inside the band switch routes. */
  lemma NoSwitchInBandIff(alpha: real)
    requires 0.0 < alpha <= 1.0
    ensures (forall sizes :: InBand(sizes) ==> Switches(alpha, START, sizes) == 0) <==> alpha < 1.0
  {
    if alpha < 1.0 {
      forall sizes | InBand(sizes) ensures Switches(alpha, START, sizes) == 0 {
        SmallPayloadsStay(alpha, sizes);
      }
    } else {
      var sizes := [1024, 4096];
      assert InBand(sizes);
      assert sizes[..1] == [1024];
      assert [1024][..0] == [];
      assert Run(alpha, START, [1024]) == Classifier(1024.0, UDS);
      assert Run(alpha, START, sizes) == Classifier(4096.0, SHM);
      assert Switches(alpha, START, sizes) == 1;
    }
  }

  function Repeat(size: nat, n: nat): (s: seq<nat>)
    ensures |s| == n
  {
    seq(n, _ => size)
  }

  /** The value whose gap to `x` is that of `e` but for a share of (1 - alpha)^n. */
  function Approach(alpha: real, e: real, x: real, n: nat): real {
    x - Pow(1.0 - alpha, n) * (x - e)
  }

  lemma ApproachNext(alpha: real, e: real, x: real, n: nat)
    ensures Approach(alpha, e, x, n + 1) == Ewma(alpha, Approach(alpha, e, x, n), x)
  {
    CloseGap(alpha, x, e, Pow(1.0 - alpha, n));
  }

  /** After n equal payloads the average has closed all but (1 - alpha)^n of the gap. */
  lemma {:induction false} GeometricApproach(alpha: real, c: Classifier, size: nat, n: nat)
    ensures Run(alpha, c, Repeat(size, n)).ewma == Approach(alpha, c.ewma, size as real, n)
  {
    if n != 0 {
      GeometricApproach(alpha, c, size, n - 1);
      OneMore(alpha, c, size, n - 1);
      ApproachNext(alpha, c.ewma, size as real, n - 1);
    }
  }

  lemma OneMore(alpha: real, c: Classifier, size: nat, n: nat)
    ensures Run(alpha, c, Repeat(size, n + 1)).ewma ==
            Ewma(alpha, Run(alpha, c, Repeat(size, n)).ewma, size as real)
  {
    assert Repeat(size, n + 1)[..n] == Repeat(size, n);
  }

  lemma CloseGap(alpha: real, x: real, e: real, p: real)
    ensures Ewma(alpha, x - p * (x - e), x) == x - (1.0 - alpha) * p * (x - e)
  {
    assert (1.0 - alpha) * (p * (x - e)) == (1.0 - alpha) * p * (x - e);
    assert (1.0 - alpha) * (x - p * (x - e)) == (1.0 - alpha) * x - (1.0 - alpha) * (p * (x - e));
  }

  // ---- Dwell time on the ring ----

  /** Messages have at least one byte; smaller ones are refused before they are classified. */
  predicate Positive(sizes: seq<nat>) {
    forall i :: 0 <= i < |sizes| ==> sizes[i] >= 1
  }

  /** What `n` messages of one byte leave of the average `e` (see GeometricApproach). */
  function Least(alpha: real, e: real, n: nat): real {
    Approach(alpha, e, 1.0, n)
  }

  lemma MinusOne(p: real, e: real)
    ensures 1.0 - p * (1.0 - e) == 1.0 + (e - 1.0) * p
  {
    assert p * (1.0 - e) == -((e - 1.0) * p);
  }

  lemma LeastShrinks(alpha: real, e: real, m: nat, n: nat)
    requires 0.0 <= alpha <= 1.0 && e >= 1.0 && m <= n
    ensures 1.0 <= Least(alpha, e, n) <= Least(alpha, e, m)
  {
    PowBelow(1.0 - alpha, m, n);
    NonNegative(e - 1.0, Pow(1.0 - alpha, n));
    ScaleUp(e - 1.0, Pow(1.0 - alpha, n), Pow(1.0 - alpha, m));
    MinusOne(Pow(1.0 - alpha, n), e);
    MinusOne(Pow(1.0 - alpha, m), e);
  }

  lemma LeastMonotone(alpha: real, e: real, e': real, n: nat)
    requires 0.0 <= alpha <= 1.0 && e <= e'
    ensures Least(alpha, e, n) <= Least(alpha, e', n)
  {
    PowBounds(1.0 - alpha, n);
    ScaleUp(Pow(1.0 - alpha, n), 1.0 - e', 1.0 - e);
  }

  lemma EwmaMonotone(alpha: real, e: real, e': real, x: real, x': real)
    requires 0.0 <= alpha <= 1.0 && e <= e' && x <= x'
    ensures Ewma(alpha, e, x) <= Ewma(alpha, e', x')
  {
    NonNegative(alpha, x' - x);
    NonNegative(1.0 - alpha, e' - e);
    EwmaDifference(alpha, e, e', x, x');
  }

  lemma EwmaDifference(alpha: real, e: real, e': real, x: real, x': real)
    ensures Ewma(alpha, e', x') - Ewma(alpha, e, x) == alpha * (x' - x) + (1.0 - alpha) * (e' - e)
  {
  }

  /** One more message, of whatever size, leaves at least what one of one byte leaves. */
  lemma LeastStep(alpha: real, e0: real, n: nat, e: real, size: nat)
    requires 0.0 <= alpha <= 1.0 && e >= Least(alpha, e0, n) && size >= 1
    ensures Ewma(alpha, e, size as real) >= Least(alpha, e0, n + 1)
  {
    ApproachNext(alpha, e0, 1.0, n);
    EwmaMonotone(alpha, Least(alpha, e0, n), e, 1.0, size as real);
  }

  /** The route never falls back while that much is above TAU_LOW, whatever is sent. */
  lemma {:induction false} LeastBound(alpha: real, c: Classifier, sizes: seq<nat>)
    requires 0.0 <= alpha <= 1.0 && c.route == SHM && c.ewma >= 1.0 && Positive(sizes)
    requires Least(alpha, c.ewma, |sizes|) > TAU_LOW
    ensures var r := Run(alpha, c, sizes);
            r.route == SHM && r.ewma >= Least(alpha, c.ewma, |sizes|)
  {
    if sizes == [] {
      assert Pow(1.0 - alpha, 0) == 1.0;
    } else {
      var n := |sizes| - 1;
      LeastShrinks(alpha, c.ewma, n, n + 1);
      LeastBound(alpha, c, sizes[..n]);
      LeastStep(alpha, c.ewma, n, Run(alpha, c, sizes[..n]).ewma, sizes[n]);
    }
  }

  lemma OnesReachLeast(alpha: real, c: Classifier, n: nat)
    requires n > 0 && Least(alpha, c.ewma, n) <= TAU_LOW
    ensures Run(alpha, c, Repeat(1, n)).route == UDS
  {
    GeometricApproach(alpha, c, 1, n);
    var r := Run(alpha, c, Repeat(1, n));
    assert r.ewma == Least(alpha, c.ewma, n);
    assert r.route == SizeRule(r.ewma, Run(alpha, c, Repeat(1, n)[..n - 1]).route);
  }

  /** On the ring with the average `e`, every sequence of `n` messages stays there iff that many single bytes do. */
  lemma StaysIff(alpha: real, c: Classifier, n: nat)
    requires 0.0 < alpha <= 1.0 && c.route == SHM && c.ewma >= 1.0 && n > 0
    ensures (forall sizes :: |sizes| == n && Positive(sizes) ==> Run(alpha, c, sizes).route == SHM) <==>
              Least(alpha, c.ewma, n) > TAU_LOW
  {
    if Least(alpha, c.ewma, n) > TAU_LOW {
      forall sizes | |sizes| == n && Positive(sizes) ensures Run(alpha, c, sizes).route == SHM {
        LeastBound(alpha, c, sizes);
      }
    } else {
      OnesReachLeast(alpha, c, n);
      assert Positive(Repeat(1, n));
    }
  }

  /** The route decided for message `i` of a run, counting from one. */
  function RouteOf(alpha: real, sizes: seq<nat>, i: nat): Route
    requires i <= |sizes|
  {
    Run(alpha, START, sizes[..i]).route
  }

  lemma {:induction false} RunSplit(alpha: real, c: Classifier, sizes: seq<nat>, i: nat)
    requires i <= |sizes|
    ensures Run(alpha, c, sizes) == Run(alpha, Run(alpha, c, sizes[..i]), sizes[i..])
    decreases |sizes| - i
  {
    if i == |sizes| {
      assert sizes[..i] == sizes;
    } else {
      var n := |sizes| - 1;
      RunSplit(alpha, c, sizes[..n], i);
      assert sizes[..n][..i] == sizes[..i];
      assert sizes[i..][..n - i] == sizes[..n][i..];
      assert sizes[i..][n - i] == sizes[n];
    }
  }

  /** Message `i` of a run switches to the ring, and message `j` has left it. */
  predicate ThereAndBack(alpha: real, sizes: seq<nat>, i: nat, j: nat) {
    && 0 < i < j <= |sizes| && Positive(sizes)
    && RouteOf(alpha, sizes, i) == SHM && RouteOf(alpha, sizes, i - 1) != SHM
    && RouteOf(alpha, sizes, j) == UDS
  }

  /** Whatever is sent, a switch to the ring lasts for `n` messages. */
  ghost predicate Dwells(alpha: real, n: nat) {
    forall sizes, i: nat, j: nat :: ThereAndBack(alpha, sizes, i, j) ==> j - i >= n
  }

  /** `n` messages do not lead back from the lowest average that leads to the ring. */
  predicate Holds(alpha: real, n: nat) {
    n == 0 || Least(alpha, TAU_HIGH, n) > TAU_LOW
  }

  lemma HoldsLess(alpha: real, m: nat, n: nat)
    requires 0.0 < alpha <= 1.0 && m <= n && Holds(alpha, n)
    ensures Holds(alpha, m)
  {
    if m > 0 {
      LeastShrinks(alpha, TAU_HIGH, m, n);
    }
  }

  /** What follows a switch to the ring, within the messages that do not lead back. */
  lemma StillThere(alpha: real, sizes: seq<nat>, i: nat, j: nat, n: nat)
    requires 0.0 < alpha <= 1.0 && 0 < i < j <= |sizes| && Positive(sizes)
    requires RouteOf(alpha, sizes, i) == SHM && RouteOf(alpha, sizes, i - 1) != SHM
    requires j - i <= n && Holds(alpha, n)
    ensures RouteOf(alpha, sizes, j) == SHM
  {
    assert sizes[..i][..i - 1] == sizes[..i - 1];
    var at := Run(alpha, START, sizes[..i]);
    assert at.ewma >= TAU_HIGH;
    var rest := sizes[..j][i..];
    assert sizes[..j][..i] == sizes[..i];
    RunSplit(alpha, START, sizes[..j], i);
    HoldsLess(alpha, |rest|, n);
    LeastMonotone(alpha, TAU_HIGH, at.ewma, |rest|);
    LeastBound(alpha, at, rest);
  }

  /** For every factor the program accepts, a switch lasts for one message more than do not lead back. */
  lemma DwellsAtLeast(alpha: real, n: nat)
    requires 0.0 < alpha <= 1.0 && (n > 0 ==> Holds(alpha, n - 1))
    ensures Dwells(alpha, n)
  {
    forall sizes, i: nat, j: nat | ThereAndBack(alpha, sizes, i, j) ensures j - i >= n {
      if j - i < n {
        StillThere(alpha, sizes, i, j, n - 1);
      }
    }
  }

  /** From a first payload that brings the average to exactly TAU_HIGH, single bytes lead back at once. */
  lemma BackAgain(alpha: real, size: nat, n: nat)
    requires alpha * size as real == TAU_HIGH && n > 0 && Least(alpha, TAU_HIGH, n) <= TAU_LOW
    ensures size > 0 ==> ThereAndBack(alpha, [size] + Repeat(1, n), 1, n + 1)
  {
    var sizes := [size] + Repeat(1, n);
    assert sizes[..1] == [size] && sizes[..0] == [] && sizes[..n + 1] == sizes;
    assert [size][..0] == [];
    assert Run(alpha, START, [size]) == Classifier(TAU_HIGH, SHM);
    OnesReachLeast(alpha, Classifier(TAU_HIGH, SHM), n);
    RunSplit(alpha, START, sizes, 1);
    assert sizes[1..] == Repeat(1, n);
  }

  /**
   The dwell is exact for every factor with which some payload brings the average
   to just TAU_HIGH: it is one more than the messages that do not lead back.
   */
  lemma DwellsIff(alpha: real, size: nat, n: nat)
    requires 0.0 < alpha <= 1.0 && alpha * size as real == TAU_HIGH && n > 0
    ensures Dwells(alpha, n) <==> Holds(alpha, n - 1)
  {
    if Holds(alpha, n - 1) {
      DwellsAtLeast(alpha, n);
    } else {
      assert size > 0 by { assert size == 0 ==> alpha * size as real == 0.0; }
      BackAgain(alpha, size, n - 1);
    }
  }

  /** With the default factor that is seven messages and no more. */
  lemma DefaultDwell()
    ensures Dwells(0.2, 7) && !Dwells(0.2, 8)
  {
    assert Pow(0.8, 1) == 0.8;
    assert Pow(0.8, 2) == 0.64;
    assert Pow(0.8, 3) == 0.512;
    assert Pow(0.8, 4) == 0.4096;
    assert Pow(0.8, 5) == 0.32768;
    assert Pow(0.8, 6) == 0.262144;
    assert Pow(0.8, 7) == 0.2097152;
    DwellsIff(0.2, 20480, 7);
    DwellsIff(0.2, 20480, 8);
  }
}
