/** What the health automaton does over whole runs of samples. */
module HealthRuns {
  import opened Health

  function Run(h: Health, samples: seq<Sample>): (r: Health)
    ensures r.debounce == h.debounce
  {
    if samples == [] then h
    else Observed(Run(h, samples[..|samples| - 1]), samples[|samples| - 1])
  }

  /** How often the state changes along a run. */
  function Changes(h: Health, samples: seq<Sample>): nat {
    if samples == [] then 0
    else
      var before := Run(h, samples[..|samples| - 1]);
      var after := Observed(before, samples[|samples| - 1]);
      Changes(h, samples[..|samples| - 1]) + (if after.state != before.state then 1 else 0)
  }

  function Max(a: nat, b: nat): nat { if a < b then b else a }

  /** Debounced: the good streak never reaches the threshold without being used up. */
  predicate Valid(h: Health) {
    && 0 < h.debounce < WORD && h.good < h.debounce
    && (h.state in {UNAVAILABLE, HEALTHY} ==> h.good == 0)
  }

  lemma ObservedValid(h: Health, s: Sample)
    requires Valid(h)
    ensures Valid(Observed(h, s))
  {
  }

  /**
   The account behind the budget: `n` samples pay two units each, a transition
   costs `debounce` units, and DEGRADED holds `debounce` units in reserve for
   its immediate step to BLOCKED. `price` is debounce times the changes so far.
   */
  predicate Account(h: Health, n: nat, price: nat) {
    if h.state == UNAVAILABLE then price == 0 && n >= Max(h.bad, h.good)
    else 2 * n + h.debounce >= price + 2 * Max(h.bad, h.good) + (if h.state == DEGRADED then h.debounce else 0)
  }

  lemma ObservedAccount(h: Health, s: Sample, n: nat, price: nat)
    requires Valid(h) && Account(h, n, price)
    ensures var h' := Observed(h, s);
            Account(h', n + 1, price + (if h'.state != h.state then h.debounce else 0))
  {
  }

  /** `debounce` units for every change of state along a run. */
  function Price(h: Health, samples: seq<Sample>): nat {
    if samples == [] then 0
    else
      var before := Run(h, samples[..|samples| - 1]);
      var after := Observed(before, samples[|samples| - 1]);
      Price(h, samples[..|samples| - 1]) + (if after.state != before.state then before.debounce else 0)
  }

  lemma {:induction false} PriceIsProduct(h: Health, samples: seq<Sample>)
    ensures Price(h, samples) == Changes(h, samples) * h.debounce
  {
    if samples != [] {
      var first := samples[..|samples| - 1];
      PriceIsProduct(h, first);
      AddOne(Changes(h, first), h.debounce);
    }
  }

  lemma AddOne(c: int, e: int)
    ensures (c + 1) * e == c * e + e
  {
  }

  lemma {:induction false} RunAccount(d: nat, samples: seq<Sample>)
    requires d < WORD
    ensures Valid(Run(Initial(d), samples))
    ensures Account(Run(Initial(d), samples), |samples|, Price(Initial(d), samples))
  {
    if samples != [] {
      var n := |samples| - 1;
      RunAccount(d, samples[..n]);
      var before := Run(Initial(d), samples[..n]);
      ObservedValid(before, samples[n]);
      ObservedAccount(before, samples[n], n, Price(Initial(d), samples[..n]));
    }
  }

  /** After N samples, all changes of state but one took half a debounce period each. */
  lemma TransitionBudget(d: nat, samples: seq<Sample>)
    requires d < WORD
    ensures (Changes(Initial(d), samples) as int - 1) * Initial(d).debounce <= 2 * |samples|
  {
    RunAccount(d, samples);
    PriceIsProduct(Initial(d), samples);
    AddOne(Changes(Initial(d), samples) as int - 1, Initial(d).debounce);
  }

  /** The `transitions` field counts the changes of state, modulo 2^32. */
  lemma {:induction false} TransitionsCounted(d: nat, samples: seq<Sample>)
    ensures Run(Initial(d), samples).transitions == Changes(Initial(d), samples) % WORD
  {
    if samples != [] {
      var first := samples[..|samples| - 1];
      TransitionsCounted(d, first);
      IncCounts(Changes(Initial(d), first));
    }
  }

  /** Incrementing a wrapped counter wraps the incremented one. */
  lemma IncCounts(c: nat)
    ensures Inc(c % WORD) == (c + 1) % WORD
  {
  }

  // ---- What counts as bad and as good ----

  /**
   The kinds of samples in fractions of the capacity: nearly full from 95 %, high
   from 80 %, a deficit when a ring in use is drained at less than half the rate at
   which it fills, good up to 20 % without a deficit.
   */
  lemma KindsOfSamples(s: Sample)
    requires s.cap > 0
    ensures s.Full() <==> s.occ as real / s.cap as real >= 0.95
    ensures s.High() <==> s.occ as real / s.cap as real >= 0.80
    ensures s.Bad() <==> || s.occ as real / s.cap as real >= 0.80
                         || (s.occ > 0 && s.drainValid && s.arrival > 0.0 && s.drain < s.arrival / 2.0)
    ensures s.Good() <==> !s.Bad() && s.occ as real / s.cap as real <= 0.20
  {
    Fraction(s.occ, s.cap, 95);
    Fraction(s.occ, s.cap, 80);
    Fraction(s.occ, s.cap, 20);
  }

  /** A quotient against a percentage, and the same in whole numbers. */
  lemma Fraction(occ: nat, cap: nat, percent: nat)
    requires cap > 0
    ensures var f := occ as real / cap as real;
            && (f >= percent as real / 100.0 <==> occ * 100 >= percent * cap)
            && (f <= percent as real / 100.0 <==> occ * 100 <= percent * cap)
  {
    var f, p := occ as real / cap as real, percent as real / 100.0;
    assert f * cap as real == occ as real;
    assert p * cap as real * 100.0 == (percent * cap) as real;
    assert f * cap as real * 100.0 == (occ * 100) as real;
    if f > p {
      Scaled(p, f, cap as real);
    } else if f < p {
      Scaled(f, p, cap as real);
    }
  }

  lemma Scaled(x: real, y: real, c: real)
    requires x < y && c > 0.0
    ensures x * c < y * c
  {
    assert (y - x) * c > 0.0;
    assert (y - x) * c == y * c - x * c;
  }

  // ---- Recovery ----

  /** Good samples still needed to be HEALTHY. */
  function Remaining(h: Health): int {
    match h.state
    case HEALTHY => 0
    case UNAVAILABLE => 1
    case BLOCKED => h.debounce - h.good + h.debounce
    case _ => h.debounce - h.good
  }

  lemma GoodSample(h: Health, s: Sample)
    requires Valid(h) && s.Good()
    ensures Valid(Observed(h, s))
    ensures Remaining(Observed(h, s)) == if Remaining(h) > 0 then Remaining(h) - 1 else 0
  {
  }

  /**
   Under uninterrupted good samples the state is HEALTHY exactly when there
   have been Remaining of them, which is at most twice the debounce period.
   */
  lemma {:induction false} Recovery(h: Health, samples: seq<Sample>)
    requires Valid(h) && forall i :: 0 <= i < |samples| ==> samples[i].Good()
    ensures var r := Run(h, samples);
            && Valid(r)
            && Remaining(r) == (if Remaining(h) > |samples| then Remaining(h) - |samples| else 0)
            && (r.state == HEALTHY <==> |samples| >= Remaining(h))
    ensures Remaining(h) <= 2 * h.debounce
  {
    if samples != [] {
      var n := |samples| - 1;
      Recovery(h, samples[..n]);
      GoodSample(Run(h, samples[..n]), samples[n]);
    }
  }

  // ---- What makes the state change ----

  /** A bad sample that adds to the streak; while BLOCKED a mere drain deficit does not. */
  predicate Counted(state: Condition, s: Sample) {
    s.cap > 0 && s.Bad() && (state == BLOCKED ==> s.High())
  }

  /** The last sample of the run changed the state. */
  predicate Changed(d: nat, samples: seq<Sample>)
    requires samples != []
  {
    Run(Initial(d), samples).state != Run(Initial(d), samples[..|samples| - 1]).state
  }

  /** Counted bad samples since the last good sample or change of state, however far apart. */
  function BadSince(d: nat, samples: seq<Sample>): nat {
    if samples == [] then 0
    else
      var first, s := samples[..|samples| - 1], samples[|samples| - 1];
      if Changed(d, samples) || s.Good() then 0
      else BadSince(d, first) + (if Counted(Run(Initial(d), first).state, s) then 1 else 0)
  }

  /** Good samples since the last bad sample or change of state, however far apart. */
  function GoodSince(d: nat, samples: seq<Sample>): nat {
    if samples == [] then 0
    else
      var first, s := samples[..|samples| - 1], samples[|samples| - 1];
      if Changed(d, samples) || (s.cap > 0 && s.Bad()) then 0
      else
        GoodSince(d, first) +
        (if s.Good() && Run(Initial(d), first).state !in {UNAVAILABLE, HEALTHY} then 1 else 0)
  }

  /** Outside DEGRADED and BLOCKED the bad streak is used up when it reaches the threshold. */
  predicate Debounced(h: Health) {
    Valid(h) && (h.state in {UNAVAILABLE, HEALTHY, RECOVERING} ==> h.bad < h.debounce)
  }

  /** One sample on a streak that stands for `bad` samples. */
  lemma StreakStep(h: Health, s: Sample, bad: nat)
    requires Debounced(h) && h.bad == bad % WORD && (h.state !in {DEGRADED, BLOCKED} ==> h.bad == bad)
    ensures Debounced(Observed(h, s))
    ensures var h' := Observed(h, s);
            var bad' := if h'.state != h.state || s.Good() then 0
                        else bad + (if Counted(h.state, s) then 1 else 0);
            h'.bad == bad' % WORD && (h'.state !in {DEGRADED, BLOCKED} ==> h'.bad == bad')
  {
    IncCounts(bad);
  }

  /** The streaks are what the history says, the bad one modulo 2^32. */
  lemma {:induction false} StreaksAreHistory(d: nat, samples: seq<Sample>)
    requires d < WORD
    ensures var h := Run(Initial(d), samples);
            && Debounced(h) && h.good == GoodSince(d, samples)
            && h.bad == BadSince(d, samples) % WORD
            && (h.state !in {DEGRADED, BLOCKED} ==> h.bad == BadSince(d, samples))
  {
    if samples != [] {
      var first, s := samples[..|samples| - 1], samples[|samples| - 1];
      StreaksAreHistory(d, first);
      StreakStep(Run(Initial(d), first), s, BadSince(d, first));
    }
  }

  /** The streak that a counted sample brings to `bad` forces a change. */
  predicate BadEnough(state: Condition, s: Sample, bad: nat, debounce: nat) {
    if state == DEGRADED then s.Full()
    else if state == BLOCKED then !s.Full() && bad % WORD >= debounce
    else bad == debounce
  }

  predicate GoodEnough(state: Condition, good: nat, debounce: nat) {
    state == UNAVAILABLE || (state != HEALTHY && good == debounce)
  }

  /** The sample moves the monitor iff it completes the `good` or the `bad` samples before it, and where to. */
  predicate MovesWhenDue(h: Health, s: Sample, good: nat, bad: nat) {
    var to := Observed(h, s).state;
    && (to != h.state <==>
          || (s.Good() && GoodEnough(h.state, good + 1, h.debounce))
          || (Counted(h.state, s) && BadEnough(h.state, s, bad + 1, h.debounce)))
    && (to != h.state ==>
          to == if s.Good() then if h.state == BLOCKED then RECOVERING else HEALTHY
                else if s.Full() then BLOCKED else DEGRADED)
  }

  lemma MoveOnce(h: Health, s: Sample, bad: nat)
    requires Debounced(h) && h.bad == bad % WORD && (h.state !in {DEGRADED, BLOCKED} ==> h.bad == bad)
    ensures MovesWhenDue(h, s, h.good, bad)
  {
    IncCounts(bad);
  }

  /**
   After any run, a sample changes the state iff it brings the bad or the good
   samples since the last contrary sample or change up to the debounce period,
   or the ring is nearly full while DEGRADED, or it is the first good sample.
   Samples in the middle band do not separate the counted ones, so the source's
   promise that a single outlier never changes the state fails.
   */
  lemma MovesIff(d: nat, samples: seq<Sample>, s: Sample)
    requires d < WORD
    ensures MovesWhenDue(Run(Initial(d), samples), s, GoodSince(d, samples), BadSince(d, samples))
  {
    StreaksAreHistory(d, samples);
    MoveOnce(Run(Initial(d), samples), s, BadSince(d, samples));
  }

  // ---- When the counted samples are consecutive ----

  /** Counted bad samples since the last sample that was not one, or change of state. */
  function Unbroken(d: nat, samples: seq<Sample>): nat {
    if samples == [] then 0
    else
      var first := samples[..|samples| - 1];
      if Changed(d, samples) || !Counted(Run(Initial(d), first).state, samples[|samples| - 1]) then 0
      else Unbroken(d, first) + 1
  }

  /** The last `n` samples are all counted ones. */
  predicate LastCounted(state: Condition, samples: seq<Sample>, n: nat) {
    n <= |samples| && forall i :: |samples| - n <= i < |samples| ==> Counted(state, samples[i])
  }

  lemma LastCountedAppend(state: Condition, samples: seq<Sample>, s: Sample, n: nat)
    requires Counted(state, s)
    ensures LastCounted(state, samples + [s], n + 1) <==> LastCounted(state, samples, n)
  {
    var more := samples + [s];
    assert forall i :: 0 <= i < |samples| ==> more[i] == samples[i];
    if LastCounted(state, more, n + 1) {
      forall i | |samples| - n <= i < |samples| ensures Counted(state, samples[i]) {
        assert Counted(state, more[i]);
      }
    }
  }

  lemma {:induction false} UnbrokenIsLast(d: nat, samples: seq<Sample>, n: nat)
    requires n <= BadSince(d, samples)
    ensures LastCounted(Run(Initial(d), samples).state, samples, n) <==> n <= Unbroken(d, samples)
  {
    if samples != [] && n != 0 {
      var first := samples[..|samples| - 1];
      var state := Run(Initial(d), first).state;
      if Counted(state, samples[|samples| - 1]) {
        UnbrokenIsLast(d, first, n - 1);
        assert samples == first + [samples[|samples| - 1]];
        LastCountedAppend(state, first, samples[|samples| - 1], n - 1);
      }
    }
  }

  /** The sample degrades or blocks the transport, other than by the step from DEGRADED. */
  predicate Worsens(h: Health, s: Sample) {
    h.state != DEGRADED && Observed(h, s).state != h.state && Observed(h, s).state in {DEGRADED, BLOCKED}
  }

  /** The samples behind such a change are `debounce` consecutive ones iff so many of the last were counted. */
  lemma UnbrokenIff(d: nat, samples: seq<Sample>, s: Sample)
    requires d < WORD && Worsens(Run(Initial(d), samples), s)
    ensures var h := Run(Initial(d), samples);
            LastCounted(h.state, samples + [s], h.debounce) <==> Unbroken(d, samples) + 1 >= h.debounce
    ensures BadSince(d, samples) + 1 >= Initial(d).debounce
  {
    var h := Run(Initial(d), samples);
    StreaksAreHistory(d, samples);
    MovesIff(d, samples, s);
    UnbrokenIsLast(d, samples, h.debounce - 1);
    LastCountedAppend(h.state, samples, s, h.debounce - 1);
  }

  // ---- Runs that show it ----

  function Repeat(s: Sample, n: nat): (r: seq<Sample>)
    ensures |r| == n && forall i :: 0 <= i < n ==> r[i] == s
  {
    seq(n, _ => s)
  }

  /** A sample of a ring of 100 bytes. */
  function At(occ: nat): Sample { Sample(occ, 100, false, 0.0, 0.0) }

  lemma RunAppend(h: Health, samples: seq<Sample>, s: Sample)
    ensures Run(h, samples + [s]) == Observed(Run(h, samples), s)
  {
    assert (samples + [s])[..|samples|] == samples;
  }

  lemma {:induction false} RunConcat(h: Health, a: seq<Sample>, b: seq<Sample>)
    ensures Run(h, a + b) == Run(Run(h, a), b)
    decreases |b|
  {
    if b == [] {
      assert a + b == a;
    } else {
      RunConcat(h, a, b[..|b| - 1]);
      assert (a + b)[..|a + b| - 1] == a + b[..|b| - 1];
    }
  }

  /** Bad samples short of the debounce period only lengthen the streak. */
  lemma {:induction false} BadStreak(h: Health, s: Sample, n: nat)
    requires Valid(h) && h.bad == 0 && Counted(h.state, s) && n < h.debounce
    requires h.state == DEGRADED ==> !s.Full()
    ensures Run(h, Repeat(s, n)) == if n == 0 then h else h.(bad := n, good := 0)
  {
    if n != 0 {
      BadStreak(h, s, n - 1);
      assert Repeat(s, n)[..n - 1] == Repeat(s, n - 1);
    }
  }

  lemma {:induction false} GoodStreak(h: Health, s: Sample, n: nat)
    requires Valid(h) && h.good == 0 && s.Good() && h.state !in {UNAVAILABLE, HEALTHY} && n < h.debounce
    ensures Run(h, Repeat(s, n)) == if n == 0 then h else h.(bad := 0, good := n)
  {
    if n != 0 {
      GoodStreak(h, s, n - 1);
      assert Repeat(s, n)[..n - 1] == Repeat(s, n - 1);
    }
  }

  /** Samples in the middle band do nothing. */
  lemma {:induction false} MiddleBand(h: Health, k: nat)
    ensures Run(h, Repeat(At(50), k)) == h
  {
    if k != 0 {
      MiddleBand(h, k - 1);
      assert Repeat(At(50), k)[..k - 1] == Repeat(At(50), k - 1);
    }
  }

  /**
   The promise broken, for every debounce period above one and any number of
   normal samples: the lone bad sample at the end degrades a HEALTHY transport.
   */
  lemma OutlierAfterGap(d: nat, k: nat)
    requires d < WORD && d != 1 && k > 0
    ensures var samples := [At(0)] + Repeat(At(85), Initial(d).debounce - 1) + Repeat(At(50), k);
            && Run(Initial(d), samples).state == HEALTHY
            && Run(Initial(d), samples + [At(85)]).state == DEGRADED
            && !LastCounted(HEALTHY, samples + [At(85)], 2)
  {
    var n := Initial(d).debounce;
    var samples := [At(0)] + Repeat(At(85), n - 1) + Repeat(At(50), k);
    GapRun(d, k);
    RunAppend(Initial(d), samples, At(85));
    GapBefore(samples);
  }

  lemma GapRun(d: nat, k: nat)
    requires d < WORD && d != 1
    ensures var n := Initial(d).debounce;
            Run(Initial(d), [At(0)] + Repeat(At(85), n - 1) + Repeat(At(50), k)) == Health(HEALTHY, n - 1, 0, 1, n)
  {
    var n := Initial(d).debounce;
    var start, streak, gap := [At(0)], Repeat(At(85), n - 1), Repeat(At(50), k);
    FirstGood(d);
    RunConcat(Initial(d), start, streak);
    BadStreak(Health(HEALTHY, 0, 0, 1, n), At(85), n - 1);
    RunConcat(Initial(d), start + streak, gap);
    MiddleBand(Health(HEALTHY, n - 1, 0, 1, n), k);
  }

  lemma FirstGood(d: nat)
    ensures Run(Initial(d), [At(0)]) == Health(HEALTHY, 0, 0, 1, Initial(d).debounce)
  {
    assert [At(0)][..0] == [];
    assert Run(Initial(d), []) == Initial(d);
    assert Run(Initial(d), [At(0)]) == Observed(Initial(d), At(0));
  }

  lemma GapBefore(samples: seq<Sample>)
    requires samples != [] && samples[|samples| - 1] == At(50)
    ensures !LastCounted(HEALTHY, samples + [At(85)], 2)
  {
    assert (samples + [At(85)])[|samples| - 1] == At(50);
  }

  // ---- For which samples the promise holds ----

  /** A sample that says nothing: one of a ring without a capacity, or in the middle band. */
  predicate Neutral(s: Sample) { s.cap == 0 || (!s.Bad() && !s.Good()) }

  /** A drain deficit and no more, which a BLOCKED transport does not count. */
  predicate DeficitOnly(s: Sample) { s.cap > 0 && s.Bad() && !s.High() }

  /** Every run of such samples degrades and blocks only on `debounce` consecutive bad ones, as the source says. */
  ghost predicate AlwaysConsecutive(d: nat, allowed: iset<Sample>) {
    forall samples, s :: From(allowed, samples + [s]) && Worsens(Run(Initial(d), samples), s) ==>
                           LastCounted(Run(Initial(d), samples).state, samples + [s], Initial(d).debounce)
  }

  ghost predicate From(allowed: iset<Sample>, samples: seq<Sample>) {
    forall i :: 0 <= i < |samples| ==> samples[i] in allowed
  }

  /**
   No bad sample together with one that says nothing, and no mere deficit
   together with both a nearly full ring and one that is only high.
   */
  ghost predicate Gapless(allowed: iset<Sample>) {
    && (forall x, y :: x in allowed && y in allowed && Neutral(x) ==> y.cap == 0 || !y.Bad())
    && (forall x, y, z :: x in allowed && y in allowed && z in allowed && DeficitOnly(x) && y.cap > 0 && y.Full() ==>
          z.cap == 0 || !z.High() || z.Full())
  }

  /** From such samples the counted ones are consecutive, except while BLOCKED if deficits are among them. */
  lemma {:induction false} GaplessUnbroken(d: nat, allowed: iset<Sample>, samples: seq<Sample>)
    requires d < WORD && From(allowed, samples) && Gapless(allowed)
    requires forall x :: x in allowed ==> !Neutral(x)
    ensures Run(Initial(d), samples).state != BLOCKED || (forall x :: x in allowed ==> !DeficitOnly(x)) ==>
              Unbroken(d, samples) == BadSince(d, samples)
    ensures Run(Initial(d), samples).state == BLOCKED ==> exists y :: y in allowed && y.cap > 0 && y.Full()
  {
    if samples != [] {
      var first, s := samples[..|samples| - 1], samples[|samples| - 1];
      GaplessUnbroken(d, allowed, first);
      assert s in allowed;
    }
  }

  lemma GaplessConsecutive(d: nat, allowed: iset<Sample>, samples: seq<Sample>, s: Sample)
    requires d < WORD && From(allowed, samples + [s]) && Gapless(allowed) && Worsens(Run(Initial(d), samples), s)
    ensures LastCounted(Run(Initial(d), samples).state, samples + [s], Initial(d).debounce)
  {
    assert (samples + [s])[|samples|] == s;
    assert From(allowed, samples) by {
      forall i | 0 <= i < |samples| ensures samples[i] in allowed {
        assert (samples + [s])[i] == samples[i];
      }
    }
    GaplessUnbroken(d, allowed, samples);
    UnbrokenIff(d, samples, s);
  }

  /** Neither a neutral sample nor, while BLOCKED, a mere deficit clears a streak of bad samples. */
  lemma GapSample(h: Health, x: Sample)
    requires Neutral(x) || (h.state == BLOCKED && DeficitOnly(x) && h.good == 0)
    ensures Observed(h, x) == h && !Counted(h.state, x)
  {
  }

  lemma AfterGap(samples: seq<Sample>, x: Sample, y: Sample, state: Condition, n: nat)
    requires n > 1 && !Counted(state, x)
    ensures !LastCounted(state, samples + [x] + [y], n)
  {
    assert (samples + [x] + [y])[|samples|] == x;
  }

  /** After a run to a state with clear streaks: all but one of a period of `y`, then `x`, then `y` again. */
  lemma BrokenRun(d: nat, path: seq<Sample>, x: Sample, y: Sample)
    requires d < WORD && d != 1
    requires var h := Run(Initial(d), path);
             && h.bad == h.good == 0 && h.state in {UNAVAILABLE, BLOCKED} && Counted(h.state, y)
             && (h.state == BLOCKED ==> !y.Full()) && (Neutral(x) || (h.state == BLOCKED && DeficitOnly(x)))
    ensures var samples := path + Repeat(y, Initial(d).debounce - 1) + [x];
            && Worsens(Run(Initial(d), samples), y)
            && !LastCounted(Run(Initial(d), samples).state, samples + [y], Initial(d).debounce)
  {
    var h, n := Run(Initial(d), path), Initial(d).debounce;
    var streak := path + Repeat(y, n - 1);
    StreaksAreHistory(d, path);
    RunConcat(Initial(d), path, Repeat(y, n - 1));
    RunAppend(Initial(d), streak, x);
    LastOne(h, x, y);
    AfterGap(streak, x, y, h.state, n);
  }

  lemma LastOne(h: Health, x: Sample, y: Sample)
    requires Valid(h) && h.debounce > 1 && h.bad == h.good == 0 && h.state in {UNAVAILABLE, BLOCKED}
    requires Counted(h.state, y) && (h.state == BLOCKED ==> !y.Full())
    requires Neutral(x) || (h.state == BLOCKED && DeficitOnly(x))
    ensures var r := Run(h, Repeat(y, h.debounce - 1));
            r.state == h.state && Observed(r, x) == r && Worsens(r, y) && !Counted(h.state, x)
  {
    BadStreak(h, y, h.debounce - 1);
    GapSample(h.(bad := h.debounce - 1, good := 0), x);
  }

  /** From the start, a debounce period of nearly full samples blocks the transport. */
  lemma BlockedByFull(d: nat, y: Sample)
    requires d < WORD && y.cap > 0 && y.Full()
    ensures Run(Initial(d), Repeat(y, Initial(d).debounce)) == Health(BLOCKED, 0, 0, 1, Initial(d).debounce)
  {
    var n := Initial(d).debounce;
    BadStreak(Initial(d), y, n - 1);
    assert Repeat(y, n) == Repeat(y, n - 1) + [y];
    RunAppend(Initial(d), Repeat(y, n - 1), y);
  }

  /** A run that breaks the promise. */
  lemma Breaks(d: nat, allowed: iset<Sample>, samples: seq<Sample>, s: Sample)
    requires From(allowed, samples) && s in allowed && Worsens(Run(Initial(d), samples), s)
    requires !LastCounted(Run(Initial(d), samples).state, samples + [s], Initial(d).debounce)
    ensures !AlwaysConsecutive(d, allowed)
  {
    assert From(allowed, samples + [s]);
  }

  lemma NeutralBreaks(d: nat, allowed: iset<Sample>, x: Sample, y: Sample)
    requires d < WORD && d != 1
    requires x in allowed && y in allowed && Neutral(x) && y.cap > 0 && y.Bad()
    ensures !AlwaysConsecutive(d, allowed)
  {
    BrokenRun(d, [], x, y);
    Breaks(d, allowed, [] + Repeat(y, Initial(d).debounce - 1) + [x], y);
  }

  lemma DeficitBreaks(d: nat, allowed: iset<Sample>, x: Sample, y: Sample, z: Sample)
    requires d < WORD && d != 1 && x in allowed && y in allowed && z in allowed
    requires DeficitOnly(x) && y.cap > 0 && y.Full() && z.cap > 0 && z.High() && !z.Full()
    ensures !AlwaysConsecutive(d, allowed)
  {
    var path := Repeat(y, Initial(d).debounce);
    BlockedByFull(d, y);
    BrokenRun(d, path, x, z);
    Breaks(d, allowed, path + Repeat(z, Initial(d).debounce - 1) + [x], z);
  }

  /** Unless it is given another, the debounce period is eight samples. */
  lemma DefaultPeriod(y: Sample)
    requires y.cap > 0 && y.Full()
    ensures Run(Initial(0), Repeat(y, 7)).state == UNAVAILABLE && Run(Initial(0), Repeat(y, 8)).state == BLOCKED
  {
    BlockedByFull(0, y);
    BadStreak(Initial(0), y, 7);
  }

  lemma GapBreaks(d: nat, allowed: iset<Sample>)
    requires d < WORD && d != 1 && !Gapless(allowed)
    ensures !AlwaysConsecutive(d, allowed)
  {
    if x, y :| x in allowed && y in allowed && Neutral(x) && y.cap > 0 && y.Bad() {
      NeutralBreaks(d, allowed, x, y);
    } else {
      var x, y, z :| x in allowed && y in allowed && z in allowed
                     && DeficitOnly(x) && y.cap > 0 && y.Full() && z.cap > 0 && z.High() && !z.Full();
      DeficitBreaks(d, allowed, x, y, z);
    }
  }

  /**
   When the promise that only `debounce` consecutive bad samples change the state
   holds: for every debounce period above one, exactly for the kinds of samples
   that leave no gap between bad ones. With a period of one it holds always.
   */
  lemma ConsecutiveIff(d: nat, allowed: iset<Sample>)
    requires d < WORD
    ensures AlwaysConsecutive(d, allowed) <==> d == 1 || Gapless(allowed)
  {
    if d == 1 {
      forall samples, s | From(allowed, samples + [s]) && Worsens(Run(Initial(d), samples), s)
        ensures LastCounted(Run(Initial(d), samples).state, samples + [s], Initial(d).debounce)
      {
        UnbrokenIff(d, samples, s);
      }
    } else if Gapless(allowed) {
      forall samples, s | From(allowed, samples + [s]) && Worsens(Run(Initial(d), samples), s)
        ensures LastCounted(Run(Initial(d), samples).state, samples + [s], Initial(d).debounce)
      {
        GaplessConsecutive(d, allowed, samples, s);
      }
    } else {
      GapBreaks(d, allowed);
    }
  }

  // ---- Which transitions exist ----

  predicate Edge(a: Condition, b: Condition) {
    match a
    case UNAVAILABLE => b in {HEALTHY, DEGRADED, BLOCKED}
    case HEALTHY => b in {DEGRADED, BLOCKED}
    case DEGRADED => b in {HEALTHY, BLOCKED}
    case BLOCKED => b in {DEGRADED, RECOVERING}
    case RECOVERING => b in {HEALTHY, DEGRADED, BLOCKED}
  }

  /** A sample that calls for the state `b`. */
  function Call(b: Condition): Sample {
    At(if b == BLOCKED then 100 else if b == DEGRADED then 80 else 0)
  }

  /** How many such samples it takes from a state with clear streaks. */
  function Wait(a: Condition, b: Condition, debounce: nat): nat {
    if (a == UNAVAILABLE && b == HEALTHY) || (a == DEGRADED && b == BLOCKED) then 1 else debounce
  }

  /** From clear streaks, every edge is taken by repeating one sample. */
  lemma EdgeTaken(h: Health, b: Condition)
    requires Valid(h) && h.bad == h.good == 0 && Edge(h.state, b)
    ensures var n := Wait(h.state, b, h.debounce);
            && Run(h, Repeat(Call(b), n - 1)).state == h.state
            && Observed(Run(h, Repeat(Call(b), n - 1)), Call(b)) == Health(b, 0, 0, Inc(h.transitions), h.debounce)
  {
    var n := Wait(h.state, b, h.debounce);
    if n > 1 {
      if b in {DEGRADED, BLOCKED} {
        BadStreak(h, Call(b), n - 1);
      } else {
        GoodStreak(h, Call(b), n - 1);
      }
    }
  }

  /** After a run to a state with clear streaks, the samples that take an edge from there. */
  lemma FollowEdge(d: nat, path: seq<Sample>, b: Condition) returns (samples: seq<Sample>)
    requires d < WORD
    requires var h := Run(Initial(d), path); h.bad == h.good == 0 && Edge(h.state, b)
    ensures Run(Initial(d), samples).state == Run(Initial(d), path).state
    ensures var h := Run(Initial(d), path);
            Run(Initial(d), samples + [Call(b)]) == Health(b, 0, 0, Inc(h.transitions), h.debounce)
  {
    var h := Run(Initial(d), path);
    StreaksAreHistory(d, path);
    var wait := Repeat(Call(b), Wait(h.state, b, h.debounce) - 1);
    EdgeTaken(h, b);
    RunConcat(Initial(d), path, wait);
    samples := path + wait;
    RunAppend(Initial(d), samples, Call(b));
  }

  /** Every state is reached with clear streaks. */
  lemma Reached(d: nat, a: Condition) returns (path: seq<Sample>)
    requires d < WORD
    ensures var h := Run(Initial(d), path); h.state == a && h.bad == h.good == 0
  {
    path := [];
    if a == RECOVERING {
      path := FollowEdge(d, path, BLOCKED);
      path := FollowEdge(d, path + [Call(BLOCKED)], RECOVERING);
      path := path + [Call(RECOVERING)];
    } else if a != UNAVAILABLE {
      path := FollowEdge(d, path, a);
      path := path + [Call(a)];
    }
  }

  /** The transition from `a` to `b` happens after `samples`. */
  predicate Takes(d: nat, samples: seq<Sample>, s: Sample, a: Condition, b: Condition) {
    Run(Initial(d), samples).state == a && Observed(Run(Initial(d), samples), s).state == b
  }

  /** For every debounce period, some run from the start goes from `a` to `b` iff that is one of the twelve edges. */
  lemma EdgesExactly(d: nat, a: Condition, b: Condition)
    requires d < WORD && a != b
    ensures (exists samples, s :: Takes(d, samples, s, a, b)) <==> Edge(a, b)
  {
    if Edge(a, b) {
      var path := Reached(d, a);
      var samples := FollowEdge(d, path, b);
      RunAppend(Initial(d), samples, Call(b));
      assert Takes(d, samples, Call(b), a, b);
    }
  }

  /** From every debounce period's start a single nearly full sample blocks a transport that just degraded. */
  lemma DegradedBlocksAtOnce(d: nat) returns (samples: seq<Sample>)
    requires d < WORD
    ensures Run(Initial(d), samples) == Health(DEGRADED, 0, 0, 1, Initial(d).debounce)
    ensures Run(Initial(d), samples + [At(100)]).state == BLOCKED
  {
    var wait := FollowEdge(d, [], DEGRADED);
    samples := wait + [Call(DEGRADED)];
    RunAppend(Initial(d), samples, At(100));
  }
}
