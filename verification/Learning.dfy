/**
 Online calibration: per transport, a small-message and a large-message average
 of (size, cost), and a line through the two.
 */
module Learning {
  import opened Reals

  const SMALL_MAX: nat := 1024
  const COUNT_MAX: nat := 0xFFFF_FFFF_FFFF_FFFF

  datatype Config = Config(
    udsFixed: real, udsSlope: real, shmFixed: real, shmSlope: real,
    minSamples: nat, alpha: real, crossoverMin: real, crossoverMax: real)

  datatype Transport = UDS | SHM | NONE

  /** Index of a transport's small class; its large class is the next one. */
  function Base(t: Transport): (i: nat)
    requires t != NONE
    ensures i == 0 || i == 2
  {
    if t == UDS then 0 else 2
  }

  function Index(t: Transport, size: nat): (i: nat)
    requires t != NONE
    ensures Base(t) <= i <= Base(t) + 1
  {
    Base(t) + (if size <= SMALL_MAX then 0 else 1)
  }

  function Other(idx: nat): (i: nat)
    requires idx < 4
    ensures i < 4 && i != idx && i / 2 == idx / 2
  {
    if idx % 2 == 0 then idx + 1 else idx - 1
  }

  /** Averages and sample counts of the four classes. */
  datatype Averages = Averages(us: seq<real>, bytes: seq<real>, n: seq<nat>) {
    ghost predicate Valid() { |us| == |bytes| == |n| == 4 }
  }

  /** The lines in use: fixed cost and slope, stored for both classes of a transport. */
  datatype Lines = Lines(fixed: seq<real>, slope: seq<real>) {
    ghost predicate Valid() { |fixed| == |slope| == 4 }
  }

  datatype Fit = Rejected | Accepted(fixed: real, slope: real)

  // ---- Reference ----

  function Averaged(cfg: Config, a: Averages, idx: nat, size: nat, cost: real): (r: Averages)
    requires a.Valid() && idx < 4
    ensures r.Valid()
  {
    Averages(
      a.us[idx := Ewma(cfg.alpha, a.us[idx], cost)],
      a.bytes[idx := Ewma(cfg.alpha, a.bytes[idx], size as real)],
      if a.n[idx] < COUNT_MAX then a.n[idx := a.n[idx] + 1] else a.n)
  }

  function Slope(dus: real, ds: real): (slope: real)
    requires ds != 0.0
  {
    dus / ds
  }

  function Intercept(us: real, slope: real, bytes: real): real {
    us - slope * bytes
  }

  /** The line through the two class averages, if it can be trusted. */
  function Line(cfg: Config, a: Averages, idx: nat): Fit
    requires a.Valid() && idx < 4
  {
    var other := Other(idx);
    var ds := a.bytes[idx] - a.bytes[other];
    if a.n[idx] < cfg.minSamples || a.n[other] < cfg.minSamples || Abs(ds) <= 128.0 then Rejected
    else
      var slope := Slope(a.us[idx] - a.us[other], ds);
      var fixed := Intercept(a.us[idx], slope, a.bytes[idx]);
      if slope > 0.000001 && fixed >= 0.0 then Accepted(fixed, slope) else Rejected
  }

  function Refitted(l: Lines, idx: nat, f: Fit): (r: Lines)
    requires l.Valid() && idx < 4
    ensures r.Valid()
  {
    match f
    case Rejected => l
    case Accepted(fixed, slope) =>
      Lines(l.fixed[idx := fixed][Other(idx) := fixed], l.slope[idx := slope][Other(idx) := slope])
  }

  /** Where the two lines cross, if that is defined. */
  function Crossing(cfg: Config, n: seq<nat>, l: Lines): (r: (bool, real))
    requires l.Valid() && |n| == 4
  {
    var dfs := l.slope[0] - l.slope[2];
    if (exists i :: 0 <= i < 4 && n[i] < cfg.minSamples) || dfs <= 0.000000001 then (false, 0.0)
    else
      var s := (l.fixed[2] - l.fixed[0]) / dfs;
      (true, Clamp(s, cfg.crossoverMin, cfg.crossoverMax))
  }

  function Clamp(s: real, lo: real, hi: real): real {
    var t := if s < lo then lo else s;
    if t > hi then hi else t
  }

  function CrossoverNext(cfg: Config, n: seq<nat>, l: Lines, crossover: real): real
    requires l.Valid() && |n| == 4
  {
    var (known, s) := Crossing(cfg, n, l);
    if !known then crossover
    else if crossover < 0.0 then s
    else crossover + cfg.alpha * (s - crossover)
  }

  // ---- The learner ----

  class Learner {
    var clsMeanUs: seq<real>
    var clsMeanB: seq<real>
    var n: seq<nat>
    var fixedUs: seq<real>
    var slopeUsPerB: seq<real>
    var crossoverB: real
    var crossoverUpdates: nat

    function Means(): Averages
      reads this
    {
      Averages(clsMeanUs, clsMeanB, n)
    }

    function InUse(): Lines
      reads this
    {
      Lines(fixedUs, slopeUsPerB)
    }

    ghost predicate Valid()
      reads this
    {
      Means().Valid() && InUse().Valid()
    }

    constructor (cfg: Config)
      ensures Valid() && Means() == NoSamples() && InUse() == Priors(cfg) && crossoverB == -1.0
    {
      clsMeanUs, clsMeanB, n := [0.0, 0.0, 0.0, 0.0], [0.0, 0.0, 0.0, 0.0], [0, 0, 0, 0];
      fixedUs := [cfg.udsFixed, cfg.udsFixed, cfg.shmFixed, cfg.shmFixed];
      slopeUsPerB := [cfg.udsSlope, cfg.udsSlope, cfg.shmSlope, cfg.shmSlope];
      crossoverB, crossoverUpdates := -1.0, 0;
    }

    method ObserveClass(cfg: Config, idx: nat, size: nat, cost: real)
      requires Valid() && idx < 4
      modifies this
      ensures Valid()
      ensures Means() == Averaged(cfg, old(Means()), idx, size, cost)
      ensures InUse() == Refitted(old(InUse()), idx, Line(cfg, Means(), idx))
      ensures crossoverB == old(crossoverB)
    {
      Average(cfg.alpha, idx, size, cost);
      if n[idx] < COUNT_MAX { n := n[idx := n[idx] + 1]; }
      Refit(cfg, idx);
    }

    /** Moves the two averages of a class. */
    method Average(a: real, idx: nat, size: nat, cost: real)
      requires Valid() && idx < 4
      modifies `clsMeanUs, `clsMeanB
      ensures clsMeanUs == old(clsMeanUs)[idx := Ewma(a, old(clsMeanUs)[idx], cost)]
      ensures clsMeanB == old(clsMeanB)[idx := Ewma(a, old(clsMeanB)[idx], size as real)]
    {
      clsMeanUs := clsMeanUs[idx := Ewma(a, clsMeanUs[idx], cost)];
      clsMeanB := clsMeanB[idx := Ewma(a, clsMeanB[idx], size as real)];
    }

    /** The second half of observing a sample: refit the line, if it can be trusted. */
    method Refit(cfg: Config, idx: nat)
      requires Valid() && idx < 4
      modifies `fixedUs, `slopeUsPerB
      ensures Valid() && InUse() == Refitted(old(InUse()), idx, Line(cfg, Means(), idx))
    {
      var other := if idx % 2 == 0 then idx + 1 else idx - 1;
      var base := (idx / 2) * 2;
      ghost var fit := Line(cfg, Means(), idx);
      if n[base] >= cfg.minSamples && n[base + 1] >= cfg.minSamples {
        var ds := clsMeanB[idx] - clsMeanB[other];
        if Abs(ds) > 128.0 {
          var slope := Slope(clsMeanUs[idx] - clsMeanUs[other], ds);
          if slope > 0.000001 {
            var fixed := Intercept(clsMeanUs[idx], slope, clsMeanB[idx]);
            if fixed >= 0.0 {
              assert fit == Accepted(fixed, slope);
              slopeUsPerB := slopeUsPerB[idx := slope];
              fixedUs := fixedUs[idx := fixed];
              slopeUsPerB := slopeUsPerB[other := slope];
              fixedUs := fixedUs[other := fixed];
            }
          }
        }
      }
    }

    method Observe(cfg: Config, o: Observation)
      requires Valid()
      modifies this
      ensures Valid() && crossoverB == old(crossoverB)
      ensures Learned(Means(), InUse()) == Observed(cfg, Learned(old(Means()), old(InUse())), o)
    {
      if o.cost < 0.0 { return; }
      if o.transport != UDS && o.transport != SHM { return; }
      var cls := if o.size <= SMALL_MAX then 0 else 1;
      ObserveClass(cfg, (if o.transport == UDS then 0 else 2) + cls, o.size, o.cost);
    }

    method Crossover(cfg: Config) returns (c: real)
      requires Valid()
      modifies this`crossoverB, this`crossoverUpdates
      ensures c == crossoverB == CrossoverNext(cfg, n, InUse(), old(crossoverB))
      ensures crossoverUpdates == old(crossoverUpdates) + (if Crossing(cfg, n, InUse()).0 then 1 else 0)
    {
      if n[0] < cfg.minSamples || n[2] < cfg.minSamples || n[1] < cfg.minSamples || n[3] < cfg.minSamples {
        return crossoverB;
      }
      var dfs := slopeUsPerB[0] - slopeUsPerB[2];
      if dfs <= 0.000000001 { return crossoverB; }
      var s := (fixedUs[2] - fixedUs[0]) / dfs;
      if s < cfg.crossoverMin { s := cfg.crossoverMin; }
      if s > cfg.crossoverMax { s := cfg.crossoverMax; }
      if crossoverB < 0.0 {
        crossoverB := s;
      } else {
        crossoverB := crossoverB + cfg.alpha * (s - crossoverB);
      }
      crossoverUpdates := crossoverUpdates + 1;
      return crossoverB;
    }
  }

  // ---- What one step does ----

  /** A line through the average size and cost of both classes of a transport. */
  predicate Through(a: Averages, idx: nat, fixed: real, slope: real)
    requires |a.us| == |a.bytes| == 4 && idx < 4
  {
    a.us[idx] == fixed + slope * a.bytes[idx] && a.us[Other(idx)] == fixed + slope * a.bytes[Other(idx)]
  }

  lemma TwoPoints(x: real, y: real, x': real, y': real, fixed: real, slope: real)
    requires x != x'
    ensures y == fixed + slope * x && y' == fixed + slope * x' <==>
              slope == Slope(y - y', x - x') && fixed == Intercept(y, slope, x)
  {
    assert slope * x - slope * x' == slope * (x - x');
    var s := (y - y') / (x - x');
    assert s * (x - x') == y - y';
    if slope != s {
      Apart(slope, s, x - x');
    }
  }

  lemma Apart(p: real, q: real, d: real)
    requires p != q && d != 0.0
    ensures p * d != q * d
  {
    assert p * d - q * d == (p - q) * d;
  }

  /**
   A refit is accepted with a line iff that goes through both class averages, both
   classes have enough samples, their sizes are more than 128 bytes apart, it
   rises by more than 10^-6 a byte and does not start below zero.
   */
  lemma RefitIff(cfg: Config, a: Averages, idx: nat, fixed: real, slope: real)
    requires a.Valid() && idx < 4
    ensures Line(cfg, a, idx) == Accepted(fixed, slope) <==>
              && a.n[idx] >= cfg.minSamples && a.n[Other(idx)] >= cfg.minSamples
              && (a.bytes[idx] - a.bytes[Other(idx)] > 128.0 || a.bytes[Other(idx)] - a.bytes[idx] > 128.0)
              && Through(a, idx, fixed, slope) && slope > 0.000001 && fixed >= 0.0
  {
    var other := Other(idx);
    LineIs(cfg, a, idx, fixed, slope);
    if a.bytes[idx] != a.bytes[other] {
      TwoPoints(a.bytes[idx], a.us[idx], a.bytes[other], a.us[other], fixed, slope);
    }
  }

  lemma LineIs(cfg: Config, a: Averages, idx: nat, fixed: real, slope: real)
    requires a.Valid() && idx < 4
    ensures var ds := a.bytes[idx] - a.bytes[Other(idx)];
            Line(cfg, a, idx) == Accepted(fixed, slope) <==>
              && a.n[idx] >= cfg.minSamples && a.n[Other(idx)] >= cfg.minSamples && (ds > 128.0 || -ds > 128.0)
              && slope == Slope(a.us[idx] - a.us[Other(idx)], ds) && fixed == Intercept(a.us[idx], slope, a.bytes[idx])
              && slope > 0.000001 && fixed >= 0.0
  {
  }

  /**
   A sample moves the averages and the count of one class, that of its transport
   for sizes up to 1024 or above, and if that class's refit is accepted both
   classes of the transport use the new line; nothing else changes.
   */
  lemma SampleMoves(cfg: Config, l: Learned, o: Observation)
    requires l.Valid()
    ensures var r := Observed(cfg, l, o);
            if o.transport == NONE || o.cost < 0.0 then r == l
            else
              var idx := (if o.transport == UDS then 0 else 2) + (if o.size <= 1024 then 0 else 1);
              && r.means.us[idx] == cfg.alpha * o.cost + (1.0 - cfg.alpha) * l.means.us[idx]
              && r.means.bytes[idx] == cfg.alpha * o.size as real + (1.0 - cfg.alpha) * l.means.bytes[idx]
              && OthersSame(l.means, r.means, idx)
              && match Line(cfg, r.means, idx)
                 case Accepted(fixed, slope) => LinesSet(l.lines, r.lines, idx / 2, fixed, slope)
                 case Rejected => r.lines == l.lines
  {
    if o.Counts() {
      var idx := Index(o.transport, o.size);
      var means := Averaged(cfg, l.means, idx, o.size, o.cost);
      AverageMoves(cfg, l.means, idx, o.size, o.cost);
      RefitSets(l.lines, idx, Line(cfg, means, idx));
    }
  }

  /** No class but one has changed. */
  predicate OthersSame(a: Averages, a': Averages, idx: nat)
    requires |a.us| == |a.bytes| == |a.n| == |a'.us| == |a'.bytes| == |a'.n| == 4
  {
    forall i :: 0 <= i < 4 && i != idx ==> a'.us[i] == a.us[i] && a'.bytes[i] == a.bytes[i] && a'.n[i] == a.n[i]
  }

  /** Both classes of one transport have a new line, and the other transport's are as they were. */
  predicate LinesSet(l: Lines, l': Lines, transport: nat, fixed: real, slope: real)
    requires |l.fixed| == |l.slope| == |l'.fixed| == |l'.slope| == 4
  {
    forall i :: 0 <= i < 4 ==>
      if i / 2 == transport then l'.fixed[i] == fixed && l'.slope[i] == slope
      else l'.fixed[i] == l.fixed[i] && l'.slope[i] == l.slope[i]
  }

  lemma AverageMoves(cfg: Config, a: Averages, idx: nat, size: nat, cost: real)
    requires a.Valid() && idx < 4
    ensures var r := Averaged(cfg, a, idx, size, cost);
            && r.us[idx] == cfg.alpha * cost + (1.0 - cfg.alpha) * a.us[idx]
            && r.bytes[idx] == cfg.alpha * size as real + (1.0 - cfg.alpha) * a.bytes[idx]
            && OthersSame(a, r, idx)
  {
  }

  lemma RefitSets(l: Lines, idx: nat, f: Fit)
    requires l.Valid() && idx < 4
    ensures f.Accepted? ==> LinesSet(l, Refitted(l, idx, f), idx / 2, f.fixed, f.slope)
    ensures f.Rejected? ==> Refitted(l, idx, f) == l
  {
  }

  /** Two lines meet at this size. */
  predicate MeetAt(l: Lines, size: real)
    requires |l.fixed| == |l.slope| == 4
  {
    l.fixed[0] + l.slope[0] * size == l.fixed[2] + l.slope[2] * size
  }

  lemma MeetsOnce(f: real, g: real, a: real, b: real, x: real)
    requires a - b > 0.0
    ensures f + a * x == g + b * x <==> x == (g - f) / (a - b)
  {
    var s := (g - f) / (a - b);
    assert s * (a - b) == g - f;
    assert a * x - b * x == x * (a - b);
    if x != s {
      Apart(x, s, a - b);
    }
  }

  /**
   The crossing is known iff every class has enough samples and the datagram's
   line rises by more than 10^-9 a byte faster; then it is the size at which the
   two lines meet, or the nearer end of the configured range.
   */
  lemma CrossingIff(cfg: Config, n: seq<nat>, l: Lines, meet: real)
    requires l.Valid() && |n| == 4 && cfg.crossoverMin <= cfg.crossoverMax
    ensures var (known, s) := Crossing(cfg, n, l);
            && (known <==> (forall i :: 0 <= i < 4 ==> n[i] >= cfg.minSamples) && l.slope[0] - l.slope[2] > 0.000000001)
            && (known && MeetAt(l, meet) ==>
                  s == if meet < cfg.crossoverMin then cfg.crossoverMin
                       else if meet > cfg.crossoverMax then cfg.crossoverMax else meet)
            && (known ==> exists x :: MeetAt(l, x))
  {
    if l.slope[0] - l.slope[2] > 0.000000001 {
      var x := (l.fixed[2] - l.fixed[0]) / (l.slope[0] - l.slope[2]);
      MeetsOnce(l.fixed[0], l.fixed[2], l.slope[0], l.slope[2], meet);
      MeetsOnce(l.fixed[0], l.fixed[2], l.slope[0], l.slope[2], x);
      assert MeetAt(l, x);
    }
  }

  // ---- Whole runs ----

  datatype Observation = Observation(transport: Transport, size: nat, cost: real) {
    /** Observations of no transport and negative costs are ignored. */
    predicate Counts() { transport != NONE && cost >= 0.0 }
  }

  datatype Learned = Learned(means: Averages, lines: Lines) {
    ghost predicate Valid() { means.Valid() && lines.Valid() }
  }

  function NoSamples(): (a: Averages)
    ensures a.Valid()
  {
    Averages([0.0, 0.0, 0.0, 0.0], [0.0, 0.0, 0.0, 0.0], [0, 0, 0, 0])
  }

  function Priors(cfg: Config): (l: Lines)
    ensures l.Valid()
  {
    Lines([cfg.udsFixed, cfg.udsFixed, cfg.shmFixed, cfg.shmFixed],
          [cfg.udsSlope, cfg.udsSlope, cfg.shmSlope, cfg.shmSlope])
  }

  function Observed(cfg: Config, l: Learned, o: Observation): (r: Learned)
    requires l.Valid()
    ensures r.Valid()
  {
    if !o.Counts() then l
    else
      var idx := Index(o.transport, o.size);
      var means := Averaged(cfg, l.means, idx, o.size, o.cost);
      Learned(means, Refitted(l.lines, idx, Line(cfg, means, idx)))
  }

  function Run(cfg: Config, obs: seq<Observation>): (r: Learned)
    ensures r.Valid()
  {
    if obs == [] then Learned(NoSamples(), Priors(cfg))
    else Observed(cfg, Run(cfg, obs[..|obs| - 1]), obs[|obs| - 1])
  }

  /** How many observations fell into class `idx`. */
  function Seen(obs: seq<Observation>, idx: nat): nat {
    if obs == [] then 0
    else
      var o := obs[|obs| - 1];
      Seen(obs[..|obs| - 1], idx) + (if o.Counts() && Index(o.transport, o.size) == idx then 1 else 0)
  }

  /** Every counted sample of transport `t` costs `a + b * size`. */
  ghost predicate OnLine(obs: seq<Observation>, t: Transport, a: real, b: real) {
    forall i :: 0 <= i < |obs| && obs[i].Counts() && obs[i].transport == t ==>
      obs[i].cost == a + b * obs[i].size as real
  }

  /** Both averages start at zero, so after `k` samples the fixed part has grown to a * (1 - (1 - alpha)^k). */
  ghost predicate Tracks(cfg: Config, m: Averages, idx: nat, a: real, b: real, k: nat)
    requires m.Valid() && idx < 4
  {
    && m.us[idx] == a * (1.0 - Pow(1.0 - cfg.alpha, k)) + b * m.bytes[idx]
    && m.n[idx] <= k
  }

  lemma EwmaOnLine(alpha: real, us: real, bytes: real, size: real, a: real, b: real, p: real)
    requires us == a * (1.0 - p) + b * bytes
    ensures Ewma(alpha, us, a + b * size) == a * (1.0 - (1.0 - alpha) * p) + b * Ewma(alpha, bytes, size)
  {
    var q := 1.0 - alpha;
    assert q * us == a * q - a * (q * p) + b * (q * bytes);
    assert alpha * (a + b * size) == a * alpha + b * (alpha * size);
    assert b * (alpha * size + q * bytes) == b * (alpha * size) + b * (q * bytes);
    assert a * alpha + a * q == a;
  }

  lemma ObservedTracks(cfg: Config, l: Learned, o: Observation, a: real, b: real, idx: nat, k: nat)
    requires l.Valid() && idx < 4 && Tracks(cfg, l.means, idx, a, b, k)
    requires o.Counts() && Index(o.transport, o.size) == idx ==> o.cost == a + b * o.size as real
    ensures Tracks(cfg, Observed(cfg, l, o).means, idx, a, b,
                   k + (if o.Counts() && Index(o.transport, o.size) == idx then 1 else 0))
  {
    if o.Counts() && Index(o.transport, o.size) == idx {
      EwmaOnLine(cfg.alpha, l.means.us[idx], l.means.bytes[idx], o.size as real, a, b, Pow(1.0 - cfg.alpha, k));
    }
  }

  lemma NothingTracked(cfg: Config, a: real, b: real, idx: nat)
    requires idx < 4
    ensures Tracks(cfg, NoSamples(), idx, a, b, 0)
  {
  }

  lemma {:induction false} RunTracks(cfg: Config, obs: seq<Observation>, t: Transport, a: real, b: real, idx: nat)
    requires t != NONE && OnLine(obs, t, a, b) && Base(t) <= idx <= Base(t) + 1
    ensures Tracks(cfg, Run(cfg, obs).means, idx, a, b, Seen(obs, idx))
  {
    if obs == [] {
      NothingTracked(cfg, a, b, idx);
    } else {
      var first, o := obs[..|obs| - 1], obs[|obs| - 1];
      RunTracks(cfg, first, t, a, b, idx);
      ObservedTracks(cfg, Run(cfg, first), o, a, b, idx, Seen(first, idx));
    }
  }

  /** Every class counts its samples, up to the largest 64-bit word. */
  lemma {:induction false} CountsSeen(cfg: Config, obs: seq<Observation>, idx: nat)
    requires idx < 4
    ensures Run(cfg, obs).means.n[idx] ==
            if Seen(obs, idx) <= 0xFFFF_FFFF_FFFF_FFFF then Seen(obs, idx) else 0xFFFF_FFFF_FFFF_FFFF
  {
    if obs != [] {
      CountsSeen(cfg, obs[..|obs| - 1], idx);
      OneCounted(cfg, Run(cfg, obs[..|obs| - 1]), obs[|obs| - 1], idx);
    }
  }

  lemma OneCounted(cfg: Config, l: Learned, o: Observation, idx: nat)
    requires l.Valid() && idx < 4
    ensures Observed(cfg, l, o).means.n[idx] ==
            if o.Counts() && Index(o.transport, o.size) == idx && l.means.n[idx] < 0xFFFF_FFFF_FFFF_FFFF
            then l.means.n[idx] + 1 else l.means.n[idx]
  {
  }

  /** The line that a transport starts with. */
  predicate Configured(cfg: Config, l: Lines, t: Transport)
    requires |l.fixed| == |l.slope| == 4 && t != NONE
  {
    if t == UDS then
      l.fixed[0] == l.fixed[1] == cfg.udsFixed && l.slope[0] == l.slope[1] == cfg.udsSlope
    else
      l.fixed[2] == l.fixed[3] == cfg.shmFixed && l.slope[2] == l.slope[3] == cfg.shmSlope
  }

  /** Until both classes of a transport have enough samples, it is priced as configured. */
  lemma {:induction false} ConfiguredUntilTrusted(cfg: Config, obs: seq<Observation>, t: Transport)
    requires t != NONE
    requires var n, base := Run(cfg, obs).means.n, if t == UDS then 0 else 2;
             n[base] < cfg.minSamples || n[base + 1] < cfg.minSamples
    ensures Configured(cfg, Run(cfg, obs).lines, t)
  {
    if obs != [] {
      var first, o := obs[..|obs| - 1], obs[|obs| - 1];
      var base := if t == UDS then 0 else 2;
      OneCounted(cfg, Run(cfg, first), o, base);
      OneCounted(cfg, Run(cfg, first), o, base + 1);
      ConfiguredUntilTrusted(cfg, first, t);
      NoRefit(cfg, Run(cfg, first), o, base);
    }
  }

  lemma NoRefit(cfg: Config, l: Learned, o: Observation, base: nat)
    requires l.Valid() && (base == 0 || base == 2)
    requires var n := Observed(cfg, l, o).means.n; n[base] < cfg.minSamples || n[base + 1] < cfg.minSamples
    ensures var r := Observed(cfg, l, o).lines;
            && r.fixed[base] == l.lines.fixed[base] && r.fixed[base + 1] == l.lines.fixed[base + 1]
            && r.slope[base] == l.lines.slope[base] && r.slope[base + 1] == l.lines.slope[base + 1]
  {
  }

  /** The error of a slope fitted through two points that are off the line by a*p and a*q. */
  lemma SlopeError(a: real, b: real, p: real, q: real, bound: real, ds: real, slope: real)
    requires a >= 0.0 && 0.0 <= p <= bound && 0.0 <= q <= bound
    requires Abs(ds) > 128.0 && slope * ds == a * (q - p) + b * ds
    ensures Abs(slope - b) * 128.0 <= a * bound
  {
    ErrorTimesSpan(b, ds, slope, a * (q - p));
    LargeFactor(slope - b, ds, 128.0);
    BoundedProduct(a, q - p, bound);
  }

  lemma ErrorTimesSpan(b: real, ds: real, slope: real, w: real)
    requires slope * ds == w + b * ds
    ensures (slope - b) * ds == w
  {
  }

  function Min(x: nat, y: nat): nat { if x < y then x else y }

  /** Two averages short of the line a + b * size by the fractions p and q of a. */
  lemma PointsError(a: real, b: real, p: real, q: real, bound: real, us: real, us': real, bytes: real, bytes': real)
    requires a >= 0.0 && 0.0 <= p <= bound && 0.0 <= q <= bound
    requires us == a * (1.0 - p) + b * bytes && us' == a * (1.0 - q) + b * bytes'
    requires Abs(bytes - bytes') > 128.0
    ensures Abs(Slope(us - us', bytes - bytes') - b) * 128.0 <= a * bound
  {
    var slope := Slope(us - us', bytes - bytes');
    FittedSlope(a, b, p, q, us, us', bytes, bytes', slope);
    SlopeError(a, b, p, q, bound, bytes - bytes', slope);
  }

  /** Short by the same amount, they give the slope exactly. */
  lemma PointsExact(b: real, c: real, us: real, us': real, bytes: real, bytes': real)
    requires us == c + b * bytes && us' == c + b * bytes' && bytes != bytes'
    ensures Slope(us - us', bytes - bytes') == b
    ensures Intercept(us, b, bytes) == c
  {
    assert us - us' == b * (bytes - bytes');
  }

  /** The slope error of an accepted fit is bounded by what the smaller class count leaves of `a`. */
  ghost predicate FitIsClose(cfg: Config, m: Averages, idx: nat, a: real, b: real)
    requires m.Valid() && idx < 4
  {
    Line(cfg, m, idx).Accepted? ==>
      Abs(Line(cfg, m, idx).slope - b) * 128.0 <= a * Pow(1.0 - cfg.alpha, Min(m.n[idx], m.n[Other(idx)]))
  }

  /** After `k` samples in both classes an accepted fit has the true slope and a known fixed term. */
  ghost predicate FitIsExact(cfg: Config, m: Averages, idx: nat, a: real, b: real, k: nat)
    requires m.Valid() && idx < 4
  {
    Line(cfg, m, idx).Accepted? ==>
      Line(cfg, m, idx) == Accepted(a * (1.0 - Pow(1.0 - cfg.alpha, k)), b)
  }

  lemma PowersBelow(r: real, k: nat, k': nat, least: nat)
    requires 0.0 <= r <= 1.0 && least <= k && least <= k'
    ensures 0.0 <= Pow(r, k) <= Pow(r, least) && 0.0 <= Pow(r, k') <= Pow(r, least)
  {
    PowBelow(r, least, k);
    PowBelow(r, least, k');
  }

  lemma AcceptedIs(cfg: Config, m: Averages, idx: nat)
    requires m.Valid() && idx < 4 && Line(cfg, m, idx).Accepted?
    ensures Abs(m.bytes[idx] - m.bytes[Other(idx)]) > 128.0
    ensures Line(cfg, m, idx).slope == Slope(m.us[idx] - m.us[Other(idx)], m.bytes[idx] - m.bytes[Other(idx)])
  {
  }

  lemma FitError(cfg: Config, m: Averages, idx: nat, a: real, b: real, k: nat, k': nat)
    requires m.Valid() && idx < 4 && a >= 0.0 && 0.0 <= cfg.alpha <= 1.0
    requires Tracks(cfg, m, idx, a, b, k) && Tracks(cfg, m, Other(idx), a, b, k')
    ensures FitIsClose(cfg, m, idx, a, b)
  {
    var r, other := 1.0 - cfg.alpha, Other(idx);
    var least := Min(m.n[idx], m.n[other]);
    PowersBelow(r, k, k', least);
    if Line(cfg, m, idx).Accepted? {
      AcceptedIs(cfg, m, idx);
      PointsError(a, b, Pow(r, k), Pow(r, k'), Pow(r, least), m.us[idx], m.us[other], m.bytes[idx], m.bytes[other]);
    }
  }

  lemma FitExact(cfg: Config, m: Averages, idx: nat, a: real, b: real, k: nat)
    requires m.Valid() && idx < 4
    requires Tracks(cfg, m, idx, a, b, k) && Tracks(cfg, m, Other(idx), a, b, k)
    ensures FitIsExact(cfg, m, idx, a, b, k)
  {
    var other := Other(idx);
    if Line(cfg, m, idx).Accepted? {
      PointsExact(b, a * (1.0 - Pow(1.0 - cfg.alpha, k)), m.us[idx], m.us[other], m.bytes[idx], m.bytes[other]);
    }
  }

  /** Both classes track the line over a whole run. */
  lemma BothTrack(cfg: Config, obs: seq<Observation>, t: Transport, a: real, b: real, idx: nat)
    requires t != NONE && OnLine(obs, t, a, b) && Base(t) <= idx <= Base(t) + 1
    ensures Tracks(cfg, Run(cfg, obs).means, idx, a, b, Seen(obs, idx))
    ensures Tracks(cfg, Run(cfg, obs).means, Other(idx), a, b, Seen(obs, Other(idx)))
  {
    RunTracks(cfg, obs, t, a, b, idx);
    RunTracks(cfg, obs, t, a, b, Other(idx));
  }

  /**
   If all of a transport's samples lie on one line, every refit the learner
   accepts has the line's slope up to a * (1 - alpha)^m / 128, where m is the
   smaller class count; with equal counts the slope is exact and the fixed term
   falls short of `a` by the factor 1 - (1 - alpha)^n.
   */
  lemma AcceptedRefit(cfg: Config, obs: seq<Observation>, t: Transport, a: real, b: real, idx: nat)
    requires t != NONE && OnLine(obs, t, a, b) && a >= 0.0 && 0.0 <= cfg.alpha <= 1.0
    requires Base(t) <= idx <= Base(t) + 1
    ensures FitIsClose(cfg, Run(cfg, obs).means, idx, a, b)
    ensures Seen(obs, idx) == Seen(obs, Other(idx)) ==> FitIsExact(cfg, Run(cfg, obs).means, idx, a, b, Seen(obs, idx))
  {
    BothTrack(cfg, obs, t, a, b, idx);
    FitError(cfg, Run(cfg, obs).means, idx, a, b, Seen(obs, idx), Seen(obs, Other(idx)));
    if Seen(obs, idx) == Seen(obs, Other(idx)) {
      FitExact(cfg, Run(cfg, obs).means, idx, a, b, Seen(obs, idx));
    }
  }

  /** The refit is accepted iff the guards hold for the true slope. */
  ghost predicate AcceptedWhenTrusted(cfg: Config, m: Averages, idx: nat, b: real)
    requires m.Valid() && idx < 4
  {
    Line(cfg, m, idx).Accepted? <==>
      && m.n[idx] >= cfg.minSamples && m.n[Other(idx)] >= cfg.minSamples
      && Abs(m.bytes[idx] - m.bytes[Other(idx)]) > 128.0 && b > 0.000001
  }

  lemma LineAcceptedIff(cfg: Config, m: Averages, idx: nat, b: real, c: real)
    requires m.Valid() && idx < 4 && c >= 0.0
    requires m.us[idx] == c + b * m.bytes[idx] && m.us[Other(idx)] == c + b * m.bytes[Other(idx)]
    ensures AcceptedWhenTrusted(cfg, m, idx, b)
  {
    if Abs(m.bytes[idx] - m.bytes[Other(idx)]) > 128.0 {
      PointsExact(b, c, m.us[idx], m.us[Other(idx)], m.bytes[idx], m.bytes[Other(idx)]);
    }
  }

  lemma FitAcceptedIff(cfg: Config, m: Averages, idx: nat, a: real, b: real, k: nat)
    requires m.Valid() && idx < 4 && a >= 0.0 && 0.0 <= cfg.alpha <= 1.0
    requires Tracks(cfg, m, idx, a, b, k) && Tracks(cfg, m, Other(idx), a, b, k)
    ensures AcceptedWhenTrusted(cfg, m, idx, b)
  {
    PowBounds(1.0 - cfg.alpha, k);
    NonNegative(a, 1.0 - Pow(1.0 - cfg.alpha, k));
    LineAcceptedIff(cfg, m, idx, b, a * (1.0 - Pow(1.0 - cfg.alpha, k)));
  }

  /** With the same number of samples in both classes the refit is accepted whenever the guards allow the true line. */
  lemma RefitAcceptedIff(cfg: Config, obs: seq<Observation>, t: Transport, a: real, b: real, idx: nat)
    requires t != NONE && OnLine(obs, t, a, b) && a >= 0.0 && 0.0 <= cfg.alpha <= 1.0
    requires Base(t) <= idx <= Base(t) + 1 && Seen(obs, idx) == Seen(obs, Other(idx))
    ensures AcceptedWhenTrusted(cfg, Run(cfg, obs).means, idx, b)
  {
    BothTrack(cfg, obs, t, a, b, idx);
    FitAcceptedIff(cfg, Run(cfg, obs).means, idx, a, b, Seen(obs, idx));
  }

  /** All costs in use are non-negative and grow with the size. */
  ghost predicate Priced(l: Lines) {
    l.Valid() && forall i :: 0 <= i < 4 ==> l.fixed[i] >= 0.0 && l.slope[i] > 0.0
  }

  /** Whatever is observed, a learner that starts from sound prices keeps sound prices. */
  lemma {:induction false} PricesStaySound(cfg: Config, obs: seq<Observation>)
    requires Priced(Priors(cfg))
    ensures Priced(Run(cfg, obs).lines)
  {
    if obs != [] {
      PricesStaySound(cfg, obs[..|obs| - 1]);
    }
  }

  lemma FittedSlope(a: real, b: real, p: real, q: real, us: real, us': real, bytes: real, bytes': real, slope: real)
    requires us == a * (1.0 - p) + b * bytes && us' == a * (1.0 - q) + b * bytes'
    requires bytes - bytes' != 0.0 && slope == Slope(us - us', bytes - bytes')
    ensures slope * (bytes - bytes') == a * (q - p) + b * (bytes - bytes')
  {
    assert slope * (bytes - bytes') == us - us';
  }

  /** The slope is within a * (1 - alpha)^minSamples / 128 of `b`. */
  ghost predicate CloseSlope(cfg: Config, slope: real, a: real, b: real) {
    Abs(slope - b) * 128.0 <= a * Pow(1.0 - cfg.alpha, cfg.minSamples)
  }

  lemma CloseEnough(a: real, p: real, q: real, e: real)
    requires a >= 0.0 && p <= q && Abs(e) * 128.0 <= a * p
    ensures Abs(e) * 128.0 <= a * q
  {
    ScaleUp(a, p, q);
  }

  lemma CloseFit(cfg: Config, m: Averages, idx: nat, a: real, b: real)
    requires m.Valid() && idx < 4 && a >= 0.0 && 0.0 <= cfg.alpha <= 1.0 && FitIsClose(cfg, m, idx, a, b)
    ensures Line(cfg, m, idx).Accepted? ==> CloseSlope(cfg, Line(cfg, m, idx).slope, a, b)
  {
    var least := Min(m.n[idx], m.n[Other(idx)]);
    if Line(cfg, m, idx).Accepted? {
      PowDecreases(1.0 - cfg.alpha, cfg.minSamples, least);
      CloseEnough(a, Pow(1.0 - cfg.alpha, least), Pow(1.0 - cfg.alpha, cfg.minSamples), Line(cfg, m, idx).slope - b);
    }
  }

  lemma RefittedIsClose(cfg: Config, l: Lines, t: Transport, idx: nat, f: Fit, a: real, b: real)
    requires t != NONE && l.Valid() && Base(t) <= idx <= Base(t) + 1
    requires InUseIsClose(cfg, l, t, a, b) && (f.Accepted? ==> CloseSlope(cfg, f.slope, a, b))
    ensures InUseIsClose(cfg, Refitted(l, idx, f), t, a, b)
  {
  }

  /** Both classes of a transport use one line: the configured prior, or one with a close slope. */
  ghost predicate InUseIsClose(cfg: Config, l: Lines, t: Transport, a: real, b: real)
    requires t != NONE && l.Valid()
  {
    && l.slope[Base(t)] == l.slope[Base(t) + 1] && l.fixed[Base(t)] == l.fixed[Base(t) + 1]
    && (l.slope[Base(t)] == Priors(cfg).slope[Base(t)] || CloseSlope(cfg, l.slope[Base(t)], a, b))
  }

  /** Over a whole run, the slope in use is the prior or close to the true one. */
  lemma {:induction false} SlopeInUse(cfg: Config, obs: seq<Observation>, t: Transport, a: real, b: real)
    requires t != NONE && OnLine(obs, t, a, b) && a >= 0.0 && 0.0 <= cfg.alpha <= 1.0
    ensures InUseIsClose(cfg, Run(cfg, obs).lines, t, a, b)
  {
    if obs != [] {
      var first, o := obs[..|obs| - 1], obs[|obs| - 1];
      SlopeInUse(cfg, first, t, a, b);
      var before, idx := Run(cfg, first), Index(t, o.size);
      if o.Counts() && o.transport == t {
        AcceptedRefit(cfg, obs, t, a, b, idx);
        var means := Averaged(cfg, before.means, idx, o.size, o.cost);
        CloseFit(cfg, means, idx, a, b);
        RefittedIsClose(cfg, before.lines, t, idx, Line(cfg, means, idx), a, b);
      }
    }
  }

  // ---- The learned crossover ----

  lemma StepTowards(alpha: real, x: real, s: real)
    ensures x + alpha * (s - x) - s == (1.0 - alpha) * (x - s)
  {
  }

  lemma AbsStep(alpha: real, x: real, s: real)
    requires 0.0 <= alpha <= 1.0
    ensures Abs(x + alpha * (s - x) - s) == (1.0 - alpha) * Abs(x - s)
  {
    StepTowards(alpha, x, s);
    AbsProduct(1.0 - alpha, x - s);
  }

  lemma ClampWithin(s: real, lo: real, hi: real)
    requires lo <= hi
    ensures lo <= Clamp(s, lo, hi) <= hi
  {
  }

  /** A known crossover closes the share alpha of its distance to the clamped crossing. */
  lemma GapShrinks(cfg: Config, x: real, s: real)
    requires 0.0 <= cfg.alpha <= 1.0 && cfg.crossoverMin <= x <= cfg.crossoverMax
    requires cfg.crossoverMin <= s <= cfg.crossoverMax
    ensures var next := x + cfg.alpha * (s - x);
            cfg.crossoverMin <= next <= cfg.crossoverMax && Abs(next - s) == (1.0 - cfg.alpha) * Abs(x - s)
  {
    StepWithin(cfg.alpha, x, s - x, cfg.crossoverMin, cfg.crossoverMax);
    AbsStep(cfg.alpha, x, s);
  }

  /** What happens to a learner: a sample, or a request for the crossover. */
  datatype Step = Sampled(o: Observation) | Asked

  datatype Calibration = Calibration(learned: Learned, crossover: real)

  function Calibrated(cfg: Config, steps: seq<Step>): (c: Calibration)
    ensures c.learned.Valid()
  {
    if steps == [] then Calibration(Run(cfg, []), -1.0)
    else
      var before := Calibrated(cfg, steps[..|steps| - 1]);
      match steps[|steps| - 1]
      case Sampled(o) => before.(learned := Observed(cfg, before.learned, o))
      case Asked =>
        var l := before.learned;
        before.(crossover := CrossoverNext(cfg, l.means.n, l.lines, before.crossover))
  }

  /** Some request found the lines crossing. */
  predicate EverCrossed(cfg: Config, steps: seq<Step>) {
    steps != [] &&
    var first := steps[..|steps| - 1];
    var l := Calibrated(cfg, first).learned;
    EverCrossed(cfg, first) || (steps[|steps| - 1].Asked? && Crossing(cfg, l.means.n, l.lines).0)
  }

  /** A defined crossing is in range. */
  lemma CrossingInRange(cfg: Config, n: seq<nat>, l: Lines)
    requires l.Valid() && |n| == 4 && cfg.crossoverMin <= cfg.crossoverMax && Crossing(cfg, n, l).0
    ensures cfg.crossoverMin <= Crossing(cfg, n, l).1 <= cfg.crossoverMax
  {
    ClampWithin((l.fixed[2] - l.fixed[0]) / (l.slope[0] - l.slope[2]), cfg.crossoverMin, cfg.crossoverMax);
  }

  /** What a request makes of the crossover when the crossing is `s`, if it is known. */
  lemma RequestStep(cfg: Config, known: bool, s: real, crossover: real, next: real)
    requires 0.0 <= cfg.alpha <= 1.0 && 0.0 <= cfg.crossoverMin <= cfg.crossoverMax
    requires crossover == -1.0 || cfg.crossoverMin <= crossover <= cfg.crossoverMax
    requires known ==> cfg.crossoverMin <= s <= cfg.crossoverMax
    requires next == if !known then crossover
                     else if crossover < 0.0 then s else crossover + cfg.alpha * (s - crossover)
    ensures next == -1.0 || cfg.crossoverMin <= next <= cfg.crossoverMax
    ensures next == -1.0 <==> crossover == -1.0 && !known
    ensures crossover != -1.0 && known ==> Abs(next - s) == (1.0 - cfg.alpha) * Abs(crossover - s)
  {
    if known && crossover != -1.0 {
      GapShrinks(cfg, crossover, s);
    }
  }

  /** One request keeps a known crossover in range, and makes it known iff the lines cross. */
  lemma CrossoverStep(cfg: Config, n: seq<nat>, l: Lines, crossover: real)
    requires l.Valid() && |n| == 4
    requires 0.0 <= cfg.alpha <= 1.0 && 0.0 <= cfg.crossoverMin <= cfg.crossoverMax
    requires crossover == -1.0 || cfg.crossoverMin <= crossover <= cfg.crossoverMax
    ensures var next, (known, s) := CrossoverNext(cfg, n, l, crossover), Crossing(cfg, n, l);
            && (next == -1.0 || cfg.crossoverMin <= next <= cfg.crossoverMax)
            && (next == -1.0 <==> crossover == -1.0 && !known)
            && (!known ==> next == crossover) && (crossover == -1.0 && known ==> next == s)
            && (crossover != -1.0 && known ==> next == cfg.alpha * s + (1.0 - cfg.alpha) * crossover)
            && (crossover != -1.0 && known ==> Abs(next - s) == (1.0 - cfg.alpha) * Abs(crossover - s))
  {
    var (known, s) := Crossing(cfg, n, l);
    if known {
      CrossingInRange(cfg, n, l);
    }
    RequestStep(cfg, known, s, crossover, CrossoverNext(cfg, n, l, crossover));
  }

  /**
   Over whole runs of samples and requests the crossover is unknown (-1) or in
   its configured range, and known iff some request found the lines crossing.
   */
  lemma {:induction false} CrossoverStaysInRange(cfg: Config, steps: seq<Step>)
    requires 0.0 <= cfg.alpha <= 1.0 && 0.0 <= cfg.crossoverMin <= cfg.crossoverMax
    ensures var c := Calibrated(cfg, steps).crossover;
            && (c == -1.0 || cfg.crossoverMin <= c <= cfg.crossoverMax)
            && (c == -1.0 <==> !EverCrossed(cfg, steps))
  {
    if steps != [] {
      var first := steps[..|steps| - 1];
      CrossoverStaysInRange(cfg, first);
      var before := Calibrated(cfg, first);
      if steps[|steps| - 1].Asked? {
        CrossoverStep(cfg, before.learned.means.n, before.learned.lines, before.crossover);
      }
    }
  }
}
