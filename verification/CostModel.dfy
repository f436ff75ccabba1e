/** The routing decision for one message. */
module CostModel {
  import opened Reals
  import Health

  const TAU_LOW: real := 1024.0
  const TAU_HIGH: real := 4096.0
  const UDS_MAX_DGRAM: nat := 4096

  datatype Route = NONE | SHM | UDS

  datatype Policy = SIZE_ONLY | SIZE_HYSTERESIS | QUEUE_AWARE | COST_AWARE | FULL_ADAPTIVE

  datatype Qos = BALANCED | LATENCY | THROUGHPUT

  datatype Costs = Costs(
    udsFixed: real, udsSlope: real, shmFixed: real, shmSlope: real,
    switchCost: real, margin: real, setupCost: real,
    notifyFloor: real, notifyActive: real,
    penalty: map<Health.Condition, real>,
    qos: Qos, budget: real, weight: real)

  /**
   What a decision depends on, apart from the current route. `wait` is the
   predicted queueing delay, `learned` the lines in use (fixed and slope for UDS,
   then for SHM), `cold` that they rest on too few samples, `active` that the
   consumer has drained recently.
   */
  datatype Situation = Situation(
    policy: Policy, costs: Costs, learned: (real, real, real, real), cold: bool,
    wait: real, health: Health.Condition, mapped: bool, active: bool,
    ewma: real, payload: nat)
  {
    function Penalty(): real {
      if policy == FULL_ADAPTIVE && mapped && health in costs.penalty then costs.penalty[health] else 0.0
    }

    /** The configured cost of sending the payload as a datagram. */
    function UdsPrior(): real { costs.udsFixed + costs.udsSlope * payload as real }

    /** Backlog (and bad health) worse than the whole datagram cost and the switch. */
    predicate Pressed() {
      && wait + Penalty() > UdsPrior() + costs.switchCost
      && payload + 1 <= UDS_MAX_DGRAM
    }

    // ---- Scored path ----

    function UdsCost(): real { learned.0 + learned.1 * payload as real }

    function ShmLine(): real { learned.2 + learned.3 * payload as real }

    function ShmCost(): real {
      ShmLine() + wait + Penalty() + (if mapped then 0.0 else costs.setupCost)
    }

    function UdsLatency(): real { UdsCost() }

    function ShmLatency(): real {
      wait + (if !mapped then 0.0 else if active then costs.notifyActive else costs.notifyFloor) + ShmLine()
    }

    function Over(latency: real): real {
      if latency > costs.budget then latency - costs.budget else 0.0
    }

    function LatencyPenalty(): real {
      if costs.qos == THROUGHPUT || costs.budget <= 0.0 then 0.0
      else costs.weight * (if Over(UdsLatency()) > Over(ShmLatency()) then Over(UdsLatency()) else Over(ShmLatency()))
    }

    /** Scores before the switching cost: they do not depend on the current route. */
    function UdsBase(): real {
      UdsCost() + (if LatencyPenalty() > 0.0 && ShmLatency() <= UdsLatency() then LatencyPenalty() else 0.0)
    }

    function ShmBase(): real {
      ShmCost() + (if LatencyPenalty() > 0.0 && ShmLatency() > UdsLatency() then LatencyPenalty() else 0.0)
    }

    function UdsScore(current: Route): real {
      UdsBase() + (if current == UDS then 0.0 else costs.switchCost)
    }

    function ShmScore(current: Route): real {
      ShmBase() + (if current == SHM then 0.0 else costs.switchCost)
    }
  }

  /** The size rule with its sticky band. */
  function SizeRule(ewma: real, current: Route): Route {
    if ewma >= TAU_HIGH then SHM
    else if ewma <= TAU_LOW then UDS
    else if current == SHM then SHM
    else UDS
  }

  /** The route with the better score, if it is better by more than the margin. */
  function ScoredRule(s: Situation, current: Route): Route {
    var candidate := if s.ShmScore(current) <= s.UdsScore(current) then SHM else UDS;
    if current == NONE then candidate
    else if candidate != current then
      var cand := if candidate == SHM then s.ShmScore(current) else s.UdsScore(current);
      var curr := if current == SHM then s.ShmScore(current) else s.UdsScore(current);
      if cand + s.costs.margin < curr then candidate else current
    else current
  }

  predicate UsesScores(s: Situation) {
    s.policy == COST_AWARE || (s.policy == FULL_ADAPTIVE && !s.cold)
  }

  function Decide(s: Situation, current: Route): (r: Route)
    ensures r != NONE
  {
    if s.policy == SIZE_ONLY then if s.ewma >= TAU_HIGH then SHM else UDS
    else if UsesScores(s) then ScoredRule(s, current)
    else if s.policy != SIZE_HYSTERESIS && s.ewma >= TAU_HIGH && s.Pressed() then UDS
    else SizeRule(s.ewma, current)
  }

  // ---- The decision in the fields of the situation ----

  /** When the size and the current route alone call for the ring. */
  predicate BySize(ewma: real, current: Route) {
    ewma >= 4096.0 || (ewma > 1024.0 && current == SHM)
  }

  /** The penalty for the ring's health: only the full policy pays it, and only once the ring is mapped. */
  function HealthCost(s: Situation): real {
    if s.policy == FULL_ADAPTIVE && s.mapped && s.health in s.costs.penalty then s.costs.penalty[s.health] else 0.0
  }

  /**
   Which route each size-based policy takes: the threshold alone, the threshold
   with the sticky band, or that and away from the ring when a datagram can carry
   the payload and its whole cost and the switch are less than the predicted wait.
   */
  lemma SizeDecision(s: Situation, current: Route)
    ensures s.policy == SIZE_ONLY ==> (Decide(s, current) == SHM <==> s.ewma >= 4096.0)
    ensures s.policy == SIZE_HYSTERESIS ==> (Decide(s, current) == SHM <==> BySize(s.ewma, current))
    ensures s.policy == QUEUE_AWARE || (s.policy == FULL_ADAPTIVE && s.cold) ==>
              (Decide(s, current) == SHM <==>
                && BySize(s.ewma, current)
                && !(&& s.ewma >= 4096.0 && s.payload <= 4095
                     && s.wait + HealthCost(s) >
                        s.costs.udsFixed + s.costs.udsSlope * s.payload as real + s.costs.switchCost))
  {
  }

  /** What exceeds the latency budget, at the configured weight, if there is a budget to keep. */
  function Overshoot(c: Costs, latency: real): real {
    if c.qos != THROUGHPUT && c.budget > 0.0 && latency > c.budget then c.weight * (latency - c.budget) else 0.0
  }

  /**
   Which route a scored decision takes. The datagram costs its learned line, the
   ring its line, the predicted wait, the health penalty and, before it is mapped,
   the set-up; with a latency budget the one that is slower, where the ring also
   pays for the consumer's notice, is charged for its overshoot. The other route
   costs the switch as well, and a route is left only for a gain above the margin.
   */
  lemma ScoredDecision(s: Situation, current: Route)
    requires s.policy == COST_AWARE || (s.policy == FULL_ADAPTIVE && !s.cold)
    requires s.costs.weight >= 0.0
    ensures var c := s.costs;
            var datagram := s.learned.0 + s.learned.1 * s.payload as real;
            var line := s.learned.2 + s.learned.3 * s.payload as real;
            var notice := if !s.mapped then 0.0 else if s.active then c.notifyActive else c.notifyFloor;
            var latency := line + s.wait + notice;
            var uds := datagram + (if latency <= datagram then Overshoot(c, datagram) else 0.0);
            var shm := line + s.wait + HealthCost(s) + (if s.mapped then 0.0 else c.setupCost) +
                       (if latency > datagram then Overshoot(c, latency) else 0.0);
            && (current == SHM ==>
                  (Decide(s, SHM) == UDS <==> shm > uds + c.switchCost && shm > uds + c.switchCost + c.margin))
            && (current == UDS ==>
                  (Decide(s, UDS) == SHM <==> uds >= shm + c.switchCost && uds > shm + c.switchCost + c.margin))
            && (current == NONE ==> (Decide(s, NONE) == SHM <==> uds >= shm))
  {
    var c := s.costs;
    var datagram, latency := s.UdsLatency(), s.ShmLatency();
    if c.qos != THROUGHPUT && c.budget > 0.0 {
      SlowerPays(s);
      OvershootIs(c, datagram);
      OvershootIs(c, latency);
    }
    assert s.UdsBase() == datagram + (if latency <= datagram then Overshoot(c, datagram) else 0.0);
    assert s.ShmBase() == s.ShmCost() + (if latency > datagram then Overshoot(c, latency) else 0.0);
  }

  lemma OvershootIs(c: Costs, latency: real)
    requires c.qos != THROUGHPUT && c.budget > 0.0
    ensures Overshoot(c, latency) == c.weight * (if latency > c.budget then latency - c.budget else 0.0)
  {
  }

  // ---- The size-based policies under backlog ----

  /** QUEUE_AWARE, and FULL_ADAPTIVE while it has too few samples, watch the backlog. */
  predicate WatchesBacklog(s: Situation) {
    s.policy == QUEUE_AWARE || (s.policy == FULL_ADAPTIVE && s.cold)
  }

  /**
   They depart from the size rule iff the average calls for the ring and the
   backlog is worse than a datagram and the switch; then they choose a datagram
   that fits.
   */
  lemma EscapeIff(s: Situation, current: Route)
    requires WatchesBacklog(s)
    ensures Decide(s, current) != SizeRule(s.ewma, current) <==> s.ewma >= TAU_HIGH && s.Pressed()
    ensures Decide(s, current) != SizeRule(s.ewma, current) ==>
              Decide(s, current) == UDS && s.payload + 1 <= UDS_MAX_DGRAM
  {
  }

  /** The situations as the default policy would see them. */
  function Plain(run: seq<Situation>): (r: seq<Situation>)
    ensures |r| == |run|
  {
    if run == [] then []
    else Plain(run[..|run| - 1]) + [run[|run| - 1].(policy := SIZE_HYSTERESIS)]
  }

  /** As long as they are not pressed, they route like the default policy over whole runs. */
  lemma {:induction false} UnpressedAgree(start: Route, run: seq<Situation>)
    requires forall i :: 0 <= i < |run| ==> WatchesBacklog(run[i]) && !(run[i].ewma >= TAU_HIGH && run[i].Pressed())
    ensures RouteAfter(start, run) == RouteAfter(start, Plain(run))
  {
    if run != [] {
      var n := |run| - 1;
      UnpressedAgree(start, run[..n]);
      assert Plain(run)[..n] == Plain(run[..n]);
      EscapeIff(run[n], RouteAfter(start, run[..n]));
    }
  }

  // ---- Latency budgets ----

  /** With a budget, the slower transport pays the weight times its own overshoot, and the other nothing. */
  lemma SlowerPays(s: Situation)
    requires s.costs.qos != THROUGHPUT && s.costs.budget > 0.0 && s.costs.weight >= 0.0
    ensures s.UdsLatency() >= s.ShmLatency() ==>
              && s.UdsBase() == s.UdsCost() + s.costs.weight * s.Over(s.UdsLatency())
              && s.ShmBase() == s.ShmCost()
    ensures s.UdsLatency() < s.ShmLatency() ==>
              && s.ShmBase() == s.ShmCost() + s.costs.weight * s.Over(s.ShmLatency())
              && s.UdsBase() == s.UdsCost()
  {
    NonNegative(s.costs.weight, s.Over(s.UdsLatency()));
    NonNegative(s.costs.weight, s.Over(s.ShmLatency()));
  }

  // ---- The margin rule ----

  /** How much dearer the datagram is, switching cost aside. */
  function Advantage(s: Situation): real { s.UdsBase() - s.ShmBase() }

  function Threshold(c: Costs): real { c.switchCost + c.margin }

  /** A scored decision leaves a route iff the other one is cheaper by more than switching cost and margin. */
  lemma SwitchIff(s: Situation, current: Route)
    requires UsesScores(s) && s.costs.margin >= 0.0
    ensures current == UDS ==> (Decide(s, current) == SHM <==> Advantage(s) > Threshold(s.costs))
    ensures current == SHM ==> (Decide(s, current) == UDS <==> -Advantage(s) > Threshold(s.costs))
    ensures current == NONE ==> (Decide(s, current) == SHM <==> Advantage(s) >= 0.0)
  {
  }

  /** The route after each of a run of decisions. */
  function RouteAfter(start: Route, run: seq<Situation>): Route {
    if run == [] then start
    else Decide(run[|run| - 1], RouteAfter(start, run[..|run| - 1]))
  }

  /** Changes of route along a run, the first decision from NONE not counted. */
  function Switches(start: Route, run: seq<Situation>): nat {
    if run == [] then 0
    else
      var before := RouteAfter(start, run[..|run| - 1]);
      Switches(start, run[..|run| - 1]) +
      (if before != NONE && RouteAfter(start, run) != before then 1 else 0)
  }

  /** Scored decisions under one configuration, with the advantage inside a band. */
  predicate InBand(run: seq<Situation>, c: Costs, lo: real, hi: real) {
    forall i :: 0 <= i < |run| ==> UsesScores(run[i]) && run[i].costs == c && lo <= Advantage(run[i]) <= hi
  }

  /** The band reaches past the threshold on both sides. */
  predicate Straddles(c: Costs, lo: real, hi: real) {
    lo < -Threshold(c) && Threshold(c) < hi
  }

  lemma {:induction false} BandAllowsOneSwitch(start: Route, run: seq<Situation>, c: Costs, lo: real, hi: real)
    requires InBand(run, c, lo, hi) && c.margin >= 0.0 && !Straddles(c, lo, hi)
    ensures Switches(start, run) <= 1
    ensures Switches(start, run) == 1 && RouteAfter(start, run) == SHM ==> hi > Threshold(c)
    ensures Switches(start, run) == 1 && RouteAfter(start, run) == UDS ==> -lo > Threshold(c)
  {
    if run != [] {
      var n := |run| - 1;
      BandAllowsOneSwitch(start, run[..n], c, lo, hi);
      SwitchIff(run[n], RouteAfter(start, run[..n]));
    }
  }

  /** The latency that costs `y` with the penalty for its own overshoot of the budget. */
  function Unpenalized(c: Costs, y: real): (x: real)
    requires c.weight >= 0.0
  {
    if c.qos == THROUGHPUT || c.budget <= 0.0 || y <= c.budget then y
    else (y + c.weight * c.budget) / (1.0 + c.weight)
  }

  lemma UnpenalizedCosts(c: Costs, y: real)
    requires c.weight >= 0.0 && y >= 0.0
    ensures var x := Unpenalized(c, y);
            && 0.0 <= x <= y
            && (c.qos == THROUGHPUT || c.budget <= 0.0 ==> x == y)
            && (c.qos != THROUGHPUT && c.budget > 0.0 ==>
                  x + c.weight * (if x > c.budget then x - c.budget else 0.0) == y)
  {
    if c.qos != THROUGHPUT && c.budget > 0.0 && y > c.budget {
      var x := Unpenalized(c, y);
      Quotient(y, c.weight, c.budget, x);
    }
  }

  lemma Quotient(y: real, w: real, b: real, x: real)
    requires w >= 0.0 && 0.0 < b < y && x == (y + w * b) / (1.0 + w)
    ensures b < x <= y && x + w * (x - b) == y
  {
    assert x * (1.0 + w) == y + w * b;
    assert x * (1.0 + w) == x + w * x;
    assert w * (x - b) == w * x - w * b;
    if x <= b {
      ScaleUp(w, x, b);
    }
    NonNegative(w, if x > b then x - b else 0.0);
  }

  /** A situation whose advantage is exactly `d`, with the ring not yet mapped. */
  function Probe(c: Costs, d: real): Situation
    requires c.weight >= 0.0
  {
    var y := d + c.setupCost;
    var lines := if y >= 0.0 then (Unpenalized(c, y), 0.0, 0.0, 0.0) else (0.0, 0.0, Unpenalized(c, -y), 0.0);
    Situation(COST_AWARE, c, lines, false, 0.0, Health.HEALTHY, false, true, 0.0, 1)
  }

  lemma ProbeAdvantage(c: Costs, d: real)
    requires c.weight >= 0.0
    ensures Advantage(Probe(c, d)) == d
  {
    var y := d + c.setupCost;
    UnpenalizedCosts(c, if y >= 0.0 then y else -y);
    var x := Unpenalized(c, if y >= 0.0 then y else -y);
    NonNegative(c.weight, if x > c.budget then x - c.budget else 0.0);
  }

  lemma StraddlingAllowsTwo(c: Costs, lo: real, hi: real) returns (run: seq<Situation>)
    requires c.margin >= 0.0 && c.weight >= 0.0 && Straddles(c, lo, hi) && lo <= hi
    ensures InBand(run, c, lo, hi) && Switches(UDS, run) == 2
  {
    var a, b := Probe(c, hi), Probe(c, lo);
    ProbeAdvantage(c, hi);
    ProbeAdvantage(c, lo);
    run := [a, b];
    TwoSwitches(a, b);
  }

  lemma TwoSwitches(a: Situation, b: Situation)
    requires UsesScores(a) && UsesScores(b) && a.costs == b.costs && a.costs.margin >= 0.0
    requires Advantage(a) > Threshold(a.costs) && -Advantage(b) > Threshold(b.costs)
    ensures Switches(UDS, [a, b]) == 2
  {
    SwitchIff(a, UDS);
    SwitchIff(b, SHM);
    var run := [a, b];
    assert run[..1] == [a];
    assert [a][..0] == [];
    assert RouteAfter(UDS, [a]) == SHM;
    assert RouteAfter(UDS, run) == UDS;
    assert Switches(UDS, [a]) == 1;
  }

  /**
   Runs whose advantage stays in a band switch at most once after the first
   decision, whatever the start, iff the band does not reach past the threshold
   on both sides; a band no wider than twice the threshold never does.
   */
  lemma OneSwitchIff(c: Costs, lo: real, hi: real)
    requires c.margin >= 0.0 && c.weight >= 0.0 && lo <= hi
    ensures (forall start, run :: InBand(run, c, lo, hi) ==> Switches(start, run) <= 1) <==> !Straddles(c, lo, hi)
    ensures hi - lo <= 2.0 * Threshold(c) ==> !Straddles(c, lo, hi)
  {
    if Straddles(c, lo, hi) {
      var run := StraddlingAllowsTwo(c, lo, hi);
    } else {
      forall start, run | InBand(run, c, lo, hi) ensures Switches(start, run) <= 1 {
        BandAllowsOneSwitch(start, run, c, lo, hi);
      }
    }
  }

  /** The scores of `noisy` are within `eps` of the exact ones. */
  predicate Near(exact: Situation, noisy: Situation, current: Route, eps: real) {
    && Abs(exact.UdsScore(current) - noisy.UdsScore(current)) <= eps
    && Abs(exact.ShmScore(current) - noisy.ShmScore(current)) <= eps
  }

  /** Scored without error, the current route is no worse than the other. */
  predicate Keeps(exact: Situation, current: Route) {
    match current
    case NONE => true
    case SHM => exact.ShmScore(SHM) <= exact.UdsScore(SHM)
    case UDS => exact.UdsScore(UDS) <= exact.ShmScore(UDS)
  }

  /** With a margin of twice the score error, no run leaves a route that the exact scores would keep. */
  lemma {:induction false} NoiseNeverSwitches(current: Route, exact: seq<Situation>, noisy: seq<Situation>, eps: real)
    requires current != NONE && |exact| == |noisy| && eps >= 0.0
    requires forall i :: 0 <= i < |exact| ==>
               && UsesScores(noisy[i]) && noisy[i].costs.margin >= 2.0 * eps
               && Near(exact[i], noisy[i], current, eps) && Keeps(exact[i], current)
    ensures RouteAfter(current, noisy) == current && Switches(current, noisy) == 0
  {
    if noisy != [] {
      var n := |noisy| - 1;
      NoiseNeverSwitches(current, exact[..n], noisy[..n], eps);
      assert Near(exact[n], noisy[n], current, eps) && Keeps(exact[n], current);
    }
  }
}
