/**
 What a consumer that keeps popping achieves under any interleaving: it empties
 the ring, no producer stays asleep, and a blocking push goes through iff its
 record fits an empty ring where the head stands.
 */
module RingProgress {
  import opened Bytes
  import opened Cursors
  import opened RingLayout
  import opened RingProtocol
  import opened RingSafety
  import opened RingFlow
  import opened RingRuns
  import opened RingWakeup

  // ---- Whole runs ----

  lemma {:induction false} FlowRun(s: State, events: seq<Event>)
    requires FlowInv(s)
    ensures FlowInv(Run(s, events))
  {
    if events != [] {
      FlowRun(s, events[..|events| - 1]);
      NextFlow(Run(s, events[..|events| - 1]), events[|events| - 1]);
    }
  }

  /** A step publishes at most one body. */
  lemma AcceptedStep(s: State, e: Event)
    requires s.cap > 0
    ensures Next(s, e).accepted == s.accepted ||
            (e == ProducerStep && s.prod.PWrite? && Next(s, e).accepted == s.accepted + [s.prod.b])
  {
    match e
    case ProducerStep => if !s.prod.PWrite? && !s.prod.PLoad? { assert StepProducer(s) == WaitStep(s); }
    case ConsumerStep => ConsumerAccepts(s);
    case _ =>
  }

  lemma ConsumerAccepts(s: State)
    requires s.cap > 0
    ensures StepConsumer(s).accepted == s.accepted
  {
  }

  lemma {:induction false} AcceptedGrows(s: State, events: seq<Event>)
    requires s.cap > 0
    ensures s.accepted <= Run(s, events).accepted
  {
    if events != [] {
      AcceptedGrows(s, events[..|events| - 1]);
      AcceptedStep(Run(s, events[..|events| - 1]), events[|events| - 1]);
    }
  }

  // ---- Turns of the consumer ----

  /** The event lets the consumer move: it calls pop, or takes a step that no lock blocks. */
  predicate ConsumerTurn(s: State, e: Event) {
    if s.cons.CIdle? then e.PopCall? else e == ConsumerStep && (s.cons.CLock? ==> s.lock == Free)
  }

  /** Turns of the consumer along a run. */
  function Turns(s: State, events: seq<Event>): nat
    requires s.cap > 0
  {
    if events == [] then 0
    else
      var n := |events| - 1;
      Turns(s, events[..n]) + (if ConsumerTurn(Run(s, events[..n]), events[n]) then 1 else 0)
  }

  /** Everything is delivered, and the consumer is between two calls or about to find the ring empty. */
  predicate Quiet(s: State) {
    Unread(s) == [] && (s.cons.CIdle? || (s.cons.CLoad? && s.cons.pass == 0))
  }

  /** Turns the consumer can still take before it releases a record or goes idle, if its buffers hold `m` bytes. */
  function Patience(s: State, m: nat): int {
    match s.cons
    case CIdle => 2 * s.cap
    case CLoad(max, pass) => (if max < m then 2 * s.cap else 0) + s.cap + 20 - 10 * pass
    case CLen(max, pass, _, _, got) => (if max < m then 2 * s.cap else 0) + s.cap + 19 - 10 * pass - |got|
    case CCopy(_, _, _, len, got) => len - |got|
    case CExchange => 2 * s.cap + 4
    case CLock => 2 * s.cap + 3
    case CWake => 2 * s.cap + 2
    case CUnlock => 2 * s.cap + 1
  }

  /** `n` times `c`. */
  function Times(n: nat, c: nat): nat {
    if n == 0 then 0 else c + Times(n - 1, c)
  }

  /** Turns that are enough to deliver everything published so far. */
  function Work(s: State, m: nat): int {
    Times(|Unread(s)|, 4 * s.cap) + Patience(s, m)
  }

  /** The turn delivered a record, or used up patience. */
  predicate Progress(s: State, s': State, m: nat) {
    || (|Unread(s')| + 1 == |Unread(s)| && Patience(s', m) <= 2 * s.cap + 4 && Patience(s, m) >= 0)
    || (|Unread(s')| == |Unread(s)| && 0 <= Patience(s', m) < Patience(s, m))
  }

  lemma LengthProgress(s: State, m: nat)
    requires Inv(s) && s.cons.CLen? && |s.cons.got| == HDR && AllSmall(Unread(s), m)
    ensures Progress(s, UseLength(s), m)
  {
    if Decode(s.cons.got) == 0 {
      SkipKeeps(s);
    } else {
      UseLengthKeeps(s);
      assert Unread(s)[0] == s.accepted[|s.delivered|];
      PatienceSpent(s, m);
    }
  }

  lemma PatienceSpent(s: State, m: nat)
    requires s.cap > 20 && s.cons.CLen? && |s.cons.got| == HDR && s.cons.pass <= 1
    requires 0 < Decode(s.cons.got) <= s.cap && Decode(s.cons.got) <= m
    ensures 0 <= Patience(UseLength(s), m) < Patience(s, m)
  {
  }

  lemma ReadProgress(s: State, m: nat)
    requires Inv(s) && (s.cons.CLoad? || (s.cons.CLen? && |s.cons.got| < HDR))
    requires s.cons.CLoad? ==> s.tail < s.head
    ensures Progress(s, StepConsumer(s), m)
  {
    if s.cons.CLen? {
      LengthByte(s, s.cons.headSeen, s.cons.seen, |s.cons.got|);
    }
  }

  lemma ReleaseProgress(s: State, m: nat)
    requires Inv(s) && s.cons.CCopy? && |s.cons.got| == s.cons.len
    ensures Progress(s, Release(s), m)
  {
    ReleaseKeeps(s);
  }

  lemma ByteProgress(s: State, m: nat)
    requires Inv(s) && s.cons.CCopy? && |s.cons.got| < s.cons.len
    ensures Progress(s, CopyByte(s), m)
  {
    BodyByte(s, s.cons.headSeen, s.cons.seen, |s.cons.got|);
    assert Unread(CopyByte(s)) == Unread(s);
  }

  lemma CopyProgress(s: State, m: nat)
    requires Inv(s) && s.cons.CCopy?
    ensures Progress(s, StepConsumer(s), m)
  {
    if |s.cons.got| == s.cons.len {
      ReleaseProgress(s, m);
    } else {
      ByteProgress(s, m);
    }
  }

  lemma PopProgress(s: State, m: nat)
    requires FlowInv(s) && AllSmall(Unread(s), m) && !Quiet(s)
    requires s.cons.CLoad? || s.cons.CLen? || s.cons.CCopy?
    ensures Progress(s, StepConsumer(s), m)
  {
    match s.cons
    case CLoad(_, _) =>
      ChainOrder(s.data, s.cap, s.tail, s.head, Unread(s));
      ReadProgress(s, m);
    case CLen(_, _, _, _, got) => if |got| < HDR { ReadProgress(s, m); } else { LengthProgress(s, m); }
    case CCopy(_, _, _, _, _) => CopyProgress(s, m);
  }

  lemma WakeProgress(s: State, m: nat)
    requires FlowInv(s) && ConsumerTurn(s, ConsumerStep)
    requires s.cons.CExchange? || s.cons.CLock? || s.cons.CWake? || s.cons.CUnlock?
    ensures Progress(s, WakeStep(s), m)
  {
    assert Unread(WakeStep(s)) == Unread(s);
  }

  lemma CallProgress(s: State, max: nat, m: nat)
    requires Capacity(s.cap) && s.cons.CIdle? && max >= m
    ensures Progress(s, Call(s, PopCall(max)), m)
  {
    assert Call(s, PopCall(max)) == s.(cons := CLoad(max, 0));
    assert Unread(Call(s, PopCall(max))) == Unread(s);
  }

  /** Every turn of the consumer counts. */
  lemma TurnProgress(s: State, e: Event, m: nat)
    requires FlowInv(s) && AllSmall(Unread(s), m) && !Quiet(s) && ConsumerTurn(s, e) && (e.PopCall? ==> e.max >= m)
    ensures Progress(s, Next(s, e), m)
  {
    if s.cons.CIdle? {
      CallProgress(s, e.max, m);
    } else if s.cons.CLoad? || s.cons.CLen? || s.cons.CCopy? {
      PopProgress(s, m);
    } else {
      WakeProgress(s, m);
    }
  }

  lemma ProgressWorks(s: State, s': State, m: nat)
    requires s'.cap == s.cap > 20 && Progress(s, s', m)
    ensures Work(s', m) < Work(s, m)
  {
    if |Unread(s')| + 1 == |Unread(s)| {
      assert Times(|Unread(s)|, 4 * s.cap) == 4 * s.cap + Times(|Unread(s')|, 4 * s.cap);
    }
  }

  /** An event that is no turn of the consumer leaves it where it is. */
  lemma OthersWait(s: State, e: Event)
    requires s.cap > 0 && !ConsumerTurn(s, e)
    ensures var s' := Next(s, e);
            s'.cons == s.cons && s'.tail == s.tail && s'.delivered == s.delivered
  {
    match e
    case ProducerStep => ProducerLocal(s);
    case ConsumerStep => assert StepConsumer(s) == WakeStep(s);
    case _ =>
  }

  /** A quiet consumer finds nothing until something is published. */
  lemma QuietStays(s: State, e: Event)
    requires FlowInv(s) && Quiet(s) && Next(s, e).accepted == s.accepted
    ensures Quiet(Next(s, e))
  {
    if ConsumerTurn(s, e) {
      ChainOrder(s.data, s.cap, s.tail, s.head, Unread(s));
    } else {
      OthersWait(s, e);
    }
    assert Unread(Next(s, e)) == Unread(s);
  }

  lemma PatiencePositive(s: State, m: nat)
    requires FlowInv(s)
    ensures Patience(s, m) >= 0
  {
  }

  /** While nothing is published, the unread records are some of those that were. */
  lemma StillSmall(s: State, e: Event, m: nat)
    requires FlowInv(s) && AllSmall(Unread(s), m) && Next(s, e).accepted == s.accepted
    ensures AllSmall(Unread(Next(s, e)), m)
  {
    StepIsQueueStep(s, e);
  }

  /** One event of any kind: quiet, or not more work than before, and less after a turn. */
  lemma WorkStep(s: State, e: Event, m: nat)
    requires FlowInv(s) && AllSmall(Unread(s), m) && Next(s, e).accepted == s.accepted && (e.PopCall? ==> e.max >= m)
    ensures var s' := Next(s, e);
            Quiet(s') || (!Quiet(s) && Work(s', m) + (if ConsumerTurn(s, e) then 1 else 0) <= Work(s, m))
  {
    var s' := Next(s, e);
    if Quiet(s) {
      QuietStays(s, e);
    } else if ConsumerTurn(s, e) {
      TurnProgress(s, e, m);
      ProgressWorks(s, s', m);
    } else {
      OthersWait(s, e);
      assert Unread(s') == Unread(s);
    }
  }

  lemma {:induction false} WorkRun(s: State, events: seq<Event>, m: nat)
    requires FlowInv(s) && AllSmall(Unread(s), m) && Offers(events, m) && Run(s, events).accepted == s.accepted
    ensures AllSmall(Unread(Run(s, events)), m)
    ensures var r := Run(s, events);
            Quiet(r) || Work(r, m) + Turns(s, events) <= Work(s, m)
  {
    if events != [] {
      var n := |events| - 1;
      var before := Run(s, events[..n]);
      AcceptedGrows(s, events[..n]);
      AcceptedStep(before, events[n]);
      assert before.accepted == s.accepted;
      WorkRun(s, events[..n], m);
      FlowRun(s, events[..n]);
      WorkStep(before, events[n], m);
      StillSmall(before, events[n], m);
    }
  }

  /** A quiet ring has no sleeping producer, none about to sleep, and none that waits for the lock. */
  lemma QuietAwake(s: State)
    requires FlowInv(s) && Quiet(s)
    ensures s.head == s.tail && s.delivered == s.accepted && s.lock != ByConsumer
    ensures Committed(s.prod) ==> !s.flag && !s.prod.WChecked? && !s.prod.WSleep?
  {
    ChainOrder(s.data, s.cap, s.tail, s.head, Unread(s));
    assert s.accepted == s.delivered + Unread(s);
  }

  /**
   In every interleaving in which nothing new is published, once the consumer
   has had as many turns as there was work, with buffers that hold the records
   still to be read, all that was published is delivered and no producer sleeps,
   however the producer's steps, spurious wakes and calls fall in between.
   */
  lemma DrainSettles(s: State, events: seq<Event>, m: nat)
    requires FlowInv(s) && AllSmall(Unread(s), m) && Offers(events, m) && Run(s, events).accepted == s.accepted
    requires Turns(s, events) > Work(s, m)
    ensures var r := Run(s, events);
            FlowInv(r) && Quiet(r) && r.delivered == s.accepted && !r.prod.WSleep?
  {
    WorkRun(s, events, m);
    FlowRun(s, events);
    var r := Run(s, events);
    if !Quiet(r) {
      PatiencePositive(r, m);
    }
    QuietAwake(r);
  }

  /** The consumer's next turn, with a buffer of `m` bytes. */
  function Turn(s: State, m: nat): Event {
    if s.cons.CIdle? then PopCall(m) else ConsumerStep
  }

  /** A turn is blocked only by a producer that holds the lock, whose own next steps give it back. */
  lemma TurnOrHandover(s: State, m: nat)
    requires FlowInv(s) && !ConsumerTurn(s, Turn(s, m))
    ensures s.lock == ByProducer && StepProducer(s).cons == s.cons
    ensures StepProducer(s).lock == Free || StepProducer(StepProducer(s)).lock == Free
  {
    assert StepProducer(s) == WaitStep(s);
    if s.prod.WLocked? && s.flag {
      assert StepProducer(StepProducer(s)) == WaitStep(WaitStep(s));
    }
  }

  /** One more event at the end of a run. */
  lemma TurnsAppend(s: State, events: seq<Event>, e: Event)
    requires s.cap > 0
    ensures Run(s, events + [e]) == Next(Run(s, events), e)
    ensures Turns(s, events + [e]) == Turns(s, events) + (if ConsumerTurn(Run(s, events), e) then 1 else 0)
  {
    assert (events + [e])[..|events|] == events;
  }

  /** A turn of the consumer does not take the producer's lock. */
  lemma TurnLock(s: State, m: nat)
    requires s.cap > 0 && s.lock != ByProducer
    ensures Next(s, Turn(s, m)).lock != ByProducer
  {
  }

  /**
   The consumer can always be given any number of turns, with buffers of `m`
   bytes and without the producer unless that holds the lock.
   */
  lemma {:induction false} TurnsExist(s: State, n: nat, m: nat) returns (events: seq<Event>)
    requires FlowInv(s)
    ensures Turns(s, events) >= n && Offers(events, m)
    ensures s.lock != ByProducer ==> ProducerStep !in events && Run(s, events).lock != ByProducer
  {
    if n == 0 { return []; }
    events := TurnsExist(s, n - 1, m);
    FlowRun(s, events);
    var r := Run(s, events);
    while !ConsumerTurn(r, Turn(r, m))
      invariant FlowInv(r) && r == Run(s, events) && r.cap == s.cap
      invariant Turns(s, events) >= n - 1 && Offers(events, m)
      invariant s.lock != ByProducer ==> ProducerStep !in events && r.lock != ByProducer
      decreases if r.lock != ByProducer then 0 else if r.prod.WLocked? then 2 else 1
    {
      TurnOrHandover(r, m);
      LockStep(r);
      NextFlow(r, ProducerStep);
      TurnsAppend(s, events, ProducerStep);
      events := events + [ProducerStep];
      r := Next(r, ProducerStep);
    }
    TurnsAppend(s, events, Turn(r, m));
    if s.lock != ByProducer {
      TurnLock(r, m);
    }
    events := events + [Turn(r, m)];
  }

  lemma LockStep(s: State)
    requires FlowInv(s) && s.lock == ByProducer
    ensures var s' := Next(s, ProducerStep);
            s'.lock == Free || (s'.lock == ByProducer && s.prod.WLocked? && s'.prod.WChecked?)
  {
    assert StepProducer(s) == WaitStep(s);
  }

  // ---- A blocking push goes through ----

  /** The body that the producer is pushing, if any. */
  function Job(p: Producer): seq<body> {
    match p
    case PIdle => []
    case PLoad(b, _) => [b]
    case PWrite(b, _, _, _) => [b]
    case _ => if p.k.ThenPush? then [p.k.b] else []
  }

  /** The producer is in a blocking push of `b`, a body that such a push accepts. */
  predicate Pushing(s: State, b: body) {
    && Job(s.prod) == [b] && 0 < |b| <= Limit(s.cap, Blocking)
    && (s.prod.PLoad? ==> s.prod.kind == Blocking)
  }

  /** Its record fits an empty ring where the head stands, or is being written already. */
  predicate Room(s: State, b: body)
    requires s.cap > 0
  {
    s.prod.PWrite? || Fits(s.cap, s.head, s.head, Need(b))
  }

  /** The push goes on, or it just published its body. */
  predicate PushedOn(s: State, s': State, b: body)
    requires s.cap > 0 && s'.cap > 0
  {
    || (s'.accepted == s.accepted && Pushing(s', b) && (Room(s, b) ==> Room(s', b)))
    || (s'.accepted == s.accepted + [b])
  }

  /** What other events do to the producer: at most wake it. */
  lemma ProducerWaits(s: State, e: Event, b: body)
    requires s.cap > 0 && Pushing(s, b) && e != ProducerStep
    ensures var s' := Next(s, e);
            s'.head == s.head && s'.accepted == s.accepted &&
            (s'.prod == s.prod || (s.prod.WSleep? && s'.prod == WWoken(s.prod.k)))
  {
  }

  lemma JobWait(s: State, b: body)
    requires s.cap > 0 && Pushing(s, b) && !s.prod.PLoad? && !s.prod.PWrite?
    ensures PushedOn(s, WaitStep(s), b)
  {
  }

  lemma JobPush(s: State, b: body)
    requires Capacity(s.cap) && Pushing(s, b) && (s.prod.PLoad? || s.prod.PWrite?)
    ensures PushedOn(s, StepProducer(s), b)
  {
  }

  lemma JobStep(s: State, e: Event, b: body)
    requires Capacity(s.cap) && Pushing(s, b)
    ensures PushedOn(s, Next(s, e), b)
  {
    if e != ProducerStep {
      ProducerWaits(s, e, b);
    } else if s.prod.PLoad? || s.prod.PWrite? {
      JobPush(s, b);
    } else {
      JobWait(s, b);
    }
  }

  /** Nothing is published before the body being pushed. */
  lemma {:induction false} JobRun(s: State, events: seq<Event>, b: body)
    requires Capacity(s.cap) && Pushing(s, b)
    ensures var r := Run(s, events);
            || s.accepted + [b] <= r.accepted
            || (r.accepted == s.accepted && Pushing(r, b) && (Room(s, b) ==> Room(r, b)))
  {
    if events != [] {
      var n := |events| - 1;
      JobRun(s, events[..n], b);
      var before := Run(s, events[..n]);
      if before.accepted == s.accepted && Pushing(before, b) {
        JobStep(before, events[n], b);
      } else {
        AcceptedStep(before, events[n]);
      }
    }
  }

  /** Producer steps until the body is published, once the ring is empty. */
  function Rank(s: State, b: body): int
    requires s.cap > 0
  {
    match s.prod
    case PIdle => 0
    case PWrite(_, _, done, _) => |Stores(s.cap, s.head, b)| - done
    case PLoad(_, _) => |b| + 20
    case WLoad(_) => |b| + 21
    case WDisarm(_) => |b| + 21
    case WRecheck(_) => |b| + 22
    case WArm(_) => |b| + 23
    case WWoken(_) => |b| + 22
    case WSleep(_) => |b| + 23
    case WChecked(_) => |b| + 24
    case WLocked(_) => |b| + 25
    case WEnter(_) => |b| + 26
    case WPark(_) => |b| + 27
  }

  lemma WaitAlone(s: State, b: body)
    requires FlowInv(s) && Quiet(s) && Pushing(s, b) && !s.prod.PLoad? && !s.prod.PWrite?
    ensures var s' := WaitStep(s);
            Pushing(s', b) && s'.accepted == s.accepted && 0 <= Rank(s', b) < Rank(s, b)
  {
    QuietAwake(s);
  }

  lemma PushAlone(s: State, b: body)
    requires FlowInv(s) && Quiet(s) && Pushing(s, b) && Room(s, b) && (s.prod.PLoad? || s.prod.PWrite?)
    ensures var s' := StepProducer(s);
            || s'.accepted == s.accepted + [b]
            || (Pushing(s', b) && Room(s', b) && s'.accepted == s.accepted && 0 <= Rank(s', b) < Rank(s, b))
  {
    QuietAwake(s);
    if s.prod.PWrite? && s.prod.done < |Stores(s.cap, s.head, b)| {
      StoreMissesLive(s.cap, s.head, s.prod.seen, s.tail, b, s.prod.done);
    }
  }

  /** With the ring quiet, every producer step brings the publication closer and nothing puts it off. */
  lemma RankStep(s: State, e: Event, b: body)
    requires FlowInv(s) && Quiet(s) && Pushing(s, b) && Room(s, b)
    ensures var s' := Next(s, e);
            || s'.accepted == s.accepted + [b]
            || (&& s'.accepted == s.accepted && Quiet(s') && Pushing(s', b) && Room(s', b)
                && 0 <= Rank(s', b) && Rank(s', b) + (if e == ProducerStep then 1 else 0) <= Rank(s, b))
  {
    if e == ProducerStep {
      if s.prod.PLoad? || s.prod.PWrite? {
        PushAlone(s, b);
      } else {
        WaitAlone(s, b);
      }
    } else {
      ProducerWaits(s, e, b);
      RankPositive(s, b);
    }
    if Next(s, e).accepted == s.accepted {
      QuietStays(s, e);
    }
  }

  lemma RankPositive(s: State, b: body)
    requires FlowInv(s) && Pushing(s, b)
    ensures 0 <= Rank(s, b)
  {
  }

  function ProducerSteps(events: seq<Event>): nat {
    if events == [] then 0
    else ProducerSteps(events[..|events| - 1]) + (if events[|events| - 1] == ProducerStep then 1 else 0)
  }

  lemma {:induction false} RankRun(s: State, events: seq<Event>, b: body)
    requires FlowInv(s) && Quiet(s) && Pushing(s, b) && Room(s, b)
    ensures var r := Run(s, events);
            || s.accepted + [b] <= r.accepted
            || (&& r.accepted == s.accepted && FlowInv(r) && Quiet(r) && Pushing(r, b) && Room(r, b)
                && 0 <= Rank(r, b) && Rank(r, b) + ProducerSteps(events) <= Rank(s, b))
  {
    if events == [] {
      RankPositive(s, b);
    } else {
      var n := |events| - 1;
      RankRun(s, events[..n], b);
      var before := Run(s, events[..n]);
      if s.accepted + [b] <= before.accepted {
        AcceptedStep(before, events[n]);
      } else {
        RankStep(before, events[n], b);
        NextFlow(before, events[n]);
      }
    }
  }

  lemma RankBound(s: State, b: body)
    requires Pushing(s, b) && s.cap > 0
    ensures Rank(s, b) <= |b| + 27
  {
  }

  /**
   A blocking push with room never spins for ever against a draining consumer:
   in every interleaving in which the consumer first gets as many turns as there
   is work, and the producer then |b| + 28 steps, the body is published, whatever
   other events come between.
   */
  lemma BlockingPushCompletes(s: State, b: body, first: seq<Event>, rest: seq<Event>, m: nat)
    requires FlowInv(s) && Pushing(s, b) && Room(s, b) && AllSmall(Unread(s), m) && Offers(first, m)
    requires Turns(s, first) > Work(s, m) && ProducerSteps(rest) >= |b| + 28
    ensures s.accepted + [b] <= Run(s, first + rest).accepted
  {
    var r := Run(s, first);
    RunConcat(s, first, rest);
    JobRun(s, first, b);
    if r.accepted == s.accepted {
      DrainSettles(s, first, m);
      RankRun(r, rest, b);
      RankBound(r, b);
    } else {
      AcceptedGrows(r, rest);
    }
  }

  // ---- A blocking push without room ----

  /** No step gets a push without room any further. */
  lemma StuckStep(s: State, e: Event, b: body)
    requires FlowInv(s) && Pushing(s, b) && !Room(s, b)
    ensures var s' := Next(s, e);
            s'.accepted == s.accepted && Pushing(s', b) && !Room(s', b)
  {
    if e == ProducerStep {
      if !s.prod.PLoad? {
        JobWait(s, b);
        assert StepProducer(s) == WaitStep(s);
      }
    } else {
      ProducerWaits(s, e, b);
    }
  }

  /** A blocking push without room goes on for ever, whatever anybody does. */
  lemma {:induction false} StuckForEver(s: State, b: body, events: seq<Event>)
    requires FlowInv(s) && Pushing(s, b) && !Room(s, b)
    ensures var r := Run(s, events);
            FlowInv(r) && r.accepted == s.accepted && Pushing(r, b) && !Room(r, b)
  {
    if events != [] {
      var n := |events| - 1;
      StuckForEver(s, b, events[..n]);
      NextFlow(Run(s, events[..n]), events[n]);
      StuckStep(Run(s, events[..n]), events[n], b);
    }
  }

  lemma {:induction false} ChainWithin(data: seq<byte>, cap: nat, tail: nat, head: nat, queue: seq<body>, m: nat)
    requires cap > 0 && |data| == cap + SLACK && Chain(data, cap, tail, head, queue) && head - tail <= m
    ensures AllSmall(queue, m)
    decreases |queue|
  {
    if queue != [] {
      var next := NewHead(cap, tail, Need(queue[0]));
      ChainWithin(data, cap, next, head, queue[1..], m);
      assert queue == [queue[0]] + queue[1..];
    }
  }

  lemma StepsCounted(n: nat)
    ensures ProducerSteps(seq(n, _ => ProducerStep)) == n
  {
    if n > 0 {
      StepsCounted(n - 1);
      assert seq(n, _ => ProducerStep)[..n - 1] == seq(n - 1, _ => ProducerStep);
    }
  }

  /** The larger of the two parts into which a cursor's offset divides the buffer. */
  function LargerPart(cap: nat, at: nat): nat
    requires cap > 0
  {
    var p := Offset(cap, at);
    if p < cap - p then cap - p else p
  }

  /**
   Before it has started to write, a blocking push of any body that it accepts can
   still publish it iff the record is no longer than the larger part of the buffer
   before or behind the head; then BlockingPushCompletes says when it does, else
   the call goes on for ever (StuckForEver).
   */
  lemma BlockingPushIff(s: State, b: body)
    requires FlowInv(s) && Pushing(s, b) && !s.prod.PWrite?
    ensures (exists events :: s.accepted + [b] <= Run(s, events).accepted) <==>
              Need(b) <= LargerPart(s.cap, s.head)
    ensures Need(b) <= LargerPart(s.cap, s.head) <==> Room(s, b)
  {
    EmptyRefuses(s.cap, s.head, Need(b));
    if Room(s, b) {
      ChainWithin(s.data, s.cap, s.tail, s.head, Unread(s), s.cap);
      PatiencePositive(s, s.cap);
      var first := TurnsExist(s, Work(s, s.cap) + 1, s.cap);
      var rest := seq(|b| + 28, _ => ProducerStep);
      StepsCounted(|b| + 28);
      BlockingPushCompletes(s, b, first, rest, s.cap);
    } else {
      forall events ensures !(s.accepted + [b] <= Run(s, events).accepted) {
        StuckForEver(s, b, events);
      }
    }
  }

  /** The body that reaches the middle of a new ring, and one that the middle then has no room for. */
  lemma Halves(cap: nat)
    requires Capacity(cap)
    ensures var half := Body(cap / 2 - HDR);
            && 0 < |half| <= Limit(cap, Contiguous) && Need(half) == cap / 2 && !Wraps(cap, 0, cap / 2)
    ensures cap / 2 <= Limit(cap, Blocking) && !Fits(cap, cap / 2, cap / 2, cap / 2 + HDR)
  {
    EmptyRefuses(cap, cap / 2, cap / 2 + HDR);
  }

  /**
   In every new ring a blocking push comes to hang on an empty ring: after one
   record of half the ring has passed through, a body of half the ring is accepted
   and neither published nor refused, however much the consumer drains.
   */
  lemma BlockingPushHangs(s: State) returns (events: seq<Event>, b: body)
    requires Initial(s)
    ensures |b| <= Limit(s.cap, Blocking)
    ensures var r := Run(s, events + [PushCall(b, Blocking)]);
            && r.head == r.tail && Pushing(r, b)
            && forall more :: Run(r, more).accepted == r.accepted && !Run(r, more).prod.PIdle?
  {
    InitialInv(s);
    Halves(s.cap);
    b := Body(s.cap / 2);
    events := PushPopRun(s, Body(s.cap / 2 - HDR), s.cap);
    RunConcat(s, events, [PushCall(b, Blocking)]);
    RunOne(Run(s, events), PushCall(b, Blocking));
    var r := Run(s, events + [PushCall(b, Blocking)]);
    RunFlow(s, events + [PushCall(b, Blocking)]);
    forall more ensures Run(r, more).accepted == r.accepted && !Run(r, more).prod.PIdle? {
      StuckForEver(r, b, more);
    }
  }
}
