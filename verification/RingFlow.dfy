/**
 The high/low watermark protocol: a producer that goes to sleep is woken, and
 blocking pushes keep the backlog within the watermark and two records.
 */
module RingFlow {
  import opened Bytes
  import opened RingLayout
  import opened RingProtocol
  import opened RingSafety

  /** The producer has decided to sleep, or does. */
  predicate Committed(p: Producer) {
    p.WPark? || p.WEnter? || p.WLocked? || p.WChecked? || p.WSleep?
  }

  /** The consumer has skipped a marker in the pop it is executing. */
  predicate SkippedInPop(c: Consumer) {
    (c.CLoad? || c.CLen? || c.CCopy?) && c.pass > 0
  }

  predicate Low(s: State) {
    s.head - s.tail < LowWater(s.cap)
  }

  ghost predicate LockInv(s: State) {
    && (s.lock == ByProducer <==> s.prod.WLocked? || s.prod.WChecked?)
    && (s.lock == ByConsumer <==> s.emulated && (s.cons.CWake? || s.cons.CUnlock?))
    && (!s.emulated ==> !s.prod.WLocked? && !s.prod.WChecked? && !s.cons.CLock? && !s.cons.CUnlock?)
  }

  /**
   While the flag of a committed producer is set, the ring is above the low
   watermark, or the consumer is about to take the flag, or a marker was skipped
   after the last record was released.
   */
  ghost predicate FlagInv(s: State) {
    && (Committed(s.prod) && s.flag && Low(s) ==>
          s.cons.CExchange? || SkippedInPop(s.cons) || s.shortAfterSkip)
    && ((s.prod.WChecked? || s.prod.WSleep?) && !s.flag ==> s.cons.CLock? || s.cons.CWake?)
    && (s.shortAfterSkip ==> s.tail < s.head)
  }

  ghost predicate FlowInv(s: State) {
    Inv(s) && LockInv(s) && FlagInv(s)
  }

  /** The cursors in order and the low watermark below the high one. */
  predicate Sane(s: State) {
    s.tail <= s.head && 0 < LowWater(s.cap) <= HighWater(s.cap)
  }

  lemma WaitFlow(s: State)
    requires s.cap > 0 && Sane(s) && LockInv(s) && FlagInv(s) && !s.prod.PLoad? && !s.prod.PWrite?
    ensures LockInv(WaitStep(s)) && FlagInv(WaitStep(s))
  {
  }

  lemma DecideFlow(s: State)
    requires s.cap > 0 && Sane(s) && LockInv(s) && FlagInv(s) && s.prod.PLoad?
    ensures LockInv(StepProducer(s)) && FlagInv(StepProducer(s))
  {
    assert StepProducer(s) == s.(prod := StepProducer(s).prod);
  }

  lemma WriteFlow(s: State)
    requires s.cap > 0 && Sane(s) && LockInv(s) && FlagInv(s) && s.prod.PWrite?
    ensures LockInv(StepProducer(s)) && FlagInv(StepProducer(s))
  {
  }

  lemma WakeFlow(s: State)
    requires LockInv(s) && FlagInv(s) && !s.cons.CLoad? && !s.cons.CLen? && !s.cons.CCopy?
    ensures LockInv(WakeStep(s)) && FlagInv(WakeStep(s))
  {
  }

  lemma LengthFlow(s: State)
    requires FlowInv(s) && s.cons.CLen? && |s.cons.got| == HDR
    ensures LockInv(UseLength(s)) && FlagInv(UseLength(s))
  {
    if Decode(s.cons.got) == 0 {
      SkipKeeps(s);
    }
  }

  lemma ReleaseFlow(s: State)
    requires FlowInv(s) && s.cons.CCopy? && |s.cons.got| == s.cons.len
    ensures LockInv(Release(s)) && FlagInv(Release(s))
  {
    ReleaseKeeps(s);
  }

  lemma ByteFlow(s: State, s': State)
    requires LockInv(s) && FlagInv(s) && s' == s.(cons := s'.cons)
    requires s.cons.CLoad? || s.cons.CLen? || s.cons.CCopy?
    requires (s'.cons.CIdle? && s.head == s.tail && !SkippedInPop(s.cons)) ||
             ((s'.cons.CLen? || s'.cons.CCopy?) && s'.cons.pass == s.cons.pass)
    ensures LockInv(s') && FlagInv(s')
  {
  }

  lemma ReadFlow(s: State)
    requires FlowInv(s) && (s.cons.CLoad? || s.cons.CLen? || s.cons.CCopy?)
    ensures LockInv(StepConsumer(s)) && FlagInv(StepConsumer(s))
  {
    if s.cons.CLen? && |s.cons.got| == HDR {
      LengthFlow(s);
    } else if s.cons.CCopy? && |s.cons.got| == s.cons.len {
      ReleaseFlow(s);
    } else {
      ByteFlow(s, StepConsumer(s));
    }
  }

  lemma ProducerFlow(s: State)
    requires FlowInv(s)
    ensures LockInv(StepProducer(s)) && FlagInv(StepProducer(s))
  {
    if s.prod.PLoad? {
      DecideFlow(s);
    } else if s.prod.PWrite? {
      WriteFlow(s);
    } else {
      WaitFlow(s);
    }
  }

  lemma ConsumerFlow(s: State)
    requires FlowInv(s)
    ensures LockInv(StepConsumer(s)) && FlagInv(StepConsumer(s))
  {
    if s.cons.CLoad? || s.cons.CLen? || s.cons.CCopy? {
      ReadFlow(s);
    } else {
      WakeFlow(s);
    }
  }

  lemma CallFlow(s: State, e: Event)
    requires LockInv(s) && FlagInv(s)
    ensures LockInv(Call(s, e)) && FlagInv(Call(s, e))
  {
  }

  lemma NextFlow(s: State, e: Event)
    requires FlowInv(s)
    ensures FlowInv(Next(s, e))
  {
    NextKeeps(s, e);
    match e
    case ProducerStep => ProducerFlow(s);
    case ConsumerStep => ConsumerFlow(s);
    case _ => CallFlow(s, e);
  }

  lemma {:induction false} RunFlow(s: State, events: seq<Event>)
    requires Initial(s)
    ensures FlowInv(Run(s, events))
  {
    if events == [] {
      InitialInv(s);
    } else {
      RunFlow(s, events[..|events| - 1]);
      NextFlow(Run(s, events[..|events| - 1]), events[|events| - 1]);
    }
  }

  /** A wake that will reach a sleeping producer has been decided on. */
  predicate WakeInFlight(s: State) {
    (s.cons.CExchange? && s.flag) || s.cons.CLock? || s.cons.CWake?
  }

  /**
   No lost wakeup: whenever the producer sleeps and no wake is in flight, the
   ring is not empty, and it holds at least the low watermark unless a marker
   was skipped since the last release, by the pop in progress or by one that
   failed for want of buffer space.
   */
  lemma NoLostWakeup(s: State, events: seq<Event>)
    requires Initial(s)
    ensures var r := Run(s, events);
            r.prod.WSleep? && !WakeInFlight(r) ==>
              && r.flag
              && r.tail < r.head
              && (Low(r) ==> SkippedInPop(r.cons) || r.shortAfterSkip)
  {
    RunFlow(s, events);
  }

  // ---- What the watermarks decide ----

  function Used(s: State): int { s.head - s.tail }

  /** Where a wait goes on when there is space: it returns, or its push is tried again. */
  function GoesOn(k: After): Producer {
    if k.Return? then PIdle else PLoad(k.b, Blocking)
  }

  /**
   A wait that finds less than 80 % of the ring in use goes on in one step and
   leaves no trace; one that finds more sets the flag and looks again; if it then
   finds less, it clears the flag and goes on, else it counts a park and enters
   the futex, where it sleeps iff the flag is still set.
   */
  lemma WaitDecides(s: State)
    requires s.cap > 0
    ensures var low, t := Used(s) < 80 * s.cap / 100, StepProducer(s);
            match s.prod
            case WLoad(k) => t == s.(prod := if low then GoesOn(k) else WArm(k))
            case WArm(k) => t == s.(prod := WRecheck(k), flag := true)
            case WRecheck(k) => t == s.(prod := if low then WDisarm(k) else WPark(k))
            case WDisarm(k) => t == s.(prod := GoesOn(k), flag := false)
            case WPark(k) => t == s.(prod := WEnter(k), parks := s.parks + 1)
            case WEnter(k) =>
              if s.emulated then t == (if s.lock == Free then s.(prod := WLocked(k), lock := ByProducer) else s)
              else t == s.(prod := if s.flag then WSleep(k) else WLoad(k))
            case WLocked(k) => t == if s.flag then s.(prod := WChecked(k)) else s.(prod := WLoad(k), lock := Free)
            case WChecked(k) => t == s.(prod := WSleep(k), lock := Free)
            case WSleep(_) => t == s
            case WWoken(k) => t == if s.lock == Free then s.(prod := WLoad(k)) else s
            case _ => true
  {
  }

  /** Only a wait that found at least 80 % in use, twice, parks; only one that found it once sets the flag. */
  lemma ParksOnlyWhenFull(s: State, e: Event)
    requires s.cap > 0
    ensures var t := Next(s, e);
            && (t.prod.WPark? && !s.prod.WPark? ==> s.prod.WRecheck? && Used(s) >= 80 * s.cap / 100)
            && (t.prod.WArm? && !s.prod.WArm? ==> s.prod.WLoad? && Used(s) >= 80 * s.cap / 100)
            && (t.flag && !s.flag ==> s.prod.WArm?)
            && (t.parks != s.parks ==> s.prod.WPark? && t.parks == s.parks + 1)
  {
    match e
    case ProducerStep => ProducerThresholds(s);
    case ConsumerStep => ConsumerThresholds(s);
    case _ =>
  }

  lemma ProducerThresholds(s: State)
    requires s.cap > 0
    ensures var t := StepProducer(s);
            && (t.prod.WPark? && !s.prod.WPark? ==> s.prod.WRecheck? && Used(s) >= 80 * s.cap / 100)
            && (t.prod.WArm? && !s.prod.WArm? ==> s.prod.WLoad? && Used(s) >= 80 * s.cap / 100)
            && (t.flag && !s.flag ==> s.prod.WArm?)
            && (t.parks != s.parks ==> s.prod.WPark? && t.parks == s.parks + 1)
            && t.cons == s.cons && (!t.flag && s.flag ==> s.prod.WDisarm?)
            && (s.prod.WSleep? ==> t.prod == s.prod)
  {
    if s.prod.PLoad? {
      assert StepProducer(s) == s.(prod := StepProducer(s).prod);
    } else if !s.prod.PWrite? {
      WaitDecides(s);
    }
  }

  lemma ConsumerThresholds(s: State)
    requires s.cap > 0
    ensures var t := StepConsumer(s);
            && (t.prod == s.prod || (s.cons.CWake? && s.prod.WSleep? && t.prod == WWoken(s.prod.k)))
            && t.parks == s.parks && (t.flag ==> s.flag)
            && (t.flag != s.flag ==> s.cons.CExchange?)
  {
  }

  /**
   A pop looks for a sleeping producer iff it leaves less than 20 % of the ring
   of what it saw in use; no other step of it clears the flag, and only one that
   found the flag set wakes.
   */
  lemma WakesOnlyWhenLow(s: State)
    requires s.cap > 0
    ensures var t := StepConsumer(s);
            && (t.cons.CExchange? && !s.cons.CExchange? ==>
                  s.cons.CCopy? && s.cons.headSeen - t.tail < 20 * s.cap / 100)
            && (s.cons.CCopy? && |s.cons.got| >= s.cons.len && s.cons.headSeen - t.tail < 20 * s.cap / 100 ==>
                  t.cons.CExchange?)
            && (t.cons.CLock? && !s.cons.CLock? ==> s.cons.CExchange? && s.flag && s.emulated)
            && (t.cons.CWake? && !s.cons.CWake? ==> s.cons.CLock? || (s.cons.CExchange? && s.flag && !s.emulated))
            && (t.flag != s.flag ==> s.cons.CExchange?)
            && (t.prod != s.prod ==> s.cons.CWake? && s.prod.WSleep?)
  {
    ConsumerThresholds(s);
    if s.cons.CCopy? {
      ReleaseThreshold(s);
    } else if s.cons.CLoad? || s.cons.CLen? {
      LookThreshold(s);
    }
  }

  lemma ReleaseThreshold(s: State)
    requires s.cap > 0 && s.cons.CCopy?
    ensures var t := StepConsumer(s);
            if |s.cons.got| < s.cons.len then !t.cons.CExchange? && !t.cons.CLock? && !t.cons.CWake?
            else t.cons == if s.cons.headSeen - t.tail < 20 * s.cap / 100 then CExchange else CIdle
  {
  }

  lemma LookThreshold(s: State)
    requires s.cap > 0 && (s.cons.CLoad? || s.cons.CLen?)
    ensures var t := StepConsumer(s); !t.cons.CExchange? && !t.cons.CLock? && !t.cons.CWake?
  {
  }

  /** The producer goes on waiting. */
  predicate StillWaits(p: Producer) {
    p.WLoad? || p.WArm? || p.WRecheck? || Committed(p) || p.WWoken?
  }

  /** Steps of the producer alone. */
  function Alone(n: nat): (events: seq<Event>)
    ensures |events| == n && forall i :: 0 <= i < n ==> events[i] == ProducerStep
  {
    seq(n, _ => ProducerStep)
  }

  lemma {:induction false} FullWaitStays(s: State, n: nat)
    requires s.cap > 0 && StillWaits(s.prod) && Used(s) >= 80 * s.cap / 100
    ensures var r := Run(s, Alone(n));
            StillWaits(r.prod) && r.head == s.head && r.tail == s.tail
  {
    if n > 0 {
      FullWaitStays(s, n - 1);
      assert Alone(n)[..n - 1] == Alone(n - 1);
      WaitDecides(Run(s, Alone(n - 1)));
    }
  }

  /**
   With no consumer about, a wait for space returns iff less than 80 % of the
   ring is in use, and then in its first step with nothing changed.
   */
  lemma WaitReturnsIff(s: State)
    requires s.cap > 0 && s.prod.PIdle?
    ensures (exists n :: Run(Next(s, WaitCall), Alone(n)).prod.PIdle?) <==> Used(s) < 80 * s.cap / 100
    ensures Used(s) < 80 * s.cap / 100 ==> Run(Next(s, WaitCall), Alone(1)) == s
  {
    var waiting := Next(s, WaitCall);
    assert waiting == s.(prod := WLoad(Return));
    if Used(s) < 80 * s.cap / 100 {
      WaitDecides(waiting);
      assert Alone(1)[..0] == [];
      assert Run(waiting, Alone(1)) == Next(waiting, ProducerStep);
    } else {
      forall n ensures !Run(waiting, Alone(n)).prod.PIdle? {
        FullWaitStays(waiting, n);
      }
    }
  }

  // ---- The backlog bound ----

  /** Every push is a blocking one, with a body of at most `m` bytes. */
  predicate OnlyBlocking(events: seq<Event>, m: nat) {
    forall i :: 0 <= i < |events| && events[i].PushCall? ==> events[i].kind == Blocking && |events[i].b| <= m
  }

  predicate SmallAfter(k: After, m: nat) {
    k.ThenPush? ==> |k.b| <= m
  }

  ghost predicate BacklogInv(s: State, m: nat) {
    && s.head - s.tail < HighWater(s.cap) + 2 * (m + HDR)
    && match s.prod
       case PIdle => true
       case PLoad(b, kind) => kind == Blocking && |b| <= m && s.head - s.tail < HighWater(s.cap)
       case PWrite(b, _, _, _) => |b| <= m && s.head - s.tail < HighWater(s.cap)
       case WDisarm(k) => SmallAfter(k, m) && s.head - s.tail < HighWater(s.cap)
       case _ => SmallAfter(s.prod.k, m)
  }

  lemma BacklogPush(s: State, m: nat)
    requires s.cap > 0 && BacklogInv(s, m) && (s.prod.PLoad? || s.prod.PWrite?)
    ensures BacklogInv(StepProducer(s), m)
  {
  }

  lemma BacklogWait(s: State, m: nat)
    requires s.cap > 0 && BacklogInv(s, m) && !s.prod.PLoad? && !s.prod.PWrite?
    ensures BacklogInv(WaitStep(s), m)
  {
  }

  lemma BacklogProducer(s: State, m: nat)
    requires s.cap > 0 && BacklogInv(s, m)
    ensures BacklogInv(StepProducer(s), m)
  {
    if s.prod.PLoad? || s.prod.PWrite? {
      BacklogPush(s, m);
    } else {
      BacklogWait(s, m);
    }
  }

  /** The consumer only moves the tail forward, and at most wakes the producer. */
  lemma ConsumerAdvances(s: State)
    requires Inv(s)
    ensures var s' := StepConsumer(s);
            && s'.cap == s.cap && s'.head == s.head && s.tail <= s'.tail <= s'.head
            && s'.prod == if s.cons.CWake? && s.prod.WSleep? then WWoken(s.prod.k) else s.prod
  {
    ConsumerKeeps(s);
  }

  lemma BacklogConsumer(s: State, m: nat)
    requires Inv(s) && BacklogInv(s, m)
    ensures BacklogInv(StepConsumer(s), m)
  {
    ConsumerAdvances(s);
  }

  /**
   When every push goes through the blocking call, the used bytes stay below
   the high watermark plus two of the largest records, whatever the consumer does.
   */
  lemma {:induction false} BacklogBound(s: State, events: seq<Event>, m: nat)
    requires Initial(s) && OnlyBlocking(events, m)
    ensures BacklogInv(Run(s, events), m)
    ensures var r := Run(s, events);
            r.head - r.tail < 80 * r.cap / 100 + 2 * (m + 4)
  {
    if events != [] {
      var n := |events| - 1;
      BacklogBound(s, events[..n], m);
      RunKeeps(s, events[..n]);
      var before := Run(s, events[..n]);
      match events[n]
      case ProducerStep => BacklogProducer(before, m);
      case ConsumerStep => BacklogConsumer(before, m);
      case _ =>
    }
  }
}
