/**
 How much a sleeping producer leaves in the ring: at least the low watermark
 for as long as pops offer large enough buffers, and less when they do not.
 */
module RingWakeup {
  import opened Bytes
  import opened Cursors
  import opened RingLayout
  import opened RingProtocol
  import opened RingSafety
  import opened RingFlow
  import opened RingRuns

  /**
   A sleeping producer with no wake in flight has its flag set and at least the
   low watermark in the ring, 20 % of it, up to a pop in progress that skipped a marker.
   */
  predicate KeepsLowWater(s: State) {
    s.prod.WSleep? && !WakeInFlight(s) ==>
      s.flag && s.tail < s.head && (s.head - s.tail < 20 * s.cap / 100 ==> SkippedInPop(s.cons))
  }

  // ---- Buffers that hold every record ----

  /** Every buffer offered to a pop has room for `m` bytes, and no body that a push accepts is longer. */
  predicate BuffersHold(events: seq<Event>, cap: nat, m: nat) {
    && Offers(events, m)
    && forall i :: 0 <= i < |events| ==>
         (events[i].PushCall? && |events[i].b| <= Limit(cap, events[i].kind) ==> |events[i].b| <= m)
  }

  predicate ProducerSmall(p: Producer, cap: nat, m: nat) {
    match p
    case PIdle => true
    case PLoad(b, kind) => |b| <= Limit(cap, kind) ==> |b| <= m
    case PWrite(b, _, _, _) => |b| <= m
    case _ => p.k.ThenPush? && |p.k.b| <= Limit(cap, Blocking) ==> |p.k.b| <= m
  }

  predicate ConsumerRoomy(c: Consumer, m: nat) {
    c.CLoad? || c.CLen? ==> c.max >= m
  }

  predicate AllSmall(bodies: seq<body>, m: nat) {
    forall i :: 0 <= i < |bodies| ==> |bodies[i]| <= m
  }

  ghost predicate RoomyInv(s: State, m: nat) {
    && ProducerSmall(s.prod, s.cap, m) && ConsumerRoomy(s.cons, m)
    && AllSmall(s.accepted, m) && !s.shortAfterSkip
  }

  lemma ProducerRoomy(s: State, m: nat)
    requires s.cap > 0 && RoomyInv(s, m)
    ensures RoomyInv(StepProducer(s), m)
  {
    if s.prod.PLoad? || s.prod.PWrite? {
      PushRoomy(s, m);
    } else {
      WaitRoomy(s, m);
    }
  }

  lemma PushRoomy(s: State, m: nat)
    requires s.cap > 0 && RoomyInv(s, m) && (s.prod.PLoad? || s.prod.PWrite?)
    ensures RoomyInv(StepProducer(s), m)
  {
  }

  lemma WaitRoomy(s: State, m: nat)
    requires s.cap > 0 && RoomyInv(s, m) && !s.prod.PLoad? && !s.prod.PWrite?
    ensures RoomyInv(WaitStep(s), m)
  {
  }

  lemma PopRoomy(s: State, m: nat)
    requires Inv(s) && RoomyInv(s, m) && (s.cons.CLoad? || s.cons.CLen? || s.cons.CCopy?)
    ensures RoomyInv(StepConsumer(s), m)
  {
    if s.cons.CLen? && |s.cons.got| == HDR && Decode(s.cons.got) != 0 {
      UseLengthKeeps(s);
    }
  }

  lemma ConsumerStepRoomy(s: State, m: nat)
    requires Inv(s) && RoomyInv(s, m)
    ensures RoomyInv(StepConsumer(s), m)
  {
    if s.cons.CLoad? || s.cons.CLen? || s.cons.CCopy? {
      PopRoomy(s, m);
    } else {
      assert StepConsumer(s) == WakeStep(s);
    }
  }

  lemma CallRoomy(s: State, e: Event, m: nat)
    requires RoomyInv(s, m) && BuffersHold([e], s.cap, m)
    ensures RoomyInv(Call(s, e), m)
  {
    assert [e][0] == e;
  }

  lemma {:induction false} RoomyRun(s: State, events: seq<Event>, m: nat)
    requires Initial(s) && BuffersHold(events, s.cap, m)
    ensures RoomyInv(Run(s, events), m)
  {
    if events != [] {
      var n := |events| - 1;
      RoomyRun(s, events[..n], m);
      RunKeeps(s, events[..n]);
      var before := Run(s, events[..n]);
      match events[n]
      case ProducerStep => ProducerRoomy(before, m);
      case ConsumerStep => ConsumerStepRoomy(before, m);
      case _ => CallRoomy(before, events[n], m);
    }
  }

  /**
   While every pop has room for every record, a sleeping producer with no wake
   in flight leaves at least the low watermark in the ring, up to a pop in
   progress that has just skipped a marker.
   */
  lemma NoLostWakeupRoomy(s: State, events: seq<Event>, m: nat)
    requires Initial(s) && BuffersHold(events, s.cap, m)
    ensures KeepsLowWater(Run(s, events))
  {
    NoLostWakeup(s, events);
    RoomyRun(s, events, m);
  }

  // ---- Buffers of any size ----

  /** What a pop that failed behind a marker left: a front record of more than `m` bytes, with no marker before it. */
  ghost predicate LeftLong(s: State, m: nat)
    requires s.cap > 0
  {
    Unread(s) != [] && !Wraps(s.cap, s.tail, Need(Unread(s)[0])) && |Unread(s)[0]| > m
  }

  ghost predicate ShortInv(s: State, m: nat)
    requires s.cap > 0
  {
    ConsumerRoomy(s.cons, m) && (s.shortAfterSkip ==> LeftLong(s, m))
  }

  lemma ProducerShort(s: State, m: nat)
    requires Inv(s) && ShortInv(s, m)
    ensures ShortInv(StepProducer(s), m)
  {
    ProducerQueueStep(s);
    ProducerLocal(s);
  }

  /** The producer touches neither the tail nor the consumer's own state. */
  lemma ProducerLocal(s: State)
    requires s.cap > 0
    ensures var s' := StepProducer(s);
            && s'.cons == s.cons && s'.tail == s.tail && s'.delivered == s.delivered
            && s'.shortAfterSkip == s.shortAfterSkip
  {
  }

  /** A length of zero is not read in front of a record without a marker. */
  lemma NoMarker(s: State)
    requires Inv(s) && s.cons.CLen? && |s.cons.got| == HDR && Decode(s.cons.got) == 0
    ensures Unread(s) != [] && Wraps(s.cap, s.tail, Need(Unread(s)[0]))
  {
    FrontOfView(s, s.cons.headSeen, s.cons.seen);
    assert s.cons.got == LengthField(s.cap, s.tail, Unread(s)[0]);
  }

  lemma LengthShort(s: State, m: nat)
    requires Inv(s) && ShortInv(s, m) && s.cons.CLen? && |s.cons.got| == HDR
    ensures ShortInv(UseLength(s), m)
  {
    if Decode(s.cons.got) == 0 {
      NoMarker(s);
    } else {
      FrontLength(s);
      assert Unread(UseLength(s)) == Unread(s);
    }
  }

  lemma ConsumerShort(s: State, m: nat)
    requires Inv(s) && ShortInv(s, m)
    ensures ShortInv(StepConsumer(s), m)
  {
    if s.cons.CLen? && |s.cons.got| == HDR {
      LengthShort(s, m);
    } else if s.cons.CCopy? && |s.cons.got| == s.cons.len {
      ReleaseKeeps(s);
    } else {
      OtherShort(s, m);
    }
  }

  lemma OtherShort(s: State, m: nat)
    requires Inv(s) && ShortInv(s, m)
    requires s.cons.CLen? ==> |s.cons.got| < HDR
    requires s.cons.CCopy? ==> |s.cons.got| < s.cons.len
    ensures ShortInv(StepConsumer(s), m)
  {
    OtherLocal(s);
  }

  /** Such a step moves neither the tail nor the unread records. */
  lemma OtherLocal(s: State)
    requires s.cap > 0
    requires s.cons.CLen? ==> |s.cons.got| < HDR
    requires s.cons.CCopy? ==> |s.cons.got| < s.cons.len
    ensures var s' := StepConsumer(s);
            && s'.cap == s.cap && s'.tail == s.tail && Unread(s') == Unread(s)
            && s'.shortAfterSkip == s.shortAfterSkip
            && (s'.cons.CLoad? || s'.cons.CLen? ==> s.cons.CLoad? || s.cons.CLen?)
            && (s'.cons.CLoad? || s'.cons.CLen? ==> s'.cons.max == s.cons.max)
  {
  }

  lemma CallShort(s: State, e: Event, m: nat)
    requires s.cap > 0 && ShortInv(s, m) && (e.PopCall? ==> e.max >= m)
    ensures ShortInv(Call(s, e), m)
  {
    assert Unread(Call(s, e)) == Unread(s);
  }

  lemma NextShort(s: State, e: Event, m: nat)
    requires Inv(s) && ShortInv(s, m) && (e.PopCall? ==> e.max >= m)
    ensures ShortInv(Next(s, e), m)
  {
    match e
    case ProducerStep => ProducerShort(s, m);
    case ConsumerStep => ConsumerShort(s, m);
    case _ => CallShort(s, e, m);
  }

  lemma {:induction false} ShortRunKeeps(s: State, events: seq<Event>, m: nat)
    requires Initial(s) && Offers(events, m)
    ensures ShortInv(Run(s, events), m)
  {
    if events != [] {
      var n := |events| - 1;
      ShortRunKeeps(s, events[..n], m);
      RunKeeps(s, events[..n]);
      NextShort(Run(s, events[..n]), events[n], m);
    }
  }

  /** A record too long for such a buffer is itself as much as the low watermark. */
  lemma LongEnough(s: State, m: nat)
    requires Inv(s) && LeftLong(s, m) && m + HDR + 1 >= LowWater(s.cap)
    ensures !Low(s)
  {
    ChainTake(s.data, s.cap, s.tail, s.head, Unread(s), s.tail + Need(Unread(s)[0]), Unread(s)[1..]);
  }

  lemma KeptByBuffers(s: State, events: seq<Event>, m: nat)
    requires Initial(s) && Offers(events, m) && m + HDR + 1 >= LowWater(s.cap)
    ensures KeepsLowWater(Run(s, events))
  {
    NoLostWakeup(s, events);
    ShortRunKeeps(s, events, m);
    RunKeeps(s, events);
    var r := Run(s, events);
    if r.shortAfterSkip {
      LongEnough(r, m);
    }
  }

  // ---- Smaller buffers ----

  /** A record as long as the low watermark less one byte. */
  function JustBelow(cap: nat): (b: body)
    requires LowWater(cap) > HDR + 1
    ensures Need(b) == LowWater(cap) - 1
  {
    Body(LowWater(cap) - 1 - HDR)
  }

  /** A record that fills the ring from there up to its last byte. */
  function UpToLast(cap: nat): (b: body)
    requires cap - LowWater(cap) > HDR
    ensures Need(b) == cap - LowWater(cap)
  {
    Body(cap - LowWater(cap) - HDR)
  }

  lemma WhereTheyLie(cap: nat)
    requires Capacity(cap)
    ensures var low := LowWater(cap);
            && 5 < low && !Wraps(cap, 0, low - 1)
            && !Wraps(cap, low - 1, cap - low) && Fits(cap, low - 1, low - 1, cap - low)
            && Wraps(cap, cap - 1, low - 1) && Fits(cap, cap - 1, low - 1, low - 1)
            && LapEnd(cap, cap - 1) == cap && NewHead(cap, cap - 1, low - 1) == cap + low - 1
  {
  }

  /**
   A full ring: its cursors moved to the low watermark less one, one record from
   there up to the last byte, and behind the marker in that byte a second one.
   */
  lemma FullRing(s: State) returns (events: seq<Event>)
    requires Initial(s)
    ensures Offers(events, s.cap)
    ensures var r := Run(s, events);
            && Inv(r) && r.lock == Free && r.prod.PIdle? && r.cons.CIdle?
            && LowWater(s.cap) > HDR + 1 && Unread(r) == [UpToLast(s.cap), JustBelow(s.cap)]
            && r.tail == LowWater(s.cap) - 1 && r.head == s.cap + r.tail
  {
    InitialInv(s);
    WhereTheyLie(s.cap);
    var move := PushPopRun(s, JustBelow(s.cap), s.cap);
    var fill := PushTwoRun(Run(s, move), UpToLast(s.cap), JustBelow(s.cap));
    RunConcat(s, move, fill);
    events := move + fill;
  }

  /**
   The exception is real whenever pops may offer less: the producer sleeps, no
   wake is on its way, and less than the low watermark is in the ring, because a
   pop with too small a buffer skipped the marker that stood for the rest.
   */
  lemma SleepsBelowLowWater(s: State, m: nat) returns (events: seq<Event>)
    requires Initial(s) && m + HDR + 1 < LowWater(s.cap)
    ensures Offers(events, m)
    ensures var r := Run(s, events);
            r.prod.WSleep? && !WakeInFlight(r) && Low(r) && r.cons.CIdle? && r.shortAfterSkip
  {
    var fill := FullRing(s);
    var full := Run(s, fill);
    WhereTheyLie(s.cap);
    var sleep := SleepRun(full);
    var asleep := Run(full, sleep);
    InvRun(full, sleep);
    assert Unread(asleep) == Unread(full);
    var pop := PopRun(asleep, s.cap);
    var popped := Run(asleep, pop);
    InvRun(asleep, pop);
    assert popped.tail == s.cap - 1 && popped.cons.CIdle?;
    assert Unread(popped) == [JustBelow(s.cap)];
    var short := ShortPopRun(popped, m);
    RunConcat(asleep, pop, short);
    RunConcat(full, sleep, pop + short);
    RunConcat(s, fill, sleep + (pop + short));
    events := fill + (sleep + (pop + short));
  }

  /**
   For records of any size, the guarantee holds in every run whose pops offer at
   least `m` bytes iff a record longer than that takes the low watermark by itself.
   */
  lemma LowWaterKeptIff(s: State, m: nat)
    requires Initial(s)
    ensures (forall events :: Offers(events, m) ==> KeepsLowWater(Run(s, events))) <==>
              m + 5 >= 20 * s.cap / 100
  {
    if m + HDR + 1 >= LowWater(s.cap) {
      forall events | Offers(events, m) ensures KeepsLowWater(Run(s, events)) {
        KeptByBuffers(s, events, m);
      }
    } else {
      var events := NotKept(s, m);
    }
  }

  lemma NotKept(s: State, m: nat) returns (events: seq<Event>)
    requires Initial(s) && m + HDR + 1 < LowWater(s.cap)
    ensures Offers(events, m) && !KeepsLowWater(Run(s, events))
  {
    events := SleepsBelowLowWater(s, m);
  }
}
