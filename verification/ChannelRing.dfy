/**
 Why Channel may treat the ring as a queue: every memory access of the byte-level
 ring leaves Channel's object alone or performs one of its two operations, and
 pushes and pops are answered alike.
 */
module ChannelRing {
  import opened Bytes
  import opened Codes
  import opened RingLayout
  import opened Wire
  import Channel
  import Router
  import Cursors
  import Ring = RingProtocol
  import Flow = RingFlow
  import Safety = RingSafety
  import Wakeup = RingWakeup
  import Progress = RingProgress

  /** The payload in the body of a record, behind its tag. */
  function PayloadOf(b: body): payload {
    if b == [] then [] else b[1..]
  }

  function Payloads(bodies: seq<body>): (r: seq<payload>)
    ensures |r| == |bodies|
  {
    if bodies == [] then [] else [PayloadOf(bodies[0])] + Payloads(bodies[1..])
  }

  lemma {:induction false} PayloadsAppend(bodies: seq<body>, b: body)
    ensures Payloads(bodies + [b]) == Payloads(bodies) + [PayloadOf(b)]
  {
    if bodies == [] {
      assert [] + [b] == [b];
    } else {
      PayloadsAppend(bodies[1..], b);
      assert (bodies + [b])[1..] == bodies[1..] + [b];
    }
  }

  lemma PayloadOfRecord(p: payload)
    ensures PayloadOf(Record(p)) == p && |Record(p)| == |p| + 1
  {
  }

  /** Channel's view of the ring. */
  function Segment(s: Ring.State): Channel.Segment {
    Channel.Segment(|s.accepted|, |s.delivered|, Payloads(Safety.Unread(s)))
  }

  /** Every single memory access leaves Channel's object alone, appends one payload, or takes the front one. */
  lemma StepIsRingOperation(s: Ring.State, e: Ring.Event)
    requires Safety.Inv(s)
    ensures var o, o' := Segment(s), Segment(Ring.Next(s, e));
            || o' == o
            || (s.prod.PWrite? && o' == o.Append(PayloadOf(s.prod.b)))
            || (o.queue != [] && o' == o.Take())
  {
    var s' := Ring.Next(s, e);
    Safety.NextKeeps(s, e);
    Safety.StepIsQueueStep(s, e);
    if s'.accepted == s.accepted + [if s.prod.PWrite? then s.prod.b else []] {
      PayloadsAppend(Safety.Unread(s), if s.prod.PWrite? then s.prod.b else []);
      PublishedByPush(s, e);
    }
  }

  lemma PublishedByPush(s: Ring.State, e: Ring.Event)
    requires s.cap > 0 && Ring.Next(s, e).accepted != s.accepted
    ensures e == Ring.ProducerStep && s.prod.PWrite? && s.prod.done >= |Stores(s.cap, s.head, s.prod.b)|
    ensures Ring.Next(s, e) == Ring.Publish(s)
  {
  }

  // ---- Whole runs ----

  datatype Operation = Pushed(p: payload) | Popped

  /** A new object after some operations, if each of them was possible. */
  function Performed(ops: seq<Operation>): Channel.Segment {
    if ops == [] then Channel.EMPTY
    else
      var before := Performed(ops[..|ops| - 1]);
      match ops[|ops| - 1]
      case Pushed(p) => before.Append(p)
      case Popped => if before.queue != [] then before.Take() else before
  }

  /** Every run of the ring is a sequence of operations on Channel's object. */
  lemma {:induction false} RunIsOperations(s: Ring.State, events: seq<Ring.Event>) returns (ops: seq<Operation>)
    requires Ring.Initial(s)
    ensures Performed(ops) == Segment(Ring.Run(s, events))
  {
    if events == [] { return []; }
    var n := |events| - 1;
    ops := RunIsOperations(s, events[..n]);
    Safety.RunKeeps(s, events[..n]);
    var r := Ring.Run(s, events[..n]);
    StepIsRingOperation(r, events[n]);
    var o, o' := Segment(r), Segment(Ring.Next(r, events[n]));
    if o.queue != [] && o' == o.Take() {
      PerformedAppend(ops, Popped);
      ops := ops + [Popped];
    } else if o' != o {
      PerformedAppend(ops, Pushed(PayloadOf(r.prod.b)));
      ops := ops + [Pushed(PayloadOf(r.prod.b))];
    }
  }

  lemma PerformedAppend(ops: seq<Operation>, op: Operation)
    ensures var before := Performed(ops);
            Performed(ops + [op]) ==
            match op
            case Pushed(p) => before.Append(p)
            case Popped => if before.queue != [] then before.Take() else before
  {
    assert (ops + [op])[..|ops|] == ops;
  }

  // ---- Pushes ----

  /** What the loaded cursors decide about a push. */
  function Answer(s: Ring.State, b: body, kind: Ring.Kind): Code
    requires s.cap > 0
  {
    if b == [] && kind == Ring.Contiguous then EINVAL
    else if b == [] || |b| > Ring.Limit(s.cap, kind) then EMSGSIZE
    else if Fits(s.cap, s.head, s.tail, Need(b)) then OK
    else EAGAIN
  }

  /** The ring is the one the endpoints are configured for, and holds what Channel's object says. */
  predicate InStep(s: Ring.State, c: Channel.State) {
    && s.cap == Cursors.Rounded(c.sender.shmCapacity)
    && Segment(s) == Channel.Object(c.objects, c.name)
  }

  /** A call that adapt_send makes for a payload; the blocking one only if it may block. */
  predicate Pushes(s: Ring.State, c: Channel.State) {
    && c.prod.PPush? && c.prod.p != [] && s.prod.PLoad? && s.prod.b == Record(c.prod.p)
    && (s.prod.kind == Ring.Scatter || (s.prod.kind == Ring.Blocking && c.blocking))
  }

  /**
   The ring's decision is the one Channel makes of its answer: a record too long
   or without room ends the send, one that may wait goes on, and any other is written.
   */
  lemma PushAnswered(s: Ring.State, c: Channel.State)
    requires s.cap > 0 && InStep(s, c) && Pushes(s, c)
    ensures var rc, s' := Answer(s, s.prod.b, s.prod.kind), Ring.StepProducer(s);
            var c' := Channel.PushRing(c, rc);
            && (rc == OK <==> s'.prod.PWrite?)
            && (rc == EMSGSIZE <==> |c.prod.p| + 1 > s.cap - 8)
            && (rc == EMSGSIZE || (rc == EAGAIN && s.prod.kind == Ring.Scatter) <==> s'.prod.PIdle?)
            && (rc == EMSGSIZE || (rc == EAGAIN && !c.blocking) ==>
                  c'.prod.PIdle? && c'.h == c.h.(returned := c.h.returned + [Channel.Return(c.prod.p, rc)])
                  && c'.objects == c.objects)
            && (rc == EAGAIN && c.blocking ==> c' == c)
            && (rc == EAGAIN && s.prod.kind == Ring.Blocking ==> s'.prod == Ring.WLoad(Ring.ThenPush(s.prod.b)))
  {
    PayloadOfRecord(c.prod.p);
  }

  lemma SegmentPublished(s: Ring.State)
    requires Safety.Inv(s) && Ring.Next(s, Ring.ProducerStep).accepted != s.accepted
    ensures s.prod.PWrite? && Safety.Inv(Ring.Next(s, Ring.ProducerStep))
    ensures Segment(Ring.Next(s, Ring.ProducerStep)) == Segment(s).Append(PayloadOf(s.prod.b))
  {
    var s' := Ring.Next(s, Ring.ProducerStep);
    PublishedByPush(s, Ring.ProducerStep);
    Safety.NextKeeps(s, Ring.ProducerStep);
    assert Safety.Unread(s') == Safety.Unread(s) + [s.prod.b];
    PayloadsAppend(Safety.Unread(s), s.prod.b);
  }

  /** The access that publishes the record is Channel's push. */
  lemma PublishIsPush(s: Ring.State, c: Channel.State)
    requires Safety.Inv(s) && InStep(s, c) && c.prod.PPush? && s.prod.PWrite? && s.prod.b == Record(c.prod.p)
    requires Ring.Next(s, Ring.ProducerStep).accepted != s.accepted
    requires |c.prod.p| + 1 <= s.cap - 8
    ensures InStep(Ring.Next(s, Ring.ProducerStep), Channel.PushRing(c, OK))
  {
    SegmentPublished(s);
    PayloadOfRecord(c.prod.p);
    var t := c.(sender := Router.AfterPush(c.sender, OK));
    assert Channel.PushRing(c, OK) == Channel.Published(t, c.prod.p);
  }

  // ---- Pops ----

  /** The receiver polls the ring it has mapped with its scratch buffer, for the object in the ring. */
  predicate Polls(c: Channel.State) {
    c.cons.CPoll? && c.ring.Mapped? && c.ring.name == c.name
  }

  /** An empty ring is one that Channel's poll finds empty. */
  lemma EmptyIsEmpty(s: Ring.State, c: Channel.State)
    requires Safety.Inv(s) && InStep(s, c) && Polls(c) && s.cons.CLoad?
    ensures var s' := Ring.Next(s, Ring.ConsumerStep);
            s'.cons.CIdle? <==> Channel.PollRing(c) == c.(cons := Channel.CSocket(c.cons.max))
  {
    ChainOrder(s.data, s.cap, s.tail, s.head, Safety.Unread(s));
  }

  /** A record too long for the scratch buffer is too long for Channel's poll, and stays. */
  lemma ShortIsShort(s: Ring.State, c: Channel.State)
    requires Safety.Inv(s) && InStep(s, c) && Polls(c) && s.cons.CLen? && |s.cons.got| == HDR && s.cons.max == c.rxCap
    requires Decode(s.cons.got) != 0 && Safety.Unread(s)[0] != []
    ensures var s' := Ring.Next(s, Ring.ConsumerStep);
            s'.cons.CIdle? <==> Channel.PollRing(c) == c.(cons := Channel.CIdle)
  {
    Safety.UseLengthKeeps(s);
    var b := Safety.Unread(s)[0];
    assert Segment(s).queue[0] == PayloadOf(b);
    assert |Record(PayloadOf(b))| == |b|;
  }

  /** The access that releases the record is Channel's poll, and delivers the same payload. */
  lemma ReleaseIsPop(s: Ring.State, c: Channel.State)
    requires Safety.Inv(s) && InStep(s, c) && Polls(c) && s.cons.CCopy? && |s.cons.got| == s.cons.len <= c.rxCap
    ensures var c' := Channel.PollRing(c);
            && InStep(Ring.Next(s, Ring.ConsumerStep), c')
            && c'.h.takenShm == c.h.takenShm + [PayloadOf(s.cons.got)]
  {
    var s' := Ring.Next(s, Ring.ConsumerStep);
    assert s' == Ring.Release(s);
    Safety.ReleaseKeeps(s);
    var b := Safety.Unread(s)[0];
    Safety.FrontOfView(s, s.cons.headSeen, s.cons.seen);
    assert s.cons.got == b && Segment(s).queue[0] == PayloadOf(b);
    assert Record(PayloadOf(b))[1..] == PayloadOf(b) && |Record(PayloadOf(b))| == |b|;
  }

  // ---- The endpoints' buffers rule out the exception in the wakeup guarantee ----

  /** The calls that the endpoints make of the ring: records of payloads the router admits, and the scratch buffer. */
  predicate EndpointCalls(events: seq<Ring.Event>, capacity: nat, rxCap: nat) {
    forall i :: 0 <= i < |events| ==>
      && (events[i].PopCall? ==> events[i].max == rxCap)
      && (events[i].PushCall? ==>
            events[i].kind != Ring.Contiguous && 2 <= |events[i].b| <= capacity)
  }

  /** The scratch buffer holds every record that such calls push. */
  lemma EndpointBuffers(alpha: real, capacity: nat, blocking: bool, endpoints: seq<Channel.Event>,
                        cap: nat, events: seq<Ring.Event>)
    requires capacity < 0x1_0000_0000 && cap == Cursors.Rounded(capacity)
    requires var c := Channel.Run(Channel.Start(alpha, capacity, blocking), endpoints);
             c.sender.mapped && EndpointCalls(events, capacity, c.rxCap)
    ensures var c := Channel.Run(Channel.Start(alpha, capacity, blocking), endpoints);
            Wakeup.BuffersHold(events, cap, c.rxCap)
  {
    var c := Channel.Run(Channel.Start(alpha, capacity, blocking), endpoints);
    Channel.ScratchSuffices(alpha, capacity, blocking, endpoints);
    forall i | 0 <= i < |events| && events[i].PushCall? && |events[i].b| <= Ring.Limit(cap, events[i].kind)
      ensures |events[i].b| <= c.rxCap
    {
      assert Channel.Admissible(|events[i].b| - 1, capacity);
    }
  }

  /**
   Between endpoints that set the ring up for a capacity below 2^32, a sleeping
   producer with no wake in flight leaves at least the low watermark in it, up
   to a pop in progress that has just skipped a marker.
   */
  lemma EndpointsKeepLowWater(alpha: real, capacity: nat, blocking: bool, endpoints: seq<Channel.Event>,
                              s: Ring.State, events: seq<Ring.Event>)
    requires capacity < 0x1_0000_0000 && Ring.Initial(s) && s.cap == Cursors.Rounded(capacity)
    requires var c := Channel.Run(Channel.Start(alpha, capacity, blocking), endpoints);
             c.sender.mapped && EndpointCalls(events, capacity, c.rxCap)
    ensures Wakeup.KeepsLowWater(Ring.Run(s, events))
  {
    EndpointBuffers(alpha, capacity, blocking, endpoints, s.cap, events);
    Wakeup.NoLostWakeupRoomy(s, events, Channel.Run(Channel.Start(alpha, capacity, blocking), endpoints).rxCap);
  }

  /**
   Between such endpoints, whatever the capacity rounds to, a blocking push with
   room is published once the receiver has had as many turns as there is work and
   the sender then |b| + 28 steps; without room it goes on for ever.
   */
  lemma EndpointsComplete(alpha: real, capacity: nat, blocking: bool, endpoints: seq<Channel.Event>,
                          s: Ring.State, events: seq<Ring.Event>, b: body,
                          first: seq<Ring.Event>, rest: seq<Ring.Event>)
    requires capacity < 0x1_0000_0000 && Ring.Initial(s) && s.cap == Cursors.Rounded(capacity)
    requires var c := Channel.Run(Channel.Start(alpha, capacity, blocking), endpoints);
             && c.sender.mapped && EndpointCalls(events, capacity, c.rxCap) && EndpointCalls(first, capacity, c.rxCap)
             && Progress.Turns(Ring.Run(s, events), first) > Progress.Work(Ring.Run(s, events), c.rxCap)
             && Progress.ProducerSteps(rest) >= |b| + 28
    requires Progress.Pushing(Ring.Run(s, events), b) && !Ring.Run(s, events).prod.PWrite?
    ensures var r := Ring.Run(s, events);
            if Need(b) <= Progress.LargerPart(r.cap, r.head)
            then r.accepted + [b] <= Ring.Run(r, first + rest).accepted
            else Ring.Run(r, first + rest).accepted == r.accepted && Progress.Pushing(Ring.Run(r, first + rest), b)
  {
    var r, m := Ring.Run(s, events), Channel.Run(Channel.Start(alpha, capacity, blocking), endpoints).rxCap;
    EndpointBuffers(alpha, capacity, blocking, endpoints, s.cap, events);
    Wakeup.RoomyRun(s, events, m);
    Flow.RunFlow(s, events);
    Progress.BlockingPushIff(r, b);
    if Progress.Room(r, b) {
      Progress.BlockingPushCompletes(r, b, first, rest, m);
    } else {
      Progress.StuckForEver(r, b, first + rest);
    }
  }
}
