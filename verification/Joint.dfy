/**
 The two endpoints over the byte-level ring: Channel's system calls and the
 ring's memory accesses, in any interleaving. A send that pushes and a receive
 that polls run the ring's own steps, so what a push returns and what a poll
 finds is the ring's doing and no input.
 */
module Joint {
  import opened Bytes
  import opened Codes
  import opened RingLayout
  import opened Wire
  import opened ChannelRing
  import Channel
  import Router
  import opened CostModel
  import Cursors
  import Ring = RingProtocol
  import Flow = RingFlow
  import Safety = RingSafety
  import Progress = RingProgress
  import Wakeup = RingWakeup
  import Runs = RingRuns

  datatype State = State(c: Channel.State, r: Ring.State)

  datatype Event =
    | Endpoint(e: Channel.Event)     // a call of the application or a system call
    | SendAccess(unthrottled: bool)  // the next access of a push, which may be called without throttling first
    | RecvAccess
    | SpuriousWake

  /** The producer maps the ring, which zeroes the header. */
  predicate MapsRing(c: Channel.State, e: Channel.Event) {
    && e.AckPoll? && e.mapping == OK
    && c.prod.PWait? && c.toProducer != [] && Acknowledges(DatagramOf(c.toProducer[0]))
  }

  function HeaderZeroed(r: Ring.State): Ring.State {
    r.(head := 0, tail := 0, parks := 0, flag := false)
  }

  /** Events of Channel that touch the ring's records are replaced by the ring's own steps. */
  predicate OffTheRing(e: Channel.Event) { !e.Push? && !e.RingPoll? }

  /** Anything but the ring's records; a receive is called only when the last pop has returned. */
  function EndpointStep(j: State, e: Channel.Event): State {
    if !OffTheRing(e) || (e.Recv? && !j.r.cons.CIdle?) then j
    else State(Channel.Next(j.c, e), if MapsRing(j.c, e) then HeaderZeroed(j.r) else j.r)
  }

  /** The code with which a push that ends in this state returns. */
  function Returned(r: Ring.State): Code
    requires r.cap > 0
  {
    if r.prod.PLoad? then Answer(r, r.prod.b, r.prod.kind) else OK
  }

  /** The sender after the next step of its push: when that returns, the send goes on with its code. */
  function Pushed(r: Ring.State, c: Channel.State): Channel.State
    requires r.cap > 0
  {
    if Ring.StepProducer(r).prod.PIdle? then Channel.PushRing(c, Returned(r)) else c
  }

  /** A send calls push, or that takes its next step. */
  function SendStep(j: State, unthrottled: bool): State
    requires j.r.cap > 0
  {
    if !j.r.prod.PIdle? then State(Pushed(j.r, j.c), Ring.StepProducer(j.r))
    else if j.c.prod.PPush? then
      var kind := if j.c.blocking && !unthrottled then Ring.Blocking else Ring.Scatter;
      j.(r := Ring.Call(j.r, Ring.PushCall(Record(j.c.prod.p), kind)))
    else j
  }

  /** The consumer is looking for a record. */
  predicate Looking(c: Ring.Consumer) { c.CLoad? || c.CLen? || c.CCopy? }

  /** The receiver after the next step of its pop: when that has found a record or none, the receive goes on. */
  function Polled(r: Ring.State, c: Channel.State): Channel.State
    requires r.cap > 0
  {
    if Looking(r.cons) && !Looking(Ring.StepConsumer(r).cons) then Channel.PollRing(c) else c
  }

  /** A receive polls the ring if it has one: it calls pop with its scratch buffer, or that takes its next step. */
  function RecvStep(j: State): State
    requires j.r.cap > 0
  {
    if !j.r.cons.CIdle? then State(Polled(j.r, j.c), Ring.StepConsumer(j.r))
    else if j.c.cons.CPoll? && j.c.ring.Mapped? then j.(r := Ring.Call(j.r, Ring.PopCall(j.c.rxCap)))
    else j.(c := Channel.PollRing(j.c))
  }

  function Next(j: State, e: Event): (t: State)
    requires j.r.cap > 0
    ensures t.r.cap == j.r.cap
  {
    match e
    case Endpoint(ce) => EndpointStep(j, ce)
    case SendAccess(unthrottled) => SendStep(j, unthrottled)
    case RecvAccess => RecvStep(j)
    case SpuriousWake => j.(r := Ring.Call(j.r, Ring.SpuriousWake))
  }

  function Run(j: State, events: seq<Event>): (t: State)
    requires j.r.cap > 0
    ensures t.r.cap == j.r.cap
  {
    if events == [] then j
    else Next(Run(j, events[..|events| - 1]), events[|events| - 1])
  }

  /** Two endpoints just initialised, and a ring of the configured capacity that nobody has used. */
  ghost predicate Initial(j: State, alpha: real, capacity: nat, blocking: bool) {
    && j.c == Channel.Start(alpha, capacity, blocking)
    && Ring.Initial(j.r) && j.r.cap == Cursors.Rounded(capacity)
  }

  // ---- The invariant ----

  /** A push in progress is that of the payload being sent. */
  predicate PushLink(r: Ring.Producer, cap: nat, c: Channel.Producer, blocking: bool) {
    r.PIdle? ||
    (&& c.PPush? && Progress.Job(r) == [Record(c.p)]
     && match r
        case PLoad(_, kind) => kind == Ring.Scatter || (kind == Ring.Blocking && blocking)
        case PWrite(b, _, _, _) => |b| + 2 * HDR <= cap
        case _ => blocking)
  }

  /** A pop in progress is that of the receive call's poll, with its scratch buffer. */
  predicate PopLink(r: Ring.Consumer, c: Channel.Consumer, ring: Channel.Mapping, rxCap: nat) {
    Looking(r) ==> c.CPoll? && ring.Mapped? && (if r.CCopy? then r.len <= rxCap else r.max == rxCap)
  }

  /** Until the producer maps the ring, its header is as the zeroing leaves it. */
  predicate Untouched(r: Ring.State) {
    r.head == r.tail == 0 && r.parks == 0 && !r.flag
  }

  ghost predicate Tagged(bodies: seq<body>) {
    forall i :: 0 <= i < |bodies| ==> bodies[i] == Record(PayloadOf(bodies[i]))
  }

  /** What the ring has accepted and delivered is what Channel's history says. */
  ghost predicate SameHistory(r: Ring.State, h: Channel.History) {
    && Payloads(r.accepted) == h.sentShm && Tagged(r.accepted)
    && Payloads(r.delivered) == h.takenShm
  }

  /** The ring is what Channel's state says it is, and its users are the endpoints. */
  ghost predicate Linked(r: Ring.State, c: Channel.State) {
    && InStep(r, c) && SameHistory(r, c.h)
    && PushLink(r.prod, r.cap, c.prod, c.blocking) && PopLink(r.cons, c.cons, c.ring, c.rxCap)
    && (!c.sender.mapped ==> Untouched(r))
  }

  ghost predicate Inv(j: State) {
    Channel.Inv(j.c) && Safety.Inv(j.r) && Linked(j.r, j.c)
  }

  /** What a push and a poll need to know of the endpoints. */
  predicate Ready(c: Channel.State) {
    && (c.prod.PPush? ==> c.prod.p != [] && c.sender.mapped)
    && (c.ring.Mapped? ==> c.ring.name == c.name)
  }

  lemma ChannelReady(c: Channel.State)
    requires Channel.Inv(c)
    ensures Ready(c)
  {
  }

  // ---- Steps off the ring ----

  /** Such a step leaves the object, what was sent and taken through it, and the ring's users alone. */
  predicate OffRing(c: Channel.State, t: Channel.State) {
    && Channel.Object(t.objects, t.name) == Channel.Object(c.objects, c.name)
    && t.h.sentShm == c.h.sentShm && t.h.takenShm == c.h.takenShm
    && t.blocking == c.blocking && t.sender.shmCapacity == c.sender.shmCapacity
    && (c.sender.mapped ==> t.sender.mapped)
  }

  lemma OffRingFrame(c: Channel.State, e: Channel.Event)
    requires Channel.Inv(c) && OffTheRing(e)
    ensures OffRing(c, Channel.Next(c, e))
  {
    match e
    case Send(_, _, _, _, _) => SendFrame(c, e);
    case AckPoll(mapping, grow) => AckFrame(c, mapping, grow);
    case _ => OtherFrame(c, e);
  }

  lemma OtherFrame(c: Channel.State, e: Channel.Event)
    requires OffTheRing(e) && !e.Send? && !e.AckPoll?
    ensures OffRing(c, Channel.Next(c, e))
  {
  }

  lemma AckFrame(c: Channel.State, mapping: Code, grow: bool)
    requires Channel.Inv(c)
    ensures OffRing(c, Channel.PollAck(c, mapping, grow))
  {
    Channel.ZeroingInvisible(c, mapping, grow);
  }

  lemma SendFrame(c: Channel.State, e: Channel.Event)
    requires Channel.NameInv(c.objects, c.name) && e.Send?
    ensures OffRing(c, Channel.StartSend(c, e))
  {
    if c.prod.PIdle? && e.p != [] {
      var (st, decided) := Router.Classified(c.sender, |e.p|, e.situation);
      SetOutFrame(c, st, decided, e);
    }
  }

  lemma SetOutFrame(c: Channel.State, st: Router.Sender, decided: Route, e: Channel.Event)
    requires Channel.NameInv(c.objects, c.name) && e.Send?
    requires st.shmCapacity == c.sender.shmCapacity && st.mapped == c.sender.mapped
    ensures OffRing(c, Channel.SetOut(c, st, decided, e))
  {
  }

  /** A push in progress keeps its send waiting, a pop in progress its receive. */
  lemma UsersWait(c: Channel.State, e: Channel.Event)
    requires OffTheRing(e)
    ensures var t := Channel.Next(c, e);
            && (c.prod.PPush? ==> t.prod == c.prod && t.sender == c.sender)
            && (c.cons.CPoll? ==> t.cons == c.cons && t.ring == c.ring && t.rxCap == c.rxCap)
  {
  }

  lemma OffRingLinks(r: Ring.State, c: Channel.State, t: Channel.State)
    requires Linked(r, c) && OffRing(c, t)
    requires c.prod.PPush? ==> t.prod == c.prod
    requires c.cons.CPoll? ==> t.cons == c.cons && t.ring == c.ring && t.rxCap == c.rxCap
    ensures Linked(r, t)
  {
  }

  lemma ZeroingKeeps(j: State, e: Channel.Event)
    requires Channel.Inv(j.c) && Linked(j.r, j.c) && MapsRing(j.c, e)
    ensures HeaderZeroed(j.r) == j.r
  {
    assert !j.c.sender.mapped;
  }

  lemma OffRingKeeps(j: State, e: Channel.Event)
    requires Inv(j) && OffTheRing(e)
    ensures Inv(j.(c := Channel.Next(j.c, e)))
  {
    Channel.StepKeeps(j.c, e);
    OffRingFrame(j.c, e);
    UsersWait(j.c, e);
    OffRingLinks(j.r, j.c, Channel.Next(j.c, e));
  }

  lemma EndpointKeeps(j: State, e: Channel.Event)
    requires Inv(j)
    ensures Inv(EndpointStep(j, e)) && EndpointStep(j, e).r == j.r
  {
    if EndpointStep(j, e) != j {
      OffRingKeeps(j, e);
      EndpointIs(j, e);
    }
  }

  /** Zeroing the header changes nothing, whenever the producer does it. */
  lemma EndpointIs(j: State, e: Channel.Event)
    requires Channel.Inv(j.c) && Linked(j.r, j.c)
    ensures EndpointStep(j, e) == j || (OffTheRing(e) && EndpointStep(j, e) == j.(c := Channel.Next(j.c, e)))
  {
    if MapsRing(j.c, e) {
      ZeroingKeeps(j, e);
    }
  }

  // ---- Pushes ----

  /** Steps that append nothing and take nothing. */
  lemma Relinked(r: Ring.State, c: Channel.State, t: Ring.State, d: Channel.State)
    requires Linked(r, c) && t.cap == r.cap && t.accepted == r.accepted && t.delivered == r.delivered
    requires d == c.(prod := d.prod, cons := d.cons, sender := d.sender, h := d.h)
    requires d.sender.mapped == c.sender.mapped && d.sender.shmCapacity == c.sender.shmCapacity
    requires d.h == c.h.(returned := d.h.returned)
    requires PushLink(t.prod, t.cap, d.prod, d.blocking) && PopLink(t.cons, d.cons, d.ring, d.rxCap)
    requires d.sender.mapped || Untouched(t)
    ensures Linked(t, d)
  {
    assert Segment(t) == Segment(r);
  }

  lemma PushCallLinks(r: Ring.State, c: Channel.State, kind: Ring.Kind)
    requires Linked(r, c) && Ready(c) && r.prod.PIdle? && c.prod.PPush?
    requires kind == Ring.Scatter || (kind == Ring.Blocking && c.blocking)
    ensures Linked(Ring.Call(r, Ring.PushCall(Record(c.prod.p), kind)), c)
  {
    Relinked(r, c, Ring.Call(r, Ring.PushCall(Record(c.prod.p), kind)), c);
  }

  /** A refusal ends the send, or leaves all as it is. */
  lemma RefusedFrame(c: Channel.State, rc: Code)
    requires rc != OK
    ensures var d := Channel.PushRing(c, rc);
            && d == c.(prod := d.prod, sender := d.sender, h := c.h.(returned := d.h.returned))
            && d.sender.mapped == c.sender.mapped && d.sender.shmCapacity == c.sender.shmCapacity
  {
  }

  /** What the loaded cursors decide about the push. */
  lemma Decided(r: Ring.State, c: Channel.State)
    requires r.cap > 0 && InStep(r, c) && PushLink(r.prod, r.cap, c.prod, c.blocking) && Ready(c) && r.prod.PLoad?
    ensures var t, d := Ring.StepProducer(r), Pushed(r, c);
            && t == r.(prod := t.prod) && PushLink(t.prod, t.cap, d.prod, d.blocking)
            && (d == c || (Returned(r) != OK && d == Channel.PushRing(c, Returned(r))))
  {
    PushAnswered(r, c);
  }

  /** The loaded cursors decide about the push. */
  lemma DecideLinks(r: Ring.State, c: Channel.State)
    requires r.cap > 0 && Linked(r, c) && Ready(c) && r.prod.PLoad?
    ensures Linked(Ring.StepProducer(r), Pushed(r, c))
  {
    Decided(r, c);
    if Pushed(r, c) != c {
      RefusedFrame(c, Returned(r));
    }
    Relinked(r, c, Ring.StepProducer(r), Pushed(r, c));
  }

  lemma StoreLinks(r: Ring.State, c: Channel.State)
    requires r.cap > 0 && Linked(r, c) && Ready(c) && r.prod.PWrite? && !Ring.StepProducer(r).prod.PIdle?
    ensures Linked(Ring.StepProducer(r), c)
  {
    Relinked(r, c, Ring.StepProducer(r), c);
  }

  /** A wait for space goes on, or back to the blocking push. */
  lemma WaitGoesOn(r: Ring.State, c: Channel.State)
    requires r.cap > 0 && PushLink(r.prod, r.cap, c.prod, c.blocking)
    requires !r.prod.PIdle? && !r.prod.PLoad? && !r.prod.PWrite?
    ensures var t := Ring.WaitStep(r);
            PushLink(t.prod, t.cap, c.prod, c.blocking) && !t.prod.PIdle?
  {
  }

  lemma WaitLinks(r: Ring.State, c: Channel.State)
    requires r.cap > 0 && Linked(r, c) && Ready(c) && !r.prod.PIdle? && !r.prod.PLoad? && !r.prod.PWrite?
    ensures Linked(Ring.StepProducer(r), Pushed(r, c))
  {
    WaitGoesOn(r, c);
    assert Ring.StepProducer(r) == Ring.WaitStep(r);
    Relinked(r, c, Ring.WaitStep(r), c);
  }

  lemma PublishLinks(r: Ring.State, c: Channel.State)
    requires Safety.Inv(r) && Linked(r, c) && Ready(c) && r.prod.PWrite? && Ring.StepProducer(r).prod.PIdle?
    ensures Linked(Ring.StepProducer(r), Channel.PushRing(c, OK))
  {
    PayloadOfRecord(c.prod.p);
    PublishAppends(r);
    PublishIsPush(r, c);
    PublishedLinks(r, c);
  }

  lemma PublishAppends(r: Ring.State)
    requires r.cap > 0 && r.prod.PWrite? && Ring.StepProducer(r).prod.PIdle?
    ensures Ring.StepProducer(r) == Ring.Publish(r) == Ring.Next(r, Ring.ProducerStep)
    ensures |Ring.StepProducer(r).accepted| == |r.accepted| + 1
  {
  }

  lemma PublishedLinks(r: Ring.State, c: Channel.State)
    requires r.cap > 0 && Linked(r, c) && Ready(c) && r.prod.PWrite? && Ring.StepProducer(r).prod.PIdle?
    requires PayloadOf(r.prod.b) == c.prod.p && InStep(Ring.StepProducer(r), Channel.PushRing(c, OK))
    ensures Linked(Ring.StepProducer(r), Channel.PushRing(c, OK))
  {
    assert Ring.StepProducer(r) == Ring.Publish(r);
    AcceptedFrame(c);
    HistoryGrows(r.accepted, c.h.sentShm, r.prod.b);
  }

  lemma AcceptedFrame(c: Channel.State)
    requires c.prod.PPush? && |c.prod.p| + 9 <= Cursors.Rounded(c.sender.shmCapacity)
    ensures var d := Channel.PushRing(c, OK);
            && d == c.(prod := Channel.PIdle, sender := d.sender, objects := d.objects, h := d.h)
            && d.h == c.h.(sentShm := c.h.sentShm + [c.prod.p], returned := d.h.returned)
            && d.sender.mapped == c.sender.mapped
  {
  }

  lemma HistoryGrows(bodies: seq<body>, sent: seq<payload>, b: body)
    requires Payloads(bodies) == sent && Tagged(bodies) && b == Record(PayloadOf(b))
    ensures Payloads(bodies + [b]) == sent + [PayloadOf(b)] && Tagged(bodies + [b])
  {
    PayloadsAppend(bodies, b);
  }

  lemma PushStepLinks(r: Ring.State, c: Channel.State)
    requires Safety.Inv(r) && Linked(r, c) && Ready(c) && !r.prod.PIdle?
    ensures Linked(Ring.StepProducer(r), Pushed(r, c))
  {
    if r.prod.PLoad? {
      DecideLinks(r, c);
    } else if !r.prod.PWrite? {
      WaitLinks(r, c);
    } else if Ring.StepProducer(r).prod.PIdle? {
      PublishLinks(r, c);
    } else {
      StoreLinks(r, c);
    }
  }

  lemma SendKeeps(j: State, unthrottled: bool)
    requires Inv(j)
    ensures Inv(SendStep(j, unthrottled))
  {
    ChannelReady(j.c);
    if !j.r.prod.PIdle? {
      Safety.ProducerKeeps(j.r);
      PushStepLinks(j.r, j.c);
      Channel.PushKeeps(j.c, Returned(j.r));
    } else if j.c.prod.PPush? {
      var kind := if j.c.blocking && !unthrottled then Ring.Blocking else Ring.Scatter;
      Safety.CallKeeps(j.r, Ring.PushCall(Record(j.c.prod.p), kind));
      PushCallLinks(j.r, j.c, kind);
    }
  }

  // ---- Pops ----

  /** The consumer's steps other than a release take nothing. */
  lemma ConsumerLeaves(r: Ring.State)
    requires r.cap > 0
    ensures var t := Ring.StepConsumer(r);
            && t.accepted == r.accepted && t.head == r.head && t.parks == r.parks && (t.flag ==> r.flag)
            && ((r.cons.CCopy? ==> |r.cons.got| < r.cons.len) ==> t.delivered == r.delivered)
            && (Looking(t.cons) ==> Looking(r.cons))
            && (t.prod == r.prod || (r.prod.WSleep? && t.prod == Ring.WWoken(r.prod.k)))
  {
  }

  /** A step that takes nothing, for which Channel's receiver at most ends its poll. */
  lemma LookLinks(r: Ring.State, c: Channel.State, d: Channel.State)
    requires r.cap > 0 && Linked(r, c) && (r.cons.CCopy? ==> |r.cons.got| < r.cons.len)
    requires d == c.(cons := d.cons) && PopLink(Ring.StepConsumer(r).cons, d.cons, d.ring, d.rxCap)
    requires c.sender.mapped || Ring.StepConsumer(r).tail == r.tail
    ensures Linked(Ring.StepConsumer(r), d)
  {
    ConsumerLeaves(r);
    Relinked(r, c, Ring.StepConsumer(r), d);
  }

  /** A consumer beyond its first look has a record in front of it. */
  lemma FoundMeansMapped(r: Ring.State, c: Channel.State)
    requires Safety.Inv(r) && Linked(r, c) && Ready(c) && (r.cons.CLen? || r.cons.CCopy?)
    ensures c.sender.mapped && Polls(c) && Safety.Unread(r) != [] && Safety.Unread(r)[0] != []
  {
    Safety.FrontOfView(r, r.cons.headSeen, r.cons.seen);
  }

  lemma LoadLinks(r: Ring.State, c: Channel.State)
    requires Safety.Inv(r) && Linked(r, c) && Ready(c) && r.cons.CLoad?
    ensures Linked(Ring.StepConsumer(r), Polled(r, c))
  {
    EmptyIsEmpty(r, c);
    LookLinks(r, c, Polled(r, c));
  }

  lemma LengthLinks(r: Ring.State, c: Channel.State)
    requires Safety.Inv(r) && Linked(r, c) && Ready(c) && r.cons.CLen?
    ensures Linked(Ring.StepConsumer(r), Polled(r, c))
  {
    FoundMeansMapped(r, c);
    LengthPolled(r, c);
    LookLinks(r, c, Polled(r, c));
  }

  /** A length that is read keeps the receive in its poll, unless the record is too long. */
  lemma LengthPolled(r: Ring.State, c: Channel.State)
    requires Safety.Inv(r) && InStep(r, c) && PopLink(r.cons, c.cons, c.ring, c.rxCap) && Polls(c) && r.cons.CLen?
    requires Safety.Unread(r) != [] && Safety.Unread(r)[0] != []
    ensures var d := Polled(r, c);
            d == c.(cons := d.cons) && PopLink(Ring.StepConsumer(r).cons, d.cons, d.ring, d.rxCap)
  {
    if |r.cons.got| == HDR && Decode(r.cons.got) != 0 {
      ShortIsShort(r, c);
      LengthUsed(r);
    } else {
      LengthUnread(r);
      assert Polled(r, c) == c;
    }
  }

  lemma LengthUsed(r: Ring.State)
    requires r.cap > 0 && r.cons.CLen? && |r.cons.got| >= HDR && Decode(r.cons.got) != 0
    ensures Ring.StepConsumer(r).cons == if r.cons.max < Decode(r.cons.got) then Ring.CIdle
              else Ring.CCopy(r.cons.pass, r.cons.headSeen, r.cons.seen, Decode(r.cons.got), [])
  {
  }

  /** Before the length is known, and at a marker, the consumer keeps looking with the same buffer. */
  lemma LengthUnread(r: Ring.State)
    requires r.cap > 0 && r.cons.CLen? && (|r.cons.got| >= HDR ==> Decode(r.cons.got) == 0)
    ensures var t := Ring.StepConsumer(r).cons;
            (t.CLoad? || t.CLen?) && t.max == r.cons.max
  {
  }

  lemma CopyLinks(r: Ring.State, c: Channel.State)
    requires Safety.Inv(r) && Linked(r, c) && Ready(c) && r.cons.CCopy?
    ensures Linked(Ring.StepConsumer(r), Polled(r, c))
  {
    if |r.cons.got| < r.cons.len {
      CopyByteLinks(r, c);
    } else {
      ReleaseLinks(r, c);
    }
  }

  lemma CopyByteLinks(r: Ring.State, c: Channel.State)
    requires Safety.Inv(r) && Linked(r, c) && Ready(c) && r.cons.CCopy? && |r.cons.got| < r.cons.len
    ensures Linked(Ring.StepConsumer(r), c) && Polled(r, c) == c
  {
    FoundMeansMapped(r, c);
    assert Ring.StepConsumer(r) == Ring.CopyByte(r);
    LookLinks(r, c, c);
  }

  lemma ReleaseLinks(r: Ring.State, c: Channel.State)
    requires Safety.Inv(r) && Linked(r, c) && Ready(c) && r.cons.CCopy? && |r.cons.got| == r.cons.len
    ensures Linked(Ring.StepConsumer(r), Channel.PollRing(c))
  {
    FoundMeansMapped(r, c);
    assert Ring.StepConsumer(r) == Ring.Release(r) == Ring.Next(r, Ring.ConsumerStep);
    ReleaseIsPop(r, c);
    TakenLinks(r, c);
  }

  lemma TakenLinks(r: Ring.State, c: Channel.State)
    requires r.cap > 0 && Linked(r, c) && c.sender.mapped && r.cons.CCopy?
    requires InStep(Ring.Release(r), Channel.PollRing(c))
    requires Channel.PollRing(c).h.takenShm == c.h.takenShm + [PayloadOf(r.cons.got)]
    ensures Linked(Ring.Release(r), Channel.PollRing(c))
  {
    PayloadsAppend(r.delivered, r.cons.got);
  }

  lemma WakeLinks(r: Ring.State, c: Channel.State)
    requires r.cap > 0 && Linked(r, c) && !r.cons.CIdle? && !Looking(r.cons)
    ensures Linked(Ring.StepConsumer(r), c)
  {
    ConsumerLeaves(r);
    LookLinks(r, c, c);
  }

  lemma PopStepLinks(r: Ring.State, c: Channel.State)
    requires Safety.Inv(r) && Linked(r, c) && Ready(c) && !r.cons.CIdle?
    ensures Linked(Ring.StepConsumer(r), Polled(r, c))
  {
    match r.cons
    case CLoad(_, _) => LoadLinks(r, c);
    case CLen(_, _, _, _, _) => LengthLinks(r, c);
    case CCopy(_, _, _, _, _) => CopyLinks(r, c);
    case _ => WakeLinks(r, c);
  }

  /** Without a ring, a poll only turns the receiver to the socket. */
  lemma NoRingLinks(r: Ring.State, c: Channel.State)
    requires Linked(r, c) && r.cons.CIdle? && !(c.cons.CPoll? && c.ring.Mapped?)
    ensures Linked(r, Channel.PollRing(c))
  {
  }

  lemma PollLinks(r: Ring.State, c: Channel.State)
    requires Linked(r, c) && r.cons.CIdle? && c.cons.CPoll? && c.ring.Mapped?
    ensures Linked(Ring.Call(r, Ring.PopCall(c.rxCap)), c)
  {
    Relinked(r, c, Ring.Call(r, Ring.PopCall(c.rxCap)), c);
  }

  lemma PopKeeps(j: State)
    requires Inv(j) && !j.r.cons.CIdle?
    ensures Inv(RecvStep(j))
  {
    ChannelReady(j.c);
    Channel.RingPollKeeps(j.c);
    Safety.ConsumerKeeps(j.r);
    PopStepLinks(j.r, j.c);
  }

  lemma RecvKeeps(j: State)
    requires Inv(j)
    ensures Inv(RecvStep(j))
  {
    Channel.RingPollKeeps(j.c);
    if !j.r.cons.CIdle? {
      PopKeeps(j);
    } else if j.c.cons.CPoll? && j.c.ring.Mapped? {
      Safety.CallKeeps(j.r, Ring.PopCall(j.c.rxCap));
      PollLinks(j.r, j.c);
    } else {
      NoRingLinks(j.r, j.c);
    }
  }

  lemma WakenLinks(r: Ring.State, c: Channel.State)
    requires Linked(r, c)
    ensures Linked(Ring.Call(r, Ring.SpuriousWake), c)
  {
    Relinked(r, c, Ring.Call(r, Ring.SpuriousWake), c);
  }

  // ---- Whole runs ----

  lemma StepKeeps(j: State, e: Event)
    requires Inv(j)
    ensures Inv(Next(j, e))
  {
    match e
    case Endpoint(ce) => EndpointKeeps(j, ce);
    case SendAccess(unthrottled) => SendKeeps(j, unthrottled);
    case RecvAccess => RecvKeeps(j);
    case SpuriousWake => Safety.CallKeeps(j.r, Ring.SpuriousWake); WakenLinks(j.r, j.c);
  }

  lemma InitialInv(j: State, alpha: real, capacity: nat, blocking: bool)
    requires Initial(j, alpha, capacity, blocking) && capacity < 0x1_0000_0000
    ensures Inv(j)
  {
    Safety.InitialInv(j.r);
    Channel.RunInv(alpha, capacity, blocking, []);
  }

  lemma {:induction false} InvRun(j: State, events: seq<Event>)
    requires Inv(j)
    ensures Inv(Run(j, events)) && Run(j, events).c.sender.shmCapacity == j.c.sender.shmCapacity
  {
    if events != [] {
      var before := Run(j, events[..|events| - 1]);
      InvRun(j, events[..|events| - 1]);
      StepKeeps(before, events[|events| - 1]);
      SameCapacity(before, events[|events| - 1]);
    }
  }

  lemma SameCapacity(j: State, e: Event)
    requires j.r.cap > 0
    ensures Next(j, e).c.sender.shmCapacity == j.c.sender.shmCapacity
  {
  }

  // ---- Joint runs are runs of both machines ----

  /** The event of Channel that a step takes, if any. */
  function Call(j: State, e: Event): seq<Channel.Event>
    requires j.r.cap > 0
  {
    match e
    case Endpoint(ce) => if !OffTheRing(ce) || (ce.Recv? && !j.r.cons.CIdle?) then [] else [ce]
    case SendAccess(_) =>
      if !j.r.prod.PIdle? && Ring.StepProducer(j.r).prod.PIdle? then [Channel.Push(Returned(j.r))] else []
    case RecvAccess =>
      if j.r.cons.CIdle? then if j.c.cons.CPoll? && j.c.ring.Mapped? then [] else [Channel.RingPoll]
      else if Looking(j.r.cons) && !Looking(Ring.StepConsumer(j.r).cons) then [Channel.RingPoll] else []
    case SpuriousWake => []
  }

  /** The event of the ring that a step takes, if any. */
  function Access(j: State, e: Event): (a: seq<Ring.Event>)
    ensures |a| <= 1
  {
    match e
    case Endpoint(_) => []
    case SendAccess(unthrottled) =>
      if !j.r.prod.PIdle? then [Ring.ProducerStep]
      else if j.c.prod.PPush? then
        [Ring.PushCall(Record(j.c.prod.p), if j.c.blocking && !unthrottled then Ring.Blocking else Ring.Scatter)]
      else []
    case RecvAccess =>
      if !j.r.cons.CIdle? then [Ring.ConsumerStep]
      else if j.c.cons.CPoll? && j.c.ring.Mapped? then [Ring.PopCall(j.c.rxCap)]
      else []
    case SpuriousWake => [Ring.SpuriousWake]
  }

  function Calls(j: State, events: seq<Event>): seq<Channel.Event>
    requires j.r.cap > 0
  {
    if events == [] then []
    else
      var n := |events| - 1;
      Calls(j, events[..n]) + Call(Run(j, events[..n]), events[n])
  }

  function Accesses(j: State, events: seq<Event>): seq<Ring.Event>
    requires j.r.cap > 0
  {
    if events == [] then []
    else
      var n := |events| - 1;
      Accesses(j, events[..n]) + Access(Run(j, events[..n]), events[n])
  }

  /** Channel's part of a step is the event it takes, or none. */
  lemma CallTaken(j: State, e: Event)
    requires j.r.cap > 0
    ensures Next(j, e).c == if Call(j, e) == [] then j.c else Channel.Next(j.c, Call(j, e)[0])
  {
  }

  lemma AccessTaken(j: State, e: Event)
    requires Channel.Inv(j.c) && Linked(j.r, j.c) && j.r.cap > 0
    ensures Next(j, e).r == if Access(j, e) == [] then j.r else Ring.Next(j.r, Access(j, e)[0])
  {
    match e
    case Endpoint(ce) => EndpointIs(j, ce);
    case SendAccess(unthrottled) => SendAccessTaken(j, unthrottled);
    case RecvAccess => RecvAccessTaken(j);
    case SpuriousWake =>
  }

  lemma SendAccessTaken(j: State, unthrottled: bool)
    requires j.r.cap > 0
    ensures var a := Access(j, SendAccess(unthrottled));
            SendStep(j, unthrottled).r == if a == [] then j.r else Ring.Next(j.r, a[0])
  {
  }

  lemma RecvAccessTaken(j: State)
    requires j.r.cap > 0
    ensures var a := Access(j, RecvAccess);
            RecvStep(j).r == if a == [] then j.r else Ring.Next(j.r, a[0])
  {
  }

  lemma OneCall(c: Channel.State, calls: seq<Channel.Event>, j: State, e: Event)
    requires j.r.cap > 0 && j.c == Channel.Run(c, calls)
    ensures Next(j, e).c == Channel.Run(c, calls + Call(j, e))
  {
    CallTaken(j, e);
    if Call(j, e) == [] {
      assert calls + Call(j, e) == calls;
    } else {
      assert Call(j, e) == [Call(j, e)[0]];
      Channel.RunOneMore(c, calls, Call(j, e)[0]);
    }
  }

  /** Channel's part of a run is a run of Channel. */
  lemma {:induction false} CallsRun(j: State, events: seq<Event>)
    requires j.r.cap > 0
    ensures Run(j, events).c == Channel.Run(j.c, Calls(j, events))
  {
    if events != [] {
      var n := |events| - 1;
      CallsRun(j, events[..n]);
      OneCall(j.c, Calls(j, events[..n]), Run(j, events[..n]), events[n]);
    }
  }

  lemma AccessRun(r: Ring.State, accesses: seq<Ring.Event>, t: Ring.State)
    requires r.cap > 0 && |accesses| <= 1 && t == if accesses == [] then r else Ring.Next(r, accesses[0])
    ensures t == Ring.Run(r, accesses)
  {
    if accesses != [] {
      Runs.RunOne(r, accesses[0]);
      assert accesses == [accesses[0]];
    }
  }

  lemma OneAccess(j: State, e: Event)
    requires Channel.Inv(j.c) && Linked(j.r, j.c) && j.r.cap > 0
    ensures Next(j, e).r == Ring.Run(j.r, Access(j, e))
  {
    AccessTaken(j, e);
    AccessRun(j.r, Access(j, e), Next(j, e).r);
  }

  /** The ring's part of a run is a run of the ring. */
  lemma {:induction false} AccessesRun(j: State, events: seq<Event>)
    requires Inv(j)
    ensures Run(j, events).r == Ring.Run(j.r, Accesses(j, events))
  {
    if events != [] {
      var n := |events| - 1;
      AccessesRun(j, events[..n]);
      InvRun(j, events[..n]);
      OneAccess(Run(j, events[..n]), events[n]);
      Ring.RunConcat(j.r, Accesses(j, events[..n]), Access(Run(j, events[..n]), events[n]));
    }
  }

  /** The endpoints call the ring with records within the capacity, and with buffers of at least that. */
  lemma SizedAccess(j: State, e: Event)
    requires Channel.Inv(j.c) && j.c.sender.shmCapacity < 0x1_0000_0000
    ensures Wakeup.BuffersHold(Access(j, e), j.r.cap, j.c.sender.shmCapacity)
  {
    assert Low32(j.c.sender.shmCapacity) == j.c.sender.shmCapacity;
  }

  lemma {:induction false} SizedAccesses(j: State, events: seq<Event>)
    requires Inv(j) && j.c.sender.shmCapacity < 0x1_0000_0000
    ensures Wakeup.BuffersHold(Accesses(j, events), j.r.cap, j.c.sender.shmCapacity)
  {
    if events != [] {
      var n := |events| - 1;
      SizedAccesses(j, events[..n]);
      InvRun(j, events[..n]);
      SizedAccess(Run(j, events[..n]), events[n]);
      SizedBoth(Accesses(j, events[..n]), Access(Run(j, events[..n]), events[n]), j.r.cap, j.c.sender.shmCapacity);
    }
  }

  lemma SizedBoth(a: seq<Ring.Event>, b: seq<Ring.Event>, cap: nat, m: nat)
    requires Wakeup.BuffersHold(a, cap, m) && Wakeup.BuffersHold(b, cap, m)
    ensures Wakeup.BuffersHold(a + b, cap, m)
  {
  }

  // ---- Main results ----

  lemma {:induction false} PayloadsAt(bodies: seq<body>, i: nat)
    requires i < |bodies|
    ensures Payloads(bodies)[i] == PayloadOf(bodies[i])
  {
    if i > 0 {
      PayloadsAt(bodies[1..], i - 1);
    }
  }

  /**
   Over every run of the two endpoints and the bytes of the ring: the payloads of
   the sends that returned zero are an interleaving of the datagrams' and the
   ring's; the ring was given exactly the tagged records of its payloads, its
   bytes parse into those that were not taken yet, and what was taken, from either
   transport, was taken once and in order.
   */
  lemma ExactlyOnce(j: State, alpha: real, capacity: nat, blocking: bool, events: seq<Event>)
    requires Initial(j, alpha, capacity, blocking) && capacity < 0x1_0000_0000
    ensures var t := Run(j, events);
            var r, h := t.r, t.c.h;
            && Channel.Interleaved(Channel.Accepted(h.returned), h.sentUds, h.sentShm)
            && |r.accepted| == |h.sentShm|
            && (forall i :: 0 <= i < |r.accepted| ==> r.accepted[i] == Record(h.sentShm[i]))
            && r.delivered <= r.accepted && Payloads(r.delivered) == h.takenShm
            && |r.data| == r.cap + SLACK
            && Parse(r.data, r.cap, r.tail, r.head) == Records(r.accepted[|r.delivered|..])
            && h.sentShm == h.takenShm + Payloads(r.accepted[|r.delivered|..])
            && h.sentUds == h.takenUds + Channel.DataIn(t.c.toConsumer)
            && Channel.Subsequence(h.deliveredUds, h.takenUds) && Channel.Subsequence(h.deliveredShm, h.takenShm)
            && |h.takenUds| + |h.takenShm| == |h.deliveredUds| + |h.deliveredShm| + h.lost
  {
    InitialInv(j, alpha, capacity, blocking);
    InvRun(j, events);
    CallsRun(j, events);
    AccessesRun(j, events);
    Channel.ExactlyOnce(alpha, capacity, blocking, Calls(j, events));
    Safety.ExactlyOnceInOrder(j.r, Accesses(j, events));
    var t := Run(j, events);
    forall i | 0 <= i < |t.r.accepted| ensures t.r.accepted[i] == Record(t.c.h.sentShm[i]) {
      PayloadsAt(t.r.accepted, i);
    }
  }

  /** Over every such run a sleeping sender with no wake in flight leaves at least the low watermark in the ring. */
  lemma NoLostWakeup(j: State, alpha: real, capacity: nat, blocking: bool, events: seq<Event>)
    requires Initial(j, alpha, capacity, blocking) && capacity < 0x1_0000_0000
    ensures Wakeup.KeepsLowWater(Run(j, events).r)
  {
    InitialInv(j, alpha, capacity, blocking);
    AccessesRun(j, events);
    SizedAccesses(j, events);
    Wakeup.NoLostWakeupRoomy(j.r, Accesses(j, events), capacity);
  }

  /**
   After any such run, a send that is blocked in a push goes through, if its
   record fits the larger part of the buffer before or behind the head, once the
   receiver has taken as many turns as there is work and the sender then as many
   steps as its record needs; otherwise it is blocked for ever.
   */
  lemma BlockedSend(j: State, alpha: real, capacity: nat, blocking: bool, events: seq<Event>,
                    b: body, first: seq<Event>, rest: seq<Event>)
    requires Initial(j, alpha, capacity, blocking) && capacity < 0x1_0000_0000
    requires var t := Run(j, events);
             && Progress.Pushing(t.r, b) && !t.r.prod.PWrite?
             && Progress.Turns(t.r, Accesses(t, first)) > Progress.Work(t.r, capacity)
             && Progress.ProducerSteps(Accesses(Run(t, first), rest)) >= |b| + 28
    ensures var t := Run(j, events);
            var after := Run(Run(t, first), rest);
            if Need(b) <= Progress.LargerPart(t.r.cap, t.r.head)
            then t.r.accepted + [b] <= after.r.accepted
            else after.r.accepted == t.r.accepted && Progress.Pushing(after.r, b) && after.c.prod == t.c.prod
  {
    InitialInv(j, alpha, capacity, blocking);
    InvRun(j, events);
    AccessesRun(j, events);
    SizedAccesses(j, events);
    Wakeup.RoomyRun(j.r, Accesses(j, events), capacity);
    Flow.RunFlow(j.r, Accesses(j, events));
    var t := Run(j, events);
    Progress.BlockingPushIff(t.r, b);
    if Progress.Room(t.r, b) {
      TwoParts(t, first, rest);
      SizedAccesses(t, first);
      Through(t.r, b, Accesses(t, first), Accesses(Run(t, first), rest), capacity);
    } else {
      Stuck(t, b, first, rest);
    }
  }

  /** A push in progress is that of the send in progress. */
  lemma SendOf(j: State, b: body)
    requires Inv(j) && Progress.Pushing(j.r, b)
    ensures j.c.prod.PPush? && b == Record(j.c.prod.p) && j.c.prod == Channel.PPush(b[1..])
  {
  }

  lemma Through(r: Ring.State, b: body, x: seq<Ring.Event>, y: seq<Ring.Event>, m: nat)
    requires Flow.FlowInv(r) && Wakeup.AllSmall(r.accepted, m) && Runs.Offers(x, m)
    requires Progress.Pushing(r, b) && Progress.Room(r, b)
    requires Progress.Turns(r, x) > Progress.Work(r, m) && Progress.ProducerSteps(y) >= |b| + 28
    ensures r.accepted + [b] <= Ring.Run(r, x + y).accepted
  {
    Progress.BlockingPushCompletes(r, b, x, y, m);
  }

  lemma Stuck(t: State, b: body, first: seq<Event>, rest: seq<Event>)
    requires Inv(t) && Flow.FlowInv(t.r) && Progress.Pushing(t.r, b) && !Progress.Room(t.r, b)
    ensures var after := Run(Run(t, first), rest);
            after.r.accepted == t.r.accepted && Progress.Pushing(after.r, b) && after.c.prod == t.c.prod
  {
    TwoParts(t, first, rest);
    Progress.StuckForEver(t.r, b, Accesses(t, first) + Accesses(Run(t, first), rest));
    SendOf(t, b);
    SendOf(Run(Run(t, first), rest), b);
  }

  lemma TwoParts(t: State, first: seq<Event>, rest: seq<Event>)
    requires Inv(t)
    ensures Inv(Run(Run(t, first), rest))
    ensures Run(Run(t, first), rest).r == Ring.Run(t.r, Accesses(t, first) + Accesses(Run(t, first), rest))
  {
    AccessesRun(t, first);
    InvRun(t, first);
    AccessesRun(Run(t, first), rest);
    InvRun(Run(t, first), rest);
    Ring.RunConcat(t.r, Accesses(t, first), Accesses(Run(t, first), rest));
  }
}
