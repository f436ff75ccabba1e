/**
 Two endpoints joined by a pair of datagram sockets and a shared ring: the
 set-up handshake, the router's sends and the receiver's multiplexed reads, in
 any interleaving. The sockets are lossless queues of whole datagrams. The ring
 is the queue that RingSafety proves it to be: a push appends or is refused.
 */
module Channel {
  import opened Bytes
  import opened Codes
  import opened CostModel
  import opened Router
  import opened Wire
  import Cursors
  import Health

  // ---- The system ----

  datatype Producer =
    | PIdle
    | PWait(p: payload)    // waiting for an acknowledgement
    | PDatagram(p: payload)
    | PPush(p: payload)

  datatype Consumer =
    | CIdle
    | CPoll(max: nat)      // about to poll the ring
    | CSocket(max: nat)    // about to read the socket

  /** A shared object: how often its ring was pushed and popped, and the payloads it holds. */
  datatype Segment = Segment(pushed: nat, popped: nat, queue: seq<payload>) {
    function Append(p: payload): Segment { Segment(pushed + 1, popped, queue + [p]) }

    function Take(): Segment
      requires queue != []
    {
      Segment(pushed, popped + 1, queue[1..])
    }
  }

  const EMPTY: Segment := Segment(0, 0, [])

  datatype Mapping = Unmapped | Mapped(name: seq<byte>, cap32: nat)

  /**
   What has happened so far. `returned` are the sends that have ended, with
   their payloads and results, `sent` the payloads put on a transport, `taken` those the receiver removed from
   it, `delivered` those it handed to its caller, and `lost` counts those that
   were too large for the caller's buffer.
   */
  datatype Return = Return(p: payload, rc: Code)

  datatype History = History(
    returned: seq<Return>, sentUds: seq<payload>, sentShm: seq<payload>,
    takenUds: seq<payload>, takenShm: seq<payload>,
    deliveredUds: seq<payload>, deliveredShm: seq<payload>, lost: nat)

  datatype State = State(
    sender: Sender, blocking: bool, name: seq<byte>, prod: Producer,
    ring: Mapping, rxCap: nat, cons: Consumer,
    toConsumer: seq<Frame>, toProducer: seq<Frame>, objects: map<seq<byte>, Segment>,
    h: History)

  datatype Event =
    | Send(p: payload, situation: Situation, newName: objectName, due: bool, request: Code)
    | AckPoll(mapping: Code, grow: bool)
    | AckFailure(rc: Code)
    | SendTo(rc: Code)
    | Push(rc: Code)
    | Recv(max: nat)
    | RingPoll
    | SocketPoll(attach: byte, grow: bool, ackSent: bool)
    | SocketQuiet
    | SocketFailure

  /** The object of that name; one that nobody has written is zero-filled. */
  function Object(objects: map<seq<byte>, Segment>, name: seq<byte>): Segment {
    if name in objects then objects[name] else EMPTY
  }

  function Stored(objects: map<seq<byte>, Segment>, name: seq<byte>, o: Segment): (r: map<seq<byte>, Segment>)
    ensures Object(r, name) == o && r != map[]
  {
    assert name in objects[name := o];
    objects[name := o]
  }

  /** The capacity as the request carries it. */
  function Cap32(s: State): nat { Low32(s.sender.shmCapacity) }

  // ---- Producer ----

  /** The send of `p` returns `rc` without a frame. */
  function Ended(s: State, p: payload, rc: Code): (r: State)
    ensures r == s.(prod := PIdle, h := s.h.(returned := r.h.returned))
  {
    s.(prod := PIdle, h := s.h.(returned := s.h.returned + [Return(p, rc)]))
  }

  /** A handshake that failed with `rc`: fall back to a datagram, or return the code. */
  function HandshakeFailed(s: State, p: payload, rc: Code): (r: State)
    ensures r == s.(sender := r.sender, prod := r.prod, h := s.h.(returned := r.h.returned))
    ensures r.sender.shmCapacity == s.sender.shmCapacity && r.sender.mapped == s.sender.mapped
  {
    var t := s.(sender := AfterFailedHandshake(s.sender, |p|));
    if FitsDatagram(|p|) then t.(prod := PDatagram(p)) else Ended(t, p, Surfaced(rc))
  }

  function Named(s: State, newName: objectName): State {
    s.(name := if s.name == [] then newName else s.name)
  }

  function Requested(s: State): State {
    s.(toConsumer := s.toConsumer + [SetupReq(Cap32(s), s.name)])
  }

  /** Starts the handshake, sending a request if one is due. */
  function Negotiate(s: State, p: payload, newName: objectName, due: bool, request: Code): (r: State)
    ensures r.sender.shmCapacity == s.sender.shmCapacity && r.sender.mapped == s.sender.mapped
  {
    var named := Named(s, newName);
    if !due then named.(prod := PWait(p))
    else if request != OK then HandshakeFailed(named, p, request)
    else Requested(named).(prod := PWait(p))
  }

  /** Sets out to carry a message that was given the route `decided`. */
  function SetOut(s: State, st: Sender, decided: Route, e: Event): (r: State)
    requires e.Send? && st.shmCapacity == s.sender.shmCapacity && st.mapped == s.sender.mapped
    ensures r.sender.shmCapacity == s.sender.shmCapacity && r.sender.mapped == s.sender.mapped
  {
    var size := |e.p|;
    var route := Escalated(decided, size);
    if TooLarge(st, route, size) then Ended(s.(sender := st), e.p, EMSGSIZE)
    else
      var t := s.(sender := Pending(st, size, route));
      if route == UDS then t.(prod := PDatagram(e.p))
      else if t.sender.mapped then t.(prod := PPush(e.p))
      else Negotiate(t, e.p, e.newName, e.due, e.request)
  }

  function StartSend(s: State, e: Event): (r: State)
    requires e.Send?
    ensures r.sender.shmCapacity == s.sender.shmCapacity && r.sender.mapped == s.sender.mapped
  {
    if !s.prod.PIdle? then s
    else if e.p == [] then Ended(s, e.p, EINVAL)
    else
      var (st, decided) := Classified(s.sender, |e.p|, e.situation);
      SetOut(s, st, decided, e)
  }

  /** The first datagram in the producer's socket is read. */
  function AckRead(s: State): State
    requires s.toProducer != []
  {
    s.(toProducer := s.toProducer[1..])
  }

  /** Mapping the ring as its producer zeroes the cursors. */
  function Zeroed(s: State): State {
    s.(objects := Stored(s.objects, s.name, EMPTY))
  }

  /** Reads one datagram while waiting for the acknowledgement; on success maps the ring. */
  function PollAck(s: State, mapping: Code, grow: bool): (r: State)
    ensures r == s.(sender := r.sender, prod := r.prod, toProducer := r.toProducer, objects := r.objects,
                    h := s.h.(returned := r.h.returned))
    ensures r.sender.shmCapacity == s.sender.shmCapacity
  {
    if !s.prod.PWait? || s.toProducer == [] then s
    else if !Acknowledges(DatagramOf(s.toProducer[0])) then AckRead(s)
    else if mapping != OK then HandshakeFailed(AckRead(s), s.prod.p, mapping)
    else if !grow then HandshakeFailed(Zeroed(AckRead(s)), s.prod.p, EOTHER(12))
    else Zeroed(AckRead(s)).(sender := s.sender.(mapped := true), prod := PPush(s.prod.p))
  }

  /** The datagram is in the socket and the send returns zero. */
  function Posted(s: State, p: payload): (r: State)
    ensures r == s.(prod := PIdle, toConsumer := r.toConsumer, h := r.h)
  {
    s.(prod := PIdle, toConsumer := s.toConsumer + [Data(p)],
       h := s.h.(sentUds := s.h.sentUds + [p], returned := s.h.returned + [Return(p, OK)]))
  }

  function SendDatagram(s: State, rc: Code): (r: State)
    ensures r == s.(sender := r.sender, prod := r.prod, toConsumer := r.toConsumer, h := r.h)
    ensures r.sender.shmCapacity == s.sender.shmCapacity && r.sender.mapped == s.sender.mapped
  {
    if !s.prod.PDatagram? then s
    else
      var t := s.(sender := AfterDatagram(s.sender, rc));
      if rc == OK then Posted(t, s.prod.p) else Ended(t, s.prod.p, rc)
  }

  /** The record is published and the send returns zero. */
  function Published(s: State, p: payload): (r: State)
    ensures r == s.(prod := PIdle, objects := r.objects, h := r.h)
  {
    s.(prod := PIdle, objects := Stored(s.objects, s.name, Object(s.objects, s.name).Append(p)),
       h := s.h.(sentShm := s.h.sentShm + [p], returned := s.h.returned + [Return(p, OK)]))
  }

  /** The ring's answer to a push of `p`: a frame that is too long is refused outright. */
  function PushRing(s: State, rc: Code): (r: State)
    ensures r == s.(sender := r.sender, prod := r.prod, objects := r.objects, h := r.h)
    ensures r.sender.shmCapacity == s.sender.shmCapacity && r.sender.mapped == s.sender.mapped
  {
    if !s.prod.PPush? then s
    else if |s.prod.p| + 1 > Cursors.Rounded(s.sender.shmCapacity) - 8 then
      Ended(s.(sender := AfterPush(s.sender, EMSGSIZE)), s.prod.p, EMSGSIZE)
    else if rc == EAGAIN && s.blocking then s
    else if rc == OK then Published(s.(sender := AfterPush(s.sender, OK)), s.prod.p)
    else Ended(s.(sender := AfterPush(s.sender, rc)), s.prod.p, rc)
  }

  // ---- Consumer ----

  /** Hands a payload taken from the ring to the caller, unless the caller's buffer is too small. */
  function DeliverShm(h: History, p: payload, max: nat): (r: History)
    ensures r == h.(takenShm := h.takenShm + [p], deliveredShm := r.deliveredShm, lost := r.lost)
  {
    var t := h.(takenShm := h.takenShm + [p]);
    if max < |p| then t.(lost := h.lost + 1) else t.(deliveredShm := h.deliveredShm + [p])
  }

  function DeliverUds(h: History, p: payload, max: nat): (r: History)
    ensures r == h.(takenUds := h.takenUds + [p], deliveredUds := r.deliveredUds, lost := r.lost)
  {
    var t := h.(takenUds := h.takenUds + [p]);
    if max < |p| then t.(lost := h.lost + 1) else t.(deliveredUds := h.deliveredUds + [p])
  }

  /** The front record of the mapped ring is removed and handed on. */
  function Popped(s: State): (r: State)
    requires s.cons.CPoll? && s.ring.Mapped? && Object(s.objects, s.ring.name).queue != []
    ensures r == s.(cons := CIdle, objects := r.objects, h := r.h)
  {
    var o := Object(s.objects, s.ring.name);
    s.(objects := Stored(s.objects, s.ring.name, o.Take()),
       h := DeliverShm(s.h, Record(o.queue[0])[1..], s.cons.max), cons := CIdle)
  }

  /** Takes the front record of the mapped ring, if there is one and the scratch buffer holds it. */
  function PollRing(s: State): (r: State)
    ensures r == s.(cons := r.cons, objects := r.objects, h := r.h)
    ensures r == s.(cons := r.cons)
         || (s.cons.CPoll? && s.ring.Mapped? && Object(s.objects, s.ring.name).queue != [] && r == Popped(s))
  {
    if !s.cons.CPoll? then s
    else if s.ring.Unmapped? || Object(s.objects, s.ring.name).queue == [] then s.(cons := CSocket(s.cons.max))
    else if s.rxCap < |Record(Object(s.objects, s.ring.name).queue[0])| then s.(cons := CIdle)
    else Popped(s)
  }

  /** The acknowledgement, unless it cannot be sent. */
  function Says(ackSent: bool, status: byte): seq<Frame> {
    if ackSent then [SetupAck(status)] else []
  }

  /** Answers a set-up request; maps the ring on the first one that can be met. */
  function Control(s: State, request: Request, attach: byte, grow: bool, ackSent: bool): (r: State)
    ensures r == s.(ring := r.ring, rxCap := r.rxCap, toProducer := r.toProducer)
  {
    if request.Invalid? then s
    else
      var short := s.rxCap < request.cap32;
      var fails := s.ring.Unmapped? && (attach != 0 || (short && !grow));
      var status := if !fails then 0 else if attach != 0 then attach else NO_SCRATCH;
      var t := if s.ring.Unmapped? && !fails
               then s.(ring := Mapped(request.name, request.cap32), rxCap := if short then request.cap32 else s.rxCap)
               else s;
      if ackSent then t.(toProducer := s.toProducer + [SetupAck(status)]) else t
  }

  /** Reads one datagram into the scratch buffer. */
  function PollSocket(s: State, attach: byte, grow: bool, ackSent: bool): (r: State)
    ensures r == s.(ring := r.ring, rxCap := r.rxCap, cons := r.cons,
                    toConsumer := r.toConsumer, toProducer := r.toProducer, h := r.h)
  {
    if !s.cons.CSocket? || s.toConsumer == [] then s
    else
      var f := CutOff(DatagramOf(s.toConsumer[0]), s.rxCap);
      var t := s.(toConsumer := s.toConsumer[1..]);
      if f == [] then t.(cons := CIdle)
      else if |f| == 1 then t.(cons := CPoll(s.cons.max))
      else if f[0] == TAG_CTRL then Control(t.(cons := CPoll(s.cons.max)), ParseRequest(f), attach, grow, ackSent)
      else t.(h := DeliverUds(s.h, f[1..], s.cons.max), cons := CIdle)
  }

  /** The wait for the acknowledgement ends without one. */
  function AckFailed(s: State, rc: Code): (r: State)
    ensures r == s.(sender := r.sender, prod := r.prod, h := r.h)
    ensures r.sender.shmCapacity == s.sender.shmCapacity && r.sender.mapped == s.sender.mapped
  {
    if s.prod.PWait? && rc != OK then HandshakeFailed(s, s.prod.p, rc) else s
  }

  /** The steps that only change what the receiver does next. */
  function Turn(s: State, e: Event): (r: State)
    ensures r == s.(cons := r.cons)
  {
    if e.Recv? && s.cons.CIdle? && e.max >= 2 then s.(cons := CPoll(e.max))
    else if e.SocketQuiet? && s.cons.CSocket? then s.(cons := CPoll(s.cons.max))
    else if e.SocketFailure? && s.cons.CSocket? then s.(cons := CIdle)
    else s
  }

  function Next(s: State, e: Event): (r: State)
    ensures r.sender.shmCapacity == s.sender.shmCapacity
  {
    match e
    case Send(_, _, _, _, _) => StartSend(s, e)
    case AckPoll(mapping, grow) => PollAck(s, mapping, grow)
    case AckFailure(rc) => AckFailed(s, rc)
    case SendTo(rc) => SendDatagram(s, rc)
    case Push(rc) => PushRing(s, rc)
    case RingPoll => PollRing(s)
    case SocketPoll(attach, grow, ackSent) => PollSocket(s, attach, grow, ackSent)
    case _ => Turn(s, e)
  }

  /** Two endpoints just initialised for lazy set-up. */
  function Start(alpha: real, capacity: nat, blocking: bool): State {
    State(Fresh(alpha, capacity), blocking, [], PIdle, Unmapped, UDS_MAX_DGRAM, CIdle, [], [], map[],
          History([], [], [], [], [], [], [], 0))
  }

  function Run(s: State, events: seq<Event>): State {
    if events == [] then s
    else Next(Run(s, events[..|events| - 1]), events[|events| - 1])
  }

  lemma RunOneMore(s: State, events: seq<Event>, e: Event)
    ensures Run(s, events + [e]) == Next(Run(s, events), e)
  {
    assert (events + [e])[..|events|] == events;
  }

  lemma {:induction false} RunConcat(s: State, a: seq<Event>, b: seq<Event>)
    ensures Run(s, a + b) == Run(Run(s, a), b)
    decreases |b|
  {
    if b == [] {
      assert a + b == a;
    } else {
      RunConcat(s, a, b[..|b| - 1]);
      assert (a + b)[..|a + b| - 1] == a + b[..|b| - 1];
    }
  }

  // ---- The invariant ----

  /** Payloads of the data frames in a queue of datagrams. */
  function DataIn(q: seq<Frame>): seq<payload> {
    if q == [] then [] else (if q[0].Data? then [q[0].p] else []) + DataIn(q[1..])
  }

  /** A frame on the way to the receiver: a datagram of data, or the one request the producer makes. */
  predicate Expected(f: Frame, cap32: nat, name: seq<byte>) {
    match f
    case Data(p) => p != [] && FitsDatagram(|p|)
    case SetupReq(c, n) => c == cap32 && n == name && Name(name)
    case SetupAck(_) => false
  }

  ghost predicate SocketInv(q: seq<Frame>, cap32: nat, name: seq<byte>) {
    forall i :: 0 <= i < |q| ==> Expected(q[i], cap32, name)
  }

  /** No acknowledgement reports success before the receiver has mapped the ring. */
  ghost predicate AcksInv(q: seq<Frame>, mapped: bool) {
    forall i :: 0 <= i < |q| ==> q[i].SetupAck? && (q[i].status == 0 ==> mapped)
  }

  /** What the receiver has mapped is what the producer asks for, and its scratch buffer covers it. */
  ghost predicate MappingInv(ring: Mapping, cap32: nat, name: seq<byte>, rxCap: nat) {
    && UDS_MAX_DGRAM <= rxCap <= 0x4000_0000
    && (ring.Mapped? ==> ring == Mapped(name, cap32) && Name(name) && 0 < cap32 <= rxCap)
  }

  ghost predicate AllRecords(q: seq<payload>, capacity: nat) {
    forall i :: 0 <= i < |q| ==> 1 <= |q[i]| < capacity
  }

  /** The ring holds records that were admitted; it is untouched until the producer maps it. */
  ghost predicate RingInv(o: Segment, mapped: bool, capacity: nat, taken: nat, sent: nat) {
    && o.pushed == sent && o.popped == taken
    && (!mapped ==> o == EMPTY)
    && AllRecords(o.queue, capacity)
  }

  /** The payloads of the sends that returned zero, in order. */
  function Accepted(returned: seq<Return>): seq<payload> {
    if returned == [] then []
    else
      Accepted(returned[..|returned| - 1]) +
      (if returned[|returned| - 1].rc == OK then [returned[|returned| - 1].p] else [])
  }

  /** `all` is made up of `a` and `b`, each in its own order. */
  predicate Interleaved(all: seq<payload>, a: seq<payload>, b: seq<payload>) {
    if all == [] then a == [] && b == []
    else
      var first, last := all[..|all| - 1], all[|all| - 1];
      || (a != [] && a[|a| - 1] == last && Interleaved(first, a[..|a| - 1], b))
      || (b != [] && b[|b| - 1] == last && Interleaved(first, a, b[..|b| - 1]))
  }

  /** Every accepted message went to exactly one transport, in order, and no other did. */
  ghost predicate Accounted(returned: seq<Return>, uds: seq<payload>, shm: seq<payload>) {
    Interleaved(Accepted(returned), uds, shm)
  }

  /** What was sent is what was taken followed by what is still underway. */
  ghost predicate Fifo(sent: seq<payload>, taken: seq<payload>, underway: seq<payload>) {
    sent == taken + underway
  }

  /** `d` is `t` with some elements left out. */
  predicate Subsequence(d: seq<payload>, t: seq<payload>) {
    if t == [] then d == []
    else
      || Subsequence(d, t[..|t| - 1])
      || (d != [] && d[|d| - 1] == t[|t| - 1] && Subsequence(d[..|d| - 1], t[..|t| - 1]))
  }

  /** A message that was taken is delivered, in order, or counted as lost. */
  ghost predicate DeliveryInv(h: History) {
    && Subsequence(h.deliveredUds, h.takenUds) && Subsequence(h.deliveredShm, h.takenShm)
    && (h.lost == 0 ==> h.deliveredUds == h.takenUds && h.deliveredShm == h.takenShm)
    && |h.takenUds| + |h.takenShm| == |h.deliveredUds| + |h.deliveredShm| + h.lost
  }

  ghost predicate ControlInv(prod: Producer, mapped: bool, capacity: nat, name: seq<byte>) {
    prod.PIdle? ||
    (&& |prod.p| > 0
     && (prod.PWait? ==> |prod.p| < capacity && !mapped && name != [])
     && (prod.PDatagram? ==> FitsDatagram(|prod.p|))
     && (prod.PPush? ==> |prod.p| < capacity && mapped))
  }

  ghost predicate NameInv(objects: map<seq<byte>, Segment>, name: seq<byte>) {
    if name == [] then objects == map[] else Name(name)
  }

  ghost predicate Inv(s: State) {
    && SocketInv(s.toConsumer, Cap32(s), s.name)
    && AcksInv(s.toProducer, s.ring.Mapped?)
    && MappingInv(s.ring, Cap32(s), s.name, s.rxCap)
    && (s.sender.mapped ==> s.ring.Mapped? && s.sender.shmCapacity >= 2)
    && NameInv(s.objects, s.name)
    && RingInv(Object(s.objects, s.name), s.sender.mapped, s.sender.shmCapacity, |s.h.takenShm|, |s.h.sentShm|)
    && Accounted(s.h.returned, s.h.sentUds, s.h.sentShm)
    && Fifo(s.h.sentUds, s.h.takenUds, DataIn(s.toConsumer))
    && Fifo(s.h.sentShm, s.h.takenShm, Object(s.objects, s.name).queue)
    && DeliveryInv(s.h)
    && ControlInv(s.prod, s.sender.mapped, s.sender.shmCapacity, s.name)
  }

  // ---- Every step keeps the invariant ----

  lemma {:induction false} DataInAppend(q: seq<Frame>, r: seq<Frame>)
    ensures DataIn(q + r) == DataIn(q) + DataIn(r)
  {
    if q == [] {
      assert q + r == r;
    } else {
      assert (q + r)[1..] == q[1..] + r;
      DataInAppend(q[1..], r);
    }
  }

  lemma AcceptedAppend(returned: seq<Return>, r: Return)
    ensures Accepted(returned + [r]) == if r.rc == OK then Accepted(returned) + [r.p] else Accepted(returned)
  {
    assert (returned + [r])[..|returned|] == returned;
  }

  lemma InterleavedAppend(all: seq<payload>, a: seq<payload>, b: seq<payload>, x: payload)
    requires Interleaved(all, a, b)
    ensures Interleaved(all + [x], a + [x], b) && Interleaved(all + [x], a, b + [x])
  {
    assert (all + [x])[..|all|] == all && (a + [x])[..|a|] == a && (b + [x])[..|b|] == b;
  }

  /** One more send has ended. */
  lemma AccountedAppend(returned: seq<Return>, a: seq<payload>, b: seq<payload>, r: Return)
    requires Accounted(returned, a, b)
    ensures r.rc == OK ==>
              Accounted(returned + [r], a + [r.p], b) && Accounted(returned + [r], a, b + [r.p])
    ensures r.rc != OK ==> Accounted(returned + [r], a, b)
  {
    AcceptedAppend(returned, r);
    InterleavedAppend(Accepted(returned), a, b, r.p);
  }

  lemma {:induction false} InterleavedCounts(all: seq<payload>, a: seq<payload>, b: seq<payload>)
    requires Interleaved(all, a, b)
    ensures multiset(all) == multiset(a) + multiset(b)
  {
    if all != [] {
      var first, last := all[..|all| - 1], all[|all| - 1];
      assert all == first + [last];
      if a != [] && a[|a| - 1] == last && Interleaved(first, a[..|a| - 1], b) {
        InterleavedCounts(first, a[..|a| - 1], b);
        assert a == a[..|a| - 1] + [last];
      } else {
        InterleavedCounts(first, a, b[..|b| - 1]);
        assert b == b[..|b| - 1] + [last];
      }
    }
  }

  /** What being interleaved means for each part and for both together. */
  lemma {:induction false} InterleavedMeans(all: seq<payload>, a: seq<payload>, b: seq<payload>)
    requires Interleaved(all, a, b)
    ensures multiset(all) == multiset(a) + multiset(b)
    ensures Subsequence(a, all) && Subsequence(b, all)
  {
    InterleavedCounts(all, a, b);
    if all != [] {
      var first, last := all[..|all| - 1], all[|all| - 1];
      if a != [] && a[|a| - 1] == last && Interleaved(first, a[..|a| - 1], b) {
        InterleavedMeans(first, a[..|a| - 1], b);
      } else {
        InterleavedMeans(first, a, b[..|b| - 1]);
      }
    }
  }

  lemma FifoAppend(sent: seq<payload>, taken: seq<payload>, underway: seq<payload>, x: payload)
    requires Fifo(sent, taken, underway)
    ensures Fifo(sent + [x], taken, underway + [x])
  {
  }

  lemma SubsequenceAppend(d: seq<payload>, t: seq<payload>, x: payload)
    requires Subsequence(d, t)
    ensures Subsequence(d, t + [x]) && Subsequence(d + [x], t + [x])
  {
    assert (t + [x])[..|t|] == t && (d + [x])[..|d|] == d;
  }

  lemma FifoTake(sent: seq<payload>, taken: seq<payload>, x: payload, rest: seq<payload>)
    requires Fifo(sent, taken, [x] + rest)
    ensures Fifo(sent, taken + [x], rest)
  {
  }

  lemma RingAppend(o: Segment, capacity: nat, taken: nat, sent: nat, p: payload)
    requires RingInv(o, true, capacity, taken, sent) && 1 <= |p| < capacity
    ensures RingInv(o.Append(p), true, capacity, taken, sent + 1)
  {
  }

  lemma RingTake(o: Segment, mapped: bool, capacity: nat, taken: nat, sent: nat)
    requires RingInv(o, mapped, capacity, taken, sent) && o.queue != []
    ensures mapped && RingInv(o.Take(), mapped, capacity, taken + 1, sent)
  {
  }

  lemma SocketAppend(q: seq<Frame>, f: Frame, cap32: nat, name: seq<byte>)
    requires SocketInv(q, cap32, name) && Expected(f, cap32, name)
    ensures SocketInv(q + [f], cap32, name)
    ensures DataIn(q + [f]) == DataIn(q) + (if f.Data? then [f.p] else [])
  {
    assert DataIn([f]) == if f.Data? then [f.p] else [];
    DataInAppend(q, [f]);
  }

  lemma SocketTake(q: seq<Frame>, cap32: nat, name: seq<byte>)
    requires SocketInv(q, cap32, name) && q != []
    ensures Expected(q[0], cap32, name) && SocketInv(q[1..], cap32, name)
    ensures DataIn(q) == (if q[0].Data? then [q[0].p] else []) + DataIn(q[1..])
  {
  }

  /** Steps that change only what an endpoint does next. */
  lemma LocalKeeps(s: State, s': State)
    requires Inv(s) && s' == s.(sender := s'.sender, prod := s'.prod, cons := s'.cons)
    requires s'.sender.shmCapacity == s.sender.shmCapacity && s'.sender.mapped == s.sender.mapped
    requires ControlInv(s'.prod, s.sender.mapped, s.sender.shmCapacity, s.name)
    ensures Inv(s')
  {
  }

  lemma EndedKeeps(s: State, p: payload, rc: Code)
    requires Inv(s) && rc != OK
    ensures Inv(Ended(s, p, rc))
  {
    AccountedAppend(s.h.returned, s.h.sentUds, s.h.sentShm, Return(p, rc));
  }

  lemma HandshakeFailedKeeps(s: State, p: payload, rc: Code)
    requires Inv(s) && p != [] && rc != OK
    ensures Inv(HandshakeFailed(s, p, rc))
  {
    var t := s.(sender := AfterFailedHandshake(s.sender, |p|));
    if FitsDatagram(|p|) {
      LocalKeeps(s, t.(prod := PDatagram(p)));
    } else {
      LocalKeeps(s, t);
      EndedKeeps(t, p, Surfaced(rc));
    }
  }

  lemma NamedKeeps(s: State, newName: objectName)
    requires Inv(s) && s.prod.PIdle?
    ensures Inv(Named(s, newName)) && Name(Named(s, newName).name)
  {
    assert SocketInv(s.toConsumer, Cap32(s), Named(s, newName).name);
  }

  lemma RequestedKeeps(s: State)
    requires Inv(s) && Name(s.name)
    ensures Inv(Requested(s))
  {
    SocketAppend(s.toConsumer, SetupReq(Cap32(s), s.name), Cap32(s), s.name);
  }

  lemma NegotiateKeeps(s: State, p: payload, newName: objectName, due: bool, request: Code)
    requires Inv(s) && s.prod.PIdle?
    requires p != [] && |p| < s.sender.shmCapacity && !s.sender.mapped
    ensures Inv(Negotiate(s, p, newName, due, request))
  {
    var named := Named(s, newName);
    NamedKeeps(s, newName);
    if !due {
      LocalKeeps(named, named.(prod := PWait(p)));
    } else if request != OK {
      HandshakeFailedKeeps(named, p, request);
    } else {
      RequestedKeeps(named);
      LocalKeeps(Requested(named), Requested(named).(prod := PWait(p)));
    }
  }

  lemma SetOutKeeps(s: State, st: Sender, decided: Route, e: Event)
    requires Inv(s) && s.prod.PIdle? && e.Send? && e.p != [] && decided != NONE
    requires st.shmCapacity == s.sender.shmCapacity && st.mapped == s.sender.mapped
    ensures Inv(SetOut(s, st, decided, e))
  {
    var route := Escalated(decided, |e.p|);
    var t := s.(sender := Pending(st, |e.p|, route));
    LocalKeeps(s, t);
    if TooLarge(st, route, |e.p|) {
      LocalKeeps(s, s.(sender := st));
      EndedKeeps(s.(sender := st), e.p, EMSGSIZE);
    } else if route == UDS {
      LocalKeeps(t, t.(prod := PDatagram(e.p)));
    } else if s.sender.mapped {
      LocalKeeps(t, t.(prod := PPush(e.p)));
    } else {
      NegotiateKeeps(t, e.p, e.newName, e.due, e.request);
    }
  }

  lemma SendKeeps(s: State, e: Event)
    requires Inv(s) && e.Send?
    ensures Inv(StartSend(s, e))
  {
    if s.prod.PIdle? {
      if e.p == [] {
        EndedKeeps(s, e.p, EINVAL);
      } else {
        var (st, decided) := Classified(s.sender, |e.p|, e.situation);
        SetOutKeeps(s, st, decided, e);
      }
    }
  }

  lemma AckReadKeeps(s: State)
    requires Inv(s) && s.toProducer != []
    ensures Inv(AckRead(s))
    ensures Acknowledges(DatagramOf(s.toProducer[0])) ==> s.ring.Mapped?
  {
  }

  lemma ZeroedKeeps(s: State)
    requires Inv(s) && s.prod.PWait?
    ensures Inv(Zeroed(s)) && Object(Zeroed(s).objects, s.name) == Object(s.objects, s.name)
  {
  }

  lemma MappedKeeps(s: State)
    requires Inv(s) && s.prod.PWait? && s.ring.Mapped?
    ensures Inv(s.(sender := s.sender.(mapped := true), prod := PPush(s.prod.p)))
  {
  }

  lemma AckKeeps(s: State, mapping: Code, grow: bool)
    requires Inv(s)
    ensures Inv(PollAck(s, mapping, grow))
  {
    if s.prod.PWait? && s.toProducer != [] {
      AckReadKeeps(s);
      if Acknowledges(DatagramOf(s.toProducer[0])) {
        ZeroedKeeps(AckRead(s));
        if mapping != OK {
          HandshakeFailedKeeps(AckRead(s), s.prod.p, mapping);
        } else if !grow {
          HandshakeFailedKeeps(Zeroed(AckRead(s)), s.prod.p, EOTHER(12));
        } else {
          MappedKeeps(Zeroed(AckRead(s)));
        }
      }
    }
  }

  lemma PostedKeeps(s: State, p: payload)
    requires Inv(s) && p != [] && FitsDatagram(|p|)
    ensures Inv(Posted(s, p))
  {
    SocketAppend(s.toConsumer, Data(p), Cap32(s), s.name);
    AccountedAppend(s.h.returned, s.h.sentUds, s.h.sentShm, Return(p, OK));
    FifoAppend(s.h.sentUds, s.h.takenUds, DataIn(s.toConsumer), p);
  }

  lemma DatagramKeeps(s: State, rc: Code)
    requires Inv(s)
    ensures Inv(SendDatagram(s, rc))
  {
    if s.prod.PDatagram? {
      var t := s.(sender := AfterDatagram(s.sender, rc));
      LocalKeeps(s, t);
      if rc == OK {
        PostedKeeps(t, s.prod.p);
      } else {
        EndedKeeps(t, s.prod.p, rc);
      }
    }
  }

  lemma PublishKeeps(s: State, p: payload)
    requires Inv(s) && s.sender.mapped && 0 < |p| < s.sender.shmCapacity
    ensures Inv(Published(s, p))
  {
    var o := Object(s.objects, s.name);
    RingAppend(o, s.sender.shmCapacity, |s.h.takenShm|, |s.h.sentShm|, p);
    AccountedAppend(s.h.returned, s.h.sentUds, s.h.sentShm, Return(p, OK));
    FifoAppend(s.h.sentShm, s.h.takenShm, o.queue, p);
  }

  lemma PushKeeps(s: State, rc: Code)
    requires Inv(s)
    ensures Inv(PushRing(s, rc))
  {
    if s.prod.PPush? {
      var p := s.prod.p;
      LocalKeeps(s, s.(sender := AfterPush(s.sender, EMSGSIZE)));
      LocalKeeps(s, s.(sender := AfterPush(s.sender, rc)));
      EndedKeeps(s.(sender := AfterPush(s.sender, EMSGSIZE)), p, EMSGSIZE);
      if rc == OK {
        PublishKeeps(s.(sender := AfterPush(s.sender, rc)), p);
      } else {
        EndedKeeps(s.(sender := AfterPush(s.sender, rc)), p, rc);
      }
    }
  }

  lemma PoppedKeeps(s: State)
    requires Inv(s) && s.ring.Mapped? && Object(s.objects, s.name).queue != [] && s.cons.CPoll?
    ensures Inv(Popped(s))
  {
    var q := Object(s.objects, s.name).queue;
    assert q == [q[0]] + q[1..];
    assert Record(q[0])[1..] == q[0];
    RingTake(Object(s.objects, s.name), s.sender.mapped, s.sender.shmCapacity, |s.h.takenShm|, |s.h.sentShm|);
    FifoTake(s.h.sentShm, s.h.takenShm, q[0], q[1..]);
    SubsequenceAppend(s.h.deliveredShm, s.h.takenShm, q[0]);
  }

  lemma RingPollKeeps(s: State)
    requires Inv(s)
    ensures Inv(PollRing(s))
  {
    if PollRing(s) == s.(cons := PollRing(s).cons) {
      LocalKeeps(s, PollRing(s));
    } else {
      PoppedKeeps(s);
    }
  }

  /** A data frame arrives whole. */
  lemma DataArrives(s: State, attach: byte, grow: bool, ackSent: bool)
    requires Inv(s) && s.cons.CSocket? && s.toConsumer != [] && s.toConsumer[0].Data?
    ensures PollSocket(s, attach, grow, ackSent) ==
            s.(toConsumer := s.toConsumer[1..], h := DeliverUds(s.h, s.toConsumer[0].p, s.cons.max), cons := CIdle)
  {
    var f := s.toConsumer[0];
    assert Expected(f, Cap32(s), s.name);
    assert DatagramOf(f)[1..] == f.p;
  }

  lemma DataPollKeeps(s: State, attach: byte, grow: bool, ackSent: bool)
    requires Inv(s) && s.cons.CSocket? && s.toConsumer != [] && s.toConsumer[0].Data?
    ensures Inv(PollSocket(s, attach, grow, ackSent))
  {
    DataArrives(s, attach, grow, ackSent);
    FifoTake(s.h.sentUds, s.h.takenUds, s.toConsumer[0].p, DataIn(s.toConsumer[1..]));
    SubsequenceAppend(s.h.deliveredUds, s.h.takenUds, s.toConsumer[0].p);
  }

  /** A request arrives whole and is understood. */
  lemma RequestArrives(s: State, attach: byte, grow: bool, ackSent: bool)
    requires Inv(s) && s.cons.CSocket? && s.toConsumer != [] && !s.toConsumer[0].Data?
    ensures PollSocket(s, attach, grow, ackSent) ==
            Control(s.(toConsumer := s.toConsumer[1..], cons := CPoll(s.cons.max)),
                    if 0 < Cap32(s) <= 0x4000_0000 then Request(Cap32(s), s.name) else Invalid,
                    attach, grow, ackSent)
    ensures Name(s.name)
  {
    assert Expected(s.toConsumer[0], Cap32(s), s.name);
    RequestUnderstood(Cap32(s), s.name);
  }

  lemma ControlKeeps(s: State, attach: byte, grow: bool, ackSent: bool)
    requires Inv(s) && Name(s.name) && 0 < Cap32(s) <= 0x4000_0000
    ensures Inv(Control(s, Request(Cap32(s), s.name), attach, grow, ackSent))
  {
  }

  lemma RequestTakenKeeps(s: State)
    requires Inv(s) && s.cons.CSocket? && s.toConsumer != [] && !s.toConsumer[0].Data?
    ensures Inv(s.(toConsumer := s.toConsumer[1..], cons := CPoll(s.cons.max)))
  {
    SocketTake(s.toConsumer, Cap32(s), s.name);
    assert DataIn(s.toConsumer) == DataIn(s.toConsumer[1..]);
  }

  lemma RequestPollKeeps(s: State, attach: byte, grow: bool, ackSent: bool)
    requires Inv(s) && s.cons.CSocket? && s.toConsumer != [] && !s.toConsumer[0].Data?
    ensures Inv(PollSocket(s, attach, grow, ackSent))
  {
    RequestArrives(s, attach, grow, ackSent);
    var t := s.(toConsumer := s.toConsumer[1..], cons := CPoll(s.cons.max));
    RequestTakenKeeps(s);
    if 0 < Cap32(s) <= 0x4000_0000 {
      ControlKeeps(t, attach, grow, ackSent);
    }
  }

  lemma SocketPollKeeps(s: State, attach: byte, grow: bool, ackSent: bool)
    requires Inv(s)
    ensures Inv(PollSocket(s, attach, grow, ackSent))
  {
    if s.cons.CSocket? && s.toConsumer != [] {
      if s.toConsumer[0].Data? {
        DataPollKeeps(s, attach, grow, ackSent);
      } else {
        RequestPollKeeps(s, attach, grow, ackSent);
      }
    }
  }

  lemma AckFailedKeeps(s: State, rc: Code)
    requires Inv(s)
    ensures Inv(AckFailed(s, rc))
  {
    if s.prod.PWait? && rc != OK {
      HandshakeFailedKeeps(s, s.prod.p, rc);
    }
  }

  lemma ProducerStepKeeps(s: State, e: Event)
    requires Inv(s) && (e.Send? || e.AckPoll? || e.AckFailure? || e.SendTo? || e.Push?)
    ensures Inv(Next(s, e))
  {
    match e
    case Send(_, _, _, _, _) => SendKeeps(s, e); assert Next(s, e) == StartSend(s, e);
    case AckPoll(mapping, grow) => AckKeeps(s, mapping, grow); assert Next(s, e) == PollAck(s, mapping, grow);
    case AckFailure(rc) => AckFailedKeeps(s, rc); assert Next(s, e) == AckFailed(s, rc);
    case SendTo(rc) => DatagramKeeps(s, rc); assert Next(s, e) == SendDatagram(s, rc);
    case Push(rc) => PushKeeps(s, rc); assert Next(s, e) == PushRing(s, rc);
  }

  lemma StepKeeps(s: State, e: Event)
    requires Inv(s)
    ensures Inv(Next(s, e))
  {
    match e
    case RingPoll => RingPollKeeps(s);
    case SocketPoll(attach, grow, ackSent) => SocketPollKeeps(s, attach, grow, ackSent);
    case Recv(_) => LocalKeeps(s, Turn(s, e));
    case SocketQuiet => LocalKeeps(s, Turn(s, e));
    case SocketFailure => LocalKeeps(s, Turn(s, e));
    case _ => ProducerStepKeeps(s, e);
  }

  lemma {:induction false} RunKeeps(s: State, events: seq<Event>)
    requires Inv(s)
    ensures Inv(Run(s, events))
    ensures Run(s, events).sender.shmCapacity == s.sender.shmCapacity
  {
    if events != [] {
      RunKeeps(s, events[..|events| - 1]);
      StepKeeps(Run(s, events[..|events| - 1]), events[|events| - 1]);
    }
  }

  // ---- What holds over every run ----

  lemma RunInv(alpha: real, capacity: nat, blocking: bool, events: seq<Event>)
    ensures var s := Run(Start(alpha, capacity, blocking), events);
            Inv(s) && s.sender.shmCapacity == capacity
  {
    RunKeeps(Start(alpha, capacity, blocking), events);
  }

  lemma RoundedAgree(capacity: nat)
    requires Low32(capacity) <= 0x4000_0000
    ensures Cursors.Rounded(Low32(capacity)) == Cursors.Rounded(capacity) <==> capacity < 0x1_0000_0000
  {
    Cursors.RoundedIsLeast(Low32(capacity), 0x4000_0000);
    if capacity < 0x1_0000_0000 {
      assert Low32(capacity) == capacity;
    }
  }

  /**
   The producer takes the ring for mapped only once the receiver has mapped the
   object of the same name with the requested capacity. Both then round to the
   same ring size iff the configured capacity fits the 32 bits it is sent in.
   */
  lemma HandshakeSafety(alpha: real, capacity: nat, blocking: bool, events: seq<Event>)
    ensures var s := Run(Start(alpha, capacity, blocking), events);
            s.sender.mapped ==>
              && s.ring == Mapped(s.name, Low32(capacity)) && Name(s.name)
              && (Cursors.Rounded(s.ring.cap32) == Cursors.Rounded(capacity) <==> capacity < 0x1_0000_0000)
  {
    RunInv(alpha, capacity, blocking, events);
    if Run(Start(alpha, capacity, blocking), events).sender.mapped {
      RoundedAgree(capacity);
    }
  }

  // ---- When set-up can succeed ----

  /** A message of one byte that the cost model sends to the ring. */
  function ToRing(name: objectName): Event {
    var c := Costs(0.0, 0.0, 0.0, 0.0, 0.0, 0.0, 0.0, 0.0, 0.0, map[], BALANCED, 0.0, 0.0);
    Send([0], Situation(COST_AWARE, c, (1.0, 0.0, 0.0, 0.0), false, 0.0, Health.HEALTHY, false, true, 0.0, 1),
         name, true, OK)
  }

  lemma AsksForTheRing(s: State, name: objectName)
    requires s.prod.PIdle? && s.name == [] && s.sender == Fresh(s.sender.alpha, s.sender.shmCapacity)
    requires s.sender.shmCapacity >= 2
    ensures var t := Next(s, ToRing(name));
            && t.prod == PWait([0]) && t.toConsumer == s.toConsumer + [SetupReq(Cap32(s), name)]
            && t == s.(sender := t.sender, prod := t.prod, name := t.name, toConsumer := t.toConsumer)
  {
    var e := ToRing(name);
    var (st, decided) := Classified(s.sender, 1, e.situation);
    assert decided == SHM;
    assert Next(s, e) == SetOut(s, st, SHM, e);
  }

  /** The receiver turns to the socket, maps the ring and acknowledges. */
  lemma Grants(s: State, name: objectName, cap32: nat)
    requires s.cons.CIdle? && s.ring.Unmapped? && s.rxCap >= UDS_MAX_DGRAM
    requires s.toConsumer == [SetupReq(cap32, name)] && 0 < cap32 <= 0x4000_0000
    ensures var t := Next(Next(Next(s, Recv(2)), RingPoll), SocketPoll(0, true, true));
            t == s.(ring := t.ring, rxCap := t.rxCap, cons := t.cons, toConsumer := [],
                    toProducer := s.toProducer + [SetupAck(0)])
  {
    RequestUnderstood(cap32, name);
    var u := Next(Next(s, Recv(2)), RingPoll);
    assert u == s.(cons := CSocket(2));
  }

  lemma TakesTheAck(s: State)
    requires s.prod.PWait? && s.toProducer == [SetupAck(0)]
    ensures Next(s, AckPoll(OK, true)).sender.mapped
  {
  }

  lemma SetupReachable(alpha: real, capacity: nat, blocking: bool) returns (events: seq<Event>)
    requires capacity >= 2 && 0 < Low32(capacity) <= 0x4000_0000
    ensures Run(Start(alpha, capacity, blocking), events).sender.mapped
  {
    var s, name: objectName := Start(alpha, capacity, blocking), [47];
    AsksForTheRing(s, name);
    var asked := Next(s, ToRing(name));
    Grants(asked, name, Low32(capacity));
    var granted := Next(Next(Next(asked, Recv(2)), RingPoll), SocketPoll(0, true, true));
    TakesTheAck(granted);
    events := [];
    RunOneMore(s, events, ToRing(name));
    events := events + [ToRing(name)];
    RunOneMore(s, events, Recv(2));
    events := events + [Recv(2)];
    RunOneMore(s, events, RingPoll);
    events := events + [RingPoll];
    RunOneMore(s, events, SocketPoll(0, true, true));
    events := events + [SocketPoll(0, true, true)];
    RunOneMore(s, events, AckPoll(OK, true));
    events := events + [AckPoll(OK, true)];
  }

  /** Some run sets the ring up iff the low 32 bits of the capacity are in range and a frame of one byte fits. */
  lemma SetupPossibleIff(alpha: real, capacity: nat, blocking: bool)
    ensures (exists events :: Run(Start(alpha, capacity, blocking), events).sender.mapped) <==>
              capacity >= 2 && 0 < Low32(capacity) <= 0x4000_0000
  {
    if capacity >= 2 && 0 < Low32(capacity) <= 0x4000_0000 {
      var events := SetupReachable(alpha, capacity, blocking);
    }
    forall events | Run(Start(alpha, capacity, blocking), events).sender.mapped
      ensures capacity >= 2 && 0 < Low32(capacity) <= 0x4000_0000
    {
      RunInv(alpha, capacity, blocking, events);
    }
  }

  /** Only an acknowledgement makes the producer map the ring, and it goes on to push. */
  lemma MappedByAck(s: State, e: Event)
    requires !s.sender.mapped && Next(s, e).sender.mapped
    ensures e.AckPoll? && Next(s, e).prod.PPush? && Next(s, e).h == s.h
  {
  }

  /**
   Zeroing the cursors is invisible: whatever the acknowledgements and failed
   attempts before it, nothing was pushed or popped when the producer maps the
   ring, and no acknowledgement that it reads changes the ring's contents.
   */
  lemma ZeroedBeforeUse(alpha: real, capacity: nat, blocking: bool, events: seq<Event>, e: Event)
    ensures var s := Run(Start(alpha, capacity, blocking), events);
            var t := Next(s, e);
            && (e.AckPoll? ==> Object(t.objects, t.name) == Object(s.objects, s.name))
            && (!s.sender.mapped && t.sender.mapped ==>
                  e.AckPoll? && Object(s.objects, s.name) == EMPTY && t.h == s.h
                  && s.h.sentShm == [] && s.h.takenShm == [])
  {
    RunInv(alpha, capacity, blocking, events);
    var s := Run(Start(alpha, capacity, blocking), events);
    if !s.sender.mapped && Next(s, e).sender.mapped {
      MappedByAck(s, e);
    }
    if e.AckPoll? {
      ZeroingInvisible(s, e.mapping, e.grow);
    }
  }

  lemma ZeroingInvisible(s: State, mapping: Code, grow: bool)
    requires Inv(s)
    ensures Object(PollAck(s, mapping, grow).objects, s.name) == Object(s.objects, s.name)
  {
    if s.prod.PWait? && s.toProducer != [] {
      AckReadKeeps(s);
      ZeroedKeeps(AckRead(s));
    }
  }

  /**
   The payloads of the sends that returned zero are, in order, those put on the
   two transports, each on exactly one, and no other send put any; each transport
   is taken from once and in order, and all that was taken is delivered, in
   order, or lost to a short buffer.
   */
  lemma ExactlyOnce(alpha: real, capacity: nat, blocking: bool, events: seq<Event>)
    ensures var s := Run(Start(alpha, capacity, blocking), events);
            var accepted := Accepted(s.h.returned);
            && Interleaved(accepted, s.h.sentUds, s.h.sentShm)
            && Subsequence(s.h.sentUds, accepted) && Subsequence(s.h.sentShm, accepted)
            && multiset(accepted) == multiset(s.h.sentUds) + multiset(s.h.sentShm)
            && s.h.sentUds == s.h.takenUds + DataIn(s.toConsumer)
            && s.h.sentShm == s.h.takenShm + Object(s.objects, s.name).queue
            && Subsequence(s.h.deliveredUds, s.h.takenUds) && Subsequence(s.h.deliveredShm, s.h.takenShm)
            && |s.h.takenUds| + |s.h.takenShm| == |s.h.deliveredUds| + |s.h.deliveredShm| + s.h.lost
            && (s.h.lost == 0 ==> s.h.deliveredUds <= s.h.sentUds && s.h.deliveredShm <= s.h.sentShm)
  {
    RunInv(alpha, capacity, blocking, events);
    var h := Run(Start(alpha, capacity, blocking), events).h;
    InterleavedMeans(Accepted(h.returned), h.sentUds, h.sentShm);
  }

  // ---- Sizes ----

  ghost predicate AtMost(q: seq<payload>, limit: nat) {
    forall i :: 0 <= i < |q| ==> |q[i]| <= limit
  }

  /** No message is longer than `limit` and no receive call's buffer is shorter. */
  ghost predicate Sized(e: Event, limit: nat) {
    (e.Send? ==> |e.p| <= limit) && (e.Recv? ==> limit <= e.max)
  }

  ghost predicate SizeInv(s: State, limit: nat) {
    && AtMost(s.h.sentUds, limit) && AtMost(s.h.sentShm, limit)
    && (!s.prod.PIdle? ==> |s.prod.p| <= limit)
    && (!s.cons.CIdle? ==> limit <= s.cons.max)
    && s.h.lost == 0
  }

  lemma UnderwayAtMost(sent: seq<payload>, taken: seq<payload>, underway: seq<payload>, limit: nat)
    requires Fifo(sent, taken, underway) && underway != [] && AtMost(sent, limit)
    ensures |underway[0]| <= limit
  {
    assert sent[|taken|] == underway[0];
  }

  lemma SocketPollSized(s: State, attach: byte, grow: bool, ackSent: bool, limit: nat)
    requires Inv(s) && SizeInv(s, limit)
    ensures SizeInv(PollSocket(s, attach, grow, ackSent), limit)
  {
    if s.cons.CSocket? && s.toConsumer != [] {
      if s.toConsumer[0].Data? {
        DataArrives(s, attach, grow, ackSent);
        UnderwayAtMost(s.h.sentUds, s.h.takenUds, DataIn(s.toConsumer), limit);
      } else {
        RequestArrives(s, attach, grow, ackSent);
      }
    }
  }

  lemma RingPollSized(s: State, limit: nat)
    requires Inv(s) && SizeInv(s, limit)
    ensures SizeInv(PollRing(s), limit)
  {
    var q := Object(s.objects, s.name).queue;
    if s.cons.CPoll? && s.ring.Mapped? && q != [] {
      assert Record(q[0])[1..] == q[0];
      UnderwayAtMost(s.h.sentShm, s.h.takenShm, q, limit);
    }
  }

  lemma AtMostAppend(q: seq<payload>, p: payload, limit: nat)
    requires AtMost(q, limit) && |p| <= limit
    ensures AtMost(q + [p], limit)
  {
  }

  lemma SetOutSized(s: State, st: Sender, decided: Route, e: Event, limit: nat)
    requires SizeInv(s, limit) && e.Send? && |e.p| <= limit
    requires st.shmCapacity == s.sender.shmCapacity && st.mapped == s.sender.mapped
    ensures SizeInv(SetOut(s, st, decided, e), limit)
  {
  }

  lemma SendSized(s: State, e: Event, limit: nat)
    requires SizeInv(s, limit) && e.Send? && |e.p| <= limit
    ensures SizeInv(StartSend(s, e), limit)
  {
    if s.prod.PIdle? && e.p != [] {
      var (st, decided) := Classified(s.sender, |e.p|, e.situation);
      SetOutSized(s, st, decided, e, limit);
    }
  }

  lemma AckSized(s: State, mapping: Code, grow: bool, limit: nat)
    requires SizeInv(s, limit)
    ensures SizeInv(PollAck(s, mapping, grow), limit)
  {
  }

  lemma SendToSized(s: State, rc: Code, limit: nat)
    requires SizeInv(s, limit)
    ensures SizeInv(SendDatagram(s, rc), limit)
  {
    if s.prod.PDatagram? {
      AtMostAppend(s.h.sentUds, s.prod.p, limit);
    }
  }

  lemma PushSized(s: State, rc: Code, limit: nat)
    requires SizeInv(s, limit)
    ensures SizeInv(PushRing(s, rc), limit)
  {
    if s.prod.PPush? {
      AtMostAppend(s.h.sentShm, s.prod.p, limit);
    }
  }

  lemma AckFailedSized(s: State, rc: Code, limit: nat)
    requires SizeInv(s, limit)
    ensures SizeInv(AckFailed(s, rc), limit)
  {
  }

  lemma TurnSized(s: State, e: Event, limit: nat)
    requires SizeInv(s, limit) && Sized(e, limit)
    ensures SizeInv(Turn(s, e), limit)
  {
  }

  lemma StepSized(s: State, e: Event, limit: nat)
    requires Inv(s) && SizeInv(s, limit) && Sized(e, limit)
    ensures SizeInv(Next(s, e), limit)
  {
    match e
    case Send(_, _, _, _, _) => SendSized(s, e, limit);
    case AckPoll(mapping, grow) => AckSized(s, mapping, grow, limit);
    case AckFailure(rc) => AckFailedSized(s, rc, limit);
    case SendTo(rc) => SendToSized(s, rc, limit);
    case Push(rc) => PushSized(s, rc, limit);
    case RingPoll => RingPollSized(s, limit);
    case SocketPoll(attach, grow, ackSent) => SocketPollSized(s, attach, grow, ackSent, limit);
    case _ => TurnSized(s, e, limit);
  }

  /** With receive buffers at least as large as every message, every message that is taken is delivered. */
  lemma {:induction false} NothingLost(alpha: real, capacity: nat, blocking: bool, events: seq<Event>, limit: nat)
    requires forall i :: 0 <= i < |events| ==> Sized(events[i], limit)
    ensures var s := Run(Start(alpha, capacity, blocking), events);
            SizeInv(s, limit) && s.h.deliveredUds == s.h.takenUds && s.h.deliveredShm == s.h.takenShm
  {
    RunInv(alpha, capacity, blocking, events);
    if events != [] {
      var first := events[..|events| - 1];
      NothingLost(alpha, capacity, blocking, first, limit);
      RunInv(alpha, capacity, blocking, first);
      StepSized(Run(Start(alpha, capacity, blocking), first), events[|events| - 1], limit);
    }
  }

  /** Payload lengths that the router and the ring admit. */
  predicate Admissible(n: nat, capacity: nat) {
    0 < n < capacity && n + 1 <= Cursors.Rounded(capacity) - 8
  }

  lemma AdmissibleFits(capacity: nat, rxCap: nat)
    requires UDS_MAX_DGRAM <= rxCap <= 0x4000_0000 && Low32(capacity) <= rxCap
    ensures (forall n: nat :: Admissible(n, capacity) ==> n + 1 <= rxCap) <==> capacity < 0x1_0000_0000
  {
    if capacity < 0x1_0000_0000 {
      assert Low32(capacity) == capacity;
    } else {
      assert Admissible(0x4000_0000, capacity);
    }
  }

  lemma PollTakes(s: State)
    requires Inv(s) && s.sender.shmCapacity < 0x1_0000_0000
    requires s.cons.CPoll? && s.ring.Mapped? && Object(s.objects, s.ring.name).queue != []
    ensures PollRing(s).h.takenShm == s.h.takenShm + [Object(s.objects, s.ring.name).queue[0]]
  {
    assert Low32(s.sender.shmCapacity) == s.sender.shmCapacity;
    var o := Object(s.objects, s.name);
    assert |o.queue[0]| < s.sender.shmCapacity;
    assert Record(o.queue[0])[1..] == o.queue[0];
  }

  /**
   Once the ring is mapped on both sides, the receiver's scratch buffer holds
   every record the producer may push iff the configured capacity fits 32 bits;
   a poll of a ring with records then always takes one.
   */
  lemma ScratchSuffices(alpha: real, capacity: nat, blocking: bool, events: seq<Event>)
    ensures var s := Run(Start(alpha, capacity, blocking), events);
            && (s.sender.mapped ==>
                  ((forall n: nat :: Admissible(n, capacity) ==> n + 1 <= s.rxCap) <==> capacity < 0x1_0000_0000))
            && (capacity < 0x1_0000_0000 && s.ring.Mapped? && s.cons.CPoll?
                  && Object(s.objects, s.ring.name).queue != [] ==>
                  PollRing(s).h.takenShm == s.h.takenShm + [Object(s.objects, s.ring.name).queue[0]])
  {
    RunInv(alpha, capacity, blocking, events);
    var s := Run(Start(alpha, capacity, blocking), events);
    if s.sender.mapped {
      AdmissibleFits(capacity, s.rxCap);
    }
    if capacity < 0x1_0000_0000 && s.ring.Mapped? && s.cons.CPoll? && Object(s.objects, s.ring.name).queue != [] {
      PollTakes(s);
    }
  }
}
