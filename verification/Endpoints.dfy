/**
 The receiver's loop and the sender's steps as the program runs them, the first
 on fields updated in place. A receive call is shown to be a run of Channel's
 steps with whatever the sender does meanwhile, so what holds over every run
 holds for every sequence of these calls.
 */
module Endpoints {
  import opened Bytes
  import opened Codes
  import opened CostModel
  import Router
  import opened Wire
  import opened Channel
  import Cursors

  /** How one receive call ended; Waiting means that it is still in its loop. */
  datatype Received = Got(p: payload) | Failed(rc: Code) | EmptyDatagram | Waiting

  /** What the system answers when a datagram turns out to be a set-up request. */
  datatype Answer = Answer(attach: byte, grow: bool, ackSent: bool)

  /**
   One turn of the receive loop: what the sender does before the ring is polled
   and before the socket is, and the system's answers; `error` is OK unless
   reading the socket fails.
   */
  datatype Poll = Poll(before: seq<Event>, between: seq<Event>, answer: Answer, error: Code)

  predicate OfSender(e: Event) {
    e.Send? || e.AckPoll? || e.AckFailure? || e.SendTo? || e.Push?
  }

  predicate BySender(events: seq<Event>) {
    forall i :: 0 <= i < |events| ==> OfSender(events[i])
  }

  predicate Meanwhile(polls: seq<Poll>) {
    forall i :: 0 <= i < |polls| ==> BySender(polls[i].before) && BySender(polls[i].between)
  }

  /** The sender stands still. */
  predicate StandsStill(polls: seq<Poll>) {
    forall i :: 0 <= i < |polls| ==> polls[i].before == [] && polls[i].between == []
  }

  /** The errors with which reading the socket can fail. */
  function Errors(polls: seq<Poll>): set<Code> {
    set i | 0 <= i < |polls| && polls[i].error != OK :: polls[i].error
  }

  /** The sender's events of the first polls, in order. */
  function Others(polls: seq<Poll>): seq<Event> {
    if polls == [] then []
    else Others(polls[..|polls| - 1]) + polls[|polls| - 1].before + polls[|polls| - 1].between
  }

  lemma {:induction false} OthersSoFar(polls: seq<Poll>, i: nat)
    requires i < |polls|
    ensures Others(polls[..i + 1]) == Others(polls[..i]) + polls[i].before + polls[i].between
    ensures Others(polls[..i + 1]) <= Others(polls)
    ensures Others(polls[..i]) + polls[i].before <= Others(polls)
    decreases |polls|
  {
    assert polls[..i + 1][..i] == polls[..i];
    var n := |polls| - 1;
    if i < n {
      OthersSoFar(polls[..n], i);
      assert polls[..n][..i + 1] == polls[..i + 1] && polls[..n][..i] == polls[..i];
    } else {
      assert polls[..i + 1] == polls;
    }
  }

  /** The sender's events of a run. */
  function SenderPart(events: seq<Event>): seq<Event> {
    if events == [] then []
    else
      var last := events[|events| - 1];
      SenderPart(events[..|events| - 1]) + (if OfSender(last) then [last] else [])
  }

  lemma {:induction false} SenderPartAppend(a: seq<Event>, b: seq<Event>)
    ensures SenderPart(a + b) == SenderPart(a) + SenderPart(b)
    decreases |b|
  {
    if b == [] {
      assert a + b == a;
    } else {
      SenderPartAppend(a, b[..|b| - 1]);
      assert (a + b)[..|a + b| - 1] == a + b[..|b| - 1];
    }
  }

  lemma {:induction false} SenderPartAll(events: seq<Event>)
    requires BySender(events)
    ensures SenderPart(events) == events
  {
    if events != [] {
      SenderPartAll(events[..|events| - 1]);
    }
  }

  /** The sender's part of what a turn adds: some steps of its own, then one of the receiver. */
  lemma SenderPartGrows(events: seq<Event>, own: seq<Event>, e: Event)
    requires BySender(own) && !OfSender(e)
    ensures SenderPart(events + own + [e]) == SenderPart(events) + own
  {
    SenderPartAppend(events, own);
    SenderPartAll(own);
    assert (events + own + [e])[..|events + own|] == events + own;
  }

  /** Nothing was received meanwhile. */
  predicate SameReceived(before: History, after: History) {
    after == before.(returned := after.returned, sentUds := after.sentUds, sentShm := after.sentShm)
  }

  /** What the sender's events leave alone. */
  predicate ReceiverSame(s: State, t: State) {
    t.cons == s.cons && t.ring == s.ring && t.rxCap == s.rxCap && SameReceived(s.h, t.h)
  }

  lemma SenderStepLeaves(s: State, e: Event)
    requires OfSender(e)
    ensures ReceiverSame(s, Next(s, e))
  {
    match e
    case Send(_, _, _, _, _) => StartSendLeaves(s, e);
    case AckPoll(mapping, grow) => PollAckLeaves(s, mapping, grow);
    case _ =>
  }

  lemma PollAckLeaves(s: State, mapping: Code, grow: bool)
    ensures ReceiverSame(s, PollAck(s, mapping, grow))
  {
  }

  lemma StartSendLeaves(s: State, e: Event)
    requires e.Send?
    ensures ReceiverSame(s, StartSend(s, e))
  {
    if s.prod.PIdle? && e.p != [] {
      var (st, decided) := Router.Classified(s.sender, |e.p|, e.situation);
      SetOutLeaves(s, st, decided, e);
    }
  }

  lemma SetOutLeaves(s: State, st: Router.Sender, decided: Route, e: Event)
    requires e.Send? && st.shmCapacity == s.sender.shmCapacity && st.mapped == s.sender.mapped
    ensures ReceiverSame(s, SetOut(s, st, decided, e))
  {
  }

  lemma {:induction false} SenderLeaves(s: State, events: seq<Event>)
    requires BySender(events)
    ensures ReceiverSame(s, Run(s, events))
  {
    if events != [] {
      SenderLeaves(s, events[..|events| - 1]);
      SenderStepLeaves(Run(s, events[..|events| - 1]), events[|events| - 1]);
    }
  }

  /** A receive call of an idle receiver starts to poll iff its buffer has at least two bytes. */
  lemma RecvStarts(s: State, max: nat)
    requires s.cons.CIdle?
    ensures Next(s, Recv(max)) == if max >= 2 then s.(cons := CPoll(max)) else s
  {
  }

  lemma RunRingPoll(s: State, events: seq<Event>)
    ensures Run(s, events + [RingPoll]) == PollRing(Run(s, events))
  {
    RunOneMore(s, events, RingPoll);
  }

  lemma RunQuiet(s: State, events: seq<Event>)
    requires Run(s, events).cons.CSocket?
    ensures var r := Run(s, events);
            Run(s, events + [SocketQuiet]) == r.(cons := CPoll(r.cons.max))
  {
    RunOneMore(s, events, SocketQuiet);
    QuietIs(Run(s, events));
  }

  lemma QuietIs(s: State)
    requires s.cons.CSocket?
    ensures Next(s, SocketQuiet) == s.(cons := CPoll(s.cons.max))
    ensures Next(s, SocketFailure) == s.(cons := CIdle)
  {
  }

  lemma RunFailure(s: State, events: seq<Event>)
    requires Run(s, events).cons.CSocket?
    ensures Run(s, events + [SocketFailure]) == Run(s, events).(cons := CIdle)
  {
    RunOneMore(s, events, SocketFailure);
    QuietIs(Run(s, events));
  }

  lemma RunSocketPoll(s: State, events: seq<Event>, a: Answer)
    ensures Run(s, events + [SocketPoll(a.attach, a.grow, a.ackSent)]) ==
            PollSocket(Run(s, events), a.attach, a.grow, a.ackSent)
  {
    RunOneMore(s, events, SocketPoll(a.attach, a.grow, a.ackSent));
  }

  /**
   A call that returned a payload delivered just that one; any other delivered
   nothing, and EMSGSIZE is what one returns that lost a message to a short buffer.
   */
  ghost predicate DeliversJust(before: History, after: History, r: Received) {
    if r.Got? then
      after.lost == before.lost &&
      (|| (after.deliveredShm == before.deliveredShm + [r.p] && after.takenShm == before.takenShm + [r.p]
          && after.deliveredUds == before.deliveredUds && after.takenUds == before.takenUds)
      || (after.deliveredUds == before.deliveredUds + [r.p] && after.takenUds == before.takenUds + [r.p]
          && after.deliveredShm == before.deliveredShm && after.takenShm == before.takenShm))
    else
      && after.deliveredUds == before.deliveredUds && after.deliveredShm == before.deliveredShm
      && (after.lost == before.lost || (after.lost == before.lost + 1 && r == Failed(EMSGSIZE)))
  }

  lemma DeliversLater(before: History, same: History, after: History, r: Received)
    requires SameReceived(before, same) && DeliversJust(same, after, r)
    ensures DeliversJust(before, after, r)
  {
  }

  /** The sender's steps give what they give when only its part and the shared part are taken over. */
  lemma Reassembled(s: State, t: State)
    requires ReceiverSame(s, t)
    ensures t == t.(ring := s.ring, rxCap := s.rxCap, cons := s.cons)
  {
  }

  class Receiver {
    var ring: Mapping
    var rxCap: nat
    var inbox: seq<Frame>
    var outbox: seq<Frame>
    var objects: map<seq<byte>, Segment>
    var h: History

    /** The system with this receiver between two calls; `peer` supplies the sender's part. */
    function Value(peer: State, cons: Channel.Consumer): State
      reads this
    {
      peer.(ring := ring, rxCap := rxCap, cons := cons, toConsumer := inbox, toProducer := outbox,
            objects := objects, h := h)
    }

    constructor (s: State)
      ensures Value(s, s.cons) == s
    {
      ring, rxCap, inbox, outbox, objects, h := s.ring, s.rxCap, s.toConsumer, s.toProducer, s.objects, s.h;
    }

    method GrowRxbuf(cap: nat, grow: bool) returns (ok: bool)
      modifies `rxCap
      ensures ok <==> grow || old(rxCap) >= cap
      ensures rxCap == if ok && old(rxCap) < cap then cap else old(rxCap)
    {
      if rxCap >= cap { return true; }
      if !grow { return false; }
      rxCap := cap;
      return true;
    }

    method HandleControl(f: seq<byte>, a: Answer, ghost peer: State, ghost cons: Channel.Consumer)
      modifies `ring, `rxCap, `outbox
      ensures Value(peer, cons) == Control(old(Value(peer, cons)), ParseRequest(f), a.attach, a.grow, a.ackSent)
      ensures ParseRequest(f).Invalid? ==> ring == old(ring) && rxCap == old(rxCap) && outbox == old(outbox)
      ensures ParseRequest(f).Request? && old(ring).Mapped? ==>
                ring == old(ring) && rxCap == old(rxCap) && outbox == old(outbox) + Says(a.ackSent, 0)
      ensures ParseRequest(f).Request? && old(ring).Unmapped? ==>
                var want, name := ParseRequest(f).cap32, ParseRequest(f).name;
                if a.attach != 0 then
                  ring.Unmapped? && rxCap == old(rxCap) && outbox == old(outbox) + Says(a.ackSent, a.attach)
                else if old(rxCap) < want && !a.grow then
                  ring.Unmapped? && rxCap == old(rxCap) && outbox == old(outbox) + Says(a.ackSent, 244)
                else
                  && ring == Mapped(name, want) && rxCap == (if old(rxCap) < want then want else old(rxCap))
                  && outbox == old(outbox) + Says(a.ackSent, 0)
    {
      var request := ParseRequest(f);
      if request.Invalid? { return; }
      var status := 0;
      if ring.Unmapped? {
        if a.attach != 0 {
          status := a.attach;
        } else {
          ring := Mapped(request.name, request.cap32);
          var ok := GrowRxbuf(request.cap32, a.grow);
          if !ok {
            ring := Unmapped;
            status := NO_SCRATCH;
          }
        }
      }
      if a.ackSent { outbox := outbox + [SetupAck(status)]; }
    }

    /** The next record in the ring does not fit the scratch buffer. */
    predicate FrontTooLong()
      reads this
    {
      && ring.Mapped? && Object(objects, ring.name).queue != []
      && rxCap < |Object(objects, ring.name).queue[0]| + 1
    }

    /** Polls the ring once: nothing there, a record taken, or a record that does not fit. */
    method PollRecord(max: nat, ghost peer: State) returns (n: Code, p: payload)
      modifies `objects, `h
      ensures n == EAGAIN ==> Value(peer, CSocket(max)) == PollRing(old(Value(peer, CPoll(max))))
      ensures n != EAGAIN ==> Value(peer, CIdle) == PollRing(old(Value(peer, CPoll(max))))
      ensures n == EAGAIN ==> ring.Unmapped? || Object(objects, ring.name).queue == []
      ensures n == EMSGSIZE ==> FrontTooLong()
      ensures n in {OK, EAGAIN, EMSGSIZE} && h == if n == OK then DeliverShm(old(h), p, max) else old(h)
    {
      p := [];
      if ring.Unmapped? { return EAGAIN, p; }
      var o := Object(objects, ring.name);
      if o.queue == [] { return EAGAIN, p; }
      var f := Record(o.queue[0]);
      if rxCap < |f| { return EMSGSIZE, p; }
      p := f[1..];
      objects := Stored(objects, ring.name, Segment(o.pushed, o.popped + 1, o.queue[1..]));
      h := DeliverShm(h, p, max);
      return OK, p;
    }

    /** Reads one datagram: data ends the call, anything else that is not empty lets it go on. */
    method PollDatagram(max: nat, a: Answer, ghost peer: State) returns (done: bool, r: Received)
      requires inbox != []
      modifies this
      ensures Value(peer, if done then CIdle else CPoll(max)) ==
              PollSocket(old(Value(peer, CSocket(max))), a.attach, a.grow, a.ackSent)
      ensures inbox == old(inbox)[1..]
      ensures !done ==> h == old(h)
      ensures done ==> DeliversJust(old(h), h, r) && !r.Waiting?
      ensures done && r.Failed? ==> h.lost == old(h.lost) + 1
    {
      var f := CutOff(DatagramOf(inbox[0]), rxCap);
      inbox := inbox[1..];
      if |f| == 0 { return true, EmptyDatagram; }
      if |f| == 1 { return false, Waiting; }
      if f[0] == TAG_CTRL {
        HandleControl(f, a, peer, CPoll(max));
        return false, Waiting;
      }
      h := DeliverUds(h, f[1..], max);
      return true, if max < |f[1..]| then Failed(EMSGSIZE) else Got(f[1..]);
    }

    /** The sender takes some steps. */
    method Elsewhere(turn: seq<Event>, peer: State, cons: Channel.Consumer,
                     ghost start: State, ghost events: seq<Event>)
      returns (next: State)
      requires BySender(turn) && Value(peer, cons) == Run(start, events)
      modifies `inbox, `outbox, `objects, `h
      ensures Value(next, cons) == Run(start, events + turn)
      ensures ReceiverSame(old(Value(peer, cons)), Value(next, cons))
      ensures turn == [] ==> inbox == old(inbox) && objects == old(objects) && h == old(h)
    {
      ghost var before := Value(peer, cons);
      next := Run(Value(peer, cons), turn);
      SenderLeaves(before, turn);
      RunConcat(start, events, turn);
      inbox, outbox, objects, h := next.toConsumer, next.toProducer, next.objects, next.h;
      Reassembled(before, next);
    }

    /** Nothing to take on either transport. */
    predicate NothingThere()
      reads this
    {
      inbox == [] && (ring.Unmapped? || Object(objects, ring.name).queue == [])
    }

    /** One turn of the loop's first half: the sender's steps, then the ring. */
    method RingHalf(max: nat, turn: seq<Event>, peer: State, ghost start: State, ghost events: seq<Event>)
      returns (done: bool, r: Received, next: State, ghost more: seq<Event>)
      requires BySender(turn) && Value(peer, CPoll(max)) == Run(start, events)
      modifies `inbox, `outbox, `objects, `h
      ensures more == events + turn + [RingPoll] && SenderPart(more) == SenderPart(events) + turn
      ensures Value(next, if done then CIdle else CSocket(max)) == Run(start, more)
      ensures done ==> DeliversJust(old(h), h, r) && !r.Waiting?
      ensures !done ==> SameReceived(old(h), h)
      ensures done && r.Failed? && h.lost == old(h.lost) ==> r.rc == EMSGSIZE && FrontTooLong()
      ensures !done && turn == [] ==>
                inbox == old(inbox) && h == old(h) && (ring.Unmapped? || Object(objects, ring.name).queue == [])
    {
      next := Elsewhere(turn, peer, CPoll(max), start, events);
      ghost var same := h;
      var n, p := PollRecord(max, next);
      RunRingPoll(start, events + turn);
      SenderPartGrows(events, turn, RingPoll);
      more := events + turn + [RingPoll];
      done, r := n != EAGAIN, if n == OK && |p| <= max then Got(p) else Failed(EMSGSIZE);
      if done { DeliversLater(old(h), same, h, r); }
    }

    /** The socket is read, or found empty until the wait for it ends, or fails. */
    method ReadSocket(max: nat, a: Answer, error: Code, ghost peer: State,
                      ghost start: State, ghost events: seq<Event>)
      returns (done: bool, r: Received, ghost e: Event)
      requires Value(peer, CSocket(max)) == Run(start, events)
      modifies this
      ensures !OfSender(e) && Value(peer, if done then CIdle else CPoll(max)) == Run(start, events + [e])
      ensures done ==> DeliversJust(old(h), h, r) && !r.Waiting?
      ensures !done ==> h == old(h)
      ensures error != OK ==> done && r == Failed(error) && inbox == old(inbox)
      ensures done && r.Failed? && h.lost == old(h.lost) ==> r.rc == error != OK
      ensures !done && old(inbox) == [] ==> inbox == [] && ring == old(ring) && objects == old(objects)
      ensures error == OK && old(inbox) != [] ==> inbox == old(inbox)[1..]
    {
      if error != OK {
        RunFailure(start, events);
        return true, Failed(error), SocketFailure;
      }
      if inbox == [] {
        RunQuiet(start, events);
        return false, Waiting, SocketQuiet;
      }
      RunSocketPoll(start, events, a);
      e := SocketPoll(a.attach, a.grow, a.ackSent);
      done, r := PollDatagram(max, a, peer);
    }

    /** The second half: the sender's steps, then the socket. */
    method SocketHalf(max: nat, turn: seq<Event>, a: Answer, error: Code, peer: State,
                      ghost start: State, ghost events: seq<Event>)
      returns (done: bool, r: Received, next: State, ghost more: seq<Event>)
      requires BySender(turn) && Value(peer, CSocket(max)) == Run(start, events)
      modifies this
      ensures SenderPart(more) == SenderPart(events) + turn
      ensures Value(next, if done then CIdle else CPoll(max)) == Run(start, more)
      ensures done ==> DeliversJust(old(h), h, r) && !r.Waiting?
      ensures done && r.Failed? && h.lost == old(h.lost) ==> r.rc == error != OK
      ensures !done ==> SameReceived(old(h), h)
      ensures !done && turn == [] ==> h == old(h)
      ensures !done && turn == [] && old(inbox) == [] ==>
                inbox == [] && ring == old(ring) && objects == old(objects)
      ensures !done && turn == [] && old(inbox) != [] ==> inbox == old(inbox)[1..]
    {
      next := Elsewhere(turn, peer, CSocket(max), start, events);
      ghost var same := h;
      ghost var e;
      done, r, e := ReadSocket(max, a, error, next, start, events + turn);
      SenderPartGrows(events, turn, e);
      more := events + turn + [e];
      if done { DeliversLater(old(h), same, h, r); }
    }

    /** One turn of the loop. */
    method PollBoth(max: nat, poll: Poll, before: State, ghost start: State, ghost events: seq<Event>)
      returns (done: bool, r: Received, peer: State, ghost more: seq<Event>)
      requires BySender(poll.before) && BySender(poll.between) && Value(before, CPoll(max)) == Run(start, events)
      modifies this
      ensures SenderPart(more) == SenderPart(events) + poll.before ||
              SenderPart(more) == SenderPart(events) + poll.before + poll.between
      ensures !done ==> SenderPart(more) == SenderPart(events) + poll.before + poll.between
      ensures Value(peer, if done then CIdle else CPoll(max)) == Run(start, more)
      ensures done ==> DeliversJust(old(h), h, r) && !r.Waiting?
      ensures done && r.Failed? && h.lost == old(h.lost) ==>
                r.rc == poll.error != OK || (r.rc == EMSGSIZE && FrontTooLong())
      ensures !done ==> SameReceived(old(h), h)
      ensures !done && poll.before == poll.between == [] ==>
                h == old(h) && (if old(inbox) == [] then NothingThere() else inbox == old(inbox)[1..])
    {
      done, r, peer, more := RingHalf(max, poll.before, before, start, events);
      if !done {
        ghost var same := h;
        done, r, peer, more := SocketHalf(max, poll.between, poll.answer, poll.error, peer, start, more);
        if done { DeliversLater(old(h), same, h, r); }
      }
    }

    method AdaptRecv(max: nat, polls: seq<Poll>, before: State)
      returns (r: Received, peer: State, ghost events: seq<Event>)
      requires Meanwhile(polls)
      modifies this
      ensures Value(peer, CIdle) == Run(old(Value(before, CIdle)), events).(cons := CIdle)
      ensures SenderPart(events) <= Others(polls)
      ensures max == 0 ==> r == Failed(EINVAL) && events == []
      ensures max == 1 ==> r == Failed(EMSGSIZE) && events == []
      ensures DeliversJust(old(h), h, r)
      ensures max >= 2 && r.Failed? && h.lost == old(h.lost) ==>
                r.rc in Errors(polls) || (r.rc == EMSGSIZE && FrontTooLong())
      ensures r.Waiting? && StandsStill(polls) && |polls| > |old(inbox)| ==> NothingThere() && h == old(h)
    {
      events, peer := [], before;
      if max == 0 { return Failed(EINVAL), peer, events; }
      if max < 2 { return Failed(EMSGSIZE), peer, events; }
      ghost var start := Value(peer, CIdle);
      RunOneMore(start, [], Recv(max));
      SenderPartGrows([], [], Recv(max));
      events := [] + [] + [Recv(max)];
      for i := 0 to |polls|
        invariant Value(peer, CPoll(max)) == Run(start, events)
        invariant SenderPart(events) == Others(polls[..i]) <= Others(polls)
        invariant SameReceived(old(h), h)
        invariant StandsStill(polls) ==> h == old(h) && (NothingThere() || i + |inbox| <= |old(inbox)|)
      {
        OthersSoFar(polls, i);
        var done;
        ghost var same := h;
        done, r, peer, events := PollBoth(max, polls[i], peer, start, events);
        if done {
          DeliversLater(old(h), same, h, r);
          return;
        }
      }
      r := Waiting;
    }
  }

  // ---- The sender's steps make up a whole send ----

  /** The end of the wait for an acknowledgement, with the answer `rc`. */
  function Negotiated(s: State, rc: Code): State {
    if !s.prod.PWait? then s
    else if rc == OK then s.(sender := s.sender.(mapped := true), prod := PPush(s.prod.p))
    else HandshakeFailed(s, s.prod.p, rc)
  }

  /** The transmission, if the send got that far. */
  function Transmitted(s: State, push: Code, uds: Code): State {
    if s.prod.PDatagram? then SendDatagram(s, uds) else PushRing(s, push)
  }

  /** Answers a ring can give to this push. */
  predicate PushAnswer(s: State, size: nat, push: Code) {
    && (size + 1 > Cursors.Rounded(s.sender.shmCapacity) - 8 <==> push == EMSGSIZE)
    && (push == EAGAIN ==> !s.blocking)
  }

  /** The state after sending `e.p` agrees with the outcome of a whole send. */
  predicate Agrees(s: State, t: State, p: payload, sent: Router.Sent) {
    && t.prod.PIdle? && t.sender == sent.st
    && t.h.sentUds == s.h.sentUds + (if sent.put == UDS then [p] else [])
    && t.h.sentShm == s.h.sentShm + (if sent.put == SHM then [p] else [])
    && t.h.returned == s.h.returned + [Return(p, sent.rc)]
  }

  lemma PushAgrees(s: State, o: Router.Outcome)
    requires s.prod.PPush? && PushAnswer(s, |s.prod.p|, o.push)
    ensures Agrees(s, PushRing(s, o.push), s.prod.p, Router.PushSent(s.sender, o))
  {
  }

  lemma DatagramAgrees(s: State, o: Router.Outcome)
    requires s.prod.PDatagram?
    ensures Agrees(s, SendDatagram(s, o.uds), s.prod.p, Router.DatagramSent(s.sender, o))
  {
  }

  /** Where a handshake leads: on to the push, to a datagram, or to an end of the send. */
  lemma NegotiatedIs(t: State, e: Event, rc: Code)
    requires e.Send? && (e.due && e.request != OK ==> rc == e.request)
    ensures var n := Negotiated(Negotiate(t, e.p, e.newName, e.due, e.request), rc);
            && n.h == (if !n.prod.PIdle? then t.h
                       else t.h.(returned := t.h.returned + [Return(e.p, Router.Surfaced(rc))]))
            && n.blocking == t.blocking
            && n.prod == (if rc == OK then PPush(e.p) else if Router.FitsDatagram(|e.p|) then PDatagram(e.p) else PIdle)
            && n.sender == (if rc == OK then t.sender.(mapped := true)
                            else Router.AfterFailedHandshake(t.sender, |e.p|))
  {
  }

  lemma HandshakeAgrees(t: State, e: Event, o: Router.Outcome)
    requires e.Send? && PushAnswer(t, |e.p|, o.push) && (e.due && e.request != OK ==> o.negotiate == e.request)
    ensures var n := Negotiated(Negotiate(t, e.p, e.newName, e.due, e.request), o.negotiate);
            Agrees(t, Transmitted(n, o.push, o.uds), e.p, Router.HandshakeSent(t.sender, |e.p|, o))
  {
    NegotiatedIs(t, e, o.negotiate);
    var n := Negotiated(Negotiate(t, e.p, e.newName, e.due, e.request), o.negotiate);
    if n.prod.PPush? {
      PushAgrees(n, o);
    } else if n.prod.PDatagram? {
      DatagramAgrees(n, o);
    }
  }

  lemma CarriedAgrees(s: State, st: Router.Sender, decided: Route, e: Event, o: Router.Outcome)
    requires s.prod.PIdle? && e.Send? && PushAnswer(s, |e.p|, o.push) && decided != NONE
    requires st.shmCapacity == s.sender.shmCapacity && st.mapped == s.sender.mapped
    requires e.due && e.request != OK ==> o.negotiate == e.request
    ensures Agrees(s, Transmitted(Negotiated(SetOut(s, st, decided, e), o.negotiate), o.push, o.uds), e.p,
                   Router.Carried(st, decided, |e.p|, o))
  {
    var route := Router.Escalated(decided, |e.p|);
    var t := s.(sender := Router.Pending(st, |e.p|, route));
    if !Router.TooLarge(st, route, |e.p|) {
      if route == UDS {
        DatagramAgrees(t.(prod := PDatagram(e.p)), o);
      } else if st.mapped {
        PushAgrees(t.(prod := PPush(e.p)), o);
      } else {
        HandshakeAgrees(t, e, o);
      }
    }
  }

  /**
   Taken one after the other, the sender's steps amount to the whole send of
   Router: the same code, routing state and transport for the data frame.
   */
  lemma StepsMakeASend(s: State, e: Event, o: Router.Outcome)
    requires s.prod.PIdle? && e.Send? && o.situation == e.situation && PushAnswer(s, |e.p|, o.push)
    requires e.due && e.request != OK ==> o.negotiate == e.request
    ensures Agrees(s, Transmitted(Negotiated(StartSend(s, e), o.negotiate), o.push, o.uds), e.p,
                   Router.SendResult(s.sender, |e.p|, o))
  {
    if e.p != [] {
      var (st, decided) := Router.Classified(s.sender, |e.p|, e.situation);
      CarriedAgrees(s, st, decided, e, o);
    }
  }
}
