/**
 What the two sides of the lazy set-up answer, in every state that a run of
 Channel reaches, and that set-up never becomes impossible.
 */
module Handshake {
  import opened Bytes
  import opened Codes
  import opened CostModel
  import opened Router
  import opened Wire
  import opened Channel

  // ---- Answers ----

  /** The receiver has just read a request: `mapping` and `rxCap` are what it then has, `answer` what it says. */
  predicate Answered(s: State, t: State, mapping: Mapping, rxCap: nat, answer: seq<Frame>)
    requires s.cons.CSocket? && s.toConsumer != []
  {
    t == s.(toConsumer := s.toConsumer[1..], cons := CPoll(s.cons.max),
            ring := mapping, rxCap := rxCap, toProducer := s.toProducer + answer)
  }

  /** The receiver's answers to a request for the ring `name` of `want` bytes. */
  predicate AnswersRequest(s: State, t: State, want: nat, attach: byte, grow: bool, ackSent: bool)
    requires s.cons.CSocket? && s.toConsumer != []
  {
    if want == 0 || want > 0x4000_0000 then Answered(s, t, s.ring, s.rxCap, [])
    else if s.ring.Mapped? then Answered(s, t, s.ring, s.rxCap, Says(ackSent, 0))
    else if attach != 0 then Answered(s, t, Unmapped, s.rxCap, Says(ackSent, attach))
    else if s.rxCap < want && !grow then Answered(s, t, Unmapped, s.rxCap, Says(ackSent, 244))
    else Answered(s, t, Mapped(s.name, want), if s.rxCap < want then want else s.rxCap, Says(ackSent, 0))
  }

  lemma ControlAnswers(s: State, want: nat, attach: byte, grow: bool, ackSent: bool)
    requires s.cons.CSocket? && s.toConsumer != []
    ensures var read := s.(toConsumer := s.toConsumer[1..], cons := CPoll(s.cons.max));
            var request := if 0 < want <= 0x4000_0000 then Request(want, s.name) else Invalid;
            AnswersRequest(s, Control(read, request, attach, grow, ackSent), want, attach, grow, ackSent)
  {
  }

  /**
   After every run, what the receiver answers to a request for a capacity in
   range: success, with nothing changed, once it has mapped the ring, however
   often it is asked; before that the error of the attach, or -ENOMEM if the
   scratch buffer cannot grow, with nothing changed, or success with the ring
   mapped and a scratch buffer of that size. It answers no other request.
   */
  lemma RequestAnswered(alpha: real, capacity: nat, blocking: bool, events: seq<Event>,
                        attach: byte, grow: bool, ackSent: bool)
    requires var s := Run(Start(alpha, capacity, blocking), events);
             s.cons.CSocket? && s.toConsumer != [] && s.toConsumer[0].SetupReq?
    ensures var s := Run(Start(alpha, capacity, blocking), events);
            AnswersRequest(s, Next(s, SocketPoll(attach, grow, ackSent)), capacity % 0x1_0000_0000,
                           attach, grow, ackSent)
  {
    RunInv(alpha, capacity, blocking, events);
    var s := Run(Start(alpha, capacity, blocking), events);
    RequestArrives(s, attach, grow, ackSent);
    ControlAnswers(s, Cap32(s), attach, grow, ackSent);
  }

  /** What the producer makes of the acknowledgement at the front of its socket. */
  predicate TakesAck(s: State, t: State, mapping: Code, grow: bool)
    requires s.prod.PWait? && s.toProducer != [] && s.toProducer[0].SetupAck?
  {
    var p, status := s.prod.p, s.toProducer[0].status;
    var rc := if mapping != OK then mapping else EOTHER(12);
    if status != 0 then t == s.(toProducer := s.toProducer[1..])
    else
      && t.toProducer == s.toProducer[1..]
      && if mapping == OK && grow then
           t.prod == PPush(p) && t.sender == s.sender.(mapped := true) && t.h == s.h
         else
           && t.sender.mapped == s.sender.mapped
           && if |p| + 1 <= 4096 then t.prod == PDatagram(p) && t.h == s.h
              else
                && t.prod == PIdle && t.sender.retryPending
                && t.h == s.h.(returned := s.h.returned + [Return(p, if rc == ETIMEDOUT then EAGAIN else rc)])
  }

  lemma PollTakesAck(s: State, mapping: Code, grow: bool)
    requires s.prod.PWait? && s.toProducer != [] && s.toProducer[0].SetupAck?
    ensures TakesAck(s, PollAck(s, mapping, grow), mapping, grow)
  {
    assert Acknowledges(DatagramOf(s.toProducer[0])) <==> s.toProducer[0].status == 0;
  }

  /**
   After every run, what the producer makes of an acknowledgement: an error is
   read and forgotten; a success maps the ring and goes on to push, or fails with
   the error of the mapping or -ENOMEM, and then the message goes into a datagram
   if one can carry it, or is left for a retry.
   */
  lemma AckTaken(alpha: real, capacity: nat, blocking: bool, events: seq<Event>, mapping: Code, grow: bool)
    requires var s := Run(Start(alpha, capacity, blocking), events); s.prod.PWait? && s.toProducer != []
    ensures var s := Run(Start(alpha, capacity, blocking), events);
            && s.toProducer[0].SetupAck? && !s.sender.mapped
            && TakesAck(s, Next(s, AckPoll(mapping, grow)), mapping, grow)
  {
    RunInv(alpha, capacity, blocking, events);
    PollTakesAck(Run(Start(alpha, capacity, blocking), events), mapping, grow);
  }

  /**
   What a send puts into the socket before it waits: one request for the
   configured capacity if one is due, and nothing else ever. The name in it is
   chosen once.
   */
  lemma SendAsks(s: State, e: Event)
    requires e.Send?
    ensures var t := Next(s, e);
            && t.toConsumer == s.toConsumer +
                 (if t.prod.PWait? && !s.prod.PWait? && e.due
                  then [SetupReq(s.sender.shmCapacity % 0x1_0000_0000, t.name)] else [])
            && (t.name == s.name || (s.name == [] && t.name == e.newName))
            && (t.prod.PWait? && !s.prod.PWait? && e.due ==> e.request == OK && t.name != [])
  {
    if s.prod.PIdle? && e.p != [] {
      var (st, decided) := Classified(s.sender, |e.p|, e.situation);
      SetOutAsks(s, st, decided, e);
    }
  }

  lemma SetOutAsks(s: State, st: Sender, decided: Route, e: Event)
    requires e.Send? && s.prod.PIdle? && st.shmCapacity == s.sender.shmCapacity && st.mapped == s.sender.mapped
    ensures var t := SetOut(s, st, decided, e);
            && t.toConsumer == s.toConsumer +
                 (if t.prod.PWait? && e.due then [SetupReq(s.sender.shmCapacity % 0x1_0000_0000, t.name)] else [])
            && (t.name == s.name || (s.name == [] && t.name == e.newName))
            && (t.prod.PWait? && e.due ==> e.request == OK && t.name != [])
  {
  }

  /** After every run the scratch buffer has room for a datagram, and once the ring is mapped for its capacity too. */
  lemma {:induction false} ScratchIs(alpha: real, capacity: nat, blocking: bool, events: seq<Event>)
    ensures var s, want := Run(Start(alpha, capacity, blocking), events), capacity % 0x1_0000_0000;
            s.rxCap == if s.ring.Mapped? && want > 4096 then want else 4096
  {
    if events != [] {
      var n := |events| - 1;
      ScratchIs(alpha, capacity, blocking, events[..n]);
      RunInv(alpha, capacity, blocking, events[..n]);
      var s := Run(Start(alpha, capacity, blocking), events[..n]);
      ScratchStep(s, events[n]);
    }
  }

  lemma ScratchStep(s: State, e: Event)
    requires Inv(s) && s.rxCap == if s.ring.Mapped? && Cap32(s) > 4096 then Cap32(s) else 4096
    ensures var t := Next(s, e);
            t.rxCap == if t.ring.Mapped? && Cap32(s) > 4096 then Cap32(s) else 4096
  {
    match e
    case SocketPoll(attach, grow, ackSent) =>
      if s.cons.CSocket? && s.toConsumer != [] && !s.toConsumer[0].Data? {
        RequestScratch(s, attach, grow, ackSent);
      } else if s.cons.CSocket? && s.toConsumer != [] {
        DataArrives(s, attach, grow, ackSent);
      }
    case _ => SameScratch(s, e);
  }

  lemma RequestScratch(s: State, attach: byte, grow: bool, ackSent: bool)
    requires Inv(s) && s.cons.CSocket? && s.toConsumer != [] && !s.toConsumer[0].Data?
    requires s.rxCap == if s.ring.Mapped? && Cap32(s) > 4096 then Cap32(s) else 4096
    ensures var t := PollSocket(s, attach, grow, ackSent);
            t.rxCap == if t.ring.Mapped? && Cap32(s) > 4096 then Cap32(s) else 4096
  {
    RequestArrives(s, attach, grow, ackSent);
    ControlAnswers(s, Cap32(s), attach, grow, ackSent);
  }

  lemma SameScratch(s: State, e: Event)
    requires !e.SocketPoll?
    ensures Next(s, e).rxCap == s.rxCap && Next(s, e).ring == s.ring
  {
    if e.Send? {
      SendScratch(s, e);
    }
  }

  lemma SendScratch(s: State, e: Event)
    requires e.Send?
    ensures StartSend(s, e).rxCap == s.rxCap && StartSend(s, e).ring == s.ring
  {
  }

  // ---- The producer's retry state before set-up ----

  /** A classification kept for a retry is of a message that no datagram can carry. */
  predicate RetryInv(s: State) {
    && (!s.sender.mapped && s.sender.retryPending ==> !FitsDatagram(s.sender.pendingSize))
    && (s.prod.PWait? ==> s.sender.pendingSize == |s.prod.p|)
  }

  lemma SetOutRetry(s: State, st: Sender, decided: Route, e: Event)
    requires e.Send? && s.prod.PIdle? && st.shmCapacity == s.sender.shmCapacity && st.mapped == s.sender.mapped
    requires !st.mapped && st.retryPending ==> st.pendingSize == |e.p| && !FitsDatagram(|e.p|)
    ensures RetryInv(SetOut(s, st, decided, e))
  {
  }

  lemma SendRetry(s: State, e: Event)
    requires e.Send? && RetryInv(s)
    ensures RetryInv(StartSend(s, e))
  {
    if s.prod.PIdle? && e.p != [] {
      var (st, decided) := Classified(s.sender, |e.p|, e.situation);
      SetOutRetry(s, st, decided, e);
    }
  }

  lemma StepRetry(s: State, e: Event)
    requires Inv(s) && RetryInv(s)
    ensures RetryInv(Next(s, e))
  {
    match e
    case Send(_, _, _, _, _) => SendRetry(s, e);
    case AckPoll(mapping, grow) => AckRetry(s, mapping, grow);
    case AckFailure(rc) => AckFailedRetry(s, rc);
    case SendTo(rc) => DatagramRetry(s, rc);
    case Push(rc) => PushRetry(s, rc);
    case _ => ReceiverStep(s, e);
  }

  /** The receiver's steps leave the sender alone. */
  lemma ReceiverStep(s: State, e: Event)
    requires e.RingPoll? || e.SocketPoll? || e.Recv? || e.SocketQuiet? || e.SocketFailure?
    ensures Next(s, e).sender == s.sender && Next(s, e).prod == s.prod
  {
  }

  lemma AckFailedRetry(s: State, rc: Code)
    requires RetryInv(s)
    ensures RetryInv(AckFailed(s, rc))
  {
  }

  lemma DatagramRetry(s: State, rc: Code)
    requires RetryInv(s)
    ensures RetryInv(SendDatagram(s, rc))
  {
  }

  lemma PushRetry(s: State, rc: Code)
    requires RetryInv(s) && (s.prod.PPush? ==> s.sender.mapped)
    ensures RetryInv(PushRing(s, rc))
  {
  }

  lemma AckRetry(s: State, mapping: Code, grow: bool)
    requires RetryInv(s)
    ensures RetryInv(PollAck(s, mapping, grow))
  {
  }

  ghost predicate Sound(s: State) {
    Inv(s) && RetryInv(s)
  }

  lemma StepSound(s: State, e: Event)
    requires Sound(s)
    ensures Sound(Next(s, e))
  {
    StepKeeps(s, e);
    StepRetry(s, e);
  }

  lemma {:induction false} RunSound(s: State, events: seq<Event>)
    requires Sound(s)
    ensures Sound(Run(s, events)) && Run(s, events).sender.shmCapacity == s.sender.shmCapacity
  {
    if events != [] {
      RunSound(s, events[..|events| - 1]);
      StepSound(Run(s, events[..|events| - 1]), events[|events| - 1]);
    }
  }

  // ---- Set-up from every state ----

  /** Set-up is possible at all: a frame fits, and the capacity as it is sent is in range. */
  predicate CapacityOk(capacity: nat) {
    capacity >= 2 && 0 < Low32(capacity) <= 0x4000_0000
  }

  lemma RunFirst(s: State, e: Event, rest: seq<Event>)
    ensures Run(s, [e] + rest) == Run(Next(s, e), rest)
  {
    RunConcat(s, [e], rest);
    RunOneMore(s, [], e);
    assert [] + [e] == [e];
  }

  /** An unmapped producer gives up what it is doing. */
  lemma ProducerIdles(s: State) returns (events: seq<Event>)
    requires Sound(s) && !s.sender.mapped
    ensures var r := Run(s, events); Sound(r) && r.prod.PIdle? && !r.sender.mapped && r.cons == s.cons
    ensures Run(s, events).sender.shmCapacity == s.sender.shmCapacity
  {
    var fail, post := AckFailure(ETIMEDOUT), SendTo(EINVAL);
    StepSound(s, fail);
    StepSound(Next(s, fail), post);
    events := [fail] + [post];
    RunFirst(s, fail, [post]);
    RunFirst(Next(s, fail), post, []);
    GivesUp(s);
  }

  lemma GivesUp(s: State)
    requires Inv(s) && !s.sender.mapped
    ensures var r := Next(Next(s, AckFailure(ETIMEDOUT)), SendTo(EINVAL));
            && r.prod.PIdle? && !r.sender.mapped && r.cons == s.cons
            && r.sender.shmCapacity == s.sender.shmCapacity
  {
    assert !s.prod.PPush?;
    var t := AckFailed(s, ETIMEDOUT);
    assert t.prod.PIdle? || t.prod.PDatagram?;
  }

  /** The producer asks for the ring, whatever it decided before. */
  lemma Asks(s: State, name: objectName)
    requires Sound(s) && s.prod.PIdle? && !s.sender.mapped && s.sender.shmCapacity >= 2
    ensures var t := Next(s, ToRing(name));
            && t.prod.PWait? && t.toConsumer == s.toConsumer + [SetupReq(Cap32(s), t.name)]
            && t == s.(sender := t.sender, prod := t.prod, name := t.name, toConsumer := t.toConsumer)
            && !t.sender.mapped && t.sender.shmCapacity == s.sender.shmCapacity
  {
    var e := ToRing(name);
    assert !Resumes(s.sender, 1);
    var (st, decided) := Classified(s.sender, 1, e.situation);
    assert decided == SHM;
    assert Next(s, e) == SetOut(s, st, SHM, e);
  }

  /** The receiver reads one datagram, from wherever it is. */
  function ReadOne(s: State): seq<Event> {
    match s.cons
    case CIdle => [Recv(2)] + ([RingPoll] + [SocketPoll(0, true, true)])
    case CPoll(_) => [RingPoll] + [SocketPoll(0, true, true)]
    case CSocket(_) => [SocketPoll(0, true, true)]
  }

  /** Before set-up the ring is empty. */
  lemma EmptyPoll(s: State)
    requires Inv(s) && !s.sender.mapped && s.cons.CPoll?
    ensures Next(s, RingPoll) == s.(cons := CSocket(s.cons.max))
  {
  }

  lemma PollsThenReads(s: State)
    requires Sound(s) && !s.sender.mapped && s.cons.CPoll?
    ensures var t := s.(cons := CSocket(s.cons.max));
            Sound(t) && Run(s, [RingPoll] + [SocketPoll(0, true, true)]) == Next(t, SocketPoll(0, true, true))
  {
    EmptyPoll(s);
    StepSound(s, RingPoll);
    RunFirst(s, RingPoll, [SocketPoll(0, true, true)]);
    RunSingle(s.(cons := CSocket(s.cons.max)), SocketPoll(0, true, true));
  }

  lemma RunSingle(s: State, e: Event)
    ensures Run(s, [e]) == Next(s, e)
  {
    RunOneMore(s, [], e);
    assert [] + [e] == [e];
  }

  lemma CallsThenReads(s: State)
    requires Sound(s) && !s.sender.mapped && s.cons.CIdle?
    ensures var t := s.(cons := CSocket(2));
            && Sound(t)
            && Run(s, [Recv(2)] + ([RingPoll] + [SocketPoll(0, true, true)])) == Next(t, SocketPoll(0, true, true))
  {
    var t := s.(cons := CPoll(2));
    RecvIs(s);
    StepSound(s, Recv(2));
    RunFirst(s, Recv(2), [RingPoll] + [SocketPoll(0, true, true)]);
    PollsThenReads(t);
    assert t.(cons := CSocket(2)) == s.(cons := CSocket(2));
  }

  lemma RecvIs(s: State)
    requires s.cons.CIdle?
    ensures Next(s, Recv(2)) == s.(cons := CPoll(2))
  {
  }

  /** The receiver gets to its socket. */
  lemma ToSocket(s: State) returns (t: State)
    requires Sound(s) && !s.sender.mapped
    ensures Run(s, ReadOne(s)) == Next(t, SocketPoll(0, true, true))
    ensures Sound(t) && t.cons.CSocket? && t == s.(cons := t.cons)
  {
    match s.cons
    case CIdle =>
      CallsThenReads(s);
      t := s.(cons := CSocket(2));
    case CPoll(max) =>
      PollsThenReads(s);
      t := s.(cons := CSocket(max));
    case CSocket(_) =>
      RunSingle(s, SocketPoll(0, true, true));
      t := s;
  }

  /** One datagram read: a request is answered with success, last of all. */
  lemma ReadsOne(s: State)
    requires Sound(s) && !s.sender.mapped && s.toConsumer != [] && CapacityOk(s.sender.shmCapacity)
    ensures var r := Run(s, ReadOne(s));
            && Sound(r) && r.sender == s.sender && r.prod == s.prod && r.toConsumer == s.toConsumer[1..]
            && (s.toConsumer[0].SetupReq? ==> r.toProducer == s.toProducer + [SetupAck(0)])
  {
    var t := ToSocket(s);
    StepSound(t, SocketPoll(0, true, true));
    SocketReads(t);
  }

  lemma SocketReads(s: State)
    requires Inv(s) && s.cons.CSocket? && s.toConsumer != [] && CapacityOk(s.sender.shmCapacity)
    ensures var r := Next(s, SocketPoll(0, true, true));
            && r.sender == s.sender && r.prod == s.prod && r.toConsumer == s.toConsumer[1..]
            && (s.toConsumer[0].SetupReq? ==> r.toProducer == s.toProducer + [SetupAck(0)])
  {
    assert Expected(s.toConsumer[0], Cap32(s), s.name);
    if s.toConsumer[0].Data? {
      DataArrives(s, 0, true, true);
    } else {
      RequestArrives(s, 0, true, true);
    }
  }

  /** The last request in the socket is still to be answered. */
  predicate Asked(s: State) {
    s.toConsumer != [] && s.toConsumer[|s.toConsumer| - 1].SetupReq?
  }

  /** The last answer on its way is a success. */
  predicate Granted(s: State) {
    s.toProducer != [] && s.toProducer[|s.toProducer| - 1] == SetupAck(0)
  }

  lemma ReadsAsked(s: State)
    requires Sound(s) && !s.sender.mapped && CapacityOk(s.sender.shmCapacity) && Asked(s)
    ensures var r := Run(s, ReadOne(s));
            && Sound(r) && r.sender == s.sender && r.prod == s.prod && |r.toConsumer| == |s.toConsumer| - 1
            && (if |s.toConsumer| == 1 then Granted(r) else Asked(r))
  {
    ReadsOne(s);
  }

  /** The receiver empties its socket and so answers the request at the end. */
  lemma {:induction false} Serves(s: State) returns (events: seq<Event>)
    requires Sound(s) && !s.sender.mapped && CapacityOk(s.sender.shmCapacity) && Asked(s)
    ensures var r := Run(s, events);
            Sound(r) && r.sender == s.sender && r.prod == s.prod && Granted(r)
    decreases |s.toConsumer|
  {
    ReadsAsked(s);
    events := ReadOne(s);
    if |s.toConsumer| > 1 {
      var rest := Serves(Run(s, events));
      RunConcat(s, events, rest);
      events := events + rest;
    }
  }

  /** The producer reads its answers up to the first success. */
  lemma {:induction false} TakesAnswers(s: State) returns (events: seq<Event>)
    requires Sound(s) && !s.sender.mapped && s.prod.PWait?
    requires Granted(s)
    ensures Run(s, events).sender.mapped
    decreases |s.toProducer|
  {
    var poll := AckPoll(OK, true);
    var t := Next(s, poll);
    assert s.toProducer[0].SetupAck?;
    if s.toProducer[0].status == 0 {
      events := [poll];
      RunFirst(s, poll, []);
    } else {
      StepSound(s, poll);
      assert t == AckRead(s);
      var rest := TakesAnswers(t);
      RunFirst(s, poll, rest);
      events := [poll] + rest;
    }
  }

  /** Once it has asked, the producer gets a success and maps the ring. */
  lemma GetsIt(s: State) returns (events: seq<Event>)
    requires Sound(s) && !s.sender.mapped && CapacityOk(s.sender.shmCapacity) && Asked(s) && s.prod.PWait?
    ensures Run(s, events).sender.mapped
  {
    var serve := Serves(s);
    var take := TakesAnswers(Run(s, serve));
    RunConcat(s, serve, take);
    events := serve + take;
  }

  lemma AsksSoundly(s: State, name: objectName)
    requires Sound(s) && s.prod.PIdle? && !s.sender.mapped && s.sender.shmCapacity >= 2
    ensures var t := Next(s, ToRing(name));
            && Sound(t) && t.prod.PWait? && Asked(t)
            && !t.sender.mapped && t.sender.shmCapacity == s.sender.shmCapacity
  {
    Asks(s, name);
    StepSound(s, ToRing(name));
  }

  /** From every sound state the two sides can still set the ring up. */
  lemma SetsUp(s: State) returns (events: seq<Event>)
    requires Sound(s) && CapacityOk(s.sender.shmCapacity)
    ensures Run(s, events).sender.mapped
  {
    if s.sender.mapped { return []; }
    var name: objectName := [47];
    var idle := ProducerIdles(s);
    var a := Run(s, idle);
    AsksSoundly(a, name);
    var rest := GetsIt(Next(a, ToRing(name)));
    RunFirst(a, ToRing(name), rest);
    RunConcat(s, idle, [ToRing(name)] + rest);
    events := idle + ([ToRing(name)] + rest);
  }

  /**
   Set-up stays possible: after every run, whatever was lost, refused or given up
   on the way, some continuation maps the ring iff the capacity allows it at all.
   */
  lemma SetupStaysPossibleIff(alpha: real, capacity: nat, blocking: bool, events: seq<Event>)
    ensures var s := Run(Start(alpha, capacity, blocking), events);
            (exists more :: Run(s, more).sender.mapped) <==>
              capacity >= 2 && 0 < capacity % 0x1_0000_0000 <= 0x4000_0000
  {
    var start := Start(alpha, capacity, blocking);
    RunInv(alpha, capacity, blocking, []);
    RunSound(start, events);
    var s := Run(start, events);
    if CapacityOk(capacity) {
      var more := SetsUp(s);
    }
    forall more | Run(s, more).sender.mapped ensures CapacityOk(capacity) {
      RunSound(s, more);
    }
  }
}
