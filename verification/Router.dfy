/**
 The sending side of an endpoint: classification with retry resumption, the
 per-message overrides, and what each outcome leaves behind for the next call.
 */
module Router {
  import opened Reals
  import opened Codes
  import opened CostModel
  import Hysteresis

  /**
   The producer's routing state. `mapped` says that the ring is mapped on both
   sides; `switches` is the statistics counter of route changes.
   */
  datatype Sender = Sender(
    alpha: real, shmCapacity: nat,
    ewma: real, lastRoute: Route,
    retryPending: bool, pendingSize: nat, pendingRoute: Route,
    mapped: bool, switches: nat)

  /** A producer as initialised, before any send. */
  function Fresh(alpha: real, shmCapacity: nat): Sender {
    Sender(alpha, shmCapacity, 0.0, NONE, false, 0, NONE, false, 0)
  }

  /** What the world answers during one send, should it be asked. */
  datatype Outcome = Outcome(situation: Situation, negotiate: Code, push: Code, uds: Code)

  /** The result of a send: the code, and the transport a data frame was put on, if any. */
  datatype Sent = Sent(st: Sender, rc: Code, put: Route)

  // ---- The stages of a send ----

  /** The call repeats a send that failed and left its classification behind. */
  predicate Resumes(st: Sender, size: nat) {
    st.retryPending && st.pendingSize == size && st.pendingRoute != NONE
  }

  /** The route that a new message of `size` bytes is given. */
  function DecideFor(st: Sender, size: nat, s: Situation): (r: Route)
    ensures r != NONE
  {
    Decide(s.(ewma := Ewma(st.alpha, st.ewma, size as real), payload := size, mapped := st.mapped), st.lastRoute)
  }

  function Classified(st: Sender, size: nat, s: Situation): (r: (Sender, Route))
    ensures r.1 != NONE
    ensures r.0.mapped == st.mapped && r.0.shmCapacity == st.shmCapacity && r.0.alpha == st.alpha
  {
    if Resumes(st, size) then (st, st.pendingRoute)
    else
      var route := DecideFor(st, size, s);
      (st.(ewma := Ewma(st.alpha, st.ewma, size as real), lastRoute := route,
           switches := st.switches + (if st.lastRoute != NONE && route != st.lastRoute then 1 else 0),
           retryPending := false, pendingRoute := NONE),
       route)
  }

  predicate FitsDatagram(size: nat) { size + 1 <= UDS_MAX_DGRAM }

  /** A message that no datagram can carry goes to the ring whatever was decided. */
  function Escalated(route: Route, size: nat): Route {
    if route != SHM && !FitsDatagram(size) then SHM else route
  }

  predicate TooLarge(st: Sender, route: Route, size: nat) {
    route == SHM && size + 1 > st.shmCapacity
  }

  function Pending(st: Sender, size: nat, route: Route): Sender {
    st.(pendingSize := size, pendingRoute := route)
  }

  /** The handshake failed: fall back to a datagram, or leave the message for a retry. */
  function AfterFailedHandshake(st: Sender, size: nat): Sender {
    if FitsDatagram(size) then st.(pendingRoute := UDS) else st.(retryPending := true)
  }

  /** What a send returns for a failed handshake that no datagram can replace. */
  function Surfaced(rc: Code): Code { if rc == ETIMEDOUT then EAGAIN else rc }

  function AfterPush(st: Sender, rc: Code): Sender { st.(retryPending := rc == EAGAIN) }

  function AfterDatagram(st: Sender, rc: Code): Sender {
    if rc == ECONNREFUSED then st else st.(retryPending := false)
  }

  // ---- A whole send ----

  function PushSent(st: Sender, o: Outcome): Sent {
    Sent(AfterPush(st, o.push), o.push, if o.push == OK then SHM else NONE)
  }

  function DatagramSent(st: Sender, o: Outcome): Sent {
    Sent(AfterDatagram(st, o.uds), o.uds, if o.uds == OK then UDS else NONE)
  }

  /** The ring is not mapped yet: set it up first, or fall back to a datagram if one can carry the message. */
  function HandshakeSent(st: Sender, size: nat, o: Outcome): Sent {
    if o.negotiate == OK then PushSent(st.(mapped := true), o)
    else if FitsDatagram(size) then DatagramSent(AfterFailedHandshake(st, size), o)
    else Sent(AfterFailedHandshake(st, size), Surfaced(o.negotiate), NONE)
  }

  /** What becomes of a message that was given the route `decided`. */
  function Carried(st: Sender, decided: Route, size: nat, o: Outcome): Sent {
    var route := Escalated(decided, size);
    if TooLarge(st, route, size) then Sent(st, EMSGSIZE, NONE)
    else
      var st2 := Pending(st, size, route);
      if route == UDS then DatagramSent(st2, o)
      else if st2.mapped then PushSent(st2, o)
      else HandshakeSent(st2, size, o)
  }

  function SendResult(st: Sender, size: nat, o: Outcome): Sent {
    if size == 0 then Sent(st, EINVAL, NONE)
    else
      var (st1, decided) := Classified(st, size, o.situation);
      Carried(st1, decided, size, o)
  }

  /** The producer endpoint. Calls into the socket, the ring and the clock are answered by an Outcome. */
  class Producer {
    const alpha: real
    const shmCapacity: nat
    var ewmaSize: real
    var lastRoute: Route
    var retryPending: bool
    var pendingSize: nat
    var pendingRoute: Route
    var negotDone: bool
    var routeSwitches: nat

    function Value(): Sender
      reads this
    {
      Sender(alpha, shmCapacity, ewmaSize, lastRoute, retryPending, pendingSize, pendingRoute, negotDone, routeSwitches)
    }

    constructor (smoothing: real, capacity: nat)
      ensures Value() == Fresh(if 0.0 < smoothing <= 1.0 then smoothing else 0.2,
                               if capacity != 0 then capacity else 65536)
    {
      alpha := if 0.0 < smoothing <= 1.0 then smoothing else 0.2;
      shmCapacity := if capacity != 0 then capacity else 65536;
      ewmaSize, lastRoute := 0.0, NONE;
      retryPending, pendingSize, pendingRoute := false, 0, NONE;
      negotDone, routeSwitches := false, 0;
    }

    /** Resumes the pending classification, or classifies a new message. */
    method Classify(size: nat, s: Situation) returns (route: Route)
      modifies this
      ensures (Value(), route) == Classified(old(Value()), size, s)
    {
      if retryPending && pendingSize == size && pendingRoute != NONE {
        route := pendingRoute;
      } else {
        route := DecideFor(Value(), size, s);
        ewmaSize := Ewma(alpha, ewmaSize, size as real);
        if lastRoute != NONE && route != lastRoute { routeSwitches := routeSwitches + 1; }
        lastRoute := route;
        retryPending, pendingRoute := false, NONE;
      }
    }

    /** Puts the frame on the ring or in a datagram. */
    method Transmit(route: Route, o: Outcome) returns (rc: Code, put: Route)
      requires route != NONE
      modifies this
      ensures Sent(Value(), rc, put) ==
              if route == SHM then PushSent(old(Value()), o) else DatagramSent(old(Value()), o)
    {
      put := NONE;
      if route == SHM {
        rc := o.push;
        if rc == EAGAIN {
          retryPending := true;
          return;
        }
        retryPending := false;
      } else {
        rc := o.uds;
        if rc == ECONNREFUSED { return; }
        retryPending := false;
      }
      if rc == OK { put := route; }
    }

    method AdaptSend(size: nat, o: Outcome) returns (rc: Code, put: Route)
      modifies this
      ensures Sent(Value(), rc, put) == SendResult(old(Value()), size, o)
    {
      if size == 0 { return EINVAL, NONE; }
      var route := Classify(size, o.situation);
      if route != SHM && size + 1 > UDS_MAX_DGRAM { route := SHM; }
      if route == SHM && size + 1 > shmCapacity { return EMSGSIZE, NONE; }
      pendingSize, pendingRoute := size, route;
      if route == SHM && !negotDone {
        if o.negotiate == OK {
          negotDone := true;
        } else if size + 1 <= UDS_MAX_DGRAM {
          route := UDS;
          pendingRoute := route;
        } else {
          retryPending := true;
          return if o.negotiate == ETIMEDOUT then EAGAIN else o.negotiate, NONE;
        }
      }
      rc, put := Transmit(route, o);
    }
  }

  // ---- Whole runs ----

  datatype Call = Call(size: nat, o: Outcome)

  function After(st: Sender, calls: seq<Call>): Sender {
    if calls == [] then st
    else SendResult(After(st, calls[..|calls| - 1]), calls[|calls| - 1].size, calls[|calls| - 1].o).st
  }

  /** A logical message as the classifier sees it. */
  datatype Message = Message(size: nat, situation: Situation)

  /** The calls that start a new logical message: neither empty nor resuming a failed one. */
  function Logical(st: Sender, calls: seq<Call>): seq<Message> {
    if calls == [] then []
    else
      var before := After(st, calls[..|calls| - 1]);
      var call := calls[|calls| - 1];
      if call.size == 0 || Resumes(before, call.size) then Logical(st, calls[..|calls| - 1])
      else Logical(st, calls[..|calls| - 1]) + [Message(call.size, call.o.situation.(mapped := before.mapped))]
  }

  /** Average and sticky route after classifying a sequence of messages, and the routes decided. */
  datatype Trace = Trace(ewma: real, route: Route, decided: seq<Route>)

  function Fold(alpha: real, messages: seq<Message>): Trace {
    if messages == [] then Trace(0.0, NONE, [])
    else
      var before := Fold(alpha, messages[..|messages| - 1]);
      var m := messages[|messages| - 1];
      var e := Ewma(alpha, before.ewma, m.size as real);
      var r := Decide(m.situation.(ewma := e, payload := m.size), before.route);
      Trace(e, r, before.decided + [r])
  }

  /** Adjacent entries that differ. */
  function AdjacentChanges(routes: seq<Route>): nat {
    if |routes| < 2 then 0
    else
      AdjacentChanges(routes[..|routes| - 1]) +
      (if routes[|routes| - 1] != routes[|routes| - 2] then 1 else 0)
  }

  lemma {:induction false} LastDecided(alpha: real, messages: seq<Message>)
    ensures var t := Fold(alpha, messages);
            && |t.decided| == |messages|
            && t.route == (if messages == [] then NONE else t.decided[|messages| - 1])
            && (messages != [] ==> t.route != NONE)
  {
    if messages != [] {
      LastDecided(alpha, messages[..|messages| - 1]);
    }
  }

  /** One more message adds at most one change of decision. */
  lemma FoldChanges(alpha: real, messages: seq<Message>)
    requires messages != []
    ensures var before, t := Fold(alpha, messages[..|messages| - 1]), Fold(alpha, messages);
            AdjacentChanges(t.decided) ==
            AdjacentChanges(before.decided) + (if before.route != NONE && t.route != before.route then 1 else 0)
  {
    var before, t := Fold(alpha, messages[..|messages| - 1]), Fold(alpha, messages);
    LastDecided(alpha, messages[..|messages| - 1]);
    assert t.decided[..|before.decided|] == before.decided;
  }

  /** One call moves average, sticky route and switch counter exactly if it starts a message. */
  lemma CallMoves(st: Sender, size: nat, o: Outcome)
    ensures var st' := SendResult(st, size, o).st;
            && st'.alpha == st.alpha
            && (if size == 0 || Resumes(st, size) then
                  st'.ewma == st.ewma && st'.lastRoute == st.lastRoute && st'.switches == st.switches
                else
                  && st'.ewma == Ewma(st.alpha, st.ewma, size as real)
                  && st'.lastRoute == DecideFor(st, size, o.situation)
                  && st'.switches == st.switches +
                       (if st.lastRoute != NONE && st'.lastRoute != st.lastRoute then 1 else 0))
  {
  }

  /** The routing state is what the messages alone would leave. */
  predicate Matches(st: Sender, alpha: real, t: Trace) {
    && st.alpha == alpha && st.ewma == t.ewma && st.lastRoute == t.route
    && st.switches == AdjacentChanges(t.decided)
  }

  /** One more message in the fold. */
  lemma FoldAppend(alpha: real, messages: seq<Message>, m: Message)
    ensures var before, t := Fold(alpha, messages), Fold(alpha, messages + [m]);
            && t.ewma == Ewma(alpha, before.ewma, m.size as real)
            && t.route == Decide(m.situation.(ewma := t.ewma, payload := m.size), before.route)
            && AdjacentChanges(t.decided) ==
               AdjacentChanges(before.decided) + (if before.route != NONE && t.route != before.route then 1 else 0)
  {
    assert (messages + [m])[..|messages|] == messages;
    FoldChanges(alpha, messages + [m]);
  }

  lemma ResumedMatches(alpha: real, st: Sender, t: Trace, call: Call)
    requires Matches(st, alpha, t) && (call.size == 0 || Resumes(st, call.size))
    ensures Matches(SendResult(st, call.size, call.o).st, alpha, t)
  {
    CallMoves(st, call.size, call.o);
  }

  lemma ClassifiedMatches(alpha: real, st: Sender, messages: seq<Message>, call: Call)
    requires Matches(st, alpha, Fold(alpha, messages)) && call.size != 0 && !Resumes(st, call.size)
    ensures var m := Message(call.size, call.o.situation.(mapped := st.mapped));
            Matches(SendResult(st, call.size, call.o).st, alpha, Fold(alpha, messages + [m]))
  {
    CallMoves(st, call.size, call.o);
    FoldAppend(alpha, messages, Message(call.size, call.o.situation.(mapped := st.mapped)));
  }

  /**
   Over any sequence of calls the average and the sticky route are those of the
   logical messages alone: resumed retries, escalations and fallbacks leave no
   trace, and the switch counter is the number of adjacent changes of decision.
   */
  lemma {:induction false} RetryTransparency(alpha: real, capacity: nat, calls: seq<Call>)
    ensures Matches(After(Fresh(alpha, capacity), calls), alpha, Fold(alpha, Logical(Fresh(alpha, capacity), calls)))
  {
    if calls != [] {
      var st, first, call := Fresh(alpha, capacity), calls[..|calls| - 1], calls[|calls| - 1];
      RetryTransparency(alpha, capacity, first);
      if call.size == 0 || Resumes(After(st, first), call.size) {
        ResumedMatches(alpha, After(st, first), Fold(alpha, Logical(st, first)), call);
      } else {
        ClassifiedMatches(alpha, After(st, first), Logical(st, first), call);
      }
    }
  }

  /** A send returns OK iff it put a frame on a transport; a datagram always fits its buffer. */
  lemma OneFrameIffOk(st: Sender, size: nat, o: Outcome)
    ensures var r := SendResult(st, size, o);
            && (r.rc == OK <==> r.put != NONE)
            && (r.put == UDS ==> FitsDatagram(size))
            && (r.put == SHM ==> size + 1 <= st.shmCapacity && r.st.mapped)
  {
  }

  /**
   A message of at most 4095 bytes goes where the pending classification or the
   policy sends it: into a datagram, or to the ring if that is mapped or can be
   set up and the message is within the capacity; a failed handshake turns it into
   a datagram. An empty message is refused and changes nothing. Afterwards a retry
   is pending iff the ring was full, or one was already and no peer is listening.
   */
  lemma SmallMessages(st: Sender, size: nat, o: Outcome)
    requires size <= 4095
    ensures var r := SendResult(st, size, o);
            var ewma := Ewma(st.alpha, st.ewma, size as real);
            var resumed := st.retryPending && st.pendingSize == size && st.pendingRoute != NONE;
            var again := resumed && o.uds == ECONNREFUSED;
            var route := if resumed then st.pendingRoute
                         else Decide(o.situation.(ewma := ewma, payload := size, mapped := st.mapped), st.lastRoute);
            if size == 0 then r == Sent(st, EINVAL, NONE)
            else if route == UDS then
              r.rc == o.uds && r.put == (if o.uds == OK then UDS else NONE) && r.st.retryPending == again
            else if size + 1 > st.shmCapacity then r.rc == EMSGSIZE && r.put == NONE && r.st.retryPending == resumed
            else if st.mapped || o.negotiate == OK then
              && r.rc == o.push && r.put == (if o.push == OK then SHM else NONE) && r.st.mapped
              && r.st.retryPending == (o.push == EAGAIN)
            else
              && r.rc == o.uds && r.put == (if o.uds == OK then UDS else NONE) && !r.st.mapped
              && r.st.retryPending == again
  {
    if size > 0 {
      var (st1, decided) := Classified(st, size, o.situation);
      RouteIs(st, size, o.situation);
      SmallCarried(st1, decided, size, o);
    }
  }

  lemma RouteIs(st: Sender, size: nat, s: Situation)
    ensures var ewma := Ewma(st.alpha, st.ewma, size as real);
            Classified(st, size, s).1 ==
            if st.retryPending && st.pendingSize == size && st.pendingRoute != NONE then st.pendingRoute
            else Decide(s.(ewma := ewma, payload := size, mapped := st.mapped), st.lastRoute)
  {
  }

  lemma SmallCarried(st: Sender, route: Route, size: nat, o: Outcome)
    requires 0 < size <= 4095 && route != NONE
    ensures var r, again := Carried(st, route, size, o), st.retryPending && o.uds == ECONNREFUSED;
            if route == UDS then
              r.rc == o.uds && r.put == (if o.uds == OK then UDS else NONE) && r.st.retryPending == again
            else if size + 1 > st.shmCapacity then r == Sent(st, EMSGSIZE, NONE)
            else if st.mapped || o.negotiate == OK then
              && r.rc == o.push && r.put == (if o.push == OK then SHM else NONE) && r.st.mapped
              && r.st.retryPending == (o.push == EAGAIN)
            else
              && r.rc == o.uds && r.put == (if o.uds == OK then UDS else NONE) && !r.st.mapped
              && r.st.retryPending == again
  {
  }

  /** A message too large for a datagram goes to the ring or nowhere, whatever was decided or is pending. */
  lemma LargeMessages(st: Sender, size: nat, o: Outcome)
    requires size > 4095
    ensures var r := SendResult(st, size, o);
            && r.put != UDS
            && (size + 1 > st.shmCapacity ==> r.rc == EMSGSIZE)
            && (size + 1 <= st.shmCapacity && (st.mapped || o.negotiate == OK) ==> r.rc == o.push && r.st.mapped)
            && (size + 1 <= st.shmCapacity && !st.mapped && o.negotiate != OK ==>
                  r.rc == (if o.negotiate == ETIMEDOUT then EAGAIN else o.negotiate) && Resumes(r.st, size))
  {
  }

  /** The route that a call finally attempts, if it gets that far. */
  function Attempted(st: Sender, size: nat, o: Outcome): Route {
    var (st1, decided) := Classified(st, size, o.situation);
    var route := Escalated(decided, size);
    if TooLarge(st, route, size) then NONE
    else if route == SHM && !st.mapped && o.negotiate != OK && FitsDatagram(size) then UDS
    else route
  }

  /** A pending classification is for the ring, and was not one that a datagram could have replaced. */
  predicate Coherent(st: Sender) {
    st.retryPending ==>
      && st.pendingRoute == SHM && 0 < st.pendingSize < st.shmCapacity
      && (st.mapped || !FitsDatagram(st.pendingSize))
  }

  lemma CallCoherent(st: Sender, size: nat, o: Outcome)
    requires Coherent(st)
    ensures Coherent(SendResult(st, size, o).st)
  {
  }

  lemma {:induction false} RunCoherent(alpha: real, capacity: nat, calls: seq<Call>)
    ensures Coherent(After(Fresh(alpha, capacity), calls))
  {
    if calls != [] {
      var first, call := calls[..|calls| - 1], calls[|calls| - 1];
      RunCoherent(alpha, capacity, first);
      CallCoherent(After(Fresh(alpha, capacity), first), call.size, call.o);
    }
  }

  /** The attempt was for the ring and met a failed handshake or a full ring. */
  predicate Unfinished(st: Sender, size: nat, o: Outcome) {
    Attempted(st, size, o) == SHM && ((!st.mapped && o.negotiate != OK) || o.push == EAGAIN)
  }

  /**
   Repeating a failed call resumes its classification iff the call was left
   unfinished, be it a first attempt or a resumed one. Other failures, a refused
   datagram among them, classify the message once more.
   */
  lemma RepeatResumesIff(st: Sender, size: nat, o: Outcome)
    requires size > 0 && (Coherent(st) || !Resumes(st, size))
    ensures var r := SendResult(st, size, o);
            r.rc != OK ==> (Resumes(r.st, size) <==> Unfinished(st, size, o))
  {
  }

  /** A call that fails with EAGAIN leaves its classification for the next one, unless the socket itself said so. */
  lemma EagainResumes(st: Sender, size: nat, o: Outcome)
    requires SendResult(st, size, o).rc == EAGAIN
    ensures Resumes(SendResult(st, size, o).st, size) || Attempted(st, size, o) == UDS
    ensures o.uds != EAGAIN ==> Resumes(SendResult(st, size, o).st, size)
  {
  }

  /** A message whose datagram failed moves the average again when it is sent again. */
  lemma RefusedDatagramCountsTwice(st: Sender, size: nat, o: Outcome, again: Outcome)
    requires size > 0 && !Resumes(st, size) && Attempted(st, size, o) == UDS && o.uds != OK
    ensures var once := SendResult(st, size, o);
            var twice := SendResult(once.st, size, again);
            && once.rc == o.uds
            && once.st.ewma == Ewma(st.alpha, st.ewma, size as real)
            && twice.st.ewma == Ewma(st.alpha, once.st.ewma, size as real)
  {
    CallMoves(st, size, o);
    var once := SendResult(st, size, o);
    assert !Resumes(once.st, size);
    CallMoves(once.st, size, again);
  }

  // ---- The default policy, end to end ----

  predicate SizePolicy(calls: seq<Call>) {
    forall i :: 0 <= i < |calls| ==> calls[i].o.situation.policy == SIZE_HYSTERESIS
  }

  /** The sizes of the logical messages among the calls. */
  function Sizes(messages: seq<Message>): (r: seq<nat>)
    ensures |r| == |messages|
  {
    if messages == [] then [] else Sizes(messages[..|messages| - 1]) + [messages[|messages| - 1].size]
  }

  /** Messages routed by the default policy, none above `limit`. */
  predicate Plain(messages: seq<Message>, limit: nat) {
    forall i :: 0 <= i < |messages| ==> messages[i].situation.policy == SIZE_HYSTERESIS && messages[i].size <= limit
  }

  lemma {:induction false} FoldIsHysteresis(alpha: real, messages: seq<Message>, limit: nat)
    requires Plain(messages, limit)
    ensures var t, c := Fold(alpha, messages), Hysteresis.Run(alpha, Hysteresis.START, Sizes(messages));
            && t.ewma == c.ewma && t.route == c.route
            && AdjacentChanges(t.decided) == Hysteresis.Switches(alpha, Hysteresis.START, Sizes(messages))
  {
    if messages != [] {
      var first := messages[..|messages| - 1];
      FoldIsHysteresis(alpha, first, limit);
      FoldChanges(alpha, messages);
      assert Sizes(messages)[..|first|] == Sizes(first);
    }
  }

  lemma {:induction false} SizesBounded(messages: seq<Message>, limit: nat)
    requires Plain(messages, limit)
    ensures forall i :: 0 <= i < |messages| ==> Sizes(messages)[i] <= limit
  {
    if messages != [] {
      SizesBounded(messages[..|messages| - 1], limit);
    }
  }

  lemma PlainAppend(messages: seq<Message>, m: Message, limit: nat)
    requires Plain(messages, limit) && m.situation.policy == SIZE_HYSTERESIS && m.size <= limit
    ensures Plain(messages + [m], limit)
  {
  }

  lemma {:induction false} LogicalIsPlain(st: Sender, calls: seq<Call>, limit: nat)
    requires SizePolicy(calls) && forall i :: 0 <= i < |calls| ==> calls[i].size <= limit
    ensures Plain(Logical(st, calls), limit)
  {
    if calls != [] {
      var n := |calls| - 1;
      LogicalIsPlain(st, calls[..n], limit);
      var m := Message(calls[n].size, calls[n].o.situation.(mapped := After(st, calls[..n]).mapped));
      PlainAppend(Logical(st, calls[..n]), m, limit);
    }
  }

  /**
   An endpoint with the default policy routes like the bare size classifier run
   over its logical messages, so for a smoothing factor below 1 it never
   switches while no call is larger than TAU_HIGH, whatever fails and is retried.
   */
  lemma EndpointFollowsSizes(alpha: real, capacity: nat, calls: seq<Call>)
    requires SizePolicy(calls)
    ensures var st := After(Fresh(alpha, capacity), calls);
            var sizes := Sizes(Logical(Fresh(alpha, capacity), calls));
            && Hysteresis.Classifier(st.ewma, st.lastRoute) == Hysteresis.Run(alpha, Hysteresis.START, sizes)
            && st.switches == Hysteresis.Switches(alpha, Hysteresis.START, sizes)
            && (0.0 < alpha < 1.0 && (forall i :: 0 <= i < |calls| ==> calls[i].size <= 4096) ==>
                  st.switches == 0 && st.lastRoute != SHM)
  {
    var messages := Logical(Fresh(alpha, capacity), calls);
    RetryTransparency(alpha, capacity, calls);
    LogicalIsPlain(Fresh(alpha, capacity), calls, MaxSize(calls));
    FoldIsHysteresis(alpha, messages, MaxSize(calls));
    if 0.0 < alpha < 1.0 && forall i :: 0 <= i < |calls| ==> calls[i].size <= 4096 {
      LogicalIsPlain(Fresh(alpha, capacity), calls, 4096);
      SizesBounded(messages, 4096);
      Hysteresis.SmallPayloadsStay(alpha, Sizes(messages));
    }
  }

  /** A bound on the sizes of the calls. */
  function MaxSize(calls: seq<Call>): (m: nat)
    ensures forall i :: 0 <= i < |calls| ==> calls[i].size <= m
  {
    if calls == [] then 0
    else
      var m, size := MaxSize(calls[..|calls| - 1]), calls[|calls| - 1].size;
      if size > m then size else m
  }
}
