/**
 What the slot pool's waiting loop achieves: a sender that finds the free queue
 empty gets a slot and sends its frame once the receiver has had enough turns,
 iff the receiver's buffers hold the frame at the front.
 */
module SlotProgress {
  import opened SlotPool

  // ---- Turns of the receiver ----

  predicate ReceiverTurn(s: State, e: Event) {
    if s.receiver.RIdle? then e.Recv? else e == ReceiverStep
  }

  function Turns(s: State, events: seq<Event>): nat
    requires Sized(s)
  {
    if events == [] then 0
    else
      var n := |events| - 1;
      Turns(s, events[..n]) + (if ReceiverTurn(Run(s, events[..n]), events[n]) then 1 else 0)
  }

  /** Every receive call offers a buffer of at least `m` bytes. */
  predicate Offers(events: seq<Event>, m: nat) {
    forall i :: 0 <= i < |events| && events[i].Recv? ==> events[i].max >= m
  }

  /** A slot is in flight or on its way back. */
  predicate Owed(s: State) {
    s.tail < s.head || ReceiverHand(s) != []
  }

  /** The frame at the front has at most `m` bytes. */
  predicate FrontFits(s: State, m: nat) {
    Pending(s) != [] ==> |Pending(s)[0]| <= m
  }

  /** Turns until a slot is back in the free queue, if one is owed and the buffers hold `m` bytes. */
  function Patience(s: State, m: nat): int {
    match s.receiver
    case RIdle => CHUNK + 9
    case RLoad(max) => (if max < m then CHUNK + 10 else 0) + CHUNK + 8
    case RTake(max) => (if max < m then CHUNK + 10 else 0) + CHUNK + 7
    case RLen(max, _) => (if max < m then CHUNK + 10 else 0) + CHUNK + 6
    case RCopy(_, total, got) => total - |got| + 5
    case RReturn(_) => 3
    case RPut(_, _) => 2
    case RCas(_, _) => 1
  }

  /** A slot came back, or one is still owed and the receiver is nearer to returning it. */
  predicate Nearer(s: State, s': State, m: nat, turn: nat) {
    || s'.freeHead > s.freeHead
    || (&& s'.freeHead == s.freeHead && Owed(s')
        && (ReceiverHand(s') == [] ==> FrontFits(s', m))
        && 0 <= Patience(s', m) && Patience(s', m) + turn <= Patience(s, m))
  }

  /** A slot is owed, by way of a frame that fits. */
  ghost predicate Due(s: State, m: nat) {
    Inv(s) && Owed(s) && (ReceiverHand(s) == [] ==> FrontFits(s, m))
  }

  lemma ReadNearer(s: State, m: nat)
    requires Due(s, m) && (s.receiver.RLen? || (s.receiver.RCopy? && |s.receiver.got| < s.receiver.total))
    ensures Nearer(s, ReadStep(s), m, 1)
  {
    FrontSlot(s);
    assert Pending(s)[0] == s.sent[|s.received|];
  }

  lemma StepNearer(s: State, m: nat)
    requires Due(s, m) && !s.receiver.RIdle?
    ensures Nearer(s, StepReceiver(s), m, 1)
  {
    match s.receiver
    case RLen(_, _) => ReadNearer(s, m);
    case RCopy(_, total, got) => if |got| < total { ReadNearer(s, m); }
    case _ =>
  }

  lemma TurnNearer(s: State, e: Event, m: nat)
    requires Due(s, m) && ReceiverTurn(s, e) && (e.Recv? ==> e.max >= m)
    ensures Nearer(s, Next(s, e), m, 1)
  {
    if s.receiver.RIdle? {
      assert Pending(Next(s, e)) == Pending(s);
    } else {
      StepNearer(s, m);
    }
  }

  /** The sender adds frames behind the front one and takes slots, but returns none. */
  lemma SenderLeaves(s: State)
    requires Sized(s) && s.received <= s.sent
    ensures var s' := StepSender(s);
            && s'.receiver == s.receiver && s'.tail == s.tail && s'.head >= s.head && s'.freeHead == s.freeHead
            && s'.received == s.received && s.sent <= s'.sent
  {
  }

  lemma OthersNearer(s: State, e: Event, m: nat)
    requires Due(s, m) && !ReceiverTurn(s, e)
    ensures Nearer(s, Next(s, e), m, 0)
  {
    if e == SenderStep {
      SenderLeaves(s);
      if s.tail < s.head { PendingGrows(s); }
    }
    PatiencePositive(s, m);
  }

  lemma PatiencePositive(s: State, m: nat)
    requires Inv(s)
    ensures Patience(s, m) >= 0
  {
  }

  lemma PendingGrows(s: State)
    requires Inv(s) && s.tail < s.head
    ensures Pending(s) != [] && Pending(StepSender(s)) != [] && Pending(StepSender(s))[0] == Pending(s)[0]
  {
    FrontSlot(s);
    SenderLeaves(s);
  }

  lemma {:induction false} RunNearer(s: State, events: seq<Event>, m: nat)
    requires Due(s, m) && Framed(events) && Offers(events, m)
    ensures Inv(Run(s, events)) && Nearer(s, Run(s, events), m, Turns(s, events))
  {
    if events == [] {
      PatiencePositive(s, m);
    } else {
      var n := |events| - 1;
      RunNearer(s, events[..n], m);
      var before := Run(s, events[..n]);
      NextKeeps(before, events[n]);
      if before.freeHead > s.freeHead {
        HeadGrows(before, events[n]);
      } else if ReceiverTurn(before, events[n]) {
        TurnNearer(before, events[n], m);
      } else {
        OthersNearer(before, events[n], m);
      }
    }
  }

  lemma HeadGrows(s: State, e: Event)
    requires Sized(s)
    ensures Next(s, e).freeHead >= s.freeHead
  {
  }

  // ---- The send that waits ----

  /** The sender is sending `f`. */
  predicate Sending(s: State, f: frame) {
    !s.sender.SIdle? && s.sender.f == f
  }

  /** Steps of the sender until `f` is sent, once it finds a slot. */
  function Rank(s: State): int {
    match s.sender
    case SIdle => 0
    case SLoad(f) => |f| + 7
    case STake(f, _) => |f| + 6
    case SCas(f, _, _) => |f| + 5
    case SWrite(f, _, done) => |f| - done + 4
    case SRoom(_, _) => 3
    case SStore(_, _) => 2
    case SPublish(_, _) => 1
  }

  /** The sender is past its look at the free queue, or will find a slot there. */
  predicate Available(s: State) {
    s.sender.SLoad? ==> s.freeTail < s.freeHead
  }

  function SenderSteps(events: seq<Event>): nat {
    if events == [] then 0
    else SenderSteps(events[..|events| - 1]) + (if events[|events| - 1] == SenderStep then 1 else 0)
  }

  /** The send of `f` goes on from `s` to `s'`, without a second look at a free queue that had a slot, or it is done. */
  predicate SentOn(s: State, s': State, f: frame) {
    || s'.sent == s.sent + [f]
    || (&& s'.sent == s.sent && Sending(s', f)
        && (s'.sender.SLoad? ==> s.sender.SLoad? && s'.freeTail == s.freeTail))
  }

  lemma SendStep(s: State, f: frame)
    requires Inv(s) && Sending(s, f)
    ensures var s' := StepSender(s);
            && SentOn(s, s', f)
            && (Available(s) && s'.sent == s.sent ==> Available(s') && 0 <= Rank(s') < Rank(s))
  {
    if s.sender.SRoom? {
      SenderOwns(s, s.sender.slot);
    }
  }

  lemma SendWaits(s: State, e: Event, f: frame)
    requires Sized(s) && Sending(s, f) && e != SenderStep
    ensures var s' := Next(s, e);
            s'.sender == s.sender && s'.sent == s.sent && s'.freeTail == s.freeTail && s'.freeHead >= s.freeHead
  {
  }

  lemma SendNext(s: State, e: Event, f: frame)
    requires Inv(s) && Sending(s, f)
    ensures var s' := Next(s, e);
            && SentOn(s, s', f)
            && (Available(s) && s'.sent == s.sent ==>
                  Available(s') && 0 <= Rank(s') && Rank(s') + (if e == SenderStep then 1 else 0) <= Rank(s))
  {
    if e == SenderStep {
      SendStep(s, f);
    } else {
      SendWaits(s, e, f);
    }
  }

  lemma SentGrows(s: State, e: Event)
    requires Sized(s)
    ensures s.sent <= Next(s, e).sent
  {
  }

  lemma {:induction false} SendRun(s: State, events: seq<Event>, f: frame)
    requires Inv(s) && Framed(events) && Sending(s, f)
    ensures var r := Run(s, events);
            Inv(r) && (s.sent + [f] <= r.sent || (SentOn(s, r, f) && r.sent == s.sent))
    ensures var r := Run(s, events);
            Available(s) && r.sent == s.sent ==>
              Available(r) && 0 <= Rank(r) && Rank(r) + SenderSteps(events) <= Rank(s)
  {
    if events != [] {
      var n := |events| - 1;
      SendRun(s, events[..n], f);
      var before := Run(s, events[..n]);
      NextKeeps(before, events[n]);
      if s.sent + [f] <= before.sent {
        SentGrows(before, events[n]);
      } else {
        SendNext(before, events[n], f);
      }
    }
  }

  /** A sender that finds the free queue empty is owed a slot. */
  lemma SlotOwed(s: State)
    requires Inv(s) && s.sender.SLoad? && s.freeHead == s.freeTail
    ensures Owed(s)
  {
    OwnedCounts(s);
  }

  lemma {:induction false} RunConcat(s: State, a: seq<Event>, b: seq<Event>)
    requires Sized(s)
    ensures Run(s, a + b) == Run(Run(s, a), b)
    decreases |b|
  {
    if b == [] {
      assert a + b == a;
    } else {
      RunConcat(s, a, b[..|b| - 1]);
      assert (a + b)[..|a + b| - 1] == a + b[..|b| - 1];
    }
  }

  /** By then the send is done, or its sender has a slot or will find one at its next look. */
  lemma SlotFound(s: State, f: frame, events: seq<Event>, m: nat)
    requires Inv(s) && Sending(s, f) && FrontFits(s, m) && Framed(events) && Offers(events, m)
    requires Turns(s, events) > Patience(s, m)
    ensures var r := Run(s, events);
            Inv(r) && (s.sent + [f] <= r.sent || (r.sent == s.sent && Sending(r, f) && Available(r)))
  {
    SendRun(s, events, f);
    if !Available(s) {
      SlotOwed(s);
      RunNearer(s, events, m);
    }
  }

  /**
   The pool's backpressure: however empty the free queue, once the receiver has
   had as many turns as it takes to return a slot, with buffers that hold the
   frame at the front, and the sender then |f| + 8 steps, its frame is sent,
   whatever other steps come between.
   */
  lemma SendCompletes(s: State, f: frame, first: seq<Event>, rest: seq<Event>, m: nat)
    requires Inv(s) && Sending(s, f) && FrontFits(s, m)
    requires Framed(first) && Framed(rest) && Offers(first, m)
    requires Turns(s, first) > Patience(s, m) && SenderSteps(rest) >= |f| + 8
    ensures s.sent + [f] <= Run(s, first + rest).sent
  {
    SlotFound(s, f, first, m);
    RunConcat(s, first, rest);
    var r := Run(s, first);
    if r.sent == s.sent {
      SendRun(r, rest, f);
    } else {
      SentStays(r, rest);
    }
  }

  lemma {:induction false} SentStays(s: State, events: seq<Event>)
    requires Sized(s)
    ensures s.sent <= Run(s, events).sent
  {
    if events != [] {
      SentStays(s, events[..|events| - 1]);
      SentGrows(Run(s, events[..|events| - 1]), events[|events| - 1]);
    }
  }

  // ---- From the call on ----

  /** A call of an idle sender starts a send of any frame of at most 2 MB and 64 bytes, and refuses every other. */
  lemma CallTaken(s: State, f: frame)
    requires Sized(s) && s.sender.SIdle?
    ensures var t := Next(s, Send(f));
            t == if |f| <= 2097216 then s.(sender := SLoad(f)) else s
  {
  }

  /**
   After every run that leaves the sender idle, calling it with a frame and giving
   both sides their turns puts the frame on the pool iff it has at most 2097216
   bytes; a longer one is refused and leaves the pool as it was.
   */
  lemma SendFromCall(s: State, events: seq<Event>, f: frame, first: seq<Event>, rest: seq<Event>, m: nat)
    requires Initial(s) && Framed(events) && Truthful(f) && Framed(first) && Framed(rest) && Offers(first, m)
    requires Run(s, events).sender.SIdle?
    requires var t := Next(Run(s, events), Send(f));
             FrontFits(t, m) && Turns(t, first) > Patience(t, m) && SenderSteps(rest) >= |f| + 8
    ensures var r := Run(s, events);
            if |f| <= 2097216 then r.sent + [f] <= Run(Next(r, Send(f)), first + rest).sent
            else Next(r, Send(f)) == r
  {
    var r := Run(s, events);
    RunKeeps(s, events);
    CallTaken(r, f);
    if |f| <= 2097216 {
      NextKeeps(r, Send(f));
      SendCompletes(Next(r, Send(f)), f, first, rest, m);
    }
  }

  // ---- Buffers that are too small ----

  /** Every receive call offers less than `n` bytes. */
  predicate AllShort(events: seq<Event>, n: nat) {
    forall i :: 0 <= i < |events| && events[i].Recv? ==> events[i].max < n
  }

  /** The sender waits for a slot, and the receiver looks at a front frame that its buffer is too small for. */
  ghost predicate Hopeless(s: State, f: frame, n: nat) {
    && Inv(s) && s.sender == SLoad(f) && s.freeHead == s.freeTail && Pending(s) != [] && |Pending(s)[0]| == n
    && match s.receiver
       case RIdle => true
       case RLoad(max) => max < n
       case RTake(max) => max < n
       case RLen(max, _) => max < n
       case _ => false
  }

  lemma HopelessRead(s: State, f: frame, n: nat)
    requires Hopeless(s, f, n) && s.receiver.RLen?
    ensures StepReceiver(s) == s.(receiver := RIdle)
  {
    FrontSlot(s);
    assert Pending(s)[0] == s.sent[|s.received|];
  }

  lemma HopelessStep(s: State, e: Event, f: frame, n: nat)
    requires Hopeless(s, f, n) && (e.Send? ==> Truthful(e.f)) && (e.Recv? ==> e.max < n)
    ensures Hopeless(Next(s, e), f, n) && Next(s, e).sent == s.sent
  {
    NextKeeps(s, e);
    if e == ReceiverStep && s.receiver.RLen? {
      HopelessRead(s, f, n);
    }
    assert Pending(Next(s, e)) == Pending(s);
  }

  lemma {:induction false} WaitsForEver(s: State, f: frame, n: nat, events: seq<Event>)
    requires Hopeless(s, f, n) && Framed(events) && AllShort(events, n)
    ensures Hopeless(Run(s, events), f, n) && Run(s, events).sent == s.sent
  {
    if events != [] {
      var k := |events| - 1;
      WaitsForEver(s, f, n, events[..k]);
      HopelessStep(Run(s, events[..k]), events[k], f, n);
    }
  }
}
