/** Runs that perform whole calls, one after the other: a push, a pop, a pop that fails, a wait that falls asleep. */
module RingRuns {
  import opened Bytes
  import opened Cursors
  import opened RingLayout
  import opened RingProtocol
  import opened RingSafety

  predicate NoPops(events: seq<Event>) {
    forall i :: 0 <= i < |events| ==> !events[i].PopCall?
  }

  /** Every pop in the events offers a buffer of at least `m` bytes. */
  predicate Offers(events: seq<Event>, m: nat) {
    forall i :: 0 <= i < |events| && events[i].PopCall? ==> events[i].max >= m
  }

  lemma RunOne(s: State, e: Event)
    requires s.cap > 0
    ensures Run(s, [e]) == Next(s, e)
  {
    assert [e][..0] == [];
  }

  lemma RunFirst(s: State, e: Event, rest: seq<Event>)
    requires s.cap > 0
    ensures Run(s, [e] + rest) == Run(Next(s, e), rest)
  {
    RunConcat(s, [e], rest);
    RunOne(s, e);
  }

  /** What the rest of a push in progress leaves. */
  function Finished(s: State, data: seq<byte>): State
    requires s.cap > 0 && s.prod.PWrite?
  {
    s.(data := data, head := NewHead(s.cap, s.head, Need(s.prod.b)), accepted := s.accepted + [s.prod.b], prod := PIdle)
  }

  lemma StoreOne(s: State)
    requires Inv(s) && s.prod.PWrite? && s.prod.done < |Stores(s.cap, s.head, s.prod.b)|
    ensures var r := Next(s, ProducerStep);
            Inv(r) && r == s.(data := r.data, prod := s.prod.(done := s.prod.done + 1))
  {
    StoreByteKeeps(s);
    StoreMissesLive(s.cap, s.head, s.prod.seen, s.tail, s.prod.b, s.prod.done);
    StoreIs(s);
  }

  lemma StoreIs(s: State)
    requires s.cap > 0 && s.prod.PWrite? && s.prod.done < |Stores(s.cap, s.head, s.prod.b)|
    requires Stores(s.cap, s.head, s.prod.b)[s.prod.done].at < |s.data|
    ensures var r := Next(s, ProducerStep);
            r == StoreByte(s) == s.(data := r.data, prod := s.prod.(done := s.prod.done + 1))
  {
  }

  /** The rest of a push in progress. */
  lemma {:induction false} StoresRun(s: State) returns (events: seq<Event>)
    requires Inv(s) && s.prod.PWrite?
    ensures Run(s, events) == Finished(s, Run(s, events).data)
    ensures NoPops(events)
    decreases |Stores(s.cap, s.head, s.prod.b)| - s.prod.done
  {
    if s.prod.done == |Stores(s.cap, s.head, s.prod.b)| {
      RunOne(s, ProducerStep);
      return [ProducerStep];
    }
    StoreOne(s);
    var rest := StoresRun(Next(s, ProducerStep));
    RunFirst(s, ProducerStep, rest);
    events := [ProducerStep] + rest;
  }

  lemma PushRun(s: State, b: body) returns (events: seq<Event>)
    requires Inv(s) && s.prod.PIdle? && 0 < |b| <= Limit(s.cap, Contiguous) && Fits(s.cap, s.head, s.tail, Need(b))
    ensures var r := Run(s, events);
            r == s.(data := r.data, head := NewHead(s.cap, s.head, Need(b)), accepted := s.accepted + [b])
    ensures NoPops(events)
  {
    var called := Next(s, PushCall(b, Contiguous));
    CallKeeps(s, PushCall(b, Contiguous));
    assert called == s.(prod := PLoad(b, Contiguous));
    ProducerKeeps(called);
    var admitted := Next(called, ProducerStep);
    assert admitted == s.(prod := PWrite(b, s.tail, 0, s.data));
    var rest := StoresRun(admitted);
    RunFirst(called, ProducerStep, rest);
    RunFirst(s, PushCall(b, Contiguous), [ProducerStep] + rest);
    events := [PushCall(b, Contiguous)] + ([ProducerStep] + rest);
  }

  /** The consumer with `n` bytes of the length field read. */
  function Reading(s: State, max: nat, pass: nat, n: nat): State
    requires s.cap > 0 && |s.delivered| < |s.accepted| && n <= HDR
  {
    s.(cons := CLen(max, pass, s.head, |s.accepted|, LengthField(s.cap, s.tail, s.accepted[|s.delivered|])[..n]))
  }

  lemma ReadOne(s: State, max: nat, pass: nat, n: nat)
    requires |s.delivered| < |s.accepted| && n < HDR && s.cap > 0 && Inv(Reading(s, max, pass, n))
    ensures Next(Reading(s, max, pass, n), ConsumerStep) == Reading(s, max, pass, n + 1)
    ensures Inv(Reading(s, max, pass, n + 1))
  {
    var r := Reading(s, max, pass, n);
    ConsumerKeeps(r);
    LengthByte(r, s.head, |s.accepted|, n);
  }

  /** The consumer reads the rest of a length field. */
  lemma {:induction false} LengthRun(s: State, max: nat, pass: nat, n: nat) returns (events: seq<Event>)
    requires |s.delivered| < |s.accepted| && n <= HDR && s.cap > 0 && Inv(Reading(s, max, pass, n))
    ensures Run(Reading(s, max, pass, n), events) == Reading(s, max, pass, HDR)
    ensures Inv(Reading(s, max, pass, HDR))
    ensures NoPops(events)
    decreases HDR - n
  {
    if n == HDR { return []; }
    ReadOne(s, max, pass, n);
    var rest := LengthRun(s, max, pass, n + 1);
    RunFirst(Reading(s, max, pass, n), ConsumerStep, rest);
    events := [ConsumerStep] + rest;
  }

  /** A pop finds the ring non-empty and reads a length field. */
  lemma ReadRun(s: State, max: nat, pass: nat) returns (events: seq<Event>)
    requires Inv(s) && s.cons == CLoad(max, pass) && Unread(s) != []
    ensures Run(s, events) == Reading(s, max, pass, HDR) && Inv(Reading(s, max, pass, HDR))
    ensures Reading(s, max, pass, HDR).cons.got == LengthField(s.cap, s.tail, Unread(s)[0])
    ensures NoPops(events)
  {
    ChainOrder(s.data, s.cap, s.tail, s.head, Unread(s));
    ConsumerKeeps(s);
    assert StepConsumer(s) == Reading(s, max, pass, 0);
    var rest := LengthRun(s, max, pass, 0);
    RunFirst(s, ConsumerStep, rest);
    events := [ConsumerStep] + rest;
  }

  /** A pop is called and reads the length field in front of it. */
  lemma FetchRun(s: State, max: nat) returns (events: seq<Event>)
    requires Inv(s) && s.cons.CIdle? && Unread(s) != []
    ensures Run(s, events) == Reading(s, max, 0, HDR) && Inv(Reading(s, max, 0, HDR))
    ensures Reading(s, max, 0, HDR).cons.got == LengthField(s.cap, s.tail, Unread(s)[0])
    ensures Offers(events, max)
  {
    CallKeeps(s, PopCall(max));
    var called := s.(cons := CLoad(max, 0));
    assert Next(s, PopCall(max)) == called && Unread(called) == Unread(s);
    var fetch := ReadRun(called, max, 0);
    assert Reading(called, max, 0, HDR) == Reading(s, max, 0, HDR);
    RunFirst(s, PopCall(max), fetch);
    events := [PopCall(max)] + fetch;
  }

  /** The consumer with `n` bytes of the front body copied. */
  function Copying(s: State, pass: nat, n: nat): State
    requires |s.delivered| < |s.accepted| && n <= |s.accepted[|s.delivered|]|
  {
    var b := s.accepted[|s.delivered|];
    s.(cons := CCopy(pass, s.head, |s.accepted|, |b|, b[..n]))
  }

  lemma CopyOne(s: State, pass: nat, n: nat)
    requires |s.delivered| < |s.accepted| && n < |s.accepted[|s.delivered|]| && Inv(Copying(s, pass, n))
    ensures Next(Copying(s, pass, n), ConsumerStep) == Copying(s, pass, n + 1)
    ensures Inv(Copying(s, pass, n + 1))
  {
    var r := Copying(s, pass, n);
    ConsumerKeeps(r);
    BodyByte(r, s.head, |s.accepted|, n);
  }

  /** The consumer copies the rest of a body. */
  lemma {:induction false} CopyRun(s: State, pass: nat, n: nat) returns (events: seq<Event>)
    requires |s.delivered| < |s.accepted| && n <= |s.accepted[|s.delivered|]| && Inv(Copying(s, pass, n))
    ensures var all := Copying(s, pass, |s.accepted[|s.delivered|]|);
            Run(Copying(s, pass, n), events) == all && Inv(all)
    ensures NoPops(events)
    decreases |s.accepted[|s.delivered|]| - n
  {
    if n == |s.accepted[|s.delivered|]| { return []; }
    CopyOne(s, pass, n);
    var rest := CopyRun(s, pass, n + 1);
    RunFirst(Copying(s, pass, n), ConsumerStep, rest);
    events := [ConsumerStep] + rest;
  }

  /** What a pop of the front record `b` leaves. */
  function Taken(s: State, b: body): State {
    var t := s.tail + Need(b);
    s.(tail := t, delivered := s.delivered + [b], shortAfterSkip := false,
       cons := if s.head - t < LowWater(s.cap) then CExchange else CIdle)
  }

  /** With the whole length field read, the consumer starts to copy. */
  lemma StartCopy(s: State, max: nat)
    requires |s.delivered| < |s.accepted| && s.cap > 0 && Inv(Reading(s, max, 0, HDR))
    requires var b := s.accepted[|s.delivered|]; !Wraps(s.cap, s.tail, Need(b)) && |b| <= max
    ensures Next(Reading(s, max, 0, HDR), ConsumerStep) == Copying(s, 0, 0) && Inv(Copying(s, 0, 0))
  {
    var read, b := Reading(s, max, 0, HDR), s.accepted[|s.delivered|];
    FrontOfView(read, s.head, |s.accepted|);
    ConsumerKeeps(read);
    assert read.cons.got == LengthField(s.cap, s.tail, b);
    assert b[..0] == [];
  }

  /** With the whole body copied, the consumer releases the record. */
  lemma EndCopy(s: State)
    requires |s.delivered| < |s.accepted| && s.cap > 0
    ensures Next(Copying(s, 0, |s.accepted[|s.delivered|]|), ConsumerStep) == Taken(s, s.accepted[|s.delivered|])
  {
    var b := s.accepted[|s.delivered|];
    assert b[..|b|] == b;
  }

  lemma TakeRun(s: State, max: nat) returns (events: seq<Event>)
    requires |s.delivered| < |s.accepted| && s.cap > 0 && Inv(Reading(s, max, 0, HDR))
    requires var b := s.accepted[|s.delivered|]; !Wraps(s.cap, s.tail, Need(b)) && |b| <= max
    ensures Run(Reading(s, max, 0, HDR), events) == Taken(s, s.accepted[|s.delivered|])
    ensures NoPops(events)
  {
    StartCopy(s, max);
    var copy := CopyRun(s, 0, 0);
    EndCopy(s);
    RunOne(Copying(s, 0, |s.accepted[|s.delivered|]|), ConsumerStep);
    RunConcat(Copying(s, 0, 0), copy, [ConsumerStep]);
    RunFirst(Reading(s, max, 0, HDR), ConsumerStep, copy + [ConsumerStep]);
    events := [ConsumerStep] + (copy + [ConsumerStep]);
  }

  /** A whole pop of a record that no marker precedes. */
  lemma PopRun(s: State, max: nat) returns (events: seq<Event>)
    requires Inv(s) && s.cons.CIdle? && Unread(s) != []
    requires !Wraps(s.cap, s.tail, Need(Unread(s)[0])) && |Unread(s)[0]| <= max
    ensures Run(s, events) == Taken(s, Unread(s)[0])
    ensures Offers(events, max)
  {
    var fetch := FetchRun(s, max);
    var take := TakeRun(s, max);
    RunConcat(s, fetch, take);
    events := fetch + take;
  }

  /** Behind a skipped marker, a pop with too small a buffer fails. */
  lemma ShortRun(s: State, max: nat) returns (events: seq<Event>)
    requires Inv(s) && s.cons == CLoad(max, 1) && Unread(s) != []
    requires !Wraps(s.cap, s.tail, Need(Unread(s)[0])) && max < |Unread(s)[0]|
    ensures Run(s, events) == s.(cons := CIdle, shortAfterSkip := true)
    ensures NoPops(events)
  {
    var fetch := ReadRun(s, max, 1);
    var read := Run(s, fetch);
    FrontOfView(read, s.head, |s.accepted|);
    assert Next(read, ConsumerStep) == s.(cons := CIdle, shortAfterSkip := true);
    RunOne(read, ConsumerStep);
    RunConcat(s, fetch, [ConsumerStep]);
    events := fetch + [ConsumerStep];
  }

  /** The length field of a marker read, the consumer skips it. */
  lemma SkipStep(s: State, max: nat)
    requires s.cap > 0 && |s.delivered| < |s.accepted| && Inv(Reading(s, max, 0, HDR))
    requires Unread(s) != [] && Wraps(s.cap, s.tail, Need(Unread(s)[0]))
    ensures var r := Next(Reading(s, max, 0, HDR), ConsumerStep);
            && r == s.(tail := LapEnd(s.cap, s.tail), cons := CLoad(max, 1))
            && Inv(r) && Unread(r) == Unread(s)
  {
    var read := Reading(s, max, 0, HDR);
    assert read.cons.got == ZEROS;
    ZerosDecode();
    SkipKeeps(read);
    assert Next(read, ConsumerStep) == UseLength(read);
    assert Unread(read) == Unread(s);
  }

  /** In front of a marker, a pop moves past it. */
  lemma SkipRun(s: State, max: nat) returns (events: seq<Event>)
    requires Inv(s) && s.cons.CIdle? && Unread(s) != [] && Wraps(s.cap, s.tail, Need(Unread(s)[0]))
    ensures var r := Run(s, events);
            && r == s.(tail := LapEnd(s.cap, s.tail), cons := CLoad(max, 1))
            && Inv(r) && Unread(r) == Unread(s)
    ensures Offers(events, max)
  {
    var fetch := FetchRun(s, max);
    var read := Reading(s, max, 0, HDR);
    SkipStep(s, max);
    RunOne(read, ConsumerStep);
    RunConcat(s, fetch, [ConsumerStep]);
    events := fetch + [ConsumerStep];
  }

  /** A whole pop with too small a buffer, in front of a marker: it skips that and fails. */
  lemma ShortPopRun(s: State, max: nat) returns (events: seq<Event>)
    requires Inv(s) && s.cons.CIdle? && Unread(s) != [] && Wraps(s.cap, s.tail, Need(Unread(s)[0]))
    requires max < |Unread(s)[0]|
    ensures Run(s, events) == s.(tail := LapEnd(s.cap, s.tail), shortAfterSkip := true)
    ensures Offers(events, max)
  {
    var skip := SkipRun(s, max);
    ChainSkip(s.data, s.cap, s.tail, s.head, Unread(s));
    var rest := ShortRun(Run(s, skip), max);
    RunConcat(s, skip, rest);
    events := skip + rest;
  }

  lemma ArmRun(s: State)
    requires Capacity(s.cap) && s.prod.PIdle? && s.head - s.tail >= HighWater(s.cap)
    ensures Run(s, [WaitCall] + ([ProducerStep] + [ProducerStep])) == s.(prod := WRecheck(Return), flag := true)
  {
    RunFirst(s, WaitCall, [ProducerStep] + [ProducerStep]);
    RunFirst(s.(prod := WLoad(Return)), ProducerStep, [ProducerStep]);
    RunOne(s.(prod := WArm(Return)), ProducerStep);
  }

  /** From the entry of the futex the producer falls asleep, with its lock given back. */
  lemma EnterRun(s: State) returns (events: seq<Event>)
    requires Capacity(s.cap) && s.prod == WEnter(Return) && s.flag && s.lock == Free
    ensures Run(s, events) == s.(prod := WSleep(Return))
    ensures NoPops(events)
  {
    EnterIs(s);
    if s.emulated {
      var locked := s.(prod := WLocked(Return), lock := ByProducer);
      RunFirst(s, ProducerStep, [ProducerStep] + [ProducerStep]);
      RunFirst(locked, ProducerStep, [ProducerStep]);
      RunOne(locked.(prod := WChecked(Return)), ProducerStep);
      events := [ProducerStep] + ([ProducerStep] + [ProducerStep]);
    } else {
      RunOne(s, ProducerStep);
      events := [ProducerStep];
    }
  }

  lemma EnterIs(s: State)
    requires s.cap > 0 && s.prod == WEnter(Return) && s.flag && s.lock == Free
    ensures var locked := s.(prod := WLocked(Return), lock := ByProducer);
            var checked := locked.(prod := WChecked(Return));
            && Next(s, ProducerStep) == (if s.emulated then locked else s.(prod := WSleep(Return)))
            && Next(locked, ProducerStep) == checked
            && Next(checked, ProducerStep) == s.(prod := WSleep(Return))
  {
  }

  lemma ParkRun(s: State)
    requires Capacity(s.cap) && s.prod == WRecheck(Return) && s.head - s.tail >= HighWater(s.cap)
    ensures Run(s, [ProducerStep] + [ProducerStep]) == s.(prod := WEnter(Return), parks := s.parks + 1)
  {
    var parking := s.(prod := WPark(Return));
    RunFirst(s, ProducerStep, [ProducerStep]);
    RunOne(parking, ProducerStep);
    Parks(s);
  }

  lemma Parks(s: State)
    requires s.cap > 0 && s.prod == WRecheck(Return) && s.head - s.tail >= HighWater(s.cap)
    ensures var parking := s.(prod := WPark(Return));
            && Next(s, ProducerStep) == parking
            && Next(parking, ProducerStep) == s.(prod := WEnter(Return), parks := s.parks + 1)
  {
  }

  /** The producer waits for space above the high watermark and falls asleep. */
  lemma SleepRun(s: State) returns (events: seq<Event>)
    requires Capacity(s.cap) && s.prod.PIdle? && s.lock == Free && s.head - s.tail >= HighWater(s.cap)
    ensures Run(s, events) == s.(prod := WSleep(Return), flag := true, parks := s.parks + 1)
    ensures NoPops(events)
  {
    var arm := [WaitCall] + ([ProducerStep] + [ProducerStep]);
    var park := [ProducerStep] + [ProducerStep];
    ArmRun(s);
    ParkRun(Run(s, arm));
    var enter := EnterRun(Run(Run(s, arm), park));
    RunConcat(Run(s, arm), park, enter);
    RunConcat(s, arm, park + enter);
    events := arm + (park + enter);
  }

  lemma {:induction false} InvRun(s: State, events: seq<Event>)
    requires Inv(s)
    ensures Inv(Run(s, events))
  {
    if events != [] {
      InvRun(s, events[..|events| - 1]);
      NextKeeps(Run(s, events[..|events| - 1]), events[|events| - 1]);
    }
  }

  /** An empty ring on which nobody is at work. */
  ghost predicate Rested(s: State) {
    && Inv(s) && s.lock == Free && s.prod.PIdle? && s.cons.CIdle? && !s.flag
    && s.delivered == s.accepted && s.head == s.tail
  }

  function Body(n: nat): (b: body)
    ensures |b| == n
  {
    seq(n, _ => 0)
  }

  /** One record through an empty ring. */
  lemma PushPopRun(s: State, b: body, max: nat) returns (events: seq<Event>)
    requires Rested(s) && |b| <= max && 0 < |b| <= Limit(s.cap, Contiguous)
    requires !Wraps(s.cap, s.head, Need(b)) && Need(b) <= s.cap && LowWater(s.cap) > 0
    ensures var r, t := Run(s, events), s.head + Need(b);
            && r == s.(data := r.data, head := t, tail := t, accepted := s.accepted + [b],
                       delivered := s.accepted + [b], shortAfterSkip := false)
            && Rested(r)
    ensures Offers(events, max)
  {
    var push := PushRun(s, b);
    InvRun(s, push);
    var pushed := Run(s, push);
    assert Unread(pushed) == [b];
    var pop := PopRun(pushed, max);
    var popped := Run(pushed, pop);
    assert popped.cons == CExchange;
    RunOne(popped, ConsumerStep);
    RunConcat(pushed, pop, [ConsumerStep]);
    RunConcat(s, push, pop + [ConsumerStep]);
    events := push + (pop + [ConsumerStep]);
    InvRun(s, events);
  }

  /** Two records pushed into an empty ring. */
  lemma PushTwoRun(s: State, a: body, b: body) returns (events: seq<Event>)
    requires Rested(s) && 0 < |a| <= Limit(s.cap, Contiguous) && 0 < |b| <= Limit(s.cap, Contiguous)
    requires var h := NewHead(s.cap, s.head, Need(a)); h - s.tail <= s.cap && Fits(s.cap, h, s.tail, Need(b))
    ensures var r := Run(s, events);
            && r == s.(data := r.data, head := NewHead(s.cap, NewHead(s.cap, s.head, Need(a)), Need(b)),
                       accepted := s.accepted + [a] + [b])
            && Inv(r) && Unread(r) == [a, b]
    ensures NoPops(events)
  {
    var first := PushRun(s, a);
    InvRun(s, first);
    var mid := Run(s, first);
    assert mid.head == NewHead(s.cap, s.head, Need(a)) && mid.tail == s.tail;
    var second := PushRun(mid, b);
    RunConcat(s, first, second);
    events := first + second;
    InvRun(mid, second);
    assert Run(s, events).accepted == s.accepted + [a, b];
  }
}
