/** What every interleaving keeps about the bytes of the ring and the records in it. */
module RingSafety {
  import opened Bytes
  import opened Cursors
  import opened RingLayout
  import opened RingProtocol

  /** Records published and not yet popped. */
  function Unread(s: State): seq<body> {
    if |s.delivered| <= |s.accepted| then s.accepted[|s.delivered|..] else []
  }

  /** The length field the consumer will find in front of the record `b`. */
  function LengthField(cap: nat, tail: nat, b: body): (f: seq<byte>)
    requires cap > 0
    ensures |f| == HDR
  {
    if Wraps(cap, tail, Need(b)) then ZEROS else U32(|b|)
  }

  /** The consumer's view: the records published when it loaded the head. */
  ghost predicate Viewed(s: State, headSeen: nat, seen: nat)
    requires s.cap > 0 && |s.data| == s.cap + SLACK
  {
    && s.tail < headSeen <= s.head
    && |s.delivered| < seen <= |s.accepted|
    && Chain(s.data, s.cap, s.tail, headSeen, s.accepted[|s.delivered|..seen])
  }

  ghost predicate Shape(s: State) {
    && Capacity(s.cap) && |s.data| == s.cap + SLACK && SlackZero(s.data, s.cap)
    && s.tail <= s.head <= s.tail + s.cap
    && s.delivered <= s.accepted
    && Chain(s.data, s.cap, s.tail, s.head, Unread(s))
  }

  ghost predicate ProducerInv(s: State)
    requires Shape(s)
  {
    s.prod.PWrite? ==>
      && 0 < |s.prod.b| < s.cap
      && Fits(s.cap, s.head, s.prod.seen, Need(s.prod.b)) && s.prod.seen <= s.tail
      && s.prod.done <= |Stores(s.cap, s.head, s.prod.b)|
      && |s.prod.base| == |s.data|
      && s.data == Apply(s.prod.base, Stores(s.cap, s.head, s.prod.b)[..s.prod.done])
  }

  /** The bytes read so far of a length field or a body. */
  predicate Begins(got: seq<byte>, all: seq<byte>) {
    |got| <= |all| && got == all[..|got|]
  }

  ghost predicate ConsumerInv(s: State)
    requires Shape(s)
  {
    match s.cons
    case CLoad(_, pass) => pass <= 1 && (pass == 1 ==> s.tail < s.head && Offset(s.cap, s.tail) == 0)
    case CLen(_, pass, headSeen, seen, got) =>
      && Viewed(s, headSeen, seen)
      && pass <= 1 && (pass == 1 ==> Offset(s.cap, s.tail) == 0)
      && Begins(got, LengthField(s.cap, s.tail, s.accepted[|s.delivered|]))
    case CCopy(_, headSeen, seen, len, got) =>
      && Viewed(s, headSeen, seen)
      && !Wraps(s.cap, s.tail, Need(s.accepted[|s.delivered|]))
      && len == |s.accepted[|s.delivered|]|
      && Begins(got, s.accepted[|s.delivered|])
    case _ => true
  }

  ghost predicate Inv(s: State) {
    Shape(s) && ProducerInv(s) && ConsumerInv(s)
  }

  lemma InitialInv(s: State)
    requires Initial(s)
    ensures Inv(s)
  {
  }

  // ---- The producer's steps ----

  /** Steps that touch only control state keep the invariant. */
  lemma ControlKeeps(s: State, s': State)
    requires Inv(s)
    requires s' == s.(prod := s'.prod, flag := s'.flag, parks := s'.parks, lock := s'.lock)
    requires s'.prod.PWrite? ==> s'.prod == s.prod
    ensures Inv(s')
  {
    assert Unread(s') == Unread(s);
  }

  lemma DecideKeeps(s: State)
    requires Inv(s) && s.prod.PLoad?
    ensures Inv(Decide(s, s.prod.b, s.prod.kind))
  {
    var s' := Decide(s, s.prod.b, s.prod.kind);
    if s'.prod.PWrite? {
      assert Stores(s.cap, s.head, s.prod.b)[..0] == [];
    } else {
      ControlKeeps(s, s');
    }
  }

  /** A store of a push leaves the queue intact. */
  lemma StoreByteShape(s: State)
    requires Inv(s) && s.prod.PWrite? && s.prod.done < |Stores(s.cap, s.head, s.prod.b)|
    ensures Shape(StoreByte(s)) && ProducerInv(StoreByte(s))
  {
    var b, seen, done := s.prod.b, s.prod.seen, s.prod.done;
    var stores := Stores(s.cap, s.head, b);
    StoreKeepsChain(s.data, s.cap, s.head, seen, s.tail, s.head, Unread(s), b, done);
    ApplyOneMore(s.prod.base, stores, done);
    assert Unread(StoreByte(s)) == Unread(s);
  }

  /** It also leaves what the consumer is looking at. */
  lemma StoreByteView(s: State, headSeen: nat, seen: nat)
    requires Inv(s) && s.prod.PWrite? && s.prod.done < |Stores(s.cap, s.head, s.prod.b)|
    requires Viewed(s, headSeen, seen)
    ensures Viewed(StoreByte(s), headSeen, seen)
  {
    StoreKeepsChain(s.data, s.cap, s.head, s.prod.seen, s.tail, headSeen,
                    s.accepted[|s.delivered|..seen], s.prod.b, s.prod.done);
  }

  lemma StoreByteKeeps(s: State)
    requires Inv(s) && s.prod.PWrite? && s.prod.done < |Stores(s.cap, s.head, s.prod.b)|
    ensures Inv(StoreByte(s))
  {
    StoreByteShape(s);
    if s.cons.CLen? || s.cons.CCopy? {
      StoreByteView(s, s.cons.headSeen, s.cons.seen);
    }
  }

  lemma PublishShape(s: State)
    requires Inv(s) && s.prod.PWrite? && s.prod.done == |Stores(s.cap, s.head, s.prod.b)|
    ensures Shape(Publish(s))
  {
    var b := s.prod.b;
    var stores := Stores(s.cap, s.head, b);
    assert stores[..|stores|] == stores;
    PushCompletes(s.prod.base, s.data, s.cap, s.prod.seen, s.tail, s.head, Unread(s), b);
    assert Unread(Publish(s)) == Unread(s) + [b];
  }

  lemma PublishView(s: State, headSeen: nat, seen: nat)
    requires Inv(s) && s.prod.PWrite? && Viewed(s, headSeen, seen)
    ensures Viewed(Publish(s), headSeen, seen)
  {
    assert Publish(s).accepted[|s.delivered|..seen] == s.accepted[|s.delivered|..seen];
  }

  lemma PublishKeeps(s: State)
    requires Inv(s) && s.prod.PWrite? && s.prod.done == |Stores(s.cap, s.head, s.prod.b)|
    ensures Inv(Publish(s))
  {
    PublishShape(s);
    if s.cons.CLen? || s.cons.CCopy? {
      PublishView(s, s.cons.headSeen, s.cons.seen);
    }
  }

  lemma ProducerKeeps(s: State)
    requires Inv(s)
    ensures Inv(StepProducer(s))
  {
    match s.prod
    case PLoad(_, _) => DecideKeeps(s);
    case PWrite(b, _, done, _) =>
      if done < |Stores(s.cap, s.head, b)| {
        StoreByteKeeps(s);
      } else {
        PublishKeeps(s);
      }
    case _ => ControlKeeps(s, WaitStep(s));
  }

  // ---- The consumer's steps ----

  /** What the consumer is about to read, from its own view of the ring. */
  lemma FrontOfView(s: State, headSeen: nat, seen: nat)
    requires Shape(s) && Viewed(s, headSeen, seen)
    ensures var b := s.accepted[|s.delivered|];
            && b != []
            && NewHead(s.cap, s.tail, Need(b)) <= headSeen
            && s.data[Offset(s.cap, s.tail)..Offset(s.cap, s.tail) + HDR] == LengthField(s.cap, s.tail, b)
            && Decode(LengthField(s.cap, s.tail, b)) == if Wraps(s.cap, s.tail, Need(b)) then 0 else |b|
    ensures var b := s.accepted[|s.delivered|];
            !Wraps(s.cap, s.tail, Need(b)) ==>
              s.data[Offset(s.cap, s.tail) + HDR..Offset(s.cap, s.tail) + Need(b)] == b
  {
    FrontOfRecord(s.data, s.cap, s.tail, s.accepted[|s.delivered|]);
  }

  lemma LoadKeeps(s: State)
    requires Inv(s) && s.cons.CLoad?
    ensures Inv(LoadHead(s))
  {
    ChainOrder(s.data, s.cap, s.tail, s.head, Unread(s));
    assert s.accepted[|s.delivered|..|s.accepted|] == Unread(s);
  }

  lemma LengthByte(s: State, headSeen: nat, seen: nat, n: nat)
    requires Shape(s) && Viewed(s, headSeen, seen) && n < HDR
    ensures s.data[Offset(s.cap, s.tail) + n] == LengthField(s.cap, s.tail, s.accepted[|s.delivered|])[n]
  {
    FrontOfView(s, headSeen, seen);
    var p := Offset(s.cap, s.tail);
    assert s.data[p + n] == s.data[p..p + HDR][n];
  }

  lemma BodyByte(s: State, headSeen: nat, seen: nat, n: nat)
    requires Shape(s) && Viewed(s, headSeen, seen)
    requires !Wraps(s.cap, s.tail, Need(s.accepted[|s.delivered|])) && n < |s.accepted[|s.delivered|]|
    ensures Offset(s.cap, s.tail) + HDR + n < |s.data|
    ensures s.data[Offset(s.cap, s.tail) + HDR + n] == s.accepted[|s.delivered|][n]
  {
    FrontOfView(s, headSeen, seen);
    var p, b := Offset(s.cap, s.tail), s.accepted[|s.delivered|];
    assert s.data[p + HDR + n] == s.data[p + HDR..p + Need(b)][n];
  }

  /** Steps of the consumer that only read. */
  lemma ReadOnly(s: State, s': State)
    requires Inv(s) && s' == s.(cons := s'.cons, shortAfterSkip := s'.shortAfterSkip)
    ensures Shape(s') && ProducerInv(s') && Unread(s') == Unread(s)
  {
    assert Unread(s') == Unread(s);
  }

  lemma SameView(s: State, s': State, headSeen: nat, seen: nat)
    requires s.cap > 0 && |s.data| == s.cap + SLACK && Viewed(s, headSeen, seen)
    requires s' == s.(cons := s'.cons, shortAfterSkip := s'.shortAfterSkip)
    ensures Viewed(s', headSeen, seen)
  {
  }

  lemma OneMoreByte(got: seq<byte>, all: seq<byte>)
    requires Begins(got, all) && |got| < |all|
    ensures Begins(got + [all[|got|]], all)
  {
  }

  /** The state with `got` read of the length field. */
  function LengthRead(s: State, got: seq<byte>): State
    requires s.cons.CLen?
  {
    s.(cons := CLen(s.cons.max, s.cons.pass, s.cons.headSeen, s.cons.seen, got))
  }

  lemma LengthReadKeeps(s: State, got: seq<byte>)
    requires Inv(s) && s.cons.CLen? && Begins(got, LengthField(s.cap, s.tail, s.accepted[|s.delivered|]))
    ensures Inv(LengthRead(s, got))
  {
    ReadOnly(s, LengthRead(s, got));
    SameView(s, LengthRead(s, got), s.cons.headSeen, s.cons.seen);
  }

  lemma ReadLengthKeeps(s: State)
    requires Inv(s) && s.cons.CLen? && |s.cons.got| < HDR
    ensures Inv(ReadLengthByte(s))
  {
    var f, n := LengthField(s.cap, s.tail, s.accepted[|s.delivered|]), |s.cons.got|;
    OneMoreByte(s.cons.got, f);
    LengthReadKeeps(s, s.cons.got + [f[n]]);
    ReadsNext(s);
  }

  lemma ReadsNext(s: State)
    requires Inv(s) && s.cons.CLen? && |s.cons.got| < HDR
    ensures var f := LengthField(s.cap, s.tail, s.accepted[|s.delivered|]);
            ReadLengthByte(s) == LengthRead(s, s.cons.got + [f[|s.cons.got|]])
  {
    LengthByte(s, s.cons.headSeen, s.cons.seen, |s.cons.got|);
  }

  /** A zero length is a marker, met on the first pass only. */
  lemma SkipKeeps(s: State)
    requires Inv(s) && s.cons.CLen? && |s.cons.got| == HDR && Decode(s.cons.got) == 0
    ensures Inv(UseLength(s)) && s.cons.pass == 0
    ensures Unread(UseLength(s)) == Unread(s)
  {
    FrontOfView(s, s.cons.headSeen, s.cons.seen);
    var b := s.accepted[|s.delivered|];
    assert s.cons.got == LengthField(s.cap, s.tail, b);
    assert Unread(s)[0] == b && Unread(UseLength(s)) == Unread(s);
    ChainSkip(s.data, s.cap, s.tail, s.head, Unread(s));
    OffsetLapEnd(s.cap, s.tail);
  }

  /** A length that is not zero is that of the front record. */
  lemma FrontLength(s: State)
    requires Inv(s) && s.cons.CLen? && |s.cons.got| == HDR && Decode(s.cons.got) != 0
    ensures var b := s.accepted[|s.delivered|];
            !Wraps(s.cap, s.tail, Need(b)) && Decode(s.cons.got) == |b| <= s.cap
  {
    FrontOfView(s, s.cons.headSeen, s.cons.seen);
    assert s.cons.got == LengthField(s.cap, s.tail, s.accepted[|s.delivered|]);
  }

  lemma UseLengthKeeps(s: State)
    requires Inv(s) && s.cons.CLen? && |s.cons.got| == HDR && Decode(s.cons.got) != 0
    ensures Inv(UseLength(s)) && Decode(s.cons.got) == |s.accepted[|s.delivered|]| <= s.cap
    ensures Unread(UseLength(s)) == Unread(s)
  {
    FrontLength(s);
    ReadOnly(s, UseLength(s));
    SameView(s, UseLength(s), s.cons.headSeen, s.cons.seen);
  }

  lemma CopyKeeps(s: State)
    requires Inv(s) && s.cons.CCopy? && |s.cons.got| < s.cons.len
    ensures Inv(CopyByte(s))
  {
    var s', n := CopyByte(s), |s.cons.got|;
    BodyByte(s, s.cons.headSeen, s.cons.seen, n);
    ReadOnly(s, s');
    SameView(s, s', s.cons.headSeen, s.cons.seen);
    OneMoreByte(s.cons.got, s.accepted[|s.delivered|]);
  }

  lemma ReleasedQueue(s: State)
    requires s.cons.CCopy? && s.delivered <= s.accepted && |s.delivered| < |s.accepted|
    requires Begins(s.cons.got, s.accepted[|s.delivered|]) && |s.cons.got| == |s.accepted[|s.delivered|]|
    ensures var s' := Release(s);
            && s.cons.got == s.accepted[|s.delivered|] == Unread(s)[0]
            && s'.delivered == s.delivered + [Unread(s)[0]] && s'.delivered <= s'.accepted
            && Unread(s') == Unread(s)[1..]
  {
    var b := s.accepted[|s.delivered|];
    assert b[..|b|] == b;
    assert s.delivered + [b] == s.accepted[..|s.delivered| + 1];
  }

  /** Releasing a record delivers exactly the front one. */
  lemma ReleaseKeeps(s: State)
    requires Inv(s) && s.cons.CCopy? && |s.cons.got| == s.cons.len
    ensures Inv(Release(s))
    ensures Unread(s) != [] && Release(s).delivered == s.delivered + [Unread(s)[0]]
    ensures Unread(Release(s)) == Unread(s)[1..]
    ensures Release(s).tail <= s.cons.headSeen
  {
    FrontOfView(s, s.cons.headSeen, s.cons.seen);
    var s' := Release(s);
    ReleasedQueue(s);
    ChainOrder(s'.data, s'.cap, s'.tail, s'.head, Unread(s'));
  }

  lemma ConsumerKeeps(s: State)
    requires Inv(s)
    ensures Inv(StepConsumer(s))
  {
    match s.cons
    case CLoad(_, _) => LoadKeeps(s);
    case CLen(_, _, _, _, got) =>
      if |got| < HDR {
        ReadLengthKeeps(s);
      } else if Decode(got) == 0 {
        SkipKeeps(s);
      } else {
        UseLengthKeeps(s);
      }
    case CCopy(_, _, _, len, got) =>
      if |got| < len {
        CopyKeeps(s);
      } else {
        ReleaseKeeps(s);
      }
    case _ => WakeKeeps(s);
  }

  lemma WakeKeeps(s: State)
    requires Inv(s) && !s.cons.CLoad? && !s.cons.CLen? && !s.cons.CCopy?
    ensures Inv(WakeStep(s))
  {
    var s' := WakeStep(s);
    ControlKeeps(s, s.(prod := s'.prod, flag := s'.flag, lock := s'.lock));
    assert Unread(s') == Unread(s);
  }

  lemma CallKeeps(s: State, e: Event)
    requires Inv(s)
    ensures Inv(Call(s, e))
  {
    ControlKeeps(s, s.(prod := Call(s, e).prod));
    assert Unread(Call(s, e)) == Unread(s);
  }

  lemma NextKeeps(s: State, e: Event)
    requires Inv(s)
    ensures Inv(Next(s, e))
  {
    match e
    case ProducerStep => ProducerKeeps(s);
    case ConsumerStep => ConsumerKeeps(s);
    case _ => CallKeeps(s, e);
  }

  lemma {:induction false} RunKeeps(s: State, events: seq<Event>)
    requires Initial(s)
    ensures Inv(Run(s, events))
  {
    if events == [] {
      InitialInv(s);
    } else {
      RunKeeps(s, events[..|events| - 1]);
      NextKeeps(Run(s, events[..|events| - 1]), events[|events| - 1]);
    }
  }

  // ---- Main results ----

  /**
   In every interleaving the popped bodies are a prefix of the published ones,
   and the bytes between the cursors parse into exactly the rest.
   */
  lemma ExactlyOnceInOrder(s: State, events: seq<Event>)
    requires Initial(s)
    ensures var r := Run(s, events);
            && r.delivered <= r.accepted
            && |r.data| == r.cap + SLACK
            && Parse(r.data, r.cap, r.tail, r.head) == Records(r.accepted[|r.delivered|..])
            && r.tail <= r.head <= r.tail + r.cap
  {
    RunKeeps(s, events);
    var r := Run(s, events);
    ParseChain(r.data, r.cap, r.tail, r.head, Unread(r));
  }

  /** The next store of a push in progress is never to a byte that is still to be read. */
  lemma NeverOverwritesUnread(s: State, events: seq<Event>)
    requires Initial(s)
    ensures var r := Run(s, events);
            r.prod.PWrite? && r.prod.done < |Stores(r.cap, r.head, r.prod.b)| ==>
              var at := Stores(r.cap, r.head, r.prod.b)[r.prod.done].at;
              && at < |r.data|
              && (forall c :: r.tail <= c < r.head ==> Offset(r.cap, c) != at)
              && (at >= r.cap ==> Stores(r.cap, r.head, r.prod.b)[r.prod.done].value == r.data[at])
  {
    RunKeeps(s, events);
    var r := Run(s, events);
    if r.prod.PWrite? && r.prod.done < |Stores(r.cap, r.head, r.prod.b)| {
      StoreMissesLive(r.cap, r.head, r.prod.seen, r.tail, r.prod.b, r.prod.done);
    }
  }

  /**
   After every run, a push about to decide writes its body iff that is within
   the call's limit and has a place between the cursors; a body within the limit
   but without a place makes a blocking push wait, and ends any other.
   */
  lemma PushDecision(s: State, events: seq<Event>)
    requires Initial(s)
    ensures var r := Run(s, events);
            r.prod.PLoad? ==>
              var t, b, kind := StepProducer(r), r.prod.b, r.prod.kind;
              var accepted := 0 < |b| && |b| + (if kind == Contiguous then 4 else 8) <= r.cap;
              var place := HasPlace(r.cap, r.head, r.tail, |b| + 4);
              && t == r.(prod := t.prod)
              && (t.prod.PWrite? <==> accepted && place)
              && (t.prod == WLoad(ThenPush(b)) <==> accepted && !place && kind == Blocking)
              && (t.prod == PIdle <==> !(accepted && (place || kind == Blocking)))
  {
    RunKeeps(s, events);
    var r := Run(s, events);
    if r.prod.PLoad? {
      AdmittedIff(r.cap, r.head, r.tail, |r.prod.b| + 4);
      Decided(r);
    }
  }

  lemma Decided(s: State)
    requires s.cap > 0 && s.prod.PLoad?
    ensures var t, b, kind := StepProducer(s), s.prod.b, s.prod.kind;
            var accepted := 0 < |b| && |b| + (if kind == Contiguous then 4 else 8) <= s.cap;
            var place := Fits(s.cap, s.head, s.tail, |b| + 4);
            && t == s.(prod := t.prod)
            && (t.prod.PWrite? <==> accepted && place)
            && (t.prod == WLoad(ThenPush(b)) <==> accepted && !place && kind == Blocking)
            && (t.prod == PIdle <==> !(accepted && (place || kind == Blocking)))
  {
  }

  /**
   A pop makes at most two passes: after one skipped marker the ring is not
   empty, the length it reads is not zero again, and so it never reports empty.
   */
  lemma AtMostTwoPasses(s: State, events: seq<Event>)
    requires Initial(s)
    ensures var r := Run(s, events);
            && (r.cons.CLoad? ==> r.cons.pass <= 1)
            && (r.cons.CLoad? && r.cons.pass == 1 ==> StepConsumer(r).cons.CLen?)
            && (r.cons.CLen? && r.cons.pass == 1 && |r.cons.got| == HDR ==> Decode(r.cons.got) != 0)
  {
    RunKeeps(s, events);
    var r := Run(s, events);
    if r.cons.CLen? && r.cons.pass == 1 && |r.cons.got| == HDR && Decode(r.cons.got) == 0 {
      SkipKeeps(r);
    }
  }

  /** `s'` holds the queue of `s`, or that queue with `b` appended. */
  ghost predicate SameOrAppended(s: State, s': State, b: body) {
    && s'.delivered == s.delivered
    && ((s'.accepted == s.accepted && Unread(s') == Unread(s)) ||
        (s'.accepted == s.accepted + [b] && Unread(s') == Unread(s) + [b]))
  }

  lemma ProducerQueueStep(s: State)
    requires s.cap > 0 && |s.delivered| <= |s.accepted|
    ensures SameOrAppended(s, StepProducer(s), if s.prod.PWrite? then s.prod.b else [])
  {
    if s.prod.PWrite? && s.prod.done >= |Stores(s.cap, s.head, s.prod.b)| {
      assert Unread(Publish(s)) == Unread(s) + [s.prod.b];
    }
  }

  /**
   The two processes refine a queue: a step leaves the unread records alone,
   appends the body being pushed, or delivers the front one and removes it.
   */
  lemma StepIsQueueStep(s: State, e: Event)
    requires Inv(s)
    ensures var s' := Next(s, e);
            || SameOrAppended(s, s', if s.prod.PWrite? then s.prod.b else [])
            || (&& s'.accepted == s.accepted && Unread(s) != [] && Unread(s') == Unread(s)[1..]
                && s'.delivered == s.delivered + [Unread(s)[0]])
  {
    if e == ProducerStep {
      ProducerQueueStep(s);
    } else if e == ConsumerStep {
      ConsumerQueueStep(s);
    }
  }

  lemma ConsumerQueueStep(s: State)
    requires Inv(s)
    ensures var s' := StepConsumer(s);
            && s'.accepted == s.accepted
            && (|| (s'.delivered == s.delivered && Unread(s') == Unread(s))
                || (&& Unread(s) != [] && Unread(s') == Unread(s)[1..]
                    && s'.delivered == s.delivered + [Unread(s)[0]]))
  {
    if s.cons.CCopy? && |s.cons.got| >= s.cons.len {
      ReleaseKeeps(s);
    } else {
      OtherQueueStep(s);
    }
  }

  lemma OtherQueueStep(s: State)
    requires s.cap > 0 && (s.cons.CCopy? ==> |s.cons.got| < s.cons.len)
    ensures var s' := StepConsumer(s);
            s'.accepted == s.accepted && s'.delivered == s.delivered && Unread(s') == Unread(s)
  {
  }
}
