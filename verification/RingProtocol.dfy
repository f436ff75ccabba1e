/**
 The two processes that share a ring, as a state machine whose steps are single
 accesses to shared memory: one cursor load or store, one byte read or written,
 one exchange of the flow flag, one lock operation. Any interleaving of the two
 is a sequence of events. Memory is sequentially consistent.
 */
module RingProtocol {
  import opened Bytes
  import opened Cursors
  import opened RingLayout

  datatype Kind = Contiguous | Scatter | Blocking

  /** Where a wait for space returns to. */
  datatype After = Return | ThenPush(b: body)

  datatype Producer =
    | PIdle
    | PLoad(b: body, kind: Kind)                            // about to load the cursors
    | PWrite(b: body, seen: nat, done: nat, base: seq<byte>) // `done` stores are in the buffer
    | WLoad(k: After)                                       // first look at the usage
    | WArm(k: After)                                        // about to set the flow flag
    | WRecheck(k: After)                                    // second look
    | WDisarm(k: After)                                     // about to clear the flag again
    | WPark(k: After)                                       // about to count the park
    | WEnter(k: After)                                      // entering the futex
    | WLocked(k: After)                                     // emulated futex: mutex held
    | WChecked(k: After)                                    // emulated futex: flag seen set, mutex still held
    | WSleep(k: After)
    | WWoken(k: After)                                      // emulated futex: mutex to be retaken

  datatype Consumer =
    | CIdle
    | CLoad(max: nat, pass: nat)
    | CLen(max: nat, pass: nat, headSeen: nat, seen: nat, got: seq<byte>)
    | CCopy(pass: nat, headSeen: nat, seen: nat, len: nat, got: seq<byte>)
    | CExchange                                             // about to exchange the flow flag
    | CLock                                                 // emulated futex: about to lock
    | CWake
    | CUnlock

  datatype Lock = Free | ByProducer | ByConsumer

  /**
   `accepted` and `delivered` are the bodies published and popped so far;
   `seen` in a consumer state is how many bodies were published when it loaded
   the head. `shortAfterSkip` records that the last pop failed for want of
   buffer space after it had skipped a marker.
   */
  datatype State = State(
    cap: nat, emulated: bool,
    data: seq<byte>, head: nat, tail: nat,
    flag: bool, parks: nat, lock: Lock,
    prod: Producer, cons: Consumer,
    accepted: seq<body>, delivered: seq<body>,
    shortAfterSkip: bool)

  datatype Event =
    | PushCall(b: body, kind: Kind)
    | WaitCall
    | PopCall(max: nat)
    | ProducerStep
    | ConsumerStep
    | SpuriousWake

  function HighWater(cap: nat): nat { cap * 80 / 100 }

  function LowWater(cap: nat): nat { cap * 20 / 100 }

  /** The largest body that each push accepts. */
  function Limit(cap: nat, kind: Kind): int {
    if kind == Contiguous then cap - HDR else cap - 2 * HDR
  }

  function Resume(k: After): Producer {
    match k
    case Return => PIdle
    case ThenPush(b) => PLoad(b, Blocking)
  }

  /** Loads both cursors and decides whether the body can be pushed now. */
  function Decide(s: State, b: body, kind: Kind): (r: State)
    requires s.cap > 0
    ensures r == s.(prod := r.prod)
  {
    if b == [] || |b| > Limit(s.cap, kind) then s.(prod := PIdle)
    else if Fits(s.cap, s.head, s.tail, Need(b)) then s.(prod := PWrite(b, s.tail, 0, s.data))
    else if kind == Blocking then s.(prod := WLoad(ThenPush(b)))
    else s.(prod := PIdle)
  }

  /** One byte store of a push. */
  function StoreByte(s: State): (r: State)
    requires s.cap > 0 && s.prod.PWrite? && s.prod.done < |Stores(s.cap, s.head, s.prod.b)|
    ensures |r.data| == |s.data| && r == s.(data := r.data, prod := r.prod)
  {
    var st := Stores(s.cap, s.head, s.prod.b)[s.prod.done];
    if st.at < |s.data| then
      s.(data := s.data[st.at := st.value], prod := s.prod.(done := s.prod.done + 1))
    else s
  }

  /** The store of `head` that makes a record visible. */
  function Publish(s: State): (r: State)
    requires s.cap > 0 && s.prod.PWrite?
    ensures r == s.(head := r.head, accepted := r.accepted, prod := PIdle)
  {
    s.(head := NewHead(s.cap, s.head, Need(s.prod.b)), accepted := s.accepted + [s.prod.b], prod := PIdle)
  }

  /** The steps of waiting for space. */
  function WaitStep(s: State): (r: State)
    requires s.cap > 0 && !s.prod.PLoad? && !s.prod.PWrite?
    ensures r == s.(prod := r.prod, flag := r.flag, parks := r.parks, lock := r.lock)
    ensures !r.prod.PWrite?
  {
    match s.prod
    case WLoad(k) =>
      s.(prod := if s.head - s.tail < HighWater(s.cap) then Resume(k) else WArm(k))
    case WArm(k) => s.(flag := true, prod := WRecheck(k))
    case WRecheck(k) =>
      s.(prod := if s.head - s.tail < HighWater(s.cap) then WDisarm(k) else WPark(k))
    case WDisarm(k) => s.(flag := false, prod := Resume(k))
    case WPark(k) => s.(parks := s.parks + 1, prod := WEnter(k))
    case WEnter(k) =>
      if s.emulated then
        if s.lock == Free then s.(lock := ByProducer, prod := WLocked(k)) else s
      else s.(prod := if s.flag then WSleep(k) else WLoad(k))
    case WLocked(k) =>
      if s.flag then s.(prod := WChecked(k)) else s.(lock := Free, prod := WLoad(k))
    case WChecked(k) => s.(lock := Free, prod := WSleep(k))
    case WWoken(k) =>
      if s.lock == Free then s.(prod := WLoad(k)) else s
    case _ => s
  }

  function StepProducer(s: State): (r: State)
    requires s.cap > 0
    ensures r.cap == s.cap && r.emulated == s.emulated
  {
    match s.prod
    case PLoad(b, kind) => Decide(s, b, kind)
    case PWrite(b, _, done, _) =>
      if done < |Stores(s.cap, s.head, b)| then StoreByte(s) else Publish(s)
    case _ => WaitStep(s)
  }

  /** Loads the head and, if the ring is not empty, starts reading a length field. */
  function LoadHead(s: State): (r: State)
    requires s.cons.CLoad?
    ensures r == s.(cons := r.cons)
  {
    if s.head == s.tail then s.(cons := CIdle)
    else s.(cons := CLen(s.cons.max, s.cons.pass, s.head, |s.accepted|, []))
  }

  /** Reads one byte of the length field. */
  function ReadLengthByte(s: State): (r: State)
    requires s.cap > 0 && s.cons.CLen? && |s.cons.got| < HDR
    ensures r == s.(cons := r.cons)
  {
    var at := Offset(s.cap, s.tail) + |s.cons.got|;
    if at < |s.data| then
      s.(cons := CLen(s.cons.max, s.cons.pass, s.cons.headSeen, s.cons.seen, s.cons.got + [s.data[at]]))
    else s
  }

  /** Acts on the length: skip a marker, refuse a body that is too long, or start copying. */
  function UseLength(s: State): (r: State)
    requires s.cap > 0 && s.cons.CLen?
    ensures s.tail <= r.tail && r == s.(cons := r.cons, tail := r.tail, shortAfterSkip := r.shortAfterSkip)
  {
    var len := Decode(s.cons.got);
    if len == 0 then s.(tail := LapEnd(s.cap, s.tail), cons := CLoad(s.cons.max, s.cons.pass + 1))
    else if s.cons.max < len then s.(cons := CIdle, shortAfterSkip := s.shortAfterSkip || s.cons.pass > 0)
    else s.(cons := CCopy(s.cons.pass, s.cons.headSeen, s.cons.seen, len, []))
  }

  /** Copies one byte of the body out. */
  function CopyByte(s: State): (r: State)
    requires s.cap > 0 && s.cons.CCopy?
    ensures r == s.(cons := r.cons)
  {
    var at := Offset(s.cap, s.tail) + HDR + |s.cons.got|;
    if at < |s.data| then
      s.(cons := CCopy(s.cons.pass, s.cons.headSeen, s.cons.seen, s.cons.len, s.cons.got + [s.data[at]]))
    else s
  }

  /** The store of `tail` that releases the record, and the low-watermark test. */
  function Release(s: State): (r: State)
    requires s.cons.CCopy?
    ensures s.tail <= r.tail
    ensures r == s.(cons := r.cons, tail := r.tail, delivered := r.delivered, shortAfterSkip := false)
  {
    var t := s.tail + s.cons.len + HDR;
    s.(tail := t, delivered := s.delivered + [s.cons.got], shortAfterSkip := false,
       cons := if s.cons.headSeen - t < LowWater(s.cap) then CExchange else CIdle)
  }

  /** The steps of waking a parked producer. */
  function WakeStep(s: State): (r: State)
    requires !s.cons.CLoad? && !s.cons.CLen? && !s.cons.CCopy?
    ensures r == s.(cons := r.cons, flag := r.flag, lock := r.lock, prod := r.prod)
    ensures r.prod == if s.cons.CWake? && s.prod.WSleep? then WWoken(s.prod.k) else s.prod
    ensures !r.cons.CLoad? && !r.cons.CLen? && !r.cons.CCopy?
  {
    match s.cons
    case CExchange =>
      s.(flag := false,
         cons := if !s.flag then CIdle else if s.emulated then CLock else CWake)
    case CLock =>
      if s.lock == Free then s.(lock := ByConsumer, cons := CWake) else s
    case CWake =>
      s.(prod := if s.prod.WSleep? then WWoken(s.prod.k) else s.prod,
         cons := if s.emulated then CUnlock else CIdle)
    case CUnlock => s.(lock := Free, cons := CIdle)
    case _ => s
  }

  function StepConsumer(s: State): (r: State)
    requires s.cap > 0
    ensures r.cap == s.cap && r.emulated == s.emulated && r.head == s.head && s.tail <= r.tail
    ensures r.prod == if s.cons.CWake? && s.prod.WSleep? then WWoken(s.prod.k) else s.prod
  {
    match s.cons
    case CLoad(_, _) => LoadHead(s)
    case CLen(_, _, _, _, got) => if |got| < HDR then ReadLengthByte(s) else UseLength(s)
    case CCopy(_, _, _, len, got) => if |got| < len then CopyByte(s) else Release(s)
    case _ => WakeStep(s)
  }

  /** A call by the application, or a spurious wake of the sleeping producer. */
  function Call(s: State, e: Event): (r: State)
    ensures r == s.(prod := r.prod, cons := r.cons)
    ensures r.prod.PWrite? ==> r.prod == s.prod
    ensures r.cons == s.cons || (s.cons.CIdle? && r.cons.CLoad? && r.cons.pass == 0)
  {
    match e
    case PushCall(b, kind) =>
      if !s.prod.PIdle? then s
      else if kind == Blocking then s.(prod := WLoad(ThenPush(b)))
      else s.(prod := PLoad(b, kind))
    case WaitCall => if s.prod.PIdle? then s.(prod := WLoad(Return)) else s
    case PopCall(max) => if s.cons.CIdle? then s.(cons := CLoad(max, 0)) else s
    case SpuriousWake => if s.prod.WSleep? then s.(prod := WWoken(s.prod.k)) else s
    case _ => s
  }

  /** One event; an event that is not enabled changes nothing. */
  function Next(s: State, e: Event): (r: State)
    requires s.cap > 0
    ensures r.cap == s.cap && r.emulated == s.emulated
  {
    match e
    case ProducerStep => StepProducer(s)
    case ConsumerStep => StepConsumer(s)
    case _ => Call(s, e)
  }

  /** A new ring over a buffer whose first `cap` bytes may hold anything. */
  ghost predicate Initial(s: State) {
    && Capacity(s.cap) && |s.data| == s.cap + SLACK && SlackZero(s.data, s.cap)
    && s.head == s.tail == 0 && !s.flag && s.parks == 0 && s.lock == Free
    && s.prod == PIdle && s.cons == CIdle && s.accepted == [] && s.delivered == [] && !s.shortAfterSkip
  }

  function Run(s: State, events: seq<Event>): (r: State)
    requires s.cap > 0
    ensures r.cap == s.cap && r.emulated == s.emulated
  {
    if events == [] then s
    else
      var before := Run(s, events[..|events| - 1]);
      Next(before, events[|events| - 1])
  }

  lemma {:induction false} RunConcat(s: State, a: seq<Event>, b: seq<Event>)
    requires s.cap > 0
    ensures Run(s, a + b) == Run(Run(s, a), b)
    decreases |b|
  {
    if b == [] {
      assert a + b == a;
    } else {
      RunConcat(s, a, b[..|b| - 1]);
      assert (a + b)[..|a + b| - 1] == a + b[..|b| - 1];
    }
  }
}
