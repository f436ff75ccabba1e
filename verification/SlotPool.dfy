/**
 The zero-copy slot pool: a pool of slots, a queue of slot indices in flight and
 a queue of free ones, shared by one sender and one receiver. Steps are single
 accesses to shared memory, in any interleaving.
 */
module SlotPool {
  import opened Bytes

  const SLOTS: nat := 128

  /** Where a cursor points in a circular array of SLOTS entries. */
  function At(cursor: nat): (p: nat)
    ensures p < SLOTS
  {
    cursor % 128
  }

  lemma Distinct(lo: nat, hi: nat)
    requires lo < hi < lo + SLOTS
    ensures At(lo) != At(hi)
  {
  }

  const CHUNK: nat := 0x20_0040   // 2 MB of payload and 64 bytes
  const FRAME_HDR: nat := 24
  const LEN_AT: nat := 16         // the payload length inside the header

  type frame = seq<byte>

  /** The header of a frame states the length of the payload that follows it. */
  predicate Truthful(f: frame) {
    FRAME_HDR <= |f| && Decode(f[LEN_AT..FRAME_HDR]) == |f| - FRAME_HDR
  }

  predicate WellFormed(f: frame) {
    Truthful(f) && |f| <= CHUNK
  }

  datatype Sender =
    | SIdle
    | SLoad(f: frame)                          // about to look at the free queue
    | STake(f: frame, at: nat)                 // free queue was not empty at cursor `at`
    | SCas(f: frame, at: nat, slot: nat)
    | SWrite(f: frame, slot: nat, done: nat)   // copying the frame into its slot
    | SRoom(f: frame, slot: nat)               // about to look for room in the flight queue
    | SStore(f: frame, slot: nat)
    | SPublish(f: frame, slot: nat)

  datatype Receiver =
    | RIdle
    | RLoad(max: nat)
    | RTake(max: nat)
    | RLen(max: nat, slot: nat)
    | RCopy(slot: nat, total: nat, got: frame)
    | RReturn(slot: nat)                       // about to load the free queue's head
    | RPut(slot: nat, at: nat)
    | RCas(slot: nat, at: nat)

  datatype State = State(
    slots: seq<frame>,
    queue: seq<nat>, head: nat, tail: nat,        // indices in flight
    free: seq<nat>, freeHead: nat, freeTail: nat, // indices available
    sender: Sender, receiver: Receiver,
    sent: seq<frame>, received: seq<frame>)

  datatype Event = Send(f: frame) | Recv(max: nat) | SenderStep | ReceiverStep

  /** The `hi - lo` entries of a circular array from cursor `lo` on. */
  function Window(a: seq<nat>, lo: nat, hi: nat): (w: seq<nat>)
    requires |a| == SLOTS && lo <= hi
    ensures |w| == hi - lo
  {
    seq(hi - lo, i requires 0 <= i < hi - lo => a[At(lo + i)])
  }

  ghost predicate Typed(s: State) {
    && |s.slots| == |s.queue| == |s.free| == SLOTS
    && (forall i :: 0 <= i < SLOTS ==> |s.slots[i]| == CHUNK)
    && s.tail <= s.head && s.freeTail <= s.freeHead
  }

  predicate Sized(s: State) {
    |s.slots| == |s.queue| == |s.free| == SLOTS
  }

  /** One byte of the frame into the sender's slot, or on to the next phase. */
  function WriteStep(s: State): (r: State)
    requires s.sender.SWrite?
    ensures |r.slots| == |s.slots| && r == s.(slots := r.slots, sender := r.sender)
  {
    var f, slot, done := s.sender.f, s.sender.slot, s.sender.done;
    if done == |f| then s.(sender := SRoom(f, slot))
    else if done < |f| && slot < |s.slots| && done < |s.slots[slot]| then
      s.(slots := s.slots[slot := s.slots[slot][done := f[done]]], sender := SWrite(f, slot, done + 1))
    else s
  }

  function StepSender(s: State): (r: State)
    requires Sized(s)
    ensures Sized(r)
  {
    match s.sender
    case SIdle => s
    case SLoad(f) => if s.freeHead == s.freeTail then s else s.(sender := STake(f, s.freeTail))
    case STake(f, at) => s.(sender := SCas(f, at, s.free[At(at)]))
    case SCas(f, at, slot) =>
      if s.freeTail == at then s.(freeTail := at + 1, sender := SWrite(f, slot, 0))
      else s.(sender := SLoad(f))
    case SWrite(_, _, _) => WriteStep(s)
    case SRoom(f, slot) => if s.head - s.tail < SLOTS then s.(sender := SStore(f, slot)) else s
    case SStore(f, slot) => s.(queue := s.queue[At(s.head) := slot], sender := SPublish(f, slot))
    case SPublish(f, _) => s.(head := s.head + 1, sent := s.sent + [f], sender := SIdle)
  }

  /** Reads the payload length, or one byte of the frame. */
  function ReadStep(s: State): (r: State)
    requires s.receiver.RLen? || s.receiver.RCopy?
    ensures r == s.(receiver := r.receiver)
  {
    var slot := s.receiver.slot;
    match s.receiver
    case RLen(max, _) =>
      if slot < |s.slots| && FRAME_HDR <= |s.slots[slot]| then
        var total := FRAME_HDR + Decode(s.slots[slot][LEN_AT..FRAME_HDR]);
        s.(receiver := if total > max then RIdle else RCopy(slot, total, []))
      else s
    case RCopy(_, total, got) =>
      if slot < |s.slots| && |got| < |s.slots[slot]| then
        s.(receiver := RCopy(slot, total, got + [s.slots[slot][|got|]]))
      else s
    case _ => s
  }

  function StepReceiver(s: State): (r: State)
    requires Sized(s)
    ensures Sized(r)
  {
    match s.receiver
    case RIdle => s
    case RLoad(max) => if s.head == s.tail then s else s.(receiver := RTake(max))
    case RTake(max) => s.(receiver := RLen(max, s.queue[At(s.tail)]))
    case RLen(_, _) => ReadStep(s)
    case RCopy(slot, total, got) =>
      if |got| < total then ReadStep(s)
      else s.(tail := s.tail + 1, received := s.received + [got], receiver := RReturn(slot))
    case RReturn(slot) => s.(receiver := RPut(slot, s.freeHead))
    case RPut(slot, at) => s.(free := s.free[At(at) := slot], receiver := RCas(slot, at))
    case RCas(slot, at) =>
      if s.freeHead == at then s.(freeHead := at + 1, receiver := RIdle)
      else s.(receiver := RReturn(slot))
  }

  function Next(s: State, e: Event): (r: State)
    requires Sized(s)
    ensures Sized(r)
  {
    match e
    case Send(f) => if s.sender.SIdle? && |f| <= CHUNK then s.(sender := SLoad(f)) else s
    case Recv(max) => if s.receiver.RIdle? then s.(receiver := RLoad(max)) else s
    case SenderStep => StepSender(s)
    case ReceiverStep => StepReceiver(s)
  }

  function Run(s: State, events: seq<Event>): (r: State)
    requires Sized(s)
    ensures Sized(r)
  {
    if events == [] then s
    else Next(Run(s, events[..|events| - 1]), events[|events| - 1])
  }

  /** A pool as the creator leaves it; slots and flight entries may hold anything. */
  ghost predicate Initial(s: State) {
    && Typed(s) && s.head == s.tail == s.freeTail == 0 && s.freeHead == SLOTS
    && (forall i :: 0 <= i < SLOTS ==> s.free[i] == i)
    && s.sender == SIdle && s.receiver == RIdle && s.sent == [] && s.received == []
  }

  // ---- Who owns which slot ----

  function Free(s: State): seq<nat>
    requires |s.free| == SLOTS && s.freeTail <= s.freeHead
  {
    Window(s.free, s.freeTail, s.freeHead)
  }

  function Flight(s: State): seq<nat>
    requires |s.queue| == SLOTS && s.tail <= s.head
  {
    Window(s.queue, s.tail, s.head)
  }

  function SenderHand(s: State): seq<nat> {
    match s.sender
    case SWrite(_, slot, _) => [slot]
    case SRoom(_, slot) => [slot]
    case SStore(_, slot) => [slot]
    case SPublish(_, slot) => [slot]
    case _ => []
  }

  function ReceiverHand(s: State): seq<nat> {
    match s.receiver
    case RReturn(slot) => [slot]
    case RPut(slot, _) => [slot]
    case RCas(slot, _) => [slot]
    case _ => []
  }

  /** In how many of the four places `slot` is, counted with multiplicity. */
  function Owners(s: State, slot: nat): nat
    requires Sized(s) && s.tail <= s.head && s.freeTail <= s.freeHead
  {
    multiset(Free(s))[slot] + multiset(Flight(s))[slot] +
    multiset(SenderHand(s))[slot] + multiset(ReceiverHand(s))[slot]
  }

  ghost predicate EachOnce(m: multiset<nat>, n: nat) {
    forall x: nat :: m[x] == if x < n then 1 else 0
  }

  // ---- The invariant ----

  /** What a sender in the middle of a step knows about the queues. */
  ghost predicate SenderPlace(s: State)
    requires Typed(s)
  {
    match s.sender
    case STake(_, at) => at == s.freeTail < s.freeHead
    case SCas(_, at, slot) => at == s.freeTail < s.freeHead && slot == s.free[At(at)]
    case SPublish(_, slot) => s.queue[At(s.head)] == slot
    case _ => true
  }

  ghost predicate ReceiverPlace(s: State)
    requires Typed(s)
  {
    match s.receiver
    case RTake(_) => s.tail < s.head
    case RLen(_, slot) => s.tail < s.head && slot == s.queue[At(s.tail)]
    case RCopy(slot, _, _) => s.tail < s.head && slot == s.queue[At(s.tail)]
    case RPut(_, at) => at == s.freeHead
    case RCas(slot, at) => at == s.freeHead && s.free[At(at)] == slot
    case _ => true
  }

  /** Who owns which slot; the contents of the slots do not matter. */
  ghost predicate OwnInv(s: State) {
    && Typed(s)
    && (forall x: nat :: Owners(s, x) == if x < SLOTS then 1 else 0)
    && SenderPlace(s) && ReceiverPlace(s)
  }

  predicate HoldsFrame(slots: seq<frame>, slot: nat, f: frame) {
    slot < |slots| && |f| <= |slots[slot]| && slots[slot][..|f|] == f
  }

  /** The sender's slot holds what it has written of its frame. */
  ghost predicate SenderData(slots: seq<frame>, sender: Sender) {
    match sender
    case SIdle => true
    case SWrite(f, slot, done) => WellFormed(f) && done <= |f| && HoldsFrame(slots, slot, f[..done])
    case SRoom(f, slot) => WellFormed(f) && HoldsFrame(slots, slot, f)
    case SStore(f, slot) => WellFormed(f) && HoldsFrame(slots, slot, f)
    case SPublish(f, slot) => WellFormed(f) && HoldsFrame(slots, slot, f)
    case _ => WellFormed(sender.f)
  }

  /** The receiver has copied a prefix of the next frame. */
  ghost predicate ReceiverData(receiver: Receiver, sent: seq<frame>, received: seq<frame>) {
    receiver.RCopy? ==>
      && |received| < |sent| && receiver.total == |sent[|received|]|
      && |receiver.got| <= receiver.total && receiver.got == sent[|received|][..|receiver.got|]
  }

  /** The slots `flight` hold the frames `pending`, in order. */
  ghost predicate Carries(slots: seq<frame>, flight: seq<nat>, pending: seq<frame>) {
    && |flight| == |pending|
    && forall i :: 0 <= i < |flight| ==> WellFormed(pending[i]) && HoldsFrame(slots, flight[i], pending[i])
  }

  function Pending(s: State): seq<frame> {
    if |s.received| <= |s.sent| then s.sent[|s.received|..] else []
  }

  ghost predicate DataInv(s: State)
    requires Typed(s)
  {
    && s.received <= s.sent && Carries(s.slots, Flight(s), Pending(s))
    && SenderData(s.slots, s.sender) && ReceiverData(s.receiver, s.sent, s.received)
  }

  ghost predicate Inv(s: State) {
    OwnInv(s) && DataInv(s)
  }

  lemma {:induction false} IdentityEachOnce(a: seq<nat>)
    requires forall i :: 0 <= i < |a| ==> a[i] == i
    ensures EachOnce(multiset(a), |a|)
  {
    if a != [] {
      var n := |a| - 1;
      IdentityEachOnce(a[..n]);
      assert a == a[..n] + [n];
    }
  }

  lemma {:induction false} EachOnceSize(m: multiset<nat>, n: nat)
    requires EachOnce(m, n)
    ensures |m| == n
  {
    if n == 0 {
      assert forall x :: x !in m;
    } else {
      EachOnceSize(m - multiset{n - 1}, n - 1);
      assert m == (m - multiset{n - 1}) + multiset{n - 1};
    }
  }

  lemma InitialInv(s: State)
    requires Initial(s)
    ensures Inv(s)
  {
    forall i | 0 <= i < SLOTS ensures Free(s)[i] == s.free[i] {
      assert At(0 + i) == i;
    }
    IdentityEachOnce(s.free);
    assert Free(s) == s.free;
  }

  // ---- Windows ----

  lemma WindowFront(a: seq<nat>, lo: nat, hi: nat)
    requires |a| == SLOTS && lo < hi
    ensures Window(a, lo, hi) == [a[At(lo)]] + Window(a, lo + 1, hi)
    ensures forall x: nat :: multiset(Window(a, lo, hi))[x] ==
                             multiset(Window(a, lo + 1, hi))[x] + (if x == a[At(lo)] then 1 else 0)
  {
    assert Window(a, lo, hi) == [a[At(lo)]] + Window(a, lo + 1, hi);
  }

  lemma WindowBack(a: seq<nat>, lo: nat, hi: nat)
    requires |a| == SLOTS && lo <= hi
    ensures Window(a, lo, hi + 1) == Window(a, lo, hi) + [a[At(hi)]]
    ensures forall x: nat :: multiset(Window(a, lo, hi + 1))[x] ==
                             multiset(Window(a, lo, hi))[x] + (if x == a[At(hi)] then 1 else 0)
  {
    assert Window(a, lo, hi + 1) == Window(a, lo, hi) + [a[At(hi)]];
  }

  /** Writing just past a window that is not full leaves it alone. */
  lemma WindowUpdate(a: seq<nat>, lo: nat, hi: nat, x: nat)
    requires |a| == SLOTS && lo <= hi < lo + SLOTS
    ensures Window(a[At(hi) := x], lo, hi) == Window(a, lo, hi)
  {
    forall c: nat | lo <= c < hi ensures At(c) != At(hi) {
      Distinct(c, hi);
    }
    var w, w' := Window(a, lo, hi), Window(a[At(hi) := x], lo, hi);
    forall i | 0 <= i < |w| ensures w'[i] == w[i] {
      assert At(lo + i) != At(hi);
    }
  }

  // ---- Ownership ----

  /** The four places hold every slot exactly once between them. */
  lemma OwnedCounts(s: State)
    requires OwnInv(s)
    ensures |Free(s)| + |Flight(s)| + |SenderHand(s)| + |ReceiverHand(s)| == SLOTS
  {
    var all := multiset(Free(s)) + multiset(Flight(s)) + multiset(SenderHand(s)) + multiset(ReceiverHand(s));
    forall x: nat ensures all[x] == Owners(s, x) {
    }
    EachOnceSize(all, SLOTS);
  }

  /** The sender's slot is a real one and no frame in flight uses it. */
  lemma SenderOwns(s: State, slot: nat)
    requires OwnInv(s) && SenderHand(s) == [slot]
    ensures slot < SLOTS && s.head - s.tail < SLOTS
    ensures slot !in Flight(s)
  {
    OwnedCounts(s);
    assert multiset(SenderHand(s))[slot] == 1;
    assert Owners(s, slot) >= 1 + multiset(Flight(s))[slot];
  }

  lemma ReceiverOwns(s: State, slot: nat)
    requires OwnInv(s) && ReceiverHand(s) == [slot]
    ensures slot < SLOTS && s.freeHead - s.freeTail < SLOTS
  {
    OwnedCounts(s);
    assert multiset(ReceiverHand(s))[slot] == 1;
    assert Owners(s, slot) >= 1;
  }

  ghost predicate SameOwners(s: State, s': State)
    requires Typed(s) && Typed(s')
  {
    forall x: nat :: Owners(s', x) == Owners(s, x)
  }

  lemma SameFour(s: State, s': State)
    requires Typed(s) && Typed(s') && Free(s') == Free(s) && Flight(s') == Flight(s)
    requires SenderHand(s') == SenderHand(s) && ReceiverHand(s') == ReceiverHand(s)
    ensures SameOwners(s, s')
  {
  }

  lemma OneSlot(slot: nat)
    ensures forall x: nat :: multiset([slot])[x] == if x == slot then 1 else 0
  {
  }

  // ---- Steps keep ownership, whatever the frames hold ----

  /** Steps that only change program state and slot contents. */
  lemma LocalOwn(s: State, s': State)
    requires OwnInv(s) && s' == s.(slots := s'.slots, sender := s'.sender, receiver := s'.receiver)
    requires Typed(s') && SenderHand(s') == SenderHand(s) && ReceiverHand(s') == ReceiverHand(s)
    requires SenderPlace(s') && ReceiverPlace(s')
    ensures OwnInv(s')
  {
    SameFour(s, s');
  }

  /** Taking a slot moves it from the free queue to the sender's hand. */
  lemma TakeSlotOwned(s: State, s': State, slot: nat)
    requires Typed(s) && s.freeTail < s.freeHead && slot == s.free[At(s.freeTail)]
    requires s' == s.(freeTail := s.freeTail + 1, sender := s'.sender)
    requires SenderHand(s) == [] && SenderHand(s') == [slot]
    ensures SameOwners(s, s')
  {
    WindowFront(s.free, s.freeTail, s.freeHead);
    OneSlot(slot);
  }

  /** Publishing moves the slot from the sender's hand to the flight queue. */
  lemma PublishOwned(s: State, s': State, slot: nat)
    requires Typed(s) && s.queue[At(s.head)] == slot
    requires s' == s.(head := s.head + 1, sent := s'.sent, sender := s'.sender)
    requires SenderHand(s) == [slot] && SenderHand(s') == []
    ensures SameOwners(s, s') && Flight(s') == Flight(s) + [slot]
  {
    WindowBack(s.queue, s.tail, s.head);
    OneSlot(slot);
  }

  /** Releasing moves the slot from the flight queue to the receiver's hand. */
  lemma ReleaseOwned(s: State, s': State, slot: nat)
    requires Typed(s) && s.tail < s.head && slot == s.queue[At(s.tail)]
    requires s' == s.(tail := s.tail + 1, received := s'.received, receiver := s'.receiver)
    requires ReceiverHand(s) == [] && ReceiverHand(s') == [slot]
    ensures SameOwners(s, s') && Flight(s') == Flight(s)[1..] && Flight(s) != []
  {
    WindowFront(s.queue, s.tail, s.head);
    OneSlot(slot);
  }

  /** Returning moves the slot from the receiver's hand to the free queue. */
  lemma ReturnOwned(s: State, s': State, slot: nat)
    requires Typed(s) && s.free[At(s.freeHead)] == slot
    requires s' == s.(freeHead := s.freeHead + 1, receiver := s'.receiver)
    requires ReceiverHand(s) == [slot] && ReceiverHand(s') == []
    ensures SameOwners(s, s')
  {
    WindowBack(s.free, s.freeTail, s.freeHead);
    OneSlot(slot);
  }

  /** Storing an index just past the flight queue changes nothing in it. */
  lemma StoreIndexOwn(s: State)
    requires OwnInv(s) && s.sender.SStore?
    ensures OwnInv(StepSender(s)) && Flight(StepSender(s)) == Flight(s)
  {
    SenderOwns(s, s.sender.slot);
    WindowUpdate(s.queue, s.tail, s.head, s.sender.slot);
    var s' := StepSender(s);
    SameFour(s, s');
    if s.tail < s.head {
      Distinct(s.tail, s.head);
    }
  }

  lemma PutOwn(s: State)
    requires OwnInv(s) && s.receiver.RPut?
    ensures OwnInv(StepReceiver(s))
  {
    ReceiverOwns(s, s.receiver.slot);
    WindowUpdate(s.free, s.freeTail, s.freeHead, s.receiver.slot);
    var s' := StepReceiver(s);
    SameFour(s, s');
    if s.freeTail < s.freeHead {
      Distinct(s.freeTail, s.freeHead);
    }
  }

  lemma WriteOwn(s: State)
    requires OwnInv(s) && s.sender.SWrite?
    ensures OwnInv(WriteStep(s)) && Flight(WriteStep(s)) == Flight(s)
  {
    LocalOwn(s, WriteStep(s));
  }

  lemma SenderOwn(s: State)
    requires OwnInv(s)
    ensures OwnInv(StepSender(s))
  {
    match s.sender
    case SCas(_, _, slot) => TakeSlotOwned(s, StepSender(s), slot);
    case SWrite(_, _, _) => WriteOwn(s);
    case SStore(_, _) => StoreIndexOwn(s);
    case SPublish(_, slot) => PublishOwned(s, StepSender(s), slot);
    case _ => LocalOwn(s, StepSender(s));
  }

  lemma ReceiverOwn(s: State)
    requires OwnInv(s)
    ensures OwnInv(StepReceiver(s))
  {
    match s.receiver
    case RCopy(slot, total, got) =>
      if |got| < total {
        LocalOwn(s, StepReceiver(s));
      } else {
        ReleaseOwned(s, StepReceiver(s), slot);
      }
    case RPut(_, _) => PutOwn(s);
    case RCas(slot, _) => ReturnOwned(s, StepReceiver(s), slot);
    case _ => LocalOwn(s, StepReceiver(s));
  }

  lemma NextOwn(s: State, e: Event)
    requires OwnInv(s)
    ensures OwnInv(Next(s, e))
  {
    match e
    case SenderStep => SenderOwn(s);
    case ReceiverStep => ReceiverOwn(s);
    case _ => LocalOwn(s, Next(s, e));
  }

  lemma {:induction false} RunOwn(s: State, events: seq<Event>)
    requires Initial(s)
    ensures OwnInv(Run(s, events))
  {
    if events == [] {
      InitialInv(s);
    } else {
      RunOwn(s, events[..|events| - 1]);
      NextOwn(Run(s, events[..|events| - 1]), events[|events| - 1]);
    }
  }

  // ---- Steps keep the frames ----

  lemma CarriesAppend(slots: seq<frame>, flight: seq<nat>, pending: seq<frame>, slot: nat, f: frame)
    requires Carries(slots, flight, pending) && WellFormed(f) && HoldsFrame(slots, slot, f)
    ensures Carries(slots, flight + [slot], pending + [f])
  {
  }

  lemma CarriesDrop(slots: seq<frame>, flight: seq<nat>, pending: seq<frame>)
    requires Carries(slots, flight, pending) && flight != []
    ensures Carries(slots, flight[1..], pending[1..])
  {
  }

  /** A byte written into a slot outside `flight` changes no frame in flight. */
  lemma WriteCarries(slots: seq<frame>, slots': seq<frame>, flight: seq<nat>, pending: seq<frame>, slot: nat)
    requires Carries(slots, flight, pending) && slot !in flight
    requires |slots'| == |slots| && forall i :: 0 <= i < |slots| && i != slot ==> slots'[i] == slots[i]
    ensures Carries(slots', flight, pending)
  {
    forall i | 0 <= i < |flight| ensures HoldsFrame(slots', flight[i], pending[i]) {
      assert HoldsFrame(slots, flight[i], pending[i]);
    }
  }

  /** One more byte of `f` in its slot. */
  lemma WriteHolds(slots: seq<frame>, slot: nat, f: frame, done: nat)
    requires done < |f| && HoldsFrame(slots, slot, f[..done]) && |f| <= |slots[slot]|
    ensures HoldsFrame(slots[slot := slots[slot][done := f[done]]], slot, f[..done + 1])
  {
    assert f[..done + 1] == f[..done] + [f[done]];
  }

  lemma WriteByteData(s: State)
    requires Inv(s) && s.sender.SWrite? && s.sender.done < |s.sender.f|
    ensures Typed(WriteStep(s)) && DataInv(WriteStep(s))
  {
    var f, slot, done := s.sender.f, s.sender.slot, s.sender.done;
    SenderOwns(s, slot);
    WriteOwn(s);
    WriteHolds(s.slots, slot, f, done);
    WriteCarries(s.slots, WriteStep(s).slots, Flight(s), Pending(s), slot);
  }

  lemma PublishData(s: State)
    requires Inv(s) && s.sender.SPublish?
    ensures Typed(StepSender(s)) && DataInv(StepSender(s))
  {
    var s' := StepSender(s);
    PublishOwned(s, s', s.sender.slot);
    CarriesAppend(s.slots, Flight(s), Pending(s), s.sender.slot, s.sender.f);
    assert Pending(s') == Pending(s) + [s.sender.f];
  }

  lemma SenderKeeps(s: State)
    requires Inv(s)
    ensures Inv(StepSender(s))
  {
    SenderOwn(s);
    match s.sender
    case SWrite(f, _, done) =>
      if done < |f| {
        WriteByteData(s);
      } else {
        assert f[..done] == f;
      }
    case SCas(f, _, slot) =>
      assert f[..0] == [];
      assert StepSender(s).sender == SWrite(f, slot, 0);
      SenderOwns(StepSender(s), slot);
    case SStore(_, _) => StoreIndexOwn(s);
    case SPublish(_, _) => PublishData(s);
    case _ =>
  }

  /** The slot at the front of the flight queue holds the next frame, header and all. */
  lemma FrontSlot(s: State)
    requires Inv(s) && s.tail < s.head
    ensures |s.received| < |s.sent|
    ensures var slot, f := s.queue[At(s.tail)], s.sent[|s.received|];
            && slot < SLOTS && WellFormed(f) && HoldsFrame(s.slots, slot, f)
            && FRAME_HDR + Decode(s.slots[slot][LEN_AT..FRAME_HDR]) == |f|
  {
    WindowFront(s.queue, s.tail, s.head);
    var slot, f := Flight(s)[0], Pending(s)[0];
    assert HoldsFrame(s.slots, slot, f);
    assert s.slots[slot][LEN_AT..FRAME_HDR] == s.slots[slot][..|f|][LEN_AT..FRAME_HDR];
  }

  lemma ReadData(s: State)
    requires Inv(s) && (s.receiver.RLen? || (s.receiver.RCopy? && |s.receiver.got| < s.receiver.total))
    ensures DataInv(ReadStep(s))
  {
    FrontSlot(s);
    var f := s.sent[|s.received|];
    if s.receiver.RCopy? {
      var n := |s.receiver.got|;
      assert s.slots[s.receiver.slot][n] == s.slots[s.receiver.slot][..|f|][n];
      assert f[..n + 1] == f[..n] + [f[n]];
    }
  }

  /** Releasing the front slot delivers the frame it holds. */
  lemma ReleaseData(s: State)
    requires Inv(s) && s.receiver.RCopy? && |s.receiver.got| == s.receiver.total
    ensures Typed(StepReceiver(s)) && DataInv(StepReceiver(s))
    ensures StepReceiver(s).received == s.received + [s.sent[|s.received|]]
  {
    var f := s.sent[|s.received|];
    assert s.receiver.got == f[..|f|] == f;
    assert s.received + [f] == s.sent[..|s.received| + 1];
    ReleaseOwned(s, StepReceiver(s), s.receiver.slot);
    CarriesDrop(s.slots, Flight(s), Pending(s));
    assert Pending(StepReceiver(s)) == Pending(s)[1..];
  }

  lemma ReceiverKeeps(s: State)
    requires Inv(s)
    ensures Inv(StepReceiver(s))
  {
    ReceiverOwn(s);
    match s.receiver
    case RLen(_, _) => ReadData(s);
    case RCopy(_, total, got) =>
      if |got| < total {
        ReadData(s);
      } else {
        ReleaseData(s);
      }
    case _ =>
  }

  /** Every frame handed to the pool states its own payload length. */
  predicate Framed(events: seq<Event>) {
    forall i :: 0 <= i < |events| && events[i].Send? ==> Truthful(events[i].f)
  }

  lemma NextKeeps(s: State, e: Event)
    requires Inv(s) && (e.Send? ==> Truthful(e.f))
    ensures Inv(Next(s, e))
  {
    match e
    case SenderStep => SenderKeeps(s);
    case ReceiverStep => ReceiverKeeps(s);
    case _ => NextOwn(s, e);
  }

  lemma {:induction false} RunKeeps(s: State, events: seq<Event>)
    requires Initial(s) && Framed(events)
    ensures Inv(Run(s, events))
  {
    if events == [] {
      InitialInv(s);
    } else {
      RunKeeps(s, events[..|events| - 1]);
      NextKeeps(Run(s, events[..|events| - 1]), events[|events| - 1]);
    }
  }

  // ---- What is where ----

  /** The cursors count the frames sent and received and the slots taken and returned. */
  ghost predicate Counted(s: State) {
    && s.head == |s.sent| && s.tail == |s.received|
    && s.freeTail == |s.sent| + |SenderHand(s)|
    && s.freeHead + |ReceiverHand(s)| == 128 + |s.received|
  }

  lemma NextCounted(s: State, e: Event)
    requires OwnInv(s) && Counted(s)
    ensures Counted(Next(s, e))
  {
    match e
    case SenderStep => if s.sender.SWrite? { WriteOwn(s); }
    case ReceiverStep =>
    case _ =>
  }

  lemma {:induction false} RunCounted(s: State, events: seq<Event>)
    requires Initial(s)
    ensures Counted(Run(s, events))
  {
    if events != [] {
      RunCounted(s, events[..|events| - 1]);
      RunOwn(s, events[..|events| - 1]);
      NextCounted(Run(s, events[..|events| - 1]), events[|events| - 1]);
    }
  }

  // ---- Main results ----

  /**
   After every run, a sender looking for a slot finds one iff fewer than 128 of
   the frames sent are still in the pool: in flight, or received with the slot
   not yet back.
   */
  lemma SlotFoundIff(s: State, events: seq<Event>)
    requires Initial(s)
    ensures var r := Run(s, events);
            r.sender.SLoad? ==>
              && (StepSender(r).sender.STake? <==> |r.sent| - |r.received| + |ReceiverHand(r)| < 128)
              && (!StepSender(r).sender.STake? ==> StepSender(r) == r)
  {
    RunCounted(s, events);
    RunOwn(s, events);
  }

  /** At every moment each slot is in exactly one of the four places, and nothing else is. */
  lemma SlotConservation(s: State, events: seq<Event>, slot: nat)
    requires Initial(s)
    ensures var r := Run(s, events);
            && Typed(r)
            && Owners(r, slot) == if slot < SLOTS then 1 else 0
  {
    RunOwn(s, events);
  }

  /** The sender writes no slot that is in flight, in particular none that is being read. */
  lemma NeverWritesASlotBeingRead(s: State, events: seq<Event>)
    requires Initial(s)
    ensures var r := Run(s, events);
            && Typed(r)
            && (r.sender.SWrite? ==> r.sender.slot < SLOTS && r.sender.slot !in Flight(r))
            && (r.sender.SWrite? && (r.receiver.RLen? || r.receiver.RCopy?) ==> r.receiver.slot != r.sender.slot)
  {
    RunOwn(s, events);
    var r := Run(s, events);
    if r.sender.SWrite? {
      SenderOwns(r, r.sender.slot);
      if r.receiver.RLen? || r.receiver.RCopy? {
        WindowFront(r.queue, r.tail, r.head);
        assert Flight(r)[0] == r.receiver.slot;
      }
    }
  }

  /** A sender that holds a slot always finds room in the flight queue. */
  lemma FullWaitUnreachable(s: State, events: seq<Event>)
    requires Initial(s)
    ensures var r := Run(s, events);
            r.sender.SRoom? ==> StepSender(r).sender == SStore(r.sender.f, r.sender.slot)
  {
    RunOwn(s, events);
    var r := Run(s, events);
    if r.sender.SRoom? {
      SenderOwns(r, r.sender.slot);
    }
  }

  /** Neither compare-and-swap ever fails: each cursor has one writer. */
  lemma CasNeverFails(s: State, events: seq<Event>)
    requires Initial(s)
    ensures var r := Run(s, events);
            && (r.sender.SCas? ==> StepSender(r).sender.SWrite?)
            && (r.receiver.RCas? ==> StepReceiver(r).receiver == RIdle)
  {
    RunOwn(s, events);
  }

  /** Frames arrive in the order they were sent, byte for byte; the slots in flight hold the rest, in order. */
  lemma FramesArriveInOrder(s: State, events: seq<Event>)
    requires Initial(s) && Framed(events)
    ensures var r := Run(s, events);
            && Typed(r) && r.received <= r.sent
            && Carries(r.slots, Flight(r), r.sent[|r.received|..])
  {
    RunKeeps(s, events);
  }
}
