/**
 How records lie in the ring's buffer, stated over unbounded cursors: a record
 is a 32-bit length and its body, never split across the end of the buffer;
 when it would not fit before the end, the producer leaves a zero length (a
 wrap marker) and writes the record at offset 0.
 */
module RingLayout {
  import opened Bytes
  import opened Cursors

  type body = seq<byte>

  /** Bytes of the length field in front of every record. */
  const HDR: nat := 4
  /** A marker may start up to 3 bytes before the end of the buffer. */
  const SLACK: nat := 3

  /** A capacity whose records all have lengths of 32 bits (see LengthsFitIff). */
  predicate Capacity(cap: nat) {
    PowerOfTwo(cap) && 4096 <= cap <= 0x1_0000_0000
  }

  function Need(b: body): nat { HDR + |b| }

  /** The length field records every body that a push admits iff the capacity is at most 2^32. */
  lemma LengthsFitIff(cap: nat)
    requires PowerOfTwo(cap) && 4096 <= cap
    ensures (forall n: nat :: n <= cap - HDR ==> Decode(U32(n)) == n) <==> Capacity(cap)
  {
    PageIsPowerOfTwo();
    if cap <= 0x1_0000_0000 {
      forall n: nat | n <= cap - HDR ensures Decode(U32(n)) == n {
        U32RoundTrip(n);
      }
    } else {
      NextPowerOfTwo(0x1_0000_0000, cap);
      U32Bounded(0x1_0000_0000);
    }
  }

  predicate Wraps(cap: nat, head: nat, need: nat)
    requires cap > 0
  {
    cap - Offset(cap, head) < need
  }

  /** Cursor space that a record of `need` bytes takes at `head`, padding included. */
  function Required(cap: nat, head: nat, need: nat): nat
    requires cap > 0
  {
    if Wraps(cap, head, need) then cap - Offset(cap, head) + need else need
  }

  predicate Fits(cap: nat, head: nat, tail: nat, need: nat)
    requires cap > 0
  {
    tail <= head && head - tail + Required(cap, head, need) <= cap
  }

  /** The cursor at which the record itself starts. */
  function RecordAt(cap: nat, head: nat, need: nat): nat
    requires cap > 0
  {
    if Wraps(cap, head, need) then LapEnd(cap, head) else head
  }

  function NewHead(cap: nat, head: nat, need: nat): (h: nat)
    requires cap > 0
    ensures h == head + Required(cap, head, need)
  {
    RecordAt(cap, head, need) + need
  }

  /** A record that fits is contiguous: it ends before the buffer does. */
  lemma RecordIsContiguous(cap: nat, head: nat, tail: nat, need: nat)
    requires cap > 0 && Fits(cap, head, tail, need)
    ensures Offset(cap, RecordAt(cap, head, need)) + need <= cap
    ensures Wraps(cap, head, need) ==>
              Offset(cap, RecordAt(cap, head, need)) == 0 && need <= Offset(cap, head)
  {
    OffsetLapEnd(cap, head);
  }

  // ---- Byte stores of a push, in program order ----

  datatype Store = Store(at: nat, value: byte)

  function Frame(b: body): (f: seq<byte>)
    ensures |f| == Need(b)
  {
    U32(|b|) + b
  }

  function Fill(at: nat, bytes: seq<byte>): (s: seq<Store>)
    ensures |s| == |bytes|
    ensures forall i :: 0 <= i < |bytes| ==> s[i] == Store(at + i, bytes[i])
  {
    seq(|bytes|, i requires 0 <= i < |bytes| => Store(at + i, bytes[i]))
  }

  /** Everything that pushing `b` at `head` writes into the buffer. */
  function Stores(cap: nat, head: nat, b: body): seq<Store>
    requires cap > 0
  {
    (if Wraps(cap, head, Need(b)) then Fill(Offset(cap, head), ZEROS) else []) +
    Fill(Offset(cap, RecordAt(cap, head, Need(b))), Frame(b))
  }

  /** The two ways to write down a push's stores. */
  lemma StoresAre(cap: nat, head: nat, b: body, first: seq<Store>, p: nat)
    requires cap > 0
    requires first == if Wraps(cap, head, Need(b)) then Fill(Offset(cap, head), ZEROS) else []
    requires p == Offset(cap, RecordAt(cap, head, Need(b)))
    ensures Stores(cap, head, b) == first + Fill(p, Frame(b))
  {
  }

  function Apply(data: seq<byte>, stores: seq<Store>): (r: seq<byte>)
    ensures |r| == |data|
  {
    if stores == [] then data
    else
      var before := Apply(data, stores[..|stores| - 1]);
      var last := stores[|stores| - 1];
      if last.at < |data| then before[last.at := last.value] else before
  }

  lemma ApplyOneMore(data: seq<byte>, stores: seq<Store>, k: nat)
    requires k < |stores| && stores[k].at < |data|
    ensures Apply(data, stores[..k + 1]) == Apply(data, stores[..k])[stores[k].at := stores[k].value]
  {
    assert stores[..k + 1][..k] == stores[..k];
  }

  predicate Holds(data: seq<byte>, at: nat, bytes: seq<byte>) {
    at + |bytes| <= |data| && data[at..at + |bytes|] == bytes
  }

  lemma {:induction false} ApplyFill(data: seq<byte>, first: seq<Store>, at: nat, bytes: seq<byte>)
    requires at + |bytes| <= |data|
    ensures Apply(data, first + Fill(at, bytes)) ==
            Apply(data, first)[..at] + bytes + Apply(data, first)[at + |bytes|..]
    decreases |bytes|
  {
    var all := first + Fill(at, bytes);
    if bytes == [] {
      assert all == first;
    } else {
      var n := |bytes| - 1;
      assert all[..|all| - 1] == first + Fill(at, bytes[..n]);
      ApplyFill(data, first, at, bytes[..n]);
    }
  }

  lemma {:induction false} ApplyConcat(data: seq<byte>, first: seq<Store>, second: seq<Store>)
    ensures Apply(data, first + second) == Apply(Apply(data, first), second)
    decreases |second|
  {
    if second == [] {
      assert first + second == first;
    } else {
      var n := |second| - 1;
      ApplyConcat(data, first, second[..n]);
      assert (first + second)[..|first + second| - 1] == first + second[..n];
    }
  }

  lemma FillConcat(first: seq<Store>, at: nat, a: seq<byte>, b: seq<byte>)
    ensures first + Fill(at, a) + Fill(at + |a|, b) == first + Fill(at, a + b)
  {
    assert Fill(at, a) + Fill(at + |a|, b) == Fill(at, a + b);
  }

  /** A copy of `bytes` to `at`, on top of the stores `first`. */
  lemma CopyExtends(base: seq<byte>, first: seq<Store>, at: nat, bytes: seq<byte>, result: seq<byte>)
    requires at + |bytes| <= |base|
    requires var d := Apply(base, first); result == d[..at] + bytes + d[at + |bytes|..]
    ensures result == Apply(base, first + Fill(at, bytes))
  {
    ApplyFill(base, first, at, bytes);
  }

  lemma FillHolds(data: seq<byte>, first: seq<Store>, at: nat, bytes: seq<byte>)
    requires at + |bytes| <= |data|
    ensures Holds(Apply(data, first + Fill(at, bytes)), at, bytes)
  {
    ApplyFill(data, first, at, bytes);
  }

  lemma FillKeeps(data: seq<byte>, first: seq<Store>, at: nat, bytes: seq<byte>, p: nat, other: seq<byte>)
    requires at + |bytes| <= p && Holds(Apply(data, first), p, other)
    ensures Holds(Apply(data, first + Fill(at, bytes)), p, other)
  {
    ApplyFill(data, first, at, bytes);
    var d, d' := Apply(data, first), Apply(data, first + Fill(at, bytes));
    assert d'[p..p + |other|] == d[p..p + |other|];
  }

  /** After its stores, a push has left the marker (if any) and the record in place. */
  lemma PushWrites(data: seq<byte>, cap: nat, head: nat, tail: nat, b: body)
    requires cap > 0 && |data| == cap + SLACK && Fits(cap, head, tail, Need(b))
    ensures var written := Apply(data, Stores(cap, head, b));
            && Holds(written, Offset(cap, RecordAt(cap, head, Need(b))), Frame(b))
            && (Wraps(cap, head, Need(b)) ==> Holds(written, Offset(cap, head), ZEROS))
  {
    RecordIsContiguous(cap, head, tail, Need(b));
    var at := Offset(cap, RecordAt(cap, head, Need(b)));
    var first := if Wraps(cap, head, Need(b)) then Fill(Offset(cap, head), ZEROS) else [];
    FillHolds(data, first, at, Frame(b));
    if Wraps(cap, head, Need(b)) {
      assert first == [] + first;
      FillHolds(data, [], Offset(cap, head), ZEROS);
      FillKeeps(data, first, at, Frame(b), Offset(cap, head), ZEROS);
    }
  }

  // ---- The queue of unread records that the buffer represents ----

  /** The record of `b`, behind a marker if it wraps, starts at `tail`. */
  ghost predicate Present(data: seq<byte>, cap: nat, tail: nat, b: body)
    requires cap > 0
  {
    && 0 < |b| < 0x1_0000_0000
    && Offset(cap, RecordAt(cap, tail, Need(b))) + Need(b) <= cap
    && (Wraps(cap, tail, Need(b)) ==> Holds(data, Offset(cap, tail), ZEROS))
    && Holds(data, Offset(cap, RecordAt(cap, tail, Need(b))), Frame(b))
  }

  /** From `tail` to `head`, `data` holds exactly the records of `queue`. */
  ghost predicate Chain(data: seq<byte>, cap: nat, tail: nat, head: nat, queue: seq<body>)
    requires cap > 0 && |data| == cap + SLACK
    decreases |queue|
  {
    if queue == [] then tail == head
    else
      var next := NewHead(cap, tail, Need(queue[0]));
      Present(data, cap, tail, queue[0]) && next <= head && Chain(data, cap, next, head, queue[1..])
  }

  ghost predicate SlackZero(data: seq<byte>, cap: nat)
    requires |data| == cap + SLACK
  {
    forall i :: cap <= i < cap + SLACK ==> data[i] == 0
  }

  lemma {:induction false} ChainOrder(data: seq<byte>, cap: nat, tail: nat, head: nat, queue: seq<body>)
    requires cap > 0 && |data| == cap + SLACK && Chain(data, cap, tail, head, queue)
    ensures tail <= head && (queue == [] <==> tail == head)
    decreases |queue|
  {
    if queue != [] {
      ChainOrder(data, cap, NewHead(cap, tail, Need(queue[0])), head, queue[1..]);
    }
  }

  lemma {:induction false} ChainAppend(data: seq<byte>, cap: nat, tail: nat, head: nat, queue: seq<body>, b: body)
    requires cap > 0 && |data| == cap + SLACK && Chain(data, cap, tail, head, queue)
    requires Present(data, cap, head, b)
    ensures Chain(data, cap, tail, NewHead(cap, head, Need(b)), queue + [b])
    decreases |queue|
  {
    var h' := NewHead(cap, head, Need(b));
    if queue == [] {
      assert (queue + [b])[1..] == [];
      assert Chain(data, cap, h', h', []);
    } else {
      ChainAppend(data, cap, NewHead(cap, tail, Need(queue[0])), head, queue[1..], b);
      assert (queue + [b])[1..] == queue[1..] + [b];
    }
  }

  /** Skipping a wrap marker leaves the same queue. */
  lemma ChainSkip(data: seq<byte>, cap: nat, tail: nat, head: nat, queue: seq<body>)
    requires cap > 0 && |data| == cap + SLACK && Chain(data, cap, tail, head, queue)
    requires queue != [] && Wraps(cap, tail, Need(queue[0]))
    ensures Chain(data, cap, LapEnd(cap, tail), head, queue)
    ensures !Wraps(cap, LapEnd(cap, tail), Need(queue[0]))
    ensures LapEnd(cap, tail) < head
  {
    OffsetLapEnd(cap, tail);
  }

  /** Taking a record that no marker precedes leaves the rest of the queue. */
  lemma ChainTake(data: seq<byte>, cap: nat, tail: nat, head: nat, queue: seq<body>, next: nat, rest: seq<body>)
    requires cap > 0 && |data| == cap + SLACK && Chain(data, cap, tail, head, queue)
    requires queue != [] && !Wraps(cap, tail, Need(queue[0]))
    requires next == tail + Need(queue[0]) && rest == queue[1..]
    ensures tail <= next <= head && Chain(data, cap, next, head, rest)
  {
    assert next == NewHead(cap, tail, Need(queue[0]));
  }

  /** The two buffers agree on every byte between two cursors. */
  ghost predicate SameLive(data: seq<byte>, data': seq<byte>, cap: nat, tail: nat, head: nat)
    requires cap > 0 && |data| == |data'| == cap + SLACK
  {
    forall c :: tail <= c < head ==> data[Offset(cap, c)] == data'[Offset(cap, c)]
  }

  lemma SpanUnchanged(data: seq<byte>, data': seq<byte>, cap: nat, from: nat, n: nat)
    requires cap > 0 && |data| == |data'| == cap + SLACK
    requires Offset(cap, from) + n <= cap && SameLive(data, data', cap, from, from + n)
    ensures data[Offset(cap, from)..Offset(cap, from) + n] == data'[Offset(cap, from)..Offset(cap, from) + n]
  {
    var p := Offset(cap, from);
    forall i | p <= i < p + n ensures data[i] == data'[i] {
      OffsetStep(cap, from, i - p);
      assert data[Offset(cap, from + (i - p))] == data'[Offset(cap, from + (i - p))];
    }
  }

  lemma MarkerUnchanged(data: seq<byte>, data': seq<byte>, cap: nat, from: nat)
    requires cap >= HDR && |data| == |data'| == cap + SLACK
    requires SlackZero(data, cap) && SlackZero(data', cap)
    requires SameLive(data, data', cap, from, LapEnd(cap, from))
    ensures data[Offset(cap, from)..Offset(cap, from) + HDR] == data'[Offset(cap, from)..Offset(cap, from) + HDR]
  {
    var p := Offset(cap, from);
    SpanUnchanged(data, data', cap, from, cap - p);
    forall i | p <= i < p + HDR ensures data[i] == data'[i] {
      if i < cap {
        assert data[i] == data[p..cap][i - p];
        assert data'[i] == data'[p..cap][i - p];
      }
    }
  }

  lemma PresentUnchanged(data: seq<byte>, data': seq<byte>, cap: nat, tail: nat, b: body)
    requires cap >= HDR && |data| == |data'| == cap + SLACK
    requires SlackZero(data, cap) && SlackZero(data', cap)
    requires Present(data, cap, tail, b)
    requires SameLive(data, data', cap, tail, NewHead(cap, tail, Need(b)))
    ensures Present(data', cap, tail, b)
  {
    if Wraps(cap, tail, Need(b)) {
      MarkerUnchanged(data, data', cap, tail);
    }
    SpanUnchanged(data, data', cap, RecordAt(cap, tail, Need(b)), Need(b));
  }

  /** The queue depends on nothing but the live bytes. */
  lemma {:induction false} ChainFrame(data: seq<byte>, data': seq<byte>, cap: nat, tail: nat, head: nat,
                                      queue: seq<body>)
    requires cap >= HDR && |data| == |data'| == cap + SLACK
    requires SlackZero(data, cap) && SlackZero(data', cap)
    requires Chain(data, cap, tail, head, queue)
    requires SameLive(data, data', cap, tail, head)
    ensures Chain(data', cap, tail, head, queue)
    decreases |queue|
  {
    if queue != [] {
      PresentUnchanged(data, data', cap, tail, queue[0]);
      ChainFrame(data, data', cap, NewHead(cap, tail, Need(queue[0])), head, queue[1..]);
    }
  }

  /** No store of a push lands on an unread byte, however stale its view of `tail`. */
  lemma StoreMissesLive(cap: nat, head: nat, seen: nat, tail: nat, b: body, k: nat)
    requires cap >= HDR && Fits(cap, head, seen, Need(b)) && seen <= tail <= head
    requires k < |Stores(cap, head, b)|
    ensures var st := Stores(cap, head, b)[k];
            && st.at < cap + SLACK
            && (st.at >= cap ==> st.value == 0)
            && (forall c :: tail <= c < head ==> Offset(cap, c) != st.at)
  {
    var need := Need(b);
    var st := Stores(cap, head, b)[k];
    RecordIsContiguous(cap, head, seen, need);
    var marker := if Wraps(cap, head, need) then HDR else 0;
    var from, i := if k < marker then head else RecordAt(cap, head, need), if k < marker then k else k - marker;
    assert st.at == Offset(cap, from) + i;
    if st.at < cap {
      OffsetStep(cap, from, i);
      forall c | tail <= c < head ensures Offset(cap, c) != st.at {
        OffsetDistinct(cap, c, from + i);
      }
    }
  }

  /** One store of a push leaves the queue as it was. */
  lemma StoreKeepsChain(data: seq<byte>, cap: nat, head: nat, seen: nat, tail: nat, upto: nat, queue: seq<body>,
                        b: body, k: nat)
    requires cap >= HDR && |data| == cap + SLACK && SlackZero(data, cap)
    requires Fits(cap, head, seen, Need(b)) && seen <= tail <= upto <= head
    requires k < |Stores(cap, head, b)|
    requires Chain(data, cap, tail, upto, queue)
    ensures var st := Stores(cap, head, b)[k];
            && st.at < |data|
            && SlackZero(data[st.at := st.value], cap)
            && Chain(data[st.at := st.value], cap, tail, upto, queue)
  {
    StoreMissesLive(cap, head, seen, tail, b, k);
    var st := Stores(cap, head, b)[k];
    ChainFrame(data, data[st.at := st.value], cap, tail, upto, queue);
  }

  lemma {:induction false} PartialPush(data: seq<byte>, cap: nat, tail: nat, head: nat, queue: seq<body>, b: body,
                                       k: nat)
    requires cap >= HDR && |data| == cap + SLACK && SlackZero(data, cap)
    requires Chain(data, cap, tail, head, queue) && Fits(cap, head, tail, Need(b))
    requires k <= |Stores(cap, head, b)|
    ensures var part := Apply(data, Stores(cap, head, b)[..k]);
            SlackZero(part, cap) && Chain(part, cap, tail, head, queue)
    decreases k
  {
    if k != 0 {
      var stores := Stores(cap, head, b);
      PartialPush(data, cap, tail, head, queue, b, k - 1);
      StoreKeepsChain(Apply(data, stores[..k - 1]), cap, head, tail, tail, head, queue, b, k - 1);
      ApplyOneMore(data, stores, k - 1);
    }
  }

  /** A whole push appends its body to the queue. */
  lemma PushAppends(data: seq<byte>, cap: nat, tail: nat, head: nat, queue: seq<body>, b: body)
    requires cap >= HDR && |data| == cap + SLACK && SlackZero(data, cap)
    requires Chain(data, cap, tail, head, queue) && Fits(cap, head, tail, Need(b))
    requires 0 < |b| < 0x1_0000_0000
    ensures var written := Apply(data, Stores(cap, head, b));
            && SlackZero(written, cap)
            && Chain(written, cap, tail, NewHead(cap, head, Need(b)), queue + [b])
  {
    var stores := Stores(cap, head, b);
    PartialPush(data, cap, tail, head, queue, b, |stores|);
    assert stores[..|stores|] == stores;
    PushWrites(data, cap, head, tail, b);
    RecordIsContiguous(cap, head, tail, Need(b));
    ChainAppend(Apply(data, stores), cap, tail, head, queue, b);
  }

  /** The same for a push whose view of the tail, `seen`, has become stale meanwhile. */
  lemma PushCompletes(base: seq<byte>, data: seq<byte>, cap: nat, seen: nat, tail: nat, head: nat, queue: seq<body>,
                      b: body)
    requires cap >= HDR && |base| == |data| == cap + SLACK && 0 < |b| < 0x1_0000_0000
    requires seen <= tail && Fits(cap, head, seen, Need(b))
    requires data == Apply(base, Stores(cap, head, b)) && Chain(data, cap, tail, head, queue)
    ensures Chain(data, cap, tail, NewHead(cap, head, Need(b)), queue + [b])
    ensures NewHead(cap, head, Need(b)) <= tail + cap
  {
    PushWrites(base, cap, head, seen, b);
    RecordIsContiguous(cap, head, seen, Need(b));
    ChainAppend(data, cap, tail, head, queue, b);
  }

  // ---- Reading the buffer back ----

  datatype Parsed = Records(all: seq<body>) | Malformed

  /** The records a reader finds between two cursors, knowing only the bytes. */
  function Parse(data: seq<byte>, cap: nat, tail: nat, head: nat): Parsed
    requires cap > 0 && |data| == cap + SLACK
    decreases head - tail
  {
    if tail > head then Malformed
    else if tail == head then Records([])
    else
      var p := Offset(cap, tail);
      var len := Decode(data[p..p + HDR]);
      if len == 0 then Parse(data, cap, LapEnd(cap, tail), head)
      else if p + HDR + len > cap then Malformed
      else
        match Parse(data, cap, tail + HDR + len, head)
        case Malformed => Malformed
        case Records(rest) => Records([data[p + HDR..p + HDR + len]] + rest)
  }

  /** What the length field at `tail` reads as, and where the body lies. */
  lemma FrontOfRecord(data: seq<byte>, cap: nat, tail: nat, b: body)
    requires cap > 0 && |data| == cap + SLACK && Present(data, cap, tail, b)
    ensures var p := Offset(cap, tail);
            var len := Decode(data[p..p + HDR]);
            if Wraps(cap, tail, Need(b)) then data[p..p + HDR] == ZEROS && len == 0
            else
              && data[p..p + HDR] == U32(|b|)
              && len == |b|
              && p + HDR + len <= cap
              && data[p + HDR..p + HDR + len] == b
  {
    var p := Offset(cap, tail);
    ZerosDecode();
    if !Wraps(cap, tail, Need(b)) {
      U32RoundTrip(|b|);
      assert RecordAt(cap, tail, Need(b)) == tail;
      HoldsFrame(data, p, b);
    }
  }

  lemma HoldsFrame(data: seq<byte>, p: nat, b: body)
    requires Holds(data, p, Frame(b))
    ensures data[p..p + HDR] == U32(|b|) && data[p + HDR..p + HDR + |b|] == b
  {
    var span := data[p..p + Need(b)];
    assert span == Frame(b);
    assert data[p..p + HDR] == span[..HDR];
    assert data[p + HDR..p + HDR + |b|] == span[HDR..];
  }

  /** The bytes alone determine the queue. */
  lemma {:induction false} ParseChain(data: seq<byte>, cap: nat, tail: nat, head: nat, queue: seq<body>)
    requires cap > 0 && |data| == cap + SLACK && Chain(data, cap, tail, head, queue)
    ensures Parse(data, cap, tail, head) == Records(queue)
    decreases head - tail
  {
    if queue != [] {
      if Wraps(cap, tail, Need(queue[0])) {
        ChainSkip(data, cap, tail, head, queue);
        ParseChain(data, cap, LapEnd(cap, tail), head, queue);
        ParseSkip(data, cap, tail, head, queue[0]);
      } else {
        ParseChain(data, cap, tail + Need(queue[0]), head, queue[1..]);
        ParseStep(data, cap, tail, head, queue);
      }
    }
  }

  lemma ParseSkip(data: seq<byte>, cap: nat, tail: nat, head: nat, b: body)
    requires cap > 0 && |data| == cap + SLACK && tail < head
    requires Present(data, cap, tail, b) && Wraps(cap, tail, Need(b))
    ensures Parse(data, cap, tail, head) == Parse(data, cap, LapEnd(cap, tail), head)
  {
    FrontOfRecord(data, cap, tail, b);
  }

  lemma ParseStep(data: seq<byte>, cap: nat, tail: nat, head: nat, queue: seq<body>)
    requires cap > 0 && |data| == cap + SLACK && tail < head
    requires queue != [] && Present(data, cap, tail, queue[0]) && !Wraps(cap, tail, Need(queue[0]))
    requires Parse(data, cap, tail + Need(queue[0]), head) == Records(queue[1..])
    ensures Parse(data, cap, tail, head) == Records(queue)
  {
    FrontOfRecord(data, cap, tail, queue[0]);
    assert queue == [queue[0]] + queue[1..];
  }

  // ---- Admission ----

  /** A record of `need` bytes can start at the cursor `start`: in one piece, and without touching an unread byte. */
  predicate Place(cap: nat, head: nat, tail: nat, need: nat, start: nat)
    requires cap > 0
  {
    start >= head && start % cap + need <= cap && start + need <= tail + cap
  }

  ghost predicate HasPlace(cap: nat, head: nat, tail: nat, need: nat)
    requires cap > 0
  {
    exists start: nat :: Place(cap, head, tail, need, start)
  }

  /** It cannot start at any earlier cursor. */
  ghost predicate FirstPlace(cap: nat, head: nat, tail: nat, need: nat, start: nat)
    requires cap > 0
  {
    Place(cap, head, tail, need, start) && forall s: nat :: Place(cap, head, tail, need, s) ==> start <= s
  }

  /** A push is admitted iff its record has a place, and moves the head to the end of the first one. */
  ghost predicate Placed(cap: nat, head: nat, tail: nat, need: nat, ok: bool, newHead: nat)
    requires cap > 0
  {
    && (ok <==> HasPlace(cap, head, tail, need))
    && (ok ==> newHead >= need && FirstPlace(cap, head, tail, need, newHead - need))
  }

  /** Up to the end of the lap the remainder grows with the cursor. */
  lemma SameLap(cap: nat, head: nat, start: nat)
    requires cap > 0 && head <= start < LapEnd(cap, head)
    ensures start % cap == Offset(cap, head) + (start - head)
  {
    OffsetStep(cap, head, start - head);
    OffsetIsRemainder(cap, start);
  }

  /** No place before the one that a push takes. */
  lemma PlaceBound(cap: nat, head: nat, tail: nat, need: nat, start: nat)
    requires cap > 0 && Place(cap, head, tail, need, start)
    ensures RecordAt(cap, head, need) <= start
  {
    if start < LapEnd(cap, head) {
      SameLap(cap, head, start);
    }
  }

  /** For every pair of cursors, a push is admitted iff the record has a place, and it takes the first one. */
  lemma AdmittedIff(cap: nat, head: nat, tail: nat, need: nat)
    requires cap > 0 && tail <= head
    ensures Placed(cap, head, tail, need, Fits(cap, head, tail, need), NewHead(cap, head, need))
  {
    var at := RecordAt(cap, head, need);
    OffsetIsRemainder(cap, at);
    if Fits(cap, head, tail, need) {
      RecordIsContiguous(cap, head, tail, need);
      assert Place(cap, head, tail, need, at);
    }
    forall start: nat | Place(cap, head, tail, need, start) ensures at <= start {
      PlaceBound(cap, head, tail, need, start);
    }
    if start: nat :| Place(cap, head, tail, need, start) {
      PlaceBound(cap, head, tail, need, start);
    }
  }

  /** An empty ring refuses a record iff it fits neither before nor after the cursor's offset. */
  lemma EmptyRefuses(cap: nat, at: nat, need: nat)
    requires cap > 0
    ensures var p := Offset(cap, at);
            !Fits(cap, at, at, need) <==> need > (if p < cap - p then cap - p else p)
  {
  }

  /** Every position of an empty ring admits `need` bytes iff they are at most half the buffer. */
  lemma AlwaysAdmitted(cap: nat, need: nat)
    requires cap > 0 && cap % 2 == 0
    ensures (forall at: nat :: Fits(cap, at, at, need)) <==> need <= cap / 2
  {
    if need > cap / 2 {
      assert !Fits(cap, cap / 2, cap / 2, need);
    }
  }
}
