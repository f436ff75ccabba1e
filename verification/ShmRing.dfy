/**
 The ring as one process drives it: a class over the byte buffer and the two
 64-bit cursor words. Ghost fields keep the unbounded cursors and the queue of
 unread records, and the contracts are stated over those: masking and wrapping
 the words changes nothing that a caller can see.
 */
module ShmRings {
  import opened Bytes
  import opened Cursors
  import opened RingLayout
  import opened Codes

  function Flatten(segs: seq<seq<byte>>): seq<byte> {
    if segs == [] then [] else Flatten(segs[..|segs| - 1]) + segs[|segs| - 1]
  }

  /** The capacity a ring is given: RoundedIsLeast says which power of two that is. */
  method RoundPow2(v: nat) returns (p: nat)
    requires v <= U64 / 2
    ensures p == Rounded(v)
  {
    p := 4096;
    while p < v
      invariant 4096 <= p < U64
      invariant Doubled(v, p) == Rounded(v)
      decreases v - p
    {
      p := Wrap(2 * p);
    }
  }

  class ShmRing {
    const cap: nat
    const data: array<byte>
    var head: nat
    var tail: nat

    ghost var pushedTo: nat
    ghost var poppedTo: nat
    ghost var queue: seq<body>

    ghost predicate Valid()
      reads this, data
    {
      && Capacity(cap) && data.Length == cap + SLACK
      && head == Wrap(pushedTo) && tail == Wrap(poppedTo)
      && poppedTo <= pushedTo <= poppedTo + cap
      && SlackZero(data[..], cap)
      && Chain(data[..], cap, poppedTo, pushedTo, queue)
    }

    constructor (capacity: nat)
      requires capacity <= 0x1_0000_0000
      ensures Valid() && fresh(data)
      ensures queue == [] && pushedTo == 0 && poppedTo == 0
      ensures cap == Rounded(if capacity != 0 then capacity else 65536)
    {
      var rounded := RoundPow2(if capacity != 0 then capacity else 65536);
      RoundedIsLeast(if capacity != 0 then capacity else 65536, 0x4000_0000);
      cap := rounded;
      // The first `rounded` bytes may hold anything left from an earlier ring.
      var fresh_ := new byte[rounded + SLACK];
      fresh_[rounded], fresh_[rounded + 1], fresh_[rounded + 2] := 0, 0, 0;
      data := fresh_;
      head, tail := 0, 0;
      pushedTo, poppedTo, queue := 0, 0, [];
    }

    /** What either push does with the body `b`, when bodies up to `limit` bytes are accepted. */
    twostate predicate Pushed(b: body, limit: nat, rc: Code)
      requires cap > 0
      reads this, data
    {
      && poppedTo == old(poppedTo) && tail == old(tail)
      && (0 < |b| <= limit ==>
            && (rc == OK || rc == EAGAIN)
            && Placed(cap, old(pushedTo), old(poppedTo), |b| + 4, rc == OK, pushedTo))
      && (|b| > limit ==> rc == EMSGSIZE)
      && (rc == OK ==>
            && queue == old(queue) + [b]
            && pushedTo == NewHead(cap, old(pushedTo), Need(b))
            && data[..] == Apply(old(data[..]), Stores(cap, old(pushedTo), b)))
      && (rc != OK ==>
            queue == old(queue) && pushedTo == old(pushedTo) && data[..] == old(data[..]))
    }

    /** The same, as the space check computes it, for a body within the limit. */
    twostate predicate Tried(b: body, rc: Code)
      requires cap > 0
      reads this, data
    {
      && poppedTo == old(poppedTo) && tail == old(tail)
      && rc == (if Fits(cap, old(pushedTo), old(poppedTo), Need(b)) then OK else EAGAIN)
      && (rc == OK ==>
            && queue == old(queue) + [b]
            && pushedTo == NewHead(cap, old(pushedTo), Need(b))
            && data[..] == Apply(old(data[..]), Stores(cap, old(pushedTo), b)))
      && (rc != OK ==>
            queue == old(queue) && pushedTo == old(pushedTo) && data[..] == old(data[..]))
    }

    /** memcpy into the buffer, which so far is `base` with the stores `first`. */
    method CopyIn(at: nat, bytes: seq<byte>, ghost base: seq<byte>, ghost first: seq<Store>)
      requires |base| == data.Length && at + |bytes| <= data.Length
      requires data[..] == Apply(base, first)
      modifies data
      ensures data[..] == Apply(base, first + Fill(at, bytes))
    {
      ghost var before := data[..];
      forall i | at <= i < at + |bytes| {
        data[i] := bytes[i - at];
      }
      assert data[..] == before[..at] + bytes + before[at + |bytes|..];
      CopyExtends(base, first, at, bytes, data[..]);
    }

    /** The space check common to both pushes, in 64-bit arithmetic. */
    method Admit(need: nat) returns (ok: bool, pos: nat, wrap: bool)
      requires Capacity(cap) && need <= cap && poppedTo <= pushedTo <= poppedTo + cap
      requires head == Wrap(pushedTo) && tail == Wrap(poppedTo)
      ensures ok == Fits(cap, pushedTo, poppedTo, need)
      ensures pos == Offset(cap, pushedTo) && wrap == Wraps(cap, pushedTo, need)
    {
      WordOffset(cap, pushedTo);
      WordDifference(pushedTo, poppedTo);
      var used := Wrap(head - tail);
      pos := And(head, cap - 1);
      var contiguous := cap - pos;
      wrap := contiguous < need;
      var required := if wrap then contiguous + need else need;
      ok := cap - used >= required;
    }

    /** Stores `head` once the bytes of `b` are in place. */
    method Publish(word: nat, ghost b: body, ghost base: seq<byte>)
      requires Capacity(cap) && data.Length == cap + SLACK == |base| && 0 < |b| <= cap
      requires tail == Wrap(poppedTo) && Fits(cap, pushedTo, poppedTo, Need(b))
      requires SlackZero(base, cap) && Chain(base, cap, poppedTo, pushedTo, queue)
      requires data[..] == Apply(base, Stores(cap, pushedTo, b))
      requires word == Wrap(NewHead(cap, pushedTo, Need(b)))
      modifies `head, `pushedTo, `queue
      ensures Valid() && queue == old(queue) + [b] && pushedTo == NewHead(cap, old(pushedTo), Need(b))
    {
      PushAppends(base, cap, poppedTo, pushedTo, queue, b);
      head := word;
      pushedTo, queue := NewHead(cap, pushedTo, Need(b)), queue + [b];
    }

    method Push(src: seq<byte>) returns (rc: Code)
      requires Valid()
      modifies `head, `pushedTo, `queue, data
      ensures Valid() && Pushed(src, cap - 4, rc)
      ensures src == [] ==> rc == EINVAL
    {
      if src == [] { return EINVAL; }
      if |src| > cap - HDR { return EMSGSIZE; }
      rc := PlaceContiguous(src);
    }

    method PlaceContiguous(src: seq<byte>) returns (rc: Code)
      requires Valid() && 0 < |src| <= cap - 4
      modifies `head, `pushedTo, `queue, data
      ensures Valid() && Pushed(src, cap - 4, rc)
    {
      rc := TryContiguous(src);
      TriedIsPlaced(cap, old(pushedTo), old(poppedTo), |src| + 4, rc == OK, pushedTo);
    }

    /** The push of a body that is not too long. */
    method TryContiguous(src: seq<byte>) returns (rc: Code)
      requires Valid() && 0 < |src| <= cap - HDR
      modifies `head, `pushedTo, `queue, data
      ensures Valid() && Tried(src, rc)
    {
      var need := |src| + HDR;
      var ok, pos, wrap := Admit(need);
      if !ok { return EAGAIN; }
      StoreContiguous(pos, wrap, src);
      return OK;
    }

    /** The second half of a push that was admitted. */
    method StoreContiguous(pos: nat, wrap: bool, src: seq<byte>)
      requires Valid() && 0 < |src| <= cap - HDR && Fits(cap, pushedTo, poppedTo, Need(src))
      requires pos == Offset(cap, pushedTo) && wrap == Wraps(cap, pushedTo, Need(src))
      modifies `head, `pushedTo, `queue, data
      ensures Valid() && queue == old(queue) + [src]
      ensures pushedTo == NewHead(cap, old(pushedTo), Need(src))
      ensures data[..] == Apply(old(data[..]), Stores(cap, old(pushedTo), src))
    {
      ghost var base := data[..];
      WriteRecord(pos, wrap, src);
      var newHead := NextHead(pos, wrap, Need(src));
      Publish(newHead, src, base);
    }

    /** The marker, if the record wraps, and the record. */
    method WriteRecord(pos: nat, wrap: bool, src: seq<byte>)
      requires cap > 0 && data.Length == cap + SLACK && Fits(cap, pushedTo, poppedTo, Need(src))
      requires pos == Offset(cap, pushedTo) && wrap == Wraps(cap, pushedTo, Need(src))
      modifies data
      ensures data[..] == Apply(old(data[..]), Stores(cap, pushedTo, src))
    {
      RecordIsContiguous(cap, pushedTo, poppedTo, Need(src));
      ghost var base := data[..];
      ghost var first := if wrap then Fill(pos, ZEROS) else [];
      if wrap {
        assert [] + Fill(pos, ZEROS) == Fill(pos, ZEROS);
        CopyIn(pos, ZEROS, base, []);
        CopyRecord(0, src, base, first);
      } else {
        CopyRecord(pos, src, base, first);
      }
      StoresAre(cap, pushedTo, src, first, if wrap then 0 else pos);
    }

    /** The head word after a contiguous push, rounded up past the padding if the record wraps. */
    method NextHead(pos: nat, wrap: bool, need: nat) returns (word: nat)
      requires Capacity(cap) && head == Wrap(pushedTo)
      requires pos == Offset(cap, pushedTo) && wrap == Wraps(cap, pushedTo, need)
      ensures word == Wrap(NewHead(cap, pushedTo, need))
    {
      if wrap {
        WordLapEnd(cap, pushedTo, need);
        word := Wrap(And(head, Not(cap - 1)) + cap + need);
      } else {
        WrapAdd(pushedTo, need);
        word := Wrap(head + need);
      }
    }

    /** Writes a length and a body one after the other, on top of the stores `first`. */
    method CopyRecord(at: nat, src: seq<byte>, ghost base: seq<byte>, ghost first: seq<Store>)
      requires |base| == data.Length && at + HDR + |src| <= data.Length
      requires data[..] == Apply(base, first)
      modifies data
      ensures data[..] == Apply(base, first + Fill(at, Frame(src)))
    {
      var len := U32(|src|);
      CopyIn(at, len, base, first);
      CopyIn(at + HDR, src, base, first + Fill(at, len));
      FillConcat(first, at, len, src);
    }

    /** Adds up the segment lengths, as the first loop of the scatter push does. */
    method TotalLength(segs: seq<seq<byte>>) returns (total: nat)
      ensures total == |Flatten(segs)|
    {
      total := 0;
      for k := 0 to |segs|
        invariant total == |Flatten(segs[..k])|
      {
        assert segs[..k + 1][..k] == segs[..k];
        total := total + |segs[k]|;
      }
      assert segs[..|segs|] == segs;
    }

    method PushScatter(segs: seq<seq<byte>>) returns (rc: Code)
      requires Valid()
      modifies `head, `pushedTo, `queue, data
      ensures Valid() && Pushed(Flatten(segs), cap - 8, rc)
      ensures segs == [] ==> rc == EINVAL
      ensures segs != [] && Flatten(segs) == [] ==> rc == EMSGSIZE
    {
      if segs == [] { return EINVAL; }
      var total := TotalLength(segs);
      if total == 0 || total + HDR > cap - HDR { return EMSGSIZE; }
      rc := PlaceSegments(total, segs);
    }

    method PlaceSegments(total: nat, segs: seq<seq<byte>>) returns (rc: Code)
      requires Valid() && 0 < total == |Flatten(segs)| <= cap - 8
      modifies `head, `pushedTo, `queue, data
      ensures Valid() && Pushed(Flatten(segs), cap - 8, rc)
    {
      ghost var b := Flatten(segs);
      rc := TrySegments(total, segs, b);
      TriedIsPlaced(cap, old(pushedTo), old(poppedTo), |b| + 4, rc == OK, pushedTo);
    }

    /** The scatter push of a body that is not too long. */
    method TrySegments(total: nat, segs: seq<seq<byte>>, ghost b: body) returns (rc: Code)
      requires Valid() && b == Flatten(segs) && 0 < total == |b| <= cap - 2 * HDR
      modifies `head, `pushedTo, `queue, data
      ensures Valid() && Tried(b, rc)
    {
      var ok, pos, wrap := Admit(total + HDR);
      if !ok { return EAGAIN; }
      StoreSegments(pos, wrap, total, segs);
      return OK;
    }

    /** The second half of a scatter push that was admitted. */
    method StoreSegments(pos: nat, wrap: bool, total: nat, segs: seq<seq<byte>>)
      requires Valid() && 0 < total == |Flatten(segs)| <= cap - 2 * HDR
      requires Fits(cap, pushedTo, poppedTo, total + HDR)
      requires pos == Offset(cap, pushedTo) && wrap == Wraps(cap, pushedTo, total + HDR)
      modifies `head, `pushedTo, `queue, data
      ensures Valid() && queue == old(queue) + [Flatten(segs)]
      ensures pushedTo == NewHead(cap, old(pushedTo), total + HDR)
      ensures data[..] == Apply(old(data[..]), Stores(cap, old(pushedTo), Flatten(segs)))
    {
      ghost var base := data[..];
      WriteSegments(pos, wrap, total, segs);
      var newHead := AdvancedHead(pos, wrap, total + HDR);
      Publish(newHead, Flatten(segs), base);
    }

    /** The head word after a scatter push: the required space is simply added. */
    method AdvancedHead(pos: nat, wrap: bool, need: nat) returns (word: nat)
      requires Capacity(cap) && head == Wrap(pushedTo)
      requires pos == Offset(cap, pushedTo) && wrap == Wraps(cap, pushedTo, need)
      ensures word == Wrap(NewHead(cap, pushedTo, need))
    {
      var required := if wrap then cap - pos + need else need;
      assert NewHead(cap, pushedTo, need) == pushedTo + required;
      WrapAdd(pushedTo, required);
      word := Wrap(head + required);
    }

    /** The marker, if the record wraps, and the record, segment by segment. */
    method WriteSegments(pos: nat, wrap: bool, total: nat, segs: seq<seq<byte>>)
      requires cap > 0 && data.Length == cap + SLACK && total == |Flatten(segs)| > 0
      requires Fits(cap, pushedTo, poppedTo, total + HDR)
      requires pos == Offset(cap, pushedTo) && wrap == Wraps(cap, pushedTo, total + HDR)
      modifies data
      ensures data[..] == Apply(old(data[..]), Stores(cap, pushedTo, Flatten(segs)))
    {
      RecordIsContiguous(cap, pushedTo, poppedTo, total + HDR);
      ghost var base := data[..];
      ghost var first := if wrap then Fill(pos, ZEROS) else [];
      var p := pos;
      if wrap {
        assert [] + Fill(pos, ZEROS) == Fill(pos, ZEROS);
        CopyIn(pos, ZEROS, base, []);
        p := 0;
      }
      CopySegments(p, total, segs, base, first);
      StoresAre(cap, pushedTo, Flatten(segs), first, p);
    }

    /** The length field and then every segment, in the source's modular chunks. */
    method CopySegments(start: nat, total: nat, segs: seq<seq<byte>>, ghost base: seq<byte>, ghost first: seq<Store>)
      requires cap > 0 && data.Length == cap + SLACK == |base|
      requires total == |Flatten(segs)| > 0 && start + HDR + total <= cap
      requires data[..] == Apply(base, first)
      modifies data
      ensures data[..] == Apply(base, first + Fill(start, Frame(Flatten(segs))))
    {
      CopyIn(start, U32(total), base, first);
      OffsetIsRemainder(cap, start + HDR);
      var p := (start + HDR) % cap;
      ghost var copied := U32(total);
      for k := 0 to |segs|
        invariant copied == U32(total) + Flatten(segs[..k])
        invariant p == Offset(cap, start + |copied|)
        invariant data[..] == Apply(base, first + Fill(start, copied))
      {
        FlattenStep(U32(total), segs, k);
        p := CopySegment(start, p, segs[k], base, first, copied);
        copied := copied + segs[k];
      }
      assert segs[..|segs|] == segs;
    }

    /** One segment; the loop runs at most once, because a record never crosses the end. */
    method CopySegment(start: nat, from: nat, seg: seq<byte>,
                       ghost base: seq<byte>, ghost first: seq<Store>, ghost copied: seq<byte>)
      returns (p: nat)
      requires cap > 0 && data.Length == cap + SLACK == |base|
      requires start + |copied| + |seg| <= cap && from == Offset(cap, start + |copied|)
      requires data[..] == Apply(base, first + Fill(start, copied))
      modifies data
      ensures p == Offset(cap, start + |copied| + |seg|)
      ensures data[..] == Apply(base, first + Fill(start, copied + seg))
    {
      p := from;
      var s, len := seg, |seg|;
      assert copied + [] == copied;
      while len > 0
        invariant if len == 0
                  then p == Offset(cap, start + |copied| + |seg|)
                    && data[..] == Apply(base, first + Fill(start, copied + seg))
                  else len == |seg| && s == seg && p == from && data[..] == Apply(base, first + Fill(start, copied))
      {
        OffsetAdvance(cap, start + |copied|, |seg|);
        var chunk := cap - p;
        if chunk > len { chunk := len; }
        assert chunk == len && s[..chunk] == seg;
        CopyIn(p, s[..chunk], base, first + Fill(start, copied));
        FillConcat(first, start, copied, seg);
        p := (p + chunk) % cap;
        s, len := s[chunk..], len - chunk;
      }
    }

    method Pop(buf: array<byte>, max: nat) returns (rc: Code, len: nat)
      requires Valid() && buf != data && max <= buf.Length
      modifies `tail, `poppedTo, `queue, buf
      ensures Valid() && pushedTo == old(pushedTo)
      ensures old(queue) == [] ==> rc == EAGAIN && poppedTo == old(poppedTo)
      ensures old(queue) != [] ==> rc == (if |old(queue)[0]| <= max then OK else EMSGSIZE)
      ensures rc == OK ==>
                && len == |old(queue)[0]| && buf[..len] == old(queue)[0]
                && queue == old(queue)[1..]
                && poppedTo == NewHead(cap, old(poppedTo), Need(old(queue)[0]))
      ensures rc == EMSGSIZE ==> poppedTo == RecordAt(cap, old(poppedTo), Need(old(queue)[0]))
      ensures rc != OK ==> queue == old(queue)
      ensures forall i :: (if rc == OK then len else 0) <= i < buf.Length ==> buf[i] == old(buf[i])
    {
      while true
        invariant Valid() && pushedTo == old(pushedTo) && queue == old(queue)
        invariant poppedTo == old(poppedTo) ||
                  (queue != [] && poppedTo == RecordAt(cap, old(poppedTo), Need(queue[0]))
                    && Offset(cap, poppedTo) == 0)
        invariant forall i :: 0 <= i < buf.Length ==> buf[i] == old(buf[i])
        decreases pushedTo - poppedTo
      {
        var again;
        again, rc, len := PopPass(buf, max);
        if !again { return; }
      }
    }

    /** One pass of the pop loop: over a marker, which calls for another pass, or to a result. */
    method PopPass(buf: array<byte>, max: nat) returns (again: bool, rc: Code, len: nat)
      requires Valid() && buf != data && max <= buf.Length
      modifies `tail, `poppedTo, `queue, buf
      ensures Valid() && pushedTo == old(pushedTo)
      ensures again <==> old(queue) != [] && Wraps(cap, old(poppedTo), Need(old(queue)[0]))
      ensures again ==> poppedTo == LapEnd(cap, old(poppedTo)) && Offset(cap, poppedTo) == 0
      ensures !again && old(queue) == [] ==> rc == EAGAIN
      ensures !again && old(queue) != [] ==> rc == (if |old(queue)[0]| <= max then OK else EMSGSIZE)
      ensures !again && rc == OK ==>
                && len == |old(queue)[0]| && buf[..len] == old(queue)[0]
                && queue == old(queue)[1..] && poppedTo == old(poppedTo) + Need(old(queue)[0])
      ensures again || rc != OK ==> queue == old(queue) && len == 0
      ensures !again && rc != OK ==> poppedTo == old(poppedTo)
      ensures forall i :: len <= i < buf.Length ==> buf[i] == old(buf[i])
    {
      var empty := IsEmpty();
      if empty { return false, EAGAIN, 0; }
      var pos, len32 := ReadLength();
      if len32 == 0 {
        SkipMarker();
        return true, EAGAIN, 0;
      }
      if max < len32 { return false, EMSGSIZE, 0; }
      TakeFront(pos, len32, buf);
      return false, OK, len32;
    }

    method IsEmpty() returns (empty: bool)
      requires Valid()
      ensures empty <==> queue == []
    {
      ChainOrder(data[..], cap, poppedTo, pushedTo, queue);
      WordDifference(pushedTo, poppedTo);
      empty := head == tail;
    }

    /** Reads the length field at `tail`: zero on a wrap marker, else the length of the front record. */
    method ReadLength() returns (pos: nat, len: nat)
      requires Valid() && queue != []
      ensures len == 0 <==> Wraps(cap, poppedTo, Need(queue[0]))
      ensures len > 0 ==>
                && len == |queue[0]| && pos + HDR + len <= data.Length
                && data[..][pos + HDR..pos + HDR + len] == queue[0]
    {
      ghost var bytes := data[..];
      FrontOfRecord(bytes, cap, poppedTo, queue[0]);
      pos := TailOffset();
      len := LengthAt(pos);
    }

    method TailOffset() returns (pos: nat)
      requires Capacity(cap) && tail == Wrap(poppedTo)
      ensures pos == Offset(cap, poppedTo)
    {
      WordOffset(cap, poppedTo);
      pos := And(tail, cap - 1);
    }

    method LengthAt(pos: nat) returns (len: nat)
      requires pos + HDR <= data.Length
      ensures len == Decode(data[..][pos..pos + HDR])
    {
      assert data[pos..pos + HDR] == data[..][pos..pos + HDR];
      len := Decode(data[pos..pos + HDR]);
    }

    /** Moves `tail` from a wrap marker to offset 0. */
    method SkipMarker()
      requires Valid() && queue != [] && Wraps(cap, poppedTo, Need(queue[0]))
      modifies `tail, `poppedTo
      ensures Valid() && poppedTo == LapEnd(cap, old(poppedTo)) && Offset(cap, poppedTo) == 0
    {
      ChainSkip(data[..], cap, poppedTo, pushedTo, queue);
      OffsetLapEnd(cap, poppedTo);
      var word := NextLap();
      tail, poppedTo := word, LapEnd(cap, poppedTo);
    }

    method NextLap() returns (word: nat)
      requires Capacity(cap) && tail == Wrap(poppedTo)
      ensures word == Wrap(LapEnd(cap, poppedTo))
    {
      WordLapEnd(cap, poppedTo, 0);
      word := Wrap(And(tail, Not(cap - 1)) + cap);
    }

    /** Copies the front record out and moves `tail` past it. */
    method TakeFront(pos: nat, len: nat, buf: array<byte>)
      requires Valid() && queue != [] && !Wraps(cap, poppedTo, Need(queue[0]))
      requires len == |queue[0]| <= buf.Length && buf != data
      requires pos + HDR + len <= data.Length && data[..][pos + HDR..pos + HDR + len] == queue[0]
      modifies `tail, `poppedTo, `queue, buf
      ensures Valid() && queue == old(queue)[1..] && poppedTo == old(poppedTo) + Need(old(queue)[0])
      ensures buf[..len] == old(queue)[0]
      ensures forall i :: len <= i < buf.Length ==> buf[i] == old(buf[i])
    {
      CopyOut(pos + HDR, len, buf);
      assert data[..] == old(data[..]);
      Advance(len);
    }

    /** Moves `tail` past the front record. */
    method Advance(len: nat)
      requires Valid() && queue != [] && !Wraps(cap, poppedTo, Need(queue[0])) && len == |queue[0]|
      modifies `tail, `poppedTo, `queue
      ensures Valid() && queue == old(queue)[1..] && poppedTo == old(poppedTo) + Need(old(queue)[0])
    {
      ghost var next, rest := poppedTo + HDR + len, queue[1..];
      RestIsThere(next, rest);
      StepTail(len, next, rest);
    }

    /** Past the front record, the buffer still holds the rest of the queue. */
    ghost predicate Rest(next: nat, rest: seq<body>)
      requires cap > 0
      reads this, data
    {
      data.Length == cap + SLACK && poppedTo <= next <= pushedTo && Chain(data[..], cap, next, pushedTo, rest)
    }

    lemma RestIsThere(next: nat, rest: seq<body>)
      requires cap > 0 && data.Length == cap + SLACK && Chain(data[..], cap, poppedTo, pushedTo, queue)
      requires queue != [] && !Wraps(cap, poppedTo, Need(queue[0]))
      requires next == poppedTo + Need(queue[0]) && rest == queue[1..]
      ensures Rest(next, rest)
    {
      ChainTake(data[..], cap, poppedTo, pushedTo, queue, next, rest);
    }

    /** Stores `tail` once the bytes of the front record have been read. */
    method StepTail(len: nat, ghost next: nat, ghost rest: seq<body>)
      requires Capacity(cap) && head == Wrap(pushedTo) && tail == Wrap(poppedTo) && pushedTo <= poppedTo + cap
      requires next == poppedTo + HDR + len && Rest(next, rest) && SlackZero(data[..], cap)
      modifies `tail, `poppedTo, `queue
      ensures Valid() && queue == rest && poppedTo == next
    {
      WrapAdd(poppedTo, len + HDR);
      tail, poppedTo, queue := Wrap(tail + len + HDR), next, rest;
    }

    /** memcpy out of the buffer. */
    method CopyOut(at: nat, n: nat, buf: array<byte>)
      requires at + n <= data.Length && n <= buf.Length && buf != data
      modifies buf
      ensures buf[..n] == data[..][at..at + n]
      ensures forall i :: n <= i < buf.Length ==> buf[i] == old(buf[i])
    {
      forall i | 0 <= i < n {
        buf[i] := data[at + i];
      }
    }
  }

  lemma TriedIsPlaced(cap: nat, head: nat, tail: nat, need: nat, ok: bool, newHead: nat)
    requires cap > 0 && tail <= head && ok == Fits(cap, head, tail, need)
    requires ok ==> newHead == NewHead(cap, head, need)
    ensures Placed(cap, head, tail, need, ok, newHead)
  {
    AdmittedIff(cap, head, tail, need);
  }

  /** One more segment behind a length field. */
  lemma FlattenStep(len: seq<byte>, segs: seq<seq<byte>>, k: nat)
    requires k < |segs|
    ensures len + Flatten(segs[..k]) + segs[k] == len + Flatten(segs[..k + 1])
    ensures |Flatten(segs[..k])| + |segs[k]| <= |Flatten(segs)|
  {
    assert segs[..k + 1][..k] == segs[..k];
    FlattenPrefix(segs, k + 1);
    assert len + Flatten(segs[..k]) + segs[k] == len + (Flatten(segs[..k]) + segs[k]);
  }

  lemma {:induction false} FlattenPrefix(segs: seq<seq<byte>>, k: nat)
    requires k <= |segs|
    ensures |Flatten(segs[..k])| <= |Flatten(segs)|
    decreases |segs| - k
  {
    if k == |segs| {
      assert segs[..k] == segs;
    } else {
      FlattenPrefix(segs, k + 1);
      assert segs[..k + 1][..k] == segs[..k];
    }
  }
}
