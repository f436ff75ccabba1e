/** The frames that travel over the datagram sockets, and how the receiver reads them. */
module Wire {
  import opened Bytes

  type payload = seq<byte>

  const TAG_CTRL: byte := 0
  const TAG_SHM: byte := 1
  const TAG_UDS: byte := 2
  const SETUP_REQ: byte := 1
  const SETUP_ACK: byte := 2
  const NO_SCRATCH: byte := 244  // -ENOMEM cast to a byte

  datatype Frame = Data(p: payload) | SetupReq(cap32: nat, name: seq<byte>) | SetupAck(status: byte)

  /** The bytes of a datagram. */
  function DatagramOf(f: Frame): seq<byte> {
    match f
    case Data(p) => [TAG_UDS] + p
    case SetupReq(cap32, name) => [TAG_CTRL, SETUP_REQ] + U32(cap32) + name + [0]
    case SetupAck(status) => [TAG_CTRL, SETUP_ACK, status]
  }

  /** The bytes of a ring record's body. */
  function Record(p: payload): seq<byte> { [TAG_SHM] + p }

  /** What arrives of a datagram in a buffer of `cap` bytes. */
  function CutOff(f: seq<byte>, cap: nat): seq<byte> {
    if |f| <= cap then f else f[..cap]
  }

  /** The producer's test for a successful acknowledgement. */
  predicate Acknowledges(f: seq<byte>) {
    |f| >= 3 && f[0] == TAG_CTRL && f[1] == SETUP_ACK && f[2] == 0
  }

  /** Length of the C string at the start of `s`: up to the first zero byte, or all of `s`. */
  function StringLength(s: seq<byte>): (n: nat)
    ensures n <= |s| && 0 !in s[..n] && (n < |s| ==> s[n] == 0)
  {
    if s == [] || s[0] == 0 then 0 else 1 + StringLength(s[1..])
  }

  datatype Request = Invalid | Request(cap32: nat, name: seq<byte>)

  /** What the receiver makes of a control frame. */
  function ParseRequest(f: seq<byte>): Request {
    if |f| < 7 || f[1] != SETUP_REQ then Invalid
    else
      var cap32, rest := Decode(f[2..6]), f[6..];
      if cap32 == 0 || cap32 > 0x4000_0000 || StringLength(rest) == |rest| then Invalid
      else Request(cap32, rest[..StringLength(rest)])
  }

  /** A generated shared-object name: it starts with a slash, holds no zero byte and fits its field. */
  predicate Name(n: seq<byte>) {
    0 < |n| < 64 && n[0] == 47 && 0 !in n
  }

  type objectName = n: seq<byte> | Name(n) witness [47]

  /** A little-endian integer of four bytes. */
  function FourBytes(a: int, b: int, c: int, d: int): int { a + 0x100 * b + 0x1_0000 * c + 0x100_0000 * d }

  /** The bytes of each frame, and which datagram acknowledges a set-up. */
  lemma FrameBytes(p: payload, cap32: nat, name: seq<byte>, status: byte)
    requires cap32 < 0x1_0000_0000
    ensures Record(p) == [1] + p && DatagramOf(Data(p)) == [2] + p
    ensures DatagramOf(SetupAck(status)) == [0, 2, status]
    ensures var f := DatagramOf(SetupReq(cap32, name));
            && f == [0, 1] + f[2..6] + name + [0]
            && FourBytes(f[2], f[3], f[4], f[5]) == cap32
    ensures Acknowledges(DatagramOf(SetupAck(status))) <==> status == 0
    ensures !Acknowledges(DatagramOf(Data(p))) && !Acknowledges(DatagramOf(SetupReq(cap32, name)))
  {
    U32RoundTrip(cap32);
    var f := DatagramOf(SetupReq(cap32, name));
    assert f[2..6] == U32(cap32);
    FourBytesDecode(f[2..6]);
  }

  /** What the receiver takes for a request, of all datagrams, and what it reads in it. */
  lemma RequestIff(f: seq<byte>, cap32: nat, name: seq<byte>)
    ensures ParseRequest(f) == Request(cap32, name) <==>
              && |f| >= 7 && f[1] == 1 && 0 < cap32 <= 0x4000_0000
              && FourBytes(f[2], f[3], f[4], f[5]) == cap32
              && 0 !in name && name + [0] <= f[6..]
  {
    if |f| >= 7 {
      FourBytesDecode(f[2..6]);
      NameRead(f[6..], name);
    }
  }

  lemma FourBytesDecode(s: seq<byte>)
    requires |s| == 4
    ensures Decode(s) == FourBytes(s[0], s[1], s[2], s[3])
  {
    var t := s[1..];
    var u := t[1..];
    var v := u[1..];
    assert Decode(v) == s[3] as int + 256 * Decode([]) by { assert v[1..] == []; }
    assert Decode(u) == s[2] as int + 256 * Decode(v);
    assert Decode(t) == s[1] as int + 256 * Decode(u);
  }

  /** The first zero byte is at `n`. */
  lemma {:induction false} LengthIff(s: seq<byte>, n: nat)
    requires n < |s|
    ensures StringLength(s) == n <==> 0 !in s[..n] && s[n] == 0
  {
    if n > 0 {
      assert s[..n] == [s[0]] + s[1..][..n - 1];
      if s[0] != 0 {
        LengthIff(s[1..], n - 1);
      }
    }
  }

  lemma Terminated(rest: seq<byte>, name: seq<byte>)
    ensures name + [0] <= rest <==> |name| < |rest| && rest[..|name|] == name && rest[|name|] == 0
  {
    if |name| < |rest| && rest[..|name|] == name && rest[|name|] == 0 {
      assert rest[..|name| + 1] == name + [0];
    }
    if name + [0] <= rest {
      assert rest[..|name| + 1] == name + [0];
      assert rest[..|name|] == rest[..|name| + 1][..|name|];
    }
  }

  /** The name in front of the first zero byte. */
  lemma NameRead(rest: seq<byte>, name: seq<byte>)
    ensures var n := StringLength(rest);
            (n < |rest| && rest[..n] == name) <==> (0 !in name && name + [0] <= rest)
  {
    Terminated(rest, name);
    if |name| < |rest| {
      LengthIff(rest, |name|);
    }
  }

  /** The receiver understands a request as it was meant, and ignores one whose capacity is out of range. */
  lemma RequestUnderstood(cap32: nat, name: seq<byte>)
    requires cap32 < 0x1_0000_0000 && Name(name)
    ensures var f := DatagramOf(SetupReq(cap32, name));
            && 7 < |f| < 71 && f[0] == TAG_CTRL
            && ParseRequest(f) == if 0 < cap32 <= 0x4000_0000 then Request(cap32, name) else Invalid
  {
    var f := DatagramOf(SetupReq(cap32, name));
    U32RoundTrip(cap32);
    assert f[2..6] == U32(cap32);
    var rest := f[6..];
    assert rest == name + [0];
    assert 0 in rest by { assert rest[|name|] == 0; }
    var n := StringLength(rest);
    assert rest[..|rest|] == rest;
    assert n == |name|;
    assert rest[..n] == name;
  }
}
