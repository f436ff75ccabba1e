/**
 The ring's cursors only grow. This module relates a cursor to its offset in
 the buffer, first for unbounded cursors and then for the masked 64-bit words
 that the program stores.
 */
module Cursors {
  /**
   The offset of `cursor` in a buffer of `cap` bytes. It is `cursor % cap`
   (see OffsetIsRemainder), written by repeated subtraction to spare the
   verifier a division by a variable.
   */
  function Offset(cap: nat, cursor: nat): (p: nat)
    requires cap > 0
    ensures p < cap && p <= cursor
    decreases cursor
  {
    if cursor < cap then cursor else Offset(cap, cursor - cap)
  }

  lemma {:induction false} OffsetIsRemainder(cap: nat, cursor: nat)
    requires cap > 0
    ensures Offset(cap, cursor) == cursor % cap
    decreases cursor
  {
    if cursor >= cap {
      OffsetIsRemainder(cap, cursor - cap);
      assert cursor == (cursor - cap) + cap;
      assert (cursor - cap) % cap == cursor % cap by {
        var q, r := (cursor - cap) / cap, (cursor - cap) % cap;
        assert cursor == cap * (q + 1) + r;
        RemainderUnique(cursor, cap, q + 1, r);
      }
    } else {
      RemainderUnique(cursor, cap, 0, cursor);
    }
  }

  lemma RemainderUnique(x: nat, m: nat, q: nat, r: nat)
    requires m > 0 && r < m && x == m * q + r
    ensures x % m == r
  {
    var d := q - x / m;
    assert m * d == x % m - r by {
      assert m * q - m * (x / m) == m * d;
    }
    if d > 0 {
      AtLeastFactor(m, d);
    } else if d < 0 {
      AtLeastFactor(m, -d);
    }
  }

  lemma AtLeastFactor(m: nat, d: nat)
    requires d > 0
    ensures m * d >= m
  {
    assert m * d == m + m * (d - 1);
  }

  /** The first cursor after `cursor` that lies at offset 0. */
  function LapEnd(cap: nat, cursor: nat): (e: nat)
    requires cap > 0
    ensures cursor < e <= cursor + cap
  {
    cursor + (cap - Offset(cap, cursor))
  }

  lemma {:induction false} OffsetStep(cap: nat, cursor: nat, i: nat)
    requires cap > 0 && Offset(cap, cursor) + i < cap
    ensures Offset(cap, cursor + i) == Offset(cap, cursor) + i
    decreases cursor
  {
    if cursor >= cap {
      OffsetStep(cap, cursor - cap, i);
    }
  }

  lemma {:induction false} OffsetLapEnd(cap: nat, cursor: nat)
    requires cap > 0
    ensures Offset(cap, LapEnd(cap, cursor)) == 0
    decreases cursor
  {
    if cursor >= cap {
      OffsetLapEnd(cap, cursor - cap);
      assert LapEnd(cap, cursor) - cap == LapEnd(cap, cursor - cap);
    } else {
      assert LapEnd(cap, cursor) == cap;
    }
  }

  /** Two cursors less than a lap apart never share an offset. */
  lemma {:induction false} OffsetDistinct(cap: nat, c: nat, d: nat)
    requires cap > 0 && c < d < c + cap
    ensures Offset(cap, c) != Offset(cap, d)
    decreases c
  {
    if c >= cap {
      OffsetDistinct(cap, c - cap, d - cap);
    }
  }

  /** Adding a whole number of laps keeps the offset. */
  lemma {:induction false} OffsetPeriodic(cap: nat, x: nat, laps: nat)
    requires cap > 0 && Offset(cap, laps) == 0
    ensures Offset(cap, x + laps) == Offset(cap, x)
    decreases laps
  {
    if laps >= cap {
      OffsetPeriodic(cap, x, laps - cap);
      assert x + laps - cap == x + (laps - cap);
    }
  }

  lemma {:induction false} OffsetDouble(m: nat, x: nat)
    requires m > 0
    ensures Offset(2 * m, x) == 2 * Offset(m, x / 2) + x % 2
    decreases x
  {
    if x >= 2 * m {
      OffsetDouble(m, x - 2 * m);
      assert (x - 2 * m) / 2 == x / 2 - m;
    }
  }

  // ---- 64-bit words ----

  const U64: nat := 0x1_0000_0000_0000_0000

  function Wrap(x: int): (w: nat)
    ensures w < U64
  {
    x % U64
  }

  predicate PowerOfTwo(n: nat) {
    n == 1 || (n > 0 && n % 2 == 0 && PowerOfTwo(n / 2))
  }

  /** Bitwise and. */
  function And(x: nat, y: nat): nat {
    if x == 0 || y == 0 then 0
    else 2 * And(x / 2, y / 2) + (if x % 2 == 1 && y % 2 == 1 then 1 else 0)
  }

  /** Bitwise complement of a 64-bit word. */
  function Not(x: nat): nat
    requires x < U64
  {
    U64 - 1 - x
  }

  /** `x & (cap - 1)` is the offset of `x`. */
  lemma {:induction false} MaskIsOffset(cap: nat, x: nat)
    requires PowerOfTwo(cap)
    ensures And(x, cap - 1) == Offset(cap, x)
    decreases cap
  {
    if cap == 1 {
      OffsetIsRemainder(1, x);
    } else {
      var m := cap / 2;
      MaskIsOffset(m, x / 2);
      OffsetDouble(m, x);
      assert (cap - 1) / 2 == m - 1 && (cap - 1) % 2 == 1;
      if m == 1 {
        assert Offset(m, x / 2) == 0;
      }
    }
  }

  function Pow2(k: nat): (p: nat)
    ensures p > 0
  {
    if k == 0 then 1 else 2 * Pow2(k - 1)
  }

  lemma {:induction false} AndComplement(x: nat, y: nat, k: nat)
    requires x < Pow2(k) && y < Pow2(k)
    ensures And(x, y) + And(x, Pow2(k) - 1 - y) == x
  {
    if k != 0 && x != 0 {
      var z := Pow2(k) - 1 - y;
      AndComplement(x / 2, y / 2, k - 1);
      assert z / 2 == Pow2(k - 1) - 1 - y / 2 && z % 2 == 1 - y % 2;
    }
  }

  lemma U64IsPow2()
    ensures U64 == Pow2(64)
  {
    assert Pow2(8) == 0x100;
    assert Pow2(16) == 0x100 * Pow2(8);
    assert Pow2(24) == 0x100 * Pow2(16);
    assert Pow2(32) == 0x100 * Pow2(24);
    assert Pow2(40) == 0x100 * Pow2(32);
    assert Pow2(48) == 0x100 * Pow2(40);
    assert Pow2(56) == 0x100 * Pow2(48);
    assert Pow2(64) == 0x100 * Pow2(56);
  }

  /** `x & ~(cap - 1)` rounds `x` down to the start of its lap. */
  lemma RoundDown(cap: nat, x: nat)
    requires PowerOfTwo(cap) && cap <= U64 && x < U64
    ensures And(x, Not(cap - 1)) == x - Offset(cap, x)
  {
    U64IsPow2();
    AndComplement(x, cap - 1, 64);
    MaskIsOffset(cap, x);
  }

  lemma {:induction false} PowersDivide(cap: nat, k: nat)
    requires PowerOfTwo(cap) && cap <= Pow2(k)
    ensures Offset(cap, Pow2(k)) == 0
    decreases k
  {
    if cap == 1 {
      OffsetIsRemainder(1, Pow2(k));
    } else {
      var m := cap / 2;
      PowersDivide(m, k - 1);
      OffsetDouble(m, Pow2(k));
    }
  }

  lemma WordHoldsWholeLaps(cap: nat)
    requires PowerOfTwo(cap) && cap <= U64
    ensures Offset(cap, U64) == 0
  {
    U64IsPow2();
    PowersDivide(cap, 64);
  }

  lemma {:induction false} OffsetNested(cap: nat, word: nat, x: nat)
    requires cap > 0 && word > 0 && Offset(cap, word) == 0
    ensures Offset(cap, Offset(word, x)) == Offset(cap, x)
    decreases x
  {
    if x >= word {
      OffsetNested(cap, word, x - word);
      OffsetPeriodic(cap, x - word, word);
    }
  }

  /** Reducing a cursor modulo 2^64 does not move it in the buffer. */
  lemma OffsetOfWrap(cap: nat, x: nat)
    requires PowerOfTwo(cap) && cap <= U64
    ensures Offset(cap, Wrap(x)) == Offset(cap, x)
  {
    WordHoldsWholeLaps(cap);
    OffsetNested(cap, U64, x);
    OffsetIsRemainder(U64, x);
  }

  /** Masking a stored cursor word gives the offset of the cursor it stands for. */
  lemma WordOffset(cap: nat, cursor: nat)
    requires PowerOfTwo(cap) && cap <= U64
    ensures And(Wrap(cursor), cap - 1) == Offset(cap, cursor)
    ensures And(Wrap(cursor), Not(cap - 1)) == Wrap(cursor) - Offset(cap, cursor)
  {
    OffsetOfWrap(cap, cursor);
    MaskIsOffset(cap, Wrap(cursor));
    RoundDown(cap, Wrap(cursor));
  }

  lemma WrapAdd(cursor: nat, n: int)
    requires cursor + n >= 0
    ensures Wrap(Wrap(cursor) + n) == Wrap(cursor + n)
  {
  }

  /** The difference of two cursor words is exact while they are less than 2^64 apart. */
  lemma WordDifference(a: nat, b: nat)
    requires b <= a < b + U64
    ensures Wrap(Wrap(a) - Wrap(b)) == a - b
    ensures Wrap(a) == Wrap(b) <==> a == b
  {
  }

  /** Reducing a buffer offset that has moved up to the end of the buffer. */
  lemma OffsetAdvance(cap: nat, x: nat, n: nat)
    requires cap > 0 && 0 < n && x + n <= cap
    ensures Offset(cap, x) == x && (x + n) % cap == Offset(cap, x + n)
  {
    OffsetIsRemainder(cap, x + n);
  }

  /** Rounding a word up to the next lap is rounding the cursor up. */
  lemma WordLapEnd(cap: nat, cursor: nat, n: nat)
    requires PowerOfTwo(cap) && cap <= U64
    ensures Wrap(And(Wrap(cursor), Not(cap - 1)) + cap + n) == Wrap(LapEnd(cap, cursor) + n)
  {
    WordOffset(cap, cursor);
    WrapAdd(cursor, cap - Offset(cap, cursor) + n);
  }

  lemma {:induction false} Pow2IsPowerOfTwo(k: nat)
    ensures PowerOfTwo(Pow2(k))
  {
    if k != 0 {
      Pow2IsPowerOfTwo(k - 1);
    }
  }

  /** The least of `p`, 2p, 4p, ... that is at least `v`. */
  function Doubled(v: nat, p: nat): (r: nat)
    requires p > 0
    ensures p <= r && v <= r
    decreases v - p
  {
    if p >= v then p else Doubled(v, 2 * p)
  }

  /** A ring's capacity: at least one page, at least what was asked for, and a power of two. */
  function Rounded(v: nat): (r: nat)
    ensures 4096 <= r && v <= r
  {
    Doubled(v, 4096)
  }

  lemma {:induction false} NextPowerOfTwo(p: nat, q: nat)
    requires PowerOfTwo(p) && PowerOfTwo(q) && p < q
    ensures 2 * p <= q
    decreases q
  {
    if p != 1 {
      NextPowerOfTwo(p / 2, q / 2);
    }
  }

  lemma {:induction false} DoubledIsPower(v: nat, p: nat)
    requires PowerOfTwo(p)
    ensures PowerOfTwo(Doubled(v, p))
    decreases v - p
  {
    if p < v {
      DoubledIsPower(v, 2 * p);
    }
  }

  lemma {:induction false} DoubledIsLeast(v: nat, p: nat, q: nat)
    requires PowerOfTwo(p) && PowerOfTwo(q) && p <= q && v <= q
    ensures Doubled(v, p) <= q
    decreases v - p
  {
    if p < v {
      NextPowerOfTwo(p, q);
      DoubledIsLeast(v, 2 * p, q);
    }
  }

  lemma PageIsPowerOfTwo()
    ensures PowerOfTwo(4096) && PowerOfTwo(0x4000_0000) && PowerOfTwo(0x1_0000_0000)
  {
    assert Pow2(8) == 0x100;
    assert Pow2(12) == 0x10 * Pow2(8);
    assert Pow2(16) == 0x100 * Pow2(8);
    assert Pow2(24) == 0x100 * Pow2(16);
    assert Pow2(30) == 0x40 * Pow2(24);
    assert Pow2(32) == 0x100 * Pow2(24);
    Pow2IsPowerOfTwo(12);
    Pow2IsPowerOfTwo(30);
    Pow2IsPowerOfTwo(32);
  }

  /** A rounded capacity is the least power of two of at least a page and at least `v`. */
  lemma RoundedIsLeast(v: nat, q: nat)
    ensures PowerOfTwo(Rounded(v))
    ensures PowerOfTwo(q) && 4096 <= q && v <= q ==> Rounded(v) <= q
    ensures v <= 0x4000_0000 ==> Rounded(v) <= 0x4000_0000
    ensures v <= 0x1_0000_0000 ==> Rounded(v) <= 0x1_0000_0000
  {
    PageIsPowerOfTwo();
    DoubledIsPower(v, 4096);
    if PowerOfTwo(q) && 4096 <= q && v <= q { DoubledIsLeast(v, 4096, q); }
    if v <= 0x4000_0000 { DoubledIsLeast(v, 4096, 0x4000_0000); }
    if v <= 0x1_0000_0000 { DoubledIsLeast(v, 4096, 0x1_0000_0000); }
  }
}
