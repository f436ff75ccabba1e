/** The ring of the most recent routing decisions. */
module DecisionLog {
  import opened Bytes

  const SIZE: nat := 512

  function Slot(x: nat): (i: nat)
    ensures i < SIZE
  {
    x % 512
  }

  /** A wrapped cursor selects the slot of the unwrapped one. */
  lemma SlotOfWord(x: int, y: nat)
    requires Low32(x) == Low32(y)
    ensures Slot(Low32(x)) == Slot(y)
  {
    assert Low32(y) == y - 0x1_0000_0000 * (y / 0x1_0000_0000);
  }

  /** The slot of the k-th of the last `total` records, as the dump computes it. */
  lemma DumpSlot(next: nat, n: nat, total: nat, k: nat)
    requires next == Low32(n) && k < total <= n
    ensures Slot(Low32(next - total + k)) == Slot(n - total + k)
  {
    SlotOfWord(next - total + k, n - total + k);
  }

  /** The slots hold the last `count` records. */
  ghost predicate Holds<D>(slots: seq<D>, all: seq<D>, count: nat) {
    && |slots| == SIZE && count <= |all|
    && forall k :: |all| - count <= k < |all| ==> slots[Slot(k)] == all[k]
  }

  /** Cursors less than SIZE apart have different slots. */
  lemma SlotsDiffer(k: nat, n: nat)
    requires k < n < k + SIZE
    ensures Slot(k) != Slot(n)
  {
  }

  lemma HoldsOneMore<D>(slots: seq<D>, all: seq<D>, count: nat, d: D)
    requires Holds(slots, all, count) && count <= SIZE
    ensures Holds(slots[Slot(|all|) := d], all + [d], if count < SIZE then count + 1 else count)
  {
    var n, more := |all|, if count < SIZE then count + 1 else count;
    forall k | n + 1 - more <= k < n + 1 ensures slots[Slot(n) := d][Slot(k)] == (all + [d])[k] {
      if k < n {
        SlotsDiffer(k, n);
      }
    }
  }

  class Log<D(0)> {
    var enabled: bool
    var count: nat
    var next: nat
    const ring: array<D>

    /** Every decision recorded since the start. */
    ghost var all: seq<D>

    ghost predicate Valid()
      reads this, ring
    {
      && ring.Length == SIZE
      && next == Low32(|all|)
      && count == (if |all| < SIZE then |all| else SIZE)
      && Holds(ring[..], all, count)
    }

    constructor (on: bool)
      ensures Valid() && fresh(ring) && all == [] && enabled == on
    {
      enabled, count, next := on, 0, 0;
      ring := new D[SIZE];
      all := [];
    }

    method Record(d: D)
      requires Valid()
      modifies this`count, this`next, this`all, ring
      ensures Valid() && all == if enabled then old(all) + [d] else old(all)
    {
      if !enabled { return; }
      SlotOfWord(next, |all|);
      HoldsOneMore(ring[..], all, count, d);
      ring[Slot(next)] := d;
      next := Low32(next + 1);
      if count < SIZE { count := count + 1; }
      all := all + [d];
    }

    /** The lines of the dump, in the order they are written. */
    method Dump() returns (out: seq<D>)
      requires Valid()
      ensures !enabled ==> out == []
      ensures enabled && |all| <= 512 ==> out == all
      ensures enabled && |all| > 512 ==> out == all[|all| - 512..]
    {
      out := [];
      if !enabled || count == 0 { return; }
      var total := count;
      for k := 0 to total
        invariant out == all[|all| - total..|all| - total + k]
      {
        DumpSlot(next, |all|, total, k);
        out := out + [ring[Slot(Low32(next - total + k))]];
      }
      assert all[|all| - total..|all|] == all[|all| - total..];
    }
  }
}
