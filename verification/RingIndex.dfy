// Index arithmetic of the playback ring: free-running 32-bit counters that are
// reduced to buffer slots with a bit mask.
module RingIndex {

  const U32: nat := 0x1_0000_0000

  /** Unsigned 32-bit wrap-around. */
  function Wrap(x: int): nat {
    x % 0x1_0000_0000
  }

  /** The buffer slot a counter value stands for. */
  function Slot(i: nat, cap: nat): nat
    requires cap > 0
  {
    i % cap
  }

  /** Bitwise AND of two unsigned integers. */
  function BitAnd(x: nat, y: nat): nat {
    if x == 0 || y == 0 then 0
    else 2 * BitAnd(x / 2, y / 2) + (if x % 2 == 1 && y % 2 == 1 then 1 else 0)
  }

  function Pow2(k: nat): (p: nat)
    ensures p >= 1
  {
    if k == 0 then 1 else 2 * Pow2(k - 1)
  }

  function Min(a: nat, b: nat): nat {
    if a < b then a else b
  }

  /** The size check on `--ring-frames`. */
  predicate AcceptsRingFrames(frames: nat) {
    256 <= frames < U32 && BitAnd(frames, frames - 1) == 0
  }

  /** Occupancy as both sides compute it: the wrapped difference of the two
      counters, masked. */
  function Occupied(head: nat, tail: nat, cap: nat): nat
    requires cap > 0
  {
    BitAnd(Wrap(tail - head), cap - 1)
  }

  /** Buffer slot of the j-th frame of a transfer of `count` frames that starts
      at counter value `start`: the first memcpy runs up to the end of the
      buffer, the second restarts at slot 0. */
  function TransferSlot(start: nat, count: nat, cap: nat, j: nat): int
    requires cap > 0
  {
    var first := BitAnd(start, cap - 1);
    var a := if count < cap - first then count else cap - first;
    if j < a then first + j else j - a
  }

  // ---------- the power-of-two test ----------

  lemma {:induction false} AndSelf(m: nat)
    ensures BitAnd(m, m) == m
  {
    if m > 0 {
      AndSelf(m / 2);
    }
  }

  lemma {:induction false} PowerOfTwoTest(c: nat)
    requires c > 0
    ensures BitAnd(c, c - 1) == 0 <==> exists k: nat :: c == Pow2(k)
  {
    if c == 1 {
      assert c == Pow2(0);
    } else if c % 2 == 1 {
      AndSelf(c / 2);
      assert (c - 1) / 2 == c / 2;
    } else {
      var m := c / 2;
      assert (c - 1) / 2 == m - 1 && (c - 1) % 2 == 1;
      PowerOfTwoTest(m);
      if BitAnd(c, c - 1) == 0 {
        assert BitAnd(m, m - 1) == 0;
        var k: nat :| m == Pow2(k);
        assert c == Pow2(k + 1);
      }
      if k: nat :| c == Pow2(k) {
        var k': nat := k - 1;
        assert c == 2 * Pow2(k');
        assert m == Pow2(k');
      }
    }
  }

  lemma MaskStep(x: nat, p: nat)
    requires p > 0 && BitAnd(x / 2, p - 1) == Slot(x / 2, p)
    ensures BitAnd(x, 2 * p - 1) == Slot(x, 2 * p)
  {
    assert (2 * p - 1) / 2 == p - 1 && (2 * p - 1) % 2 == 1;
    assert BitAnd(x, 2 * p - 1) == 2 * BitAnd(x / 2, p - 1) + x % 2;
    DoubleModulo(x, p);
  }

  lemma {:induction false} MaskIsModulo(x: nat, k: nat)
    ensures BitAnd(x, Pow2(k) - 1) == Slot(x, Pow2(k))
  {
    hide *;
    Pow2Step(k);
    if k == 0 || x == 0 {
      MaskBase(x, Pow2(k));
    } else {
      MaskIsModulo(x / 2, k - 1);
      MaskStep(x, Pow2(k - 1));
    }
  }

  lemma Pow2Step(k: nat)
    ensures Pow2(k) == if k == 0 then 1 else 2 * Pow2(k - 1)
  {
  }

  lemma MaskBase(x: nat, p: nat)
    requires p > 0 && (p == 1 || x == 0)
    ensures BitAnd(x, p - 1) == Slot(x, p)
  {
    if x == 0 {
      ModuloUnique(0, p, 0, 0);
    }
  }

  lemma DoubleModulo(x: nat, p: nat)
    requires p > 0
    ensures x % (2 * p) == 2 * ((x / 2) % p) + x % 2
  {
    var q := (x / 2) / p;
    var r := 2 * ((x / 2) % p) + x % 2;
    assert x == (2 * p) * q + r by {
      assert x / 2 == p * q + (x / 2) % p;
    }
    ModuloUnique(x, 2 * p, q, r);
  }

  lemma ProductBound(c: int, d: int)
    requires c > 0 && d >= 1
    ensures c * d >= c
  {
  }

  lemma ModuloUnique(x: int, c: int, q: int, r: int)
    requires 0 <= r < c && x == c * q + r
    ensures x % c == r
  {
    var q', r' := x / c, x % c;
    assert x == c * q' + r';
    assert c * (q - q') == c * q - c * q' == r' - r;
    if q > q' {
      ProductBound(c, q - q');
    } else if q < q' {
      ProductBound(c, q' - q);
    }
  }

  /** The mask `c - 1` reduces every counter modulo `c` exactly for the sizes
      the command line check accepts. */
  lemma MaskWorksExactlyForPowersOfTwo(c: nat)
    requires c > 0
    ensures (forall x: nat :: BitAnd(x, c - 1) == x % c) <==> BitAnd(c, c - 1) == 0
  {
    PowerOfTwoTest(c);
    if BitAnd(c, c - 1) == 0 {
      var k: nat :| c == Pow2(k);
      forall x: nat ensures BitAnd(x, c - 1) == x % c {
        MaskIsModulo(x, k);
      }
    }
    if forall x: nat :: BitAnd(x, c - 1) == x % c {
      assert BitAnd(c, c - 1) == c % c;
    }
  }

  // ---------- counters across the 32-bit wrap ----------

  lemma {:induction false} Pow2Splits(j: nat, k: nat)
    ensures Pow2(j + k) == Pow2(j) * Pow2(k)
  {
    if j > 0 {
      Pow2Splits(j - 1, k);
      assert Pow2(j + k) == 2 * Pow2(j - 1 + k);
    }
  }

  lemma Pow2Grows(j: nat, k: nat)
    requires j <= k
    ensures Pow2(j) <= Pow2(k)
    decreases k - j
  {
    if j < k {
      Pow2Grows(j + 1, k);
    }
  }

  lemma Pow2Of32()
    ensures Pow2(32) == U32
  {
    assert Pow2(8) == 256;
    Pow2Splits(8, 8);
    Pow2Splits(16, 16);
  }

  /** The accepted sizes are the powers of two from 2^8 to 2^31. */
  lemma AcceptedSizes(frames: nat)
    ensures AcceptsRingFrames(frames) <==> exists k: nat :: 8 <= k < 32 && frames == Pow2(k)
  {
    hide BitAnd, Pow2;
    Pow2Of32();
    Pow2Of8();
    if AcceptsRingFrames(frames) {
      PowerOfTwoTest(frames);
      var k: nat :| frames == Pow2(k);
      if k < 8 { Pow2Step(k + 1); Pow2Grows(k + 1, 8); Pow2Positive(k); }
      if k >= 32 { Pow2Grows(32, k); }
    }
    if k: nat :| 8 <= k < 32 && frames == Pow2(k) {
      Pow2Grows(8, k);
      Pow2Step(k + 1);
      Pow2Grows(k + 1, 32);
      Pow2Positive(k);
      PowerOfTwoTest(frames);
    }
  }

  lemma Pow2Of8()
    ensures Pow2(8) == 256
  {
  }

  lemma Pow2Positive(k: nat)
    ensures Pow2(k) > 0
  {
  }

  /** Counters are those of a 32-bit register. */
  lemma CounterWraps(x: nat)
    ensures x < 0x1_0000_0000 ==> Wrap(x) == x
    ensures Wrap(x + 0x1_0000_0000) == Wrap(x) < 0x1_0000_0000
  {
  }

  /** Every accepted capacity divides 2^32. */
  lemma CapacityDividesU32(cap: nat) returns (m: nat)
    requires AcceptsRingFrames(cap)
    ensures m > 0 && m * cap == U32
  {
    PowerOfTwoTest(cap);
    hide Pow2, BitAnd;
    var k: nat :| cap == Pow2(k);
    Pow2Of32();
    if k > 32 {
      Pow2Grows(32, k);
    }
    Pow2Splits(32 - k, k);
    m := Pow2(32 - k);
  }

  lemma WrapThenReduce(x: int, cap: nat)
    requires AcceptsRingFrames(cap)
    ensures Wrap(x) % cap == x % cap
  {
    var m := CapacityDividesU32(cap);
    var y := Wrap(x);
    var q := x / U32;
    assert x == q * U32 + y;
    assert x == cap * (q * m + y / cap) + y % cap by {
      assert y == cap * (y / cap) + y % cap;
      assert q * U32 == cap * (q * m) by {
        assert q * (m * cap) == cap * (q * m);
      }
    }
    ModuloUnique(x, cap, q * m + y / cap, y % cap);
  }

  lemma WrapSmall(x: nat)
    requires x < U32
    ensures Wrap(x) == x
  {
  }

  lemma WrapAdd(x: nat, y: nat)
    ensures Wrap(Wrap(x) + y) == Wrap(x + y)
  {
    var z := Wrap(x) + y;
    assert x == U32 * (x / U32) + Wrap(x) && z == U32 * (z / U32) + Wrap(z);
    ModuloUnique(x + y, U32, x / U32 + z / U32, Wrap(z));
  }

  lemma MaskReduces(x: nat, cap: nat)
    requires AcceptsRingFrames(cap)
    ensures BitAnd(x, cap - 1) == x % cap
  {
    MaskWorksExactlyForPowersOfTwo(cap);
  }

  /** Wrapping shifts a difference by a whole number of turns. */
  lemma WrappedTurns(r: nat, w: nat) returns (turns: int)
    ensures Wrap(w) - Wrap(r) == (w - r) + turns * U32
  {
    turns := r / U32 - w / U32;
    assert w == U32 * (w / U32) + Wrap(w) && r == U32 * (r / U32) + Wrap(r);
  }

  lemma Regroup(turns: int, m: int, cap: int)
    ensures turns * (m * cap) == cap * (turns * m)
  {
  }

  lemma WrappedDifference(r: nat, w: nat, cap: nat)
    requires AcceptsRingFrames(cap) && r <= w < r + cap
    ensures (Wrap(w) - Wrap(r)) % cap == w - r
  {
    hide *;
    var m := CapacityDividesU32(cap);
    var turns := WrappedTurns(r, w);
    Regroup(turns, m, cap);
    ModuloUnique(Wrap(w) - Wrap(r), cap, turns * m, w - r);
  }

  /** Occupancy read through wrapped counters is the true frame count, as long
      as the true count fits below the capacity. */
  lemma OccupiedIsDifference(r: nat, w: nat, cap: nat)
    requires AcceptsRingFrames(cap) && r <= w < r + cap
    ensures Occupied(Wrap(r), Wrap(w), cap) == w - r
  {
    MaskReduces(Wrap(Wrap(w) - Wrap(r)), cap);
    WrapThenReduce(Wrap(w) - Wrap(r), cap);
    WrappedDifference(r, w, cap);
  }

  /** The two-part copy walks the slots of consecutive counter values. */
  lemma TransferSlotIsModulo(start: nat, count: nat, cap: nat, j: nat)
    requires AcceptsRingFrames(cap) && j < count < cap
    ensures TransferSlot(Wrap(start), count, cap, j) == Slot(start + j, cap) < cap
  {
    AcceptedIsPositive(cap);
    MaskReduces(Wrap(start), cap);
    WrapThenReduce(start, cap);
    SlotAhead(start, j, cap);
    hide Wrap, BitAnd, AcceptsRingFrames;
  }

  lemma AcceptedIsPositive(cap: nat)
    requires AcceptsRingFrames(cap)
    ensures cap > 0
  {
  }

  /** A slot less than one turn ahead. */
  lemma SlotAhead(start: nat, j: nat, cap: nat)
    requires j < cap
    ensures var first := start % cap;
      Slot(start + j, cap) == (if first + j < cap then first + j else first + j - cap) < cap
  {
    var q, first := start / cap, start % cap;
    assert start == cap * q + first;
    if first + j < cap {
      ModuloUnique(start + j, cap, q, first + j);
    } else {
      NextTurn(cap, q);
      ModuloUnique(start + j, cap, q + 1, first + j - cap);
    }
  }

  lemma NextTurn(cap: nat, q: nat)
    ensures cap * (q + 1) == cap * q + cap
  {
  }

  lemma SlotsDistinct(i: nat, j: nat, cap: nat)
    requires i < j < i + cap
    ensures Slot(i, cap) != Slot(j, cap)
  {
    if i % cap == j % cap {
      var a, b := i / cap, j / cap;
      assert i == cap * a + i % cap && j == cap * b + j % cap;
      assert cap * (b - a) == cap * b - cap * a == j - i;
      if b > a {
        ProductBound(cap, b - a);
      } else if b < a {
        ProductBound(cap, a - b);
      }
    }
  }
}
