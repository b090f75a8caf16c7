/** Eight-slot modifier masks (QMK's `MOD_BIT`): slot `m` is bit `1 << m`. */
module Masks {

  const NUM_SLOTS := 8

  /** The bit of slot `m`. */
  function Bit(m: nat): (b: bv8)
    requires m < NUM_SLOTS
    ensures b != 0
  {
    match m
    case 0 => 0x01
    case 1 => 0x02
    case 2 => 0x04
    case 3 => 0x08
    case 4 => 0x10
    case 5 => 0x20
    case 6 => 0x40
    case 7 => 0x80
  }

  /** The table is QMK's `1 << m`. */
  lemma BitIsShift(m: nat)
    requires m < NUM_SLOTS
    ensures Bit(m) == (1 as bv8) << m
  {
  }

  predicate HasBit(mask: bv8, m: nat)
    requires m < NUM_SLOTS
  {
    mask & Bit(m) != 0
  }

  lemma SetBitAt(mask: bv8, m: nat, k: nat)
    requires m < NUM_SLOTS && k < NUM_SLOTS
    ensures HasBit(mask | Bit(m), k) <==> HasBit(mask, k) || k == m
  {
  }

  /** Setting slot `m` or not, as `add` says. */
  lemma OrMaybeBit(mask: bv8, e: bv8, m: nat, k: nat, add: bool)
    requires m < NUM_SLOTS && k < NUM_SLOTS && e == mask | (if add then Bit(m) else 0)
    ensures HasBit(e, k) <==> HasBit(mask, k) || (add && k == m)
  {
    if add {
      SetBitAt(mask, m, k);
    }
  }

  lemma ClearBitAt(mask: bv8, m: nat, k: nat)
    requires m < NUM_SLOTS && k < NUM_SLOTS
    ensures HasBit(mask & !Bit(m), k) <==> HasBit(mask, k) && k != m
  {
  }

  /** Two masks that agree on every slot are equal. */
  lemma {:induction false} MaskExt(a: bv8, b: bv8)
    requires forall k :: 0 <= k < NUM_SLOTS ==> (HasBit(a, k) <==> HasBit(b, k))
    ensures a == b
  {
    assert HasBit(a, 0) == HasBit(b, 0);
    assert HasBit(a, 1) == HasBit(b, 1);
    assert HasBit(a, 2) == HasBit(b, 2);
    assert HasBit(a, 3) == HasBit(b, 3);
    assert HasBit(a, 4) == HasBit(b, 4);
    assert HasBit(a, 5) == HasBit(b, 5);
    assert HasBit(a, 6) == HasBit(b, 6);
    assert HasBit(a, 7) == HasBit(b, 7);
  }

  /** Slot-wise reading of `a & ~b`. */
  lemma AndNotAt(a: bv8, b: bv8, k: nat)
    requires k < NUM_SLOTS
    ensures HasBit(a & !b, k) <==> HasBit(a, k) && !HasBit(b, k)
  {
  }

  /** The slots below `n`. */
  function LowBits(n: nat): bv8
    requires n <= NUM_SLOTS
  {
    match n
    case 0 => 0x00
    case 1 => 0x01
    case 2 => 0x03
    case 3 => 0x07
    case 4 => 0x0F
    case 5 => 0x1F
    case 6 => 0x3F
    case 7 => 0x7F
    case 8 => 0xFF
  }

  /** Taking one more set slot out of `d`. */
  lemma LowBitsSet(d: bv8, mask: bv8, n: nat)
    requires 0 < n <= NUM_SLOTS && HasBit(mask, n - 1)
    ensures (d & !(mask & LowBits(n - 1))) & !Bit(n - 1) == d & !(mask & LowBits(n))
  {
  }

  /** A slot not in the mask takes nothing out. */
  lemma LowBitsSkip(d: bv8, mask: bv8, n: nat)
    requires 0 < n <= NUM_SLOTS && !HasBit(mask, n - 1)
    ensures d & !(mask & LowBits(n - 1)) == d & !(mask & LowBits(n))
  {
  }

  /** `d` with the slots of `mask` below `n` cleared, one slot at a time. */
  function ClearSlots(d: bv8, mask: bv8, n: nat): bv8
    requires n <= NUM_SLOTS
  {
    if n == 0 then d
    else if HasBit(mask, n - 1) then ClearSlots(d, mask, n - 1) & !Bit(n - 1)
    else ClearSlots(d, mask, n - 1)
  }

  /** One slot more. */
  lemma ClearSlotsStep(d: bv8, mask: bv8, n: nat)
    requires n < NUM_SLOTS
    ensures ClearSlots(d, mask, n + 1)
      == if HasBit(mask, n) then ClearSlots(d, mask, n) & !Bit(n) else ClearSlots(d, mask, n)
  {
  }

  lemma {:induction false} ClearSlotsAt(d: bv8, mask: bv8, n: nat, k: nat)
    requires n <= NUM_SLOTS && k < NUM_SLOTS
    ensures HasBit(ClearSlots(d, mask, n), k) <==> HasBit(d, k) && !(k < n && HasBit(mask, k))
  {
    if n > 0 {
      ClearSlotsAt(d, mask, n - 1, k);
      if HasBit(mask, n - 1) {
        ClearBitAt(ClearSlots(d, mask, n - 1), n - 1, k);
      }
    }
  }

  /** Clearing every slot of `mask` is `d & ~mask`. */
  lemma ClearSlotsAll(d: bv8, mask: bv8)
    ensures ClearSlots(d, mask, NUM_SLOTS) == d & !mask
  {
    forall k | 0 <= k < NUM_SLOTS
      ensures HasBit(ClearSlots(d, mask, NUM_SLOTS), k) <==> HasBit(d & !mask, k)
    {
      ClearSlotsAt(d, mask, NUM_SLOTS, k);
      AndNotAt(d, mask, k);
    }
    MaskExt(ClearSlots(d, mask, NUM_SLOTS), d & !mask);
  }
}
