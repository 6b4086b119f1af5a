/**
 The mask that the sender tests `usedReliableWindows` with when it enters a window.
 */
module WindowBits {
  predicate Marked(bits: bv32, w: nat)
    requires w < 16
  {
    bits & ((1 as bv32) << w) != 0
  }

  function Mask(w: nat): bv32
    requires w < 16
  {
    ((((1 as bv32) << 10) - 1) << w) | ((((1 as bv32) << 10) - 1) >> (16 - w))
  }

  /** The mask has the bits of the ten windows from `w` on, counted modulo sixteen. */
  lemma MaskBits(w: nat, r: nat)
    requires w < 16 && r < 16
    ensures Marked(Mask(w), r) <==> (r - w) % 16 < 10
  {
    if w < 8 { LowMask(w, r); } else { HighMask(w, r); }
  }

  lemma LowMask(w: nat, r: nat)
    requires w < 8 && r < 16
    ensures Marked(Mask(w), r) <==> (r - w) % 16 < 10
  {
    if w < 2 {
    } else if w < 4 {
    } else if w < 6 {
    } else {
    }
  }

  lemma HighMask(w: nat, r: nat)
    requires 8 <= w < 16 && r < 16
    ensures Marked(Mask(w), r) <==> (r - w) % 16 < 10
  {
    if w < 10 {
    } else if w < 12 {
    } else if w < 14 {
    } else {
    }
  }
}
