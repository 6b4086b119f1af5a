/**
 The sliding bitmap that tells new unsequenced packets from duplicates.
 */
module UnsequencedWindows {
  import opened Words

  const WINDOW := 1024
  const WRAP := 0x1_0000

  /** The number that a 16-bit group stands for: of all those that look like it, the nearest to `high`. */
  function Nearest(high: int, group: u16): int {
    var ahead := (group - high) % WRAP;
    if ahead < 0x8000 then high + ahead else high + ahead - WRAP
  }

  lemma NearestWire(high: int, group: u16)
    ensures Nearest(high, group) % WRAP == group && -0x8000 <= Nearest(high, group) - high < 0x8000
  {
    ModDiff(group, high);
    ModMultiple(high + (group - high) % WRAP, -1);
  }

  lemma ModDiff(a: int, b: int)
    ensures (b + (a - b) % WRAP) % WRAP == a % WRAP
  {
    var q := (a - b) / WRAP;
    assert b + (a - b) % WRAP == a - WRAP * q;
    ModMultiple(a, -q);
  }

  lemma ModMultiple(a: int, q: int)
    ensures (a + WRAP * q) % WRAP == a % WRAP
  {
    var d := a / WRAP;
    assert a + WRAP * q == WRAP * (d + q) + a % WRAP;
  }

  /** The bit of a number in the window depends on its 16 bits only. */
  lemma SlotOf(n: int)
    ensures (n % WRAP) % WINDOW == n % WINDOW
  {
    var q, r := n / WRAP, n % WRAP;
    assert n == WINDOW * (64 * q) + r;
    SlotMultiple(r, 64 * q);
  }

  lemma SlotMultiple(a: int, q: int)
    ensures (WINDOW * q + a) % WINDOW == a % WINDOW
  {
    var d := a / WINDOW;
    assert WINDOW * q + a == WINDOW * (d + q) + a % WINDOW;
  }

  lemma SlotsDiffer(m: int, n: int)
    requires m != n && -WINDOW < m - n < WINDOW
    ensures m % WINDOW != n % WINDOW
  {
  }

  /** The bits stand for the accepted numbers among the last 1024 up to `high`. */
  ghost predicate Stands(bits: seq<bool>, high: int, accepted: iset<int>) {
    && |bits| == WINDOW
    && (forall n :: n in accepted ==> n <= high)
    && (forall n :: high - WINDOW < n <= high ==> (bits[n % WINDOW] <==> n in accepted))
  }

  lemma ClearAll(bits: seq<bool>, bits': seq<bool>, high: int, accepted: iset<int>, n: int)
    requires Stands(bits, high, accepted) && n >= high + WINDOW
    requires |bits'| == WINDOW && forall i :: 0 <= i < WINDOW ==> !bits'[i]
    ensures Stands(bits', n, accepted)
  {
  }

  /** Moving the window on by one: the bit of the new number is cleared. */
  lemma SlideOne(bits: seq<bool>, high: int, accepted: iset<int>)
    requires Stands(bits, high, accepted)
    ensures Stands(bits[(high + 1) % WINDOW := false], high + 1, accepted)
  {
    var bits' := bits[(high + 1) % WINDOW := false];
    forall n | high + 1 - WINDOW < n <= high + 1 ensures bits'[n % WINDOW] <==> n in accepted {
      if n <= high { SlotsDiffer(n, high + 1); }
    }
  }

  lemma AcceptOne(bits: seq<bool>, high: int, accepted: iset<int>, n: int)
    requires Stands(bits, high, accepted) && high - WINDOW < n <= high
    ensures Stands(bits[n % WINDOW := true], high, accepted + iset{n})
  {
    var bits' := bits[n % WINDOW := true];
    forall m | high - WINDOW < m <= high ensures bits'[m % WINDOW] <==> m in accepted + iset{n} {
      if m != n { SlotsDiffer(m, n); }
    }
  }

  class UnsequencedWindow {
    /** Bit `i % 32` of word `i / 32` is element `i`. */
    const window: array<bool>
    var group: u16
    ghost var high: int
    ghost var accepted: iset<int>

    ghost predicate Valid()
      reads this, window
    {
      group == high % WRAP && Stands(window[..], high, accepted)
    }

    constructor ()
      ensures Valid() && fresh(window) && high == 0 && accepted == iset{}
    {
      window := new bool[WINDOW](_ => false);
      group, high, accepted := 0, 0, iset{};
    }

    /** Clears the bits for the positions that the window moves on to. */
    method Advance(g: u16, advance: nat)
      requires Valid() && advance > 0 && g == (high + advance) % WRAP
      modifies this, window
      ensures Valid() && high == old(high) + advance && accepted == old(accepted)
    {
      hide Stands;
      StandsSize(window[..], high, accepted);
      if advance >= WINDOW {
        ghost var bits := window[..];
        for i := 0 to window.Length
          invariant high == old(high) && accepted == old(accepted)
          invariant forall j :: 0 <= j < i ==> !window[j]
        {
          window[i] := false;
        }
        ClearAll(bits, window[..], high, accepted, high + advance);
      } else {
        for i := 0 to advance
          invariant high == old(high) && accepted == old(accepted) && group == old(group)
          invariant Stands(window[..], high + i, accepted)
        {
          ghost var bits := window[..];
          SlideOne(bits, high + i, accepted);
          NextSlot(high, group, i + 1);
          var pos := (group + (i + 1)) % WRAP;
          window[pos % WINDOW] := false;
          assert window[..] == bits[(high + i + 1) % WINDOW := false];
        }
      }
      group, high := g, high + advance;
    }

    /** A group is accepted if and only if it lies less than 1024 behind the highest one seen and has never
        been accepted before. */
    method CheckAndSet(g: u16) returns (isNew: bool)
      requires Valid()
      modifies this, window
      ensures Valid()
      ensures var n := Nearest(old(high), g);
        && (isNew <==> n > old(high) - 1024 && n !in old(accepted))
        && high == (if n > old(high) then n else old(high))
        && accepted == (if isNew then old(accepted) + iset{n} else old(accepted))
    {
      hide Stands, Nearest;
      ghost var n := Nearest(high, g);
      NearestWire(high, g);
      NearestDiff(high, group, g);
      StandsUse(window[..], high, accepted, n);
      var diff := (g - group) % WRAP;
      if diff >= 0x8000 {
        diff := diff - WRAP;
      }
      if diff > 0 {
        Advance(g, diff);
      } else if diff < 0 {
        if -diff >= WINDOW {
          return false;
        }
      }
      SlotOf(n);
      StandsSize(window[..], high, accepted);
      StandsUse(window[..], high, accepted, n);
      var i := g % WINDOW;
      if window[i] {
        return false;
      }
      ghost var bits := window[..];
      AcceptOne(bits, high, accepted, n);
      window[i] := true;
      accepted := accepted + iset{n};
      assert window[..] == bits[n % WINDOW := true];
      isNew := true;
    }
  }

  lemma StandsSize(bits: seq<bool>, high: int, accepted: iset<int>)
    requires Stands(bits, high, accepted)
    ensures |bits| == WINDOW
  {
  }

  lemma StandsUse(bits: seq<bool>, high: int, accepted: iset<int>, n: int)
    requires Stands(bits, high, accepted)
    ensures |bits| == WINDOW && (n in accepted ==> n <= high)
    ensures high - WINDOW < n <= high ==> (bits[n % WINDOW] <==> n in accepted)
  {
  }

  lemma NextSlot(high: int, group: u16, i: nat)
    requires group == high % WRAP
    ensures ((group + i) % WRAP) % WINDOW == (high + i) % WINDOW
  {
    SlotOf(group + i);
    var q := high / WRAP;
    assert high + i == WINDOW * (64 * q) + (group + i);
    SlotMultiple(group + i, 64 * q);
  }

  lemma NearestDiff(high: int, group: u16, g: u16)
    requires group == high % WRAP
    ensures var d := (g - group) % WRAP; Nearest(high, g) - high == if d >= 0x8000 then d - WRAP else d
  {
    var q := high / WRAP;
    assert g - high == (g - group) + WRAP * (-q);
    ModMultiple(g - group, -q);
  }
}
