/**
 The arithmetic of the carryless 32-bit range coder.

 The encoder's `encodeLow`/`encodeRange` and the decoder's `decodeLow`/`decodeRange` are an
 `Interval`; `decodeCode` is the `Window` (first four bytes, zero padded) of the input not yet
 shifted out.  Everything is stated on unbounded integers, so the absence of wrap-around is proved.
 */
module RangeArithmetic {
  import opened Words

  const TOP := 0x100_0000
  const BOTTOM := 0x1_0000
  const WORD := 0x1_0000_0000

  datatype Interval = Interval(low: int, range: int) {
    /** What every point of the coder keeps.  When `low + range` wraps to 0, `low` is not small,
        so the wrapped sum can not be mistaken for one with the same leading byte. */
    predicate Valid() {
      0 <= low && 1 <= range && low + range <= WORD && (low + range == WORD ==> TOP <= low)
    }

    /** What holds between two coding steps. */
    ghost predicate Settled() {
      Valid() && BOTTOM <= range
    }

    ghost predicate Contains(code: int) {
      low <= code < low + range
    }

    /** `(low ^ (low + range)) >= TOP`, on 32-bit words: the leading bytes differ. */
    predicate TopDiffers() {
      low / TOP != ((low + range) % WORD) / TOP
    }

    /** `range = -low & (BOTTOM - 1)` when the interval straddles a leading byte. */
    function Trimmed(): Interval {
      if TopDiffers() then Interval(low, (WORD - low) % BOTTOM) else this
    }

    function Shifted(): Interval {
      Interval((low * 256) % WORD, (range * 256) % WORD)
    }
  }

  const Whole := Interval(0, WORD - 1)

  /** One coding step: the slice `[under, under + count)` of `total`. */
  datatype Step = Step(under: int, count: int, total: int) {
    ghost predicate Valid() {
      0 <= under && 1 <= count && under + count <= total <= 0xFFFF
    }
  }

  /** Division of the coder: it never meets a zero divisor, see `NarrowValid`. */
  function Quotient(a: int, b: int): int {
    if b == 0 then 0 else a / b
  }

  function Narrow(i: Interval, s: Step): Interval {
    var r := Quotient(i.range, s.total);
    Interval(i.low + s.under * r, r * s.count)
  }

  lemma NarrowValid(i: Interval, s: Step)
    requires i.Settled() && s.Valid()
    ensures Narrow(i, s).Valid()
    ensures i.low <= Narrow(i, s).low
    ensures Narrow(i, s).low + Narrow(i, s).range <= i.low + i.range
    ensures i.range / s.total >= 1
  {
    var r := i.range / s.total;
    assert r >= 1;
    assert r * s.total <= i.range;
    assert s.under * r + r * s.count == r * (s.under + s.count);
    assert r * (s.under + s.count) <= r * s.total;
    assert s.under * r >= 0 && r * s.count >= 1;
  }

  /** One turn of the normalisation loop keeps the interval valid, drops exactly the leading byte of
      `low`, and makes progress: either the upper end gets aligned, or the range grows. */
  lemma ShiftValid(i: Interval)
    requires i.Valid()
    requires !(i.TopDiffers() && i.range >= BOTTOM)
    ensures i.Trimmed().Valid() && i.Trimmed().range <= i.range
    ensures i.Trimmed().Shifted().Valid()
    ensures i.low == (i.low / TOP) * TOP + i.Trimmed().Shifted().low / 256
    ensures i.Trimmed().Shifted().low % 256 == 0
    ensures i.Trimmed().Shifted().range == 256 * i.Trimmed().range
    ensures Misaligned(i.Trimmed().Shifted()) <= Misaligned(i)
    ensures Misaligned(i.Trimmed().Shifted()) == Misaligned(i) ==> i.Trimmed().range == i.range
  {
    var j := i.Trimmed();
    if i.TopDiffers() {
      TrimValid(i);
      ShiftWords(i.low, j.range);
      ShiftAlignment(i.low, j.range);
    } else {
      assert i.low + i.range != WORD;
      assert i.low + i.range < (i.low / TOP + 1) * TOP;
      ShiftWords(i.low, i.range);
      ShiftAlignment(i.low, i.range);
    }
  }

  /** Shifting a word left by a byte, when nothing but the leading byte is lost. */
  lemma ShiftWords(low: int, range: int)
    requires 0 <= low < WORD && 1 <= range < TOP && low + range <= (low / TOP + 1) * TOP
    ensures (low * 256) % WORD == (low - low / TOP * TOP) * 256
    ensures (range * 256) % WORD == range * 256
    ensures (low * 256) % WORD + range * 256 <= WORD
    ensures (low * 256) % WORD + range * 256 == WORD && range < BOTTOM ==> (low * 256) % WORD >= TOP
  {
    var l := low - low / TOP * TOP;
    assert 0 <= l < TOP && l + range <= TOP;
    assert low * 256 == (low / TOP) * WORD + l * 256;
    assert 0 <= l * 256 < WORD;
  }

  lemma ShiftAlignment(low: int, range: int)
    requires 0 <= low < WORD && 1 <= range < TOP && low + range <= (low / TOP + 1) * TOP
    ensures (low + range) % BOTTOM == 0 ==> ((low * 256) % WORD + (range * 256) % WORD) % BOTTOM == 0
  {
    if (low + range) % BOTTOM == 0 {
      ShiftWords(low, range);
      var q, b := (low + range) / BOTTOM, low / TOP;
      assert low + range == q * BOTTOM;
      assert (low * 256) % WORD + (range * 256) % WORD == (q * 256 - b * BOTTOM) * BOTTOM;
    }
  }

  /** 0 when the upper end is a multiple of 2^16, else 1: the first component of the loop's variant. */
  function Misaligned(i: Interval): nat {
    if (i.low + i.range) % BOTTOM == 0 then 0 else 1
  }

  lemma TrimValid(i: Interval)
    requires i.Valid() && i.TopDiffers() && i.range < BOTTOM
    ensures i.Trimmed().Valid() && i.Trimmed().range <= i.range
    ensures (i.Trimmed().low + i.Trimmed().range) % BOTTOM == 0
    ensures i.Trimmed().low + i.Trimmed().range <= (i.low / TOP + 1) * TOP
    ensures (i.low + i.range) % BOTTOM == 0 ==> i.Trimmed().range == i.range
  {
    var b := i.low / TOP + 1;
    var d := b * TOP - i.low;
    assert 1 <= d <= i.range;
    ModUnique(WORD - i.low, BOTTOM, (0x100 - b) * 0x100, d);
    ModUnique(b * TOP, BOTTOM, b * 0x100, 0);
    var q := (i.low + i.range) / BOTTOM;
    if i.low + i.range == q * BOTTOM {
      SmallMultiple(q - b * 0x100, BOTTOM);
    }
  }

  /** The normalisation loop: the bytes put out, and the interval left. */
  function Normalise(i: Interval): (seq<byte>, Interval)
    decreases Misaligned(i), WORD - i.range
  {
    if !i.Valid() || (i.TopDiffers() && i.range >= BOTTOM) then ([], i)
    else
      ShiftValid(i);
      var (out, j) := Normalise(i.Trimmed().Shifted());
      ([i.low / TOP] + out, j)
  }

  lemma {:induction false} NormaliseSettled(i: Interval)
    requires i.Valid()
    ensures Normalise(i).1.Settled() && Normalise(i).1.TopDiffers()
    decreases Misaligned(i), WORD - i.range
  {
    if !(i.TopDiffers() && i.range >= BOTTOM) {
      ShiftValid(i);
      NormaliseSettled(i.Trimmed().Shifted());
    }
  }

  /** When a byte is put out, and what is left then: a byte as long as both ends of the interval begin with it, or the
      range is below 65536; in that case the interval is cut at the next multiple of 65536. */
  lemma NormaliseTurns(i: Interval)
    requires i.Valid()
    ensures var same := i.low / 0x100_0000 == (i.low + i.range) % 0x1_0000_0000 / 0x100_0000;
      if !same && i.range >= 65536 then Normalise(i) == ([], i)
      else
        var j := Interval(i.low * 256 % 0x1_0000_0000, 256 * if same then i.range else 65536 - i.low % 65536);
        Normalise(i) == ([i.low / 0x100_0000] + Normalise(j).0, Normalise(j).1)
  {
    if !(i.TopDiffers() && i.range >= BOTTOM) {
      ShiftValid(i);
      if i.TopDiffers() { CutAt(i); }
    }
  }

  lemma CutAt(i: Interval)
    requires i.Valid() && i.TopDiffers() && i.Trimmed().Valid()
    ensures i.Trimmed().range == 65536 - i.low % 65536
  {
    var q, r := i.low / 65536, i.low % 65536;
    assert WORD - i.low == 65536 * (65535 - q) + (65536 - r);
  }

  /** One coding step: the bytes put out, and the interval left. */
  function Code(i: Interval, s: Step): (seq<byte>, Interval) {
    Normalise(Narrow(i, s))
  }

  lemma CodeSettled(i: Interval, s: Step)
    requires i.Settled() && s.Valid()
    ensures Code(i, s).1.Settled()
  {
    NarrowValid(i, s);
    NormaliseSettled(Narrow(i, s));
  }

  // ---- The byte stream ----

  /** Byte `i` of a stream that continues with zeros for ever. */
  function At(s: seq<byte>, i: nat): byte {
    if i < |s| then s[i] else 0
  }

  /** The decoder's 32-bit look-ahead. */
  function Window(s: seq<byte>): int {
    At(s, 0) * TOP + At(s, 1) * BOTTOM + At(s, 2) * 0x100 + At(s, 3)
  }

  function Skip(s: seq<byte>, k: nat): seq<byte> {
    if k <= |s| then s[k..] else []
  }

  /** `decodeCode <<= 8; if (inData < inEnd) decodeCode |= *inData++` moves the window by one byte. */
  lemma WindowSkip(s: seq<byte>)
    ensures 0 <= Window(s) < WORD
    ensures Window(Skip(s, 1)) == (Window(s) * 256) % WORD + At(s, 4)
    ensures Window(s) == At(s, 0) * TOP + Window(Skip(s, 1)) / 256
  {
    var t := Skip(s, 1);
    assert forall i: nat :: At(t, i) == At(s, i + 1);
    var low := At(s, 1) * TOP + At(s, 2) * BOTTOM + At(s, 3) * 0x100;
    assert Window(s) * 256 == At(s, 0) * WORD + low;
    assert Window(t) == low + At(t, 3);
    assert low == 256 * (At(s, 1) * BOTTOM + At(s, 2) * 0x100 + At(s, 3));
  }

  /** The arithmetic of undoing one shift: `lead` is the byte put out, `low`/`range` what was left. */
  lemma ShiftContains(lead: int, low: int, range: int, code: int)
    requires low % 256 == 0 && low <= code < low + 256 * range
    ensures lead * TOP + low / 256 <= lead * TOP + code / 256 < lead * TOP + low / 256 + range
  {
  }

  /** A look-ahead inside the interval after normalisation was inside it before: nothing the encoder
      puts out later can leave the interval it has now. */
  lemma {:induction false} NormaliseContains(i: Interval, tail: seq<byte>)
    requires i.Valid()
    requires Normalise(i).1.Contains(Window(tail))
    ensures i.Contains(Window(Normalise(i).0 + tail))
    decreases Misaligned(i), WORD - i.range
  {
    if i.TopDiffers() && i.range >= BOTTOM {
      assert Normalise(i).0 + tail == tail;
    } else {
      ShiftValid(i);
      var j := i.Trimmed().Shifted();
      NormaliseContains(j, tail);
      var rest := Normalise(j).0 + tail;
      var all := [i.low / TOP] + rest;
      assert Normalise(i).0 + tail == all;
      assert Skip(all, 1) == rest;
      WindowSkip(all);
      ShiftContains(i.low / TOP, j.low, i.Trimmed().range, Window(rest));
    }
  }

  ghost predicate AllValid(steps: seq<Step>) {
    forall k :: 0 <= k < |steps| ==> steps[k].Valid()
  }

  /** The bytes put out by a run of coding steps, and the interval left. */
  function Emit(i: Interval, steps: seq<Step>): (seq<byte>, Interval)
    decreases |steps|
  {
    if steps == [] then ([], i)
    else
      var (out, j) := Code(i, steps[0]);
      var (more, k) := Emit(j, steps[1..]);
      (out + more, k)
  }

  lemma {:induction false} EmitContains(i: Interval, steps: seq<Step>, tail: seq<byte>)
    requires i.Settled() && AllValid(steps)
    ensures Emit(i, steps).1.Settled()
    ensures Emit(i, steps).1.Contains(Window(tail)) ==>
      i.Contains(Window(Emit(i, steps).0 + tail)) &&
      (steps != [] ==> Narrow(i, steps[0]).Contains(Window(Emit(i, steps).0 + tail)))
    decreases |steps|
  {
    if steps == [] {
      assert Emit(i, steps).0 + tail == tail;
    } else {
      NarrowValid(i, steps[0]);
      CodeSettled(i, steps[0]);
      var (out, j) := Code(i, steps[0]);
      var more := Emit(j, steps[1..]).0;
      EmitContains(j, steps[1..], tail);
      assert Emit(i, steps).0 + tail == out + (more + tail);
      if j.Contains(Window(more + tail)) {
        NormaliseContains(Narrow(i, steps[0]), more + tail);
      }
    }
  }

  // ---- The end of the stream ----

  /** How many bytes of a word are left to flush. */
  function Significant(low: int): nat {
    if low == 0 then 0
    else if low % TOP == 0 then 1
    else if low % BOTTOM == 0 then 2
    else if low % 0x100 == 0 then 3
    else 4
  }

  lemma ScaledMod(x: int, m: int)
    requires 0 <= x && 0 < m
    ensures (x * 256) % (m * 256) == (x % m) * 256
  {
    var q, r := x / m, x % m;
    assert x * 256 == q * (m * 256) + r * 256;
    assert 0 <= r * 256 < m * 256;
    ModUnique(x * 256, m * 256, q, r * 256);
  }

  lemma ModUnique(x: int, m: int, q: int, r: int)
    requires 0 < m && x == q * m + r && 0 <= r < m
    ensures x % m == r && x / m == q
  {
    assert (x / m - q) * m == r - x % m;
    SmallMultiple(x / m - q, m);
  }

  lemma SmallMultiple(d: int, m: int)
    requires 0 < m && -m < d * m < m
    ensures d == 0
  {
    assert d >= 1 ==> d * m >= m;
    assert d <= -1 ==> d * m <= -m;
  }

  lemma ModOfMod(x: int, m: int, k: int)
    requires 0 <= x && 0 < m && 0 < k
    ensures (x % (m * k)) % m == x % m
  {
    var q, r := x / (m * k), x % (m * k);
    assert x == q * (m * k) + r;
    assert q * (m * k) == (q * k) * m;
    ModUnique(x, m, q * k + r / m, r % m) by {
      assert (q * k + r / m) * m == (q * k) * m + (r / m) * m;
    }
  }

  /** `low << 8` on a 32-bit word. */
  lemma ShiftLow(low: int)
    requires 0 <= low < WORD
    ensures (low * 256) % WORD == (low % TOP) * 256
    ensures low == low / TOP * TOP + (low * 256) % WORD / 256
  {
    ScaledMod(low, TOP);
  }

  lemma SignificantShift(low: int)
    requires 0 < low < WORD
    ensures Significant((low * 256) % WORD) == Significant(low) - 1
  {
    ShiftLow(low);
    var x := low % TOP;
    ScaledMod(x, BOTTOM);
    ScaledMod(x, 0x100);
    ModOfMod(low, BOTTOM, 0x100);
    ModOfMod(low, 0x100, 0x1_0000);
  }

  /** The flush loop: `low` without its trailing zero bytes. */
  function Flush(low: int): seq<byte>
    decreases Significant(low)
  {
    if !(0 < low < WORD) then []
    else
      SignificantShift(low);
      [low / TOP] + Flush((low * 256) % WORD)
  }

  lemma FlushSkip(low: int)
    requires 0 <= low < WORD
    ensures Skip(Flush(low), 1) == Flush((low * 256) % WORD)
  {
    if low != 0 {
      SignificantShift(low);
    }
  }

  lemma SkipSkip(s: seq<byte>, a: nat, b: nat)
    ensures Skip(Skip(s, a), b) == Skip(s, a + b)
  {
  }

  lemma {:induction false} FlushWindow(low: int)
    requires 0 <= low < WORD
    ensures Window(Flush(low)) == low
    decreases Significant(low)
  {
    if low != 0 {
      SignificantShift(low);
      var next := (low * 256) % WORD;
      FlushWindow(next);
      assert Skip(Flush(low), 1) == Flush(next);
      WindowSkip(Flush(low));
      ShiftLow(low);
    }
  }

  /** Once only the flushed bytes are left, every further shift keeps the look-ahead equal to `low`. */
  lemma {:induction false} FlushNormalise(i: Interval)
    requires i.Valid()
    ensures Skip(Flush(i.low), |Normalise(i).0|) == Flush(Normalise(i).1.low)
    decreases Misaligned(i), WORD - i.range
  {
    if !(i.TopDiffers() && i.range >= BOTTOM) {
      ShiftValid(i);
      var j := i.Trimmed().Shifted();
      FlushNormalise(j);
      FlushSkip(i.low);
      SkipSkip(Flush(i.low), 1, |Normalise(j).0|);
    }
  }
}
