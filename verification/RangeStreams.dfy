/**
 The loops that put a range coder's bytes out and take them in.
 */
module RangeStreams {
  import opened Words
  import opened RangeArithmetic

  /** `ENET_RANGE_CODER_OUTPUT`. */
  method PutByte(out: array<byte>, pos: nat, b: byte) returns (ok: bool)
    requires pos <= out.Length
    modifies out
    ensures ok <==> pos < out.Length
    ensures ok ==> out[..pos + 1] == old(out[..pos]) + [b]
  {
    ok := pos < out.Length;
    if ok {
      out[pos] := b;
    }
  }

  /** `ENET_RANGE_CODER_ENCODE`.  Fails exactly when the bytes do not fit. */
  method PutStep(out: array<byte>, pos: nat, i: Interval, s: Step) returns (ok: bool, end: nat, j: Interval)
    requires pos <= out.Length && i.Settled() && s.Valid()
    modifies out
    ensures ok <==> pos + |Code(i, s).0| <= out.Length
    ensures ok ==> end <= out.Length && out[..end] == old(out[..pos]) + Code(i, s).0 && j == Code(i, s).1
  {
    var low, range := i.low, i.range;
    range := range / s.total;
    low := low + s.under * range;
    range := range * s.count;
    end, j := pos, Interval(low, range);
    NarrowValid(i, s);
    ghost var all := old(out[..pos]) + Code(i, s).0;
    while !(j.TopDiffers() && j.range >= BOTTOM)
      invariant j.Valid() && pos <= end <= out.Length
      invariant all == out[..end] + Normalise(j).0 && Code(i, s).1 == Normalise(j).1
      decreases Misaligned(j), WORD - j.range
    {
      ShiftValid(j);
      ghost var before, next := out[..end], j.Trimmed().Shifted();
      assert before + Normalise(j).0 == before + [j.low / TOP] + Normalise(next).0;
      ok := PutByte(out, end, j.low / TOP);
      if !ok {
        return;
      }
      end, j := end + 1, j.Trimmed().Shifted();
    }
    ok := true;
  }

  /** `ENET_RANGE_CODER_FLUSH`. */
  method PutFlush(out: array<byte>, pos: nat, i: Interval) returns (ok: bool, end: nat)
    requires pos <= out.Length && i.Settled()
    modifies out
    ensures ok <==> pos + |Flush(i.low)| <= out.Length
    ensures ok ==> end <= out.Length && out[..end] == old(out[..pos]) + Flush(i.low)
  {
    var low := i.low;
    end := pos;
    ghost var all := old(out[..pos]) + Flush(i.low);
    while low != 0
      invariant 0 <= low < WORD && pos <= end <= out.Length
      invariant all == out[..end] + Flush(low)
      decreases Significant(low)
    {
      SignificantShift(low);
      ghost var before, next := out[..end], (low * 256) % WORD;
      assert before + Flush(low) == before + [low / TOP] + Flush(next);
      ok := PutByte(out, end, low / TOP);
      if !ok {
        return;
      }
      end, low := end + 1, (low * 256) % WORD;
    }
    ok := true;
  }

  /** `decodeCode` and the read position, once `shifted` bytes of the input have been shifted out. */
  ghost predicate Looking(input: seq<byte>, shifted: nat, code: int, at: nat) {
    code == Window(Skip(input, shifted)) && at == if shifted + 4 <= |input| then shifted + 4 else |input|
  }

  /** `ENET_RANGE_CODER_SEED`. */
  method Seed(input: seq<byte>) returns (code: int, at: nat)
    ensures Looking(input, 0, code, at)
  {
    code, at := 0, 0;
    if at < |input| { code, at := code + input[at] * TOP, at + 1; }
    if at < |input| { code, at := code + input[at] * BOTTOM, at + 1; }
    if at < |input| { code, at := code + (input[at] as int) * 0x100, at + 1; }
    if at < |input| { code, at := code + input[at], at + 1; }
    assert Skip(input, 0) == input;
  }

  /** `decodeCode <<= 8`, taking in the next byte if there is one. */
  method Shift(input: seq<byte>, ghost shifted: nat, code: int, at: nat) returns (code': int, at': nat)
    requires Looking(input, shifted, code, at)
    ensures Looking(input, shifted + 1, code', at')
  {
    WindowSkip(Skip(input, shifted));
    SkipSkip(input, shifted, 1);
    code', at' := (code * 256) % WORD, at;
    if at < |input| {
      code', at' := code' + input[at], at + 1;
    }
  }

  /** `ENET_RANGE_CODER_DECODE`, after the range has been divided by the total. */
  method TakeStep(input: seq<byte>, ghost shifted: nat, code: int, at: nat, i: Interval, s: Step)
    returns (ghost shifted': nat, code': int, at': nat, j: Interval)
    requires Looking(input, shifted, code, at) && i.Settled() && s.Valid()
    ensures j == Code(i, s).1 && shifted' == shifted + |Code(i, s).0|
    ensures Looking(input, shifted', code', at')
  {
    var low, range := i.low, i.range / s.total;
    low := low + s.under * range;
    range := range * s.count;
    shifted', code', at', j := shifted, code, at, Interval(low, range);
    NarrowValid(i, s);
    while !(j.TopDiffers() && j.range >= BOTTOM)
      invariant j.Valid() && Looking(input, shifted', code', at')
      invariant shifted' + |Normalise(j).0| == shifted + |Code(i, s).0| && Code(i, s).1 == Normalise(j).1
      decreases Misaligned(j), WORD - j.range
    {
      ShiftValid(j);
      code', at' := Shift(input, shifted', code', at');
      shifted', j := shifted' + 1, j.Trimmed().Shifted();
    }
  }

  // ---- A step that no encoder made ----

  /** An interval may go around the end of the 32-bit numbers, but has not lost the room for one leading byte. */
  predicate Loose(low: int, range: int) {
    0 <= low < WORD && 1 <= range && (Interval(low, range).Valid() || range <= WORD - TOP)
  }

  /** Once around the end, the loop stops, or trims the interval to the end. */
  lemma LooseTrims(low: int, range: int)
    requires Loose(low, range) && !Interval(low, range).Valid()
    ensures Interval(low, range).TopDiffers()
    ensures range < BOTTOM ==> Interval(low, (WORD - low) % BOTTOM) == Interval(low, WORD - low)
    ensures range < BOTTOM ==> Interval(low, WORD - low).Valid() && Interval(low, WORD - low).TopDiffers() && WORD - low < BOTTOM
  {
    assert low + range > WORD;
    assert (low + range) % WORD == low + range - WORD;
  }

  /** A slice that keeps that room: of at most 254 parts, or of at most five sixths. */
  predicate Slim(count: nat, total: nat) {
    1 <= count < total <= 0xFFFF && (count <= 254 || 6 * count <= 5 * total)
  }

  lemma SliceLoose(range: int, count: nat, total: nat)
    requires BOTTOM <= range < WORD && Slim(count, total)
    ensures 1 <= range / total * count <= WORD - TOP
  {
    var r := range / total;
    Divides(range, total);
    Products(count, 1, r);
    if 6 * count <= 5 * total {
      Products(r, 6 * count, 5 * total);
      Sixths(r, count, total);
    } else if r >= TOP {
      Products(r, count, total - 1);
    } else {
      Products(count, r, TOP);
    }
  }

  lemma Sixths(r: int, count: int, total: int)
    ensures r * (6 * count) == 6 * (r * count) && r * (5 * total) == 5 * (r * (total - 1) + r)
  {
    assert r * (total - 1) == r * total - r;
  }

  lemma Divides(range: int, total: int)
    requires 0 < total <= range
    ensures var r := range / total; 1 <= r && r * (total - 1) <= range - r
  {
    var r := range / total;
    assert r * total <= range;
    assert r * (total - 1) == r * total - r;
  }

  lemma Products(a: int, b: int, c: int)
    requires 0 <= a && b <= c
    ensures a * b <= a * c && a * b == b * a && a * c == c * a
  {
  }

  lemma RoomForByte(code: int)
    requires 0 <= code < WORD
    ensures 0 <= code * 256 % WORD <= WORD - 256
  {
    ShiftLow(code);
  }

  /** The decoder's 32-bit numbers and its place in the input, whatever they are. */
  datatype Raw = Raw(low: int, range: int, code: int, at: nat) {
    ghost predicate Valid(input: seq<byte>) {
      0 <= low < WORD && BOTTOM <= range < WORD && 0 <= code < WORD && at <= |input|
    }
  }

  /** `ENET_RANGE_CODER_READ`, cut to 16 bits. */
  function RawPeek(r: Raw, total: nat): u16
    requires 0 < total <= r.range
  {
    (r.code - r.low) % WORD / (r.range / total) % 0x1_0000
  }

  function Rank(i: Interval): nat { if !i.Valid() then 2 else Misaligned(i) }

  /** A turn of the normalisation loop keeps a loose interval loose, and comes closer to the end. */
  lemma LooseShift(i: Interval)
    requires Loose(i.low, i.range) && i.range < WORD && !(i.TopDiffers() && i.range >= BOTTOM)
    ensures var j := i.Trimmed().Shifted();
      Loose(j.low, j.range) && j.range < WORD && (Rank(j) < Rank(i) || (Rank(j) == Rank(i) && j.range > i.range))
  {
    hide Interval.TopDiffers, Interval.Shifted;
    if !i.Valid() {
      LooseTrims(i.low, i.range);
      ShiftValid(Interval(i.low, WORD - i.low));
    } else {
      ShiftValid(i);
    }
  }

  /** `decodeCode <<= 8`, wherever it is. */
  method TakeByte(input: seq<byte>, code: int, at: nat) returns (code': int, at': nat)
    requires 0 <= code < WORD && at <= |input|
    ensures 0 <= code' < WORD && at' <= |input|
  {
    RoomForByte(code);
    code', at' := code * 256 % WORD, at;
    if at < |input| {
      code', at' := code' + input[at], at + 1;
    }
  }

  /** `ENET_RANGE_CODER_DECODE` for a code in any place, in or out of its slice: the loop ends, and leaves a range
      that every total divides. */
  method AnyStep(input: seq<byte>, r: Raw, under: nat, count: nat, total: nat) returns (r': Raw)
    requires r.Valid(input) && Slim(count, total)
    ensures r'.Valid(input)
  {
    hide Loose, Rank, Interval.Trimmed, Interval.Shifted;
    SliceLoose(r.range, count, total);
    var range := r.range / total;
    var i := Interval((r.low + under * range) % WORD, range * count);
    var code, at: nat := r.code, r.at;
    IsLoose(i);
    while !(i.TopDiffers() && i.range >= BOTTOM)
      invariant Loose(i.low, i.range) && i.range < WORD && 0 <= code < WORD && at <= |input|
      decreases Rank(i), WORD - i.range
    {
      LooseShift(i);
      i := i.Trimmed().Shifted();
      code, at := TakeByte(input, code, at);
    }
    LooseLow(i);
    r' := Raw(i.low, i.range, code, at);
  }

  lemma IsLoose(i: Interval)
    requires 0 <= i.low < WORD && 1 <= i.range <= WORD - TOP
    ensures Loose(i.low, i.range)
  {
  }

  lemma LooseLow(i: Interval)
    requires Loose(i.low, i.range)
    ensures 0 <= i.low < WORD
  {
  }
}
