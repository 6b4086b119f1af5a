/**
 The table-driven CRC-32 of the Rust port, against the bit-at-a-time cyclic redundancy check of section
 8.1.1.6.2 of ITU-T V.42, with the bits of each byte taken from the lowest up.
 */
module Checksums {
  const POLYNOMIAL: bv32 := 0xEDB8_8320

  /** The generator of section 8.1.1.6.2 of ITU-T V.42: the exponents whose bits are set, the highest in the lowest
      bit; that of degree 32 falls out. */
  lemma StandardGenerator(exponent: nat)
    requires exponent < 32
    ensures POLYNOMIAL & ((1 as bv32) << (31 - exponent)) != 0 <==> exponent in {26, 23, 22, 16, 12, 11, 10, 8, 7, 5, 4, 2, 1, 0}
  {
    if exponent < 8 {
    } else if exponent < 16 {
    } else if exponent < 24 {
    } else {
    }
  }

  function Xor(a: bv32, b: bv32): bv32 { a ^ b }

  function Half(a: bv32): bv32 { a >> 1 }

  function High(a: bv32): bv32 { a >> 8 }

  function Low(a: bv32): bv32 { a & 0xFF }

  predicate Odd(a: bv32) { a & 1 != 0 }

  // ---- The reference ----

  /** One bit of the message goes into the register. */
  function Shift(crc: bv32, bit: bool): bv32 {
    if Odd(crc) != bit then Xor(Half(crc), POLYNOMIAL) else Half(crc)
  }

  function ShiftAll(crc: bv32, bits: seq<bool>): bv32
    decreases |bits|
  {
    if bits == [] then crc else Shift(ShiftAll(crc, bits[..|bits| - 1]), bits[|bits| - 1])
  }

  /** The bits of a byte, the lowest first. */
  function Bits(b: bv32, n: nat): seq<bool>
    decreases n
  {
    if n == 0 then [] else [Odd(b)] + Bits(Half(b), n - 1)
  }

  function AllBits(data: seq<bv8>): seq<bool>
    decreases |data|
  {
    if data == [] then [] else AllBits(data[..|data| - 1]) + Bits(data[|data| - 1] as bv32, 8)
  }

  /** The check of a message: a register of ones, all the bits, and the complement of what is left. */
  function Reference(data: seq<bv8>): bv32 {
    !ShiftAll(0xFFFF_FFFF, AllBits(data))
  }

  // ---- The table ----

  /** One turn of the table's inner loop. */
  function Step(crc: bv32): bv32 {
    if Odd(crc) then Xor(Half(crc), POLYNOMIAL) else Half(crc)
  }

  function Steps(crc: bv32, n: nat): bv32
    decreases n
  {
    if n == 0 then crc else Steps(Step(crc), n - 1)
  }

  ghost predicate IsTable(table: array<bv32>)
    reads table
  {
    table.Length == 256 && forall i :: 0 <= i < 256 ==> table[i] == Steps(i as bv32, 8)
  }

  method BuildTable() returns (table: array<bv32>)
    ensures fresh(table) && IsTable(table)
  {
    hide Xor, Half, Odd;
    table := new bv32[256];
    for i := 0 to 256
      invariant forall k :: 0 <= k < i ==> table[k] == Steps(k as bv32, 8)
    {
      var crc := i as bv32;
      for j := 0 to 8
        invariant Steps(crc, 8 - j) == Steps(i as bv32, 8)
      {
        crc := if Odd(crc) then Xor(Half(crc), POLYNOMIAL) else Half(crc);
      }
      table[i] := crc;
    }
  }

  // ---- The register is linear ----

  lemma HalfXor(a: bv32, b: bv32)
    ensures Half(Xor(a, b)) == Xor(Half(a), Half(b))
    ensures High(Xor(a, b)) == Xor(High(a), High(b))
  {
  }

  lemma OddXor(a: bv32, b: bv32)
    ensures Odd(Xor(a, b)) <==> Odd(a) != Odd(b)
  {
  }

  lemma Associates(p: bv32, q: bv32, k: bv32)
    ensures Xor(Xor(p, q), k) == Xor(p, Xor(q, k))
  {
  }

  lemma Cancels(q: bv32, k: bv32)
    ensures Xor(k, Xor(q, k)) == q
  {
  }

  lemma Regroup(p: bv32, q: bv32, k: bv32)
    ensures Xor(Xor(p, k), Xor(q, k)) == Xor(p, q)
    ensures Xor(Xor(p, k), q) == Xor(Xor(p, q), k) == Xor(p, Xor(q, k))
  {
    hide Xor;
    Associates(p, k, Xor(q, k));
    Cancels(q, k);
    Associates(p, k, q);
    Associates(p, q, k);
    Commutes(k, q);
  }

  lemma StepXor(a: bv32, b: bv32)
    ensures Step(Xor(a, b)) == Xor(Step(a), Step(b))
  {
    hide Xor, Half, Odd;
    HalfXor(a, b);
    OddXor(a, b);
    Regroup(Half(a), Half(b), POLYNOMIAL);
  }

  lemma {:induction false} StepsXor(a: bv32, b: bv32, n: nat)
    ensures Steps(Xor(a, b), n) == Xor(Steps(a, n), Steps(b, n))
    decreases n
  {
    hide Xor, Step;
    if n > 0 {
      StepXor(a, b);
      StepsXor(Step(a), Step(b), n - 1);
    }
  }

  /** With no bit of the low byte set, nothing is added in eight steps. */
  lemma HighSteps(x: bv32)
    ensures Steps(x & 0xFFFF_FF00, 8) == High(x)
  {
    hide Xor, Half, Odd, Step;
    var y := x & 0xFFFF_FF00;
    FirstHalves(x);
    LastHalves(x);
    Unroll(y);
  }

  lemma Unroll(c: bv32)
    ensures Steps(c, 8) == Step(Step(Step(Step(Step(Step(Step(Step(c))))))))
  {
    hide Step;
    var c4 := Step(Step(Step(Step(c))));
    assert Steps(c, 8) == Steps(Step(Step(c)), 6);
    assert Steps(Step(Step(c)), 6) == Steps(c4, 4);
    assert Steps(c4, 4) == Steps(Step(Step(c4)), 2);
  }

  lemma FirstHalves(x: bv32)
    ensures Step(Step(Step(Step(x & 0xFFFF_FF00)))) == (x & 0xFFFF_FF00) >> 4
  {
  }

  lemma LastHalves(x: bv32)
    ensures Step(Step(Step(Step((x & 0xFFFF_FF00) >> 4)))) == High(x)
  {
  }

  lemma Halves(x: bv32)
    ensures x == Xor(Low(x), x & 0xFFFF_FF00)
  {
  }

  lemma Commutes(a: bv32, b: bv32)
    ensures Xor(a, b) == Xor(b, a)
  {
  }

  /** Eight steps are one look-up. */
  lemma LookUp(x: bv32)
    ensures Steps(x, 8) == Xor(High(x), Steps(Low(x), 8))
  {
    hide Xor, High, Low, Steps;
    Halves(x);
    StepsXor(Low(x), x & 0xFFFF_FF00, 8);
    HighSteps(x);
    Commutes(Steps(Low(x), 8), High(x));
  }

  // ---- Eight bits are eight steps ----

  /** A bit taken in is a step of the register to which the bits to come have been added. */
  lemma ShiftStep(crc: bv32, rest: bv32)
    ensures Step(Xor(crc, rest)) == Xor(Shift(crc, Odd(rest)), Half(rest))
  {
    hide Xor, Half, Odd;
    HalfXor(crc, rest);
    OddXor(crc, rest);
    Regroup(Half(crc), Half(rest), POLYNOMIAL);
  }

  /** The `n`th half of a number. */
  function Halved(b: bv32, n: nat): bv32
    decreases n
  {
    if n == 0 then b else Halved(Half(b), n - 1)
  }

  lemma {:induction false} ShiftSteps(crc: bv32, b: bv32, n: nat)
    ensures Steps(Xor(crc, b), n) == Xor(ShiftAll(crc, Bits(b, n)), Halved(b, n))
    decreases n
  {
    hide Xor, Half, Odd, Step, Shift;
    if n > 0 {
      ShiftStep(crc, b);
      ShiftSteps(Shift(crc, Odd(b)), Half(b), n - 1);
      ShiftAppend(crc, [Odd(b)], Bits(Half(b), n - 1));
      assert ShiftAll(crc, []) == crc;
    }
  }

  lemma {:induction false} ShiftAppend(crc: bv32, a: seq<bool>, b: seq<bool>)
    ensures ShiftAll(crc, a + b) == ShiftAll(ShiftAll(crc, a), b)
    decreases |b|
  {
    hide Shift;
    if b == [] {
      assert a + b == a;
    } else {
      var n := |b| - 1;
      assert (a + b)[..|a| + n] == a + b[..n] && (a + b)[|a| + n] == b[n];
      ShiftAppend(crc, a, b[..n]);
    }
  }

  lemma NothingLeft(b: bv8)
    ensures Halved(b as bv32, 8) == 0 && High(b as bv32) == 0
  {
    var c := b as bv32;
    assert Halved(c, 8) == Halved(Half(Half(c)), 6);
    assert Halved(c, 8) == Halved(Half(Half(Half(Half(c)))), 4);
    assert Halved(c, 8) == Halved(Half(Half(Half(Half(Half(Half(c)))))), 2);
  }

  lemma XorZero(x: bv32)
    ensures Xor(x, 0) == x
  {
  }

  /** One turn of the loop over the bytes. */
  lemma ByteStep(crc: bv32, b: bv8)
    ensures ShiftAll(crc, Bits(b as bv32, 8)) == Xor(High(crc), Steps(Low(Xor(crc, b as bv32)), 8))
  {
    hide Xor, High, Low, Steps, ShiftAll, Bits, Halved;
    var c := b as bv32;
    ShiftSteps(crc, c, 8);
    NothingLeft(b);
    XorZero(ShiftAll(crc, Bits(c, 8)));
    LookUp(Xor(crc, c));
    HalfXor(crc, c);
    XorZero(High(crc));
  }

  lemma LowIndex(x: bv32)
    ensures 0 <= Low(x) as int < 256
  {
  }

  lemma WordBack(x: bv32)
    ensures (x as int) as bv32 == x
  {
  }

  /** `crc32`: for every message, the table gives the reference check. */
  method Crc32(data: seq<bv8>, table: array<bv32>) returns (crc: bv32)
    requires IsTable(table)
    ensures crc == Reference(data)
  {
    hide Xor, High, Low, Shift, ShiftAll, Steps, Bits;
    crc := 0xFFFF_FFFF;
    Empty();
    for i := 0 to |data|
      invariant crc == ShiftAll(0xFFFF_FFFF, AllBits(data[..i]))
    {
      var b := data[i];
      assert data[..i + 1][..i] == data[..i];
      ShiftAppend(0xFFFF_FFFF, AllBits(data[..i]), Bits(b as bv32, 8));
      ByteStep(crc, b);
      var index := Low(Xor(crc, b as bv32));
      LowIndex(Xor(crc, b as bv32));
      WordBack(index);
      crc := Xor(High(crc), table[index as int]);
    }
    assert data[..|data|] == data;
    crc := !crc;
  }

  lemma Empty()
    ensures ShiftAll(0xFFFF_FFFF, []) == 0xFFFF_FFFF
  {
  }

  /** The check of the letter a. */
  lemma CheckValue()
    ensures Reference([0x61]) == 0xE8B7_BE43
  {
    hide Shift, Bits;
    assert [0x61 as bv8][..0] == [];
    assert AllBits([0x61]) == AllBits([]) + Bits(0x61, 8) && AllBits([]) == [];
    LetterBits();
    assert AllBits([0x61]) == [true, false, false, false, false, true, true, false];
    EightShifts(0xFFFF_FFFF, true, false, false, false, false, true, true, false);
    FirstShifts();
    LastShifts();
  }

  lemma LetterBits()
    ensures Bits(0x61, 8) == [true, false, false, false, false, true, true, false]
  {
    assert Bits(0x6, 4) == [false, true, true, false] by { assert Bits(0x1, 2) == [true, false]; }
    assert Bits(0x61, 8) == [true, false, false, false] + Bits(0x6, 4) by {
      assert Bits(0x30, 7) == [false] + Bits(0x18, 6);
      assert Bits(0x18, 6) == [false] + Bits(0xC, 5);
      assert Bits(0xC, 5) == [false] + Bits(0x6, 4);
    }
  }

  lemma EightShifts(crc: bv32, a: bool, b: bool, c: bool, d: bool, e: bool, f: bool, g: bool, h: bool)
    ensures ShiftAll(crc, [a, b, c, d, e, f, g, h]) ==
      Shift(Shift(Shift(Shift(Shift(Shift(Shift(Shift(crc, a), b), c), d), e), f), g), h)
  {
    hide Shift;
    assert [a, b, c, d, e, f, g, h] == [a, b, c, d] + [e, f, g, h];
    ShiftAppend(crc, [a, b, c, d], [e, f, g, h]);
    FourShifts(crc, a, b, c, d);
    FourShifts(ShiftAll(crc, [a, b, c, d]), e, f, g, h);
  }

  lemma FourShifts(crc: bv32, a: bool, b: bool, c: bool, d: bool)
    ensures ShiftAll(crc, [a, b, c, d]) == Shift(Shift(Shift(Shift(crc, a), b), c), d)
  {
    hide Shift;
    assert [a, b, c, d][..3] == [a, b, c] && [a, b, c][..2] == [a, b] && [a, b][..1] == [a] && [a][..0] == [];
    assert ShiftAll(crc, [a]) == Shift(crc, a);
    assert ShiftAll(crc, [a, b]) == Shift(Shift(crc, a), b);
    assert ShiftAll(crc, [a, b, c]) == Shift(Shift(Shift(crc, a), b), c);
  }

  lemma FirstShifts()
    ensures Shift(Shift(Shift(Shift(0xFFFF_FFFF, true), false), false), false) == 0xAFF5_1D87
  {
  }

  lemma LastShifts()
    ensures Shift(Shift(Shift(Shift(0xAFF5_1D87, false), true), true), false) == 0x1748_41BC
  {
  }
}
