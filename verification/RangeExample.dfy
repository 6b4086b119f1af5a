/**
 The compressed form of four equal bytes, worked out by the meaning of the model.
 */
module RangeExample {
  import opened Basics
  import opened Words
  import opened RangeArithmetic
  import opened FrequencyModel
  import opened RangeCodec
  import opened ModelMeaning

  /** The string of `n` letters a. */
  function As(n: nat): seq<byte> { seq(n, _ => 97) }

  lemma AsOn(n: nat)
    ensures As(n + 1) == As(n) + [97]
  {
  }

  lemma AsOccurs(c: seq<byte>, n: nat)
    ensures Occurs(c, As(n)) <==> |c| <= n && c == As(|c|)
  {
    if i: nat :| IsAt(c, As(n), i) { assert As(n)[i..i + |c|] == As(|c|); }
    if |c| <= n && c == As(|c|) { assert As(n)[0..|c|] == c && IsAt(c, As(n), 0); }
  }

  lemma AsParts(n: nat)
    ensures |Parts(As(n))| <= 4
  {
    hide Parts, As, Occurs;
    var few := {As(0), As(1), As(2), As(3)};
    forall c | c in Parts(As(n)) ensures c in few {
      PartOccurs(c, As(n));
      AsOccurs(c, n);
    }
    SubsetSize(Parts(As(n)), few);
  }

  lemma {:induction false} AsSegment(n: nat)
    ensures Segment(As(n)) == As(n)
  {
    hide Parts;
    if n > 0 {
      AsSegment(n - 1);
      AsOn(n - 1);
      assert As(n)[..n - 1] == As(n - 1);
      AsParts(n);
    }
  }

  lemma AsTail(n: nat, x: nat)
    requires x <= n
    ensures Tail(As(n), x) == As(x) && Tail(As(n), x) + [97] == As(x + 1)
    ensures Occurs(Tail(As(n), x) + [97], As(n)) <==> x < n
  {
    AsOn(x);
    AsOccurs(As(x + 1), n);
  }

  lemma AsCodes(n: nat, m: nat)
    requires n <= 2 && m <= 2
    ensures Codes(As(n), 97, As(m)) <==> m <= n <= m + 1
  {
    hide Occurs;
    forall x: nat | x <= n
      ensures Tail(As(n), x) == As(x) && (Occurs(Tail(As(n), x) + [97], As(n)) <==> x < n)
    {
      AsTail(n, x);
    }
    if m + 1 < n { assert !Codes(As(n), 97, As(m)) by { AsTail(n, m + 1); } }
  }

  lemma {:induction false} AsWritten(n: nat, m: nat)
    requires n <= 3 && m <= 2
    ensures (n <= m ==> Written(As(n), As(m)) == []) && (n == m + 1 ==> Written(As(n), As(m)) == [97])
  {
    hide Codes;
    if n > 0 {
      AsWritten(n - 1, m);
      AsOn(n - 1);
      WrittenOn(As(n - 1), 97, As(m));
      AsCodes(n - 1, m);
    }
  }

  lemma OneCounts(root: bool)
    ensures var c := TableOf([97], root);
      c.freq[97] == Weight(root) == Sum(c.freq) && Cum(c.freq, 97) == 0 && c.escapes == if root then 1 else 5
  {
    assert forall v: byte :: multiset([97])[v] == if v == 97 then 1 else 0;
    assert Distinct([97]) == {97};
    CalmCounts([97], root);
    CumEmptyRange(TableOf([97], root).freq, 0, 97);
  }

  lemma NoneCounts()
    ensures var c := TableOf([], true); c.freq[97] == 0 == Sum(c.freq) && Cum(c.freq, 97) == 0 && c.escapes == 1
  {
    CumEmptyRange(Zeros(), 0, 256);
    CumEmptyRange(Zeros(), 0, 97);
  }

  /** The first byte and the second are told by the root, the third by the context of one byte and the fourth by that
      of two. */
  lemma AsTold()
    ensures Told(As(0), 97, 0) == [Step(98, 1, 257)]
    ensures Told(As(1), 97, 1) == [Step(98, 4, 260)]
    ensures Told(As(2), 97, 2) == [Step(5, 2, 7)]
    ensures Told(As(3), 97, 2) == [Step(5, 2, 7)]
  {
    hide Occurs, Written, As, TableOf, Tail, Cum;
    NoneCounts();
    OneCounts(true);
    OneCounts(false);
    AsWritten(0, 0);
    AsWritten(1, 0);
    AsWritten(1, 1);
    AsWritten(2, 1);
    AsWritten(2, 2);
    AsWritten(3, 2);
    AsTail(0, 0);
    AsTail(1, 0);
    AsTail(1, 1);
    AsTail(2, 1);
    AsTail(2, 2);
    AsTail(3, 2);
  }

  lemma AsSteps()
    ensures AllTold(As(4)) == [Step(98, 1, 257), Step(98, 4, 260), Step(5, 2, 7), Step(5, 2, 7)]
  {
    hide Told, AllTold, As;
    AsTold();
    AsStep(0);
    AsStep(1);
    AsStep(2);
    AsStep(3);
    NoSteps();
  }

  lemma AsStep(n: nat)
    ensures AllTold(As(n + 1)) == AllTold(As(n)) + Told(As(n), 97, if n < 2 then n else 2)
  {
    hide Told;
    AsOn(n);
    assert As(n + 1)[..n] == As(n);
    AsSegment(n);
  }

  lemma NoSteps()
    ensures AllTold(As(0)) == []
  {
  }

  // ---- The bytes ----

  lemma FirstCode()
    ensures Code(Whole, Step(98, 1, 257)) == ([], Interval(0x619E_619E, 0xFF_00FF))
  {
    hide Normalise;
    assert Narrow(Whole, Step(98, 1, 257)) == Interval(0x619E_619E, 0xFF_00FF);
    NormaliseTurns(Interval(0x619E_619E, 0xFF_00FF));
  }

  lemma SecondCode()
    ensures Code(Interval(0x619E_619E, 0xFF_00FF), Step(98, 4, 260)) == ([], Interval(0x61FE_7F46, 0x3_EC50))
  {
    hide Normalise;
    assert Narrow(Interval(0x619E_619E, 0xFF_00FF), Step(98, 4, 260)) == Interval(0x61FE_7F46, 0x3_EC50);
    NormaliseTurns(Interval(0x61FE_7F46, 0x3_EC50));
  }

  lemma ThirdCode()
    ensures Code(Interval(0x61FE_7F46, 0x3_EC50), Step(5, 2, 7)) == ([0x62], Interval(0x14C_A300, 0x11E_F200))
  {
    hide Normalise;
    assert Narrow(Interval(0x61FE_7F46, 0x3_EC50), Step(5, 2, 7)) == Interval(0x6201_4CA3, 0x1_1EF2);
    NormaliseTurns(Interval(0x6201_4CA3, 0x1_1EF2));
    NormaliseTurns(Interval(0x14C_A300, 0x11E_F200));
    assert [0x62] + [] == [0x62];
  }

  lemma FourthCode()
    ensures Code(Interval(0x14C_A300, 0x11E_F200), Step(5, 2, 7)) == ([0x02], Interval(0x1999_0000, 0x51FC_0000))
  {
    hide Normalise;
    assert Narrow(Interval(0x14C_A300, 0x11E_F200), Step(5, 2, 7)) == Interval(0x219_9900, 0x51_FC00);
    NormaliseTurns(Interval(0x219_9900, 0x51_FC00));
    NormaliseTurns(Interval(0x1999_0000, 0x51FC_0000));
    assert [0x02] + [] == [0x02];
  }

  lemma LastBytes()
    ensures Flush(0x1999_0000) == [0x19, 0x99]
  {
    assert Flush(0x9900_0000) == [0x99];
  }

  lemma EmitTwo(i: Interval, a: Step, rest: seq<Step>)
    ensures Emit(i, [a] + rest) == (Code(i, a).0 + Emit(Code(i, a).1, rest).0, Emit(Code(i, a).1, rest).1)
  {
    hide Code;
    assert ([a] + rest)[1..] == rest;
  }

  lemma FourSteps(a: Step, b: Step, c: Step, d: Step, i: Interval)
    ensures var (o1, i1) := Code(i, a); var (o2, i2) := Code(i1, b); var (o3, i3) := Code(i2, c); var (o4, i4) := Code(i3, d);
      Emit(i, [a, b, c, d]) == (o1 + (o2 + (o3 + o4)), i4)
  {
    hide Code, Emit;
    assert [a, b, c, d] == [a] + [b, c, d] && [b, c, d] == [b] + [c, d] && [c, d] == [c] + [d];
    EmitTwo(i, a, [b, c, d]);
    EmitTwo(Code(i, a).1, b, [c, d]);
    EmitTwo(Code(Code(i, a).1, b).1, c, [d]);
    EmitOne(Code(Code(Code(i, a).1, b).1, c).1, d);
  }

  /** "aaaa" becomes 62 02 19 99. */
  lemma FourLetters()
    ensures Compressed([97, 97, 97, 97]) == [0x62, 0x02, 0x19, 0x99]
  {
    hide Compressed, AllTold, Code, Emit, Flush;
    assert As(4) == [97, 97, 97, 97];
    AsSteps();
    CompressedIs(As(4));
    FourSteps(Step(98, 1, 257), Step(98, 4, 260), Step(5, 2, 7), Step(5, 2, 7), Whole);
    FirstCode();
    SecondCode();
    ThirdCode();
    FourthCode();
    LastBytes();
  }
}
