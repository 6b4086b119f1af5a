/**
 The compressor and decompressor as functions of byte sequences, and their round trip.
 */
module RangeCodec {
  import opened Words
  import opened RangeArithmetic
  import opened FrequencyModel

  type Tables = map<Key, Context>

  ghost predicate TablesOk(t: Tables) {
    Root in t && forall k :: k in t ==> ContextOk(t[k], k) && k.Order() <= SUBCONTEXT_ORDER + 1
  }

  ghost predicate Closed(t: Tables) {
    forall k {:trigger k.Parent()} :: k in t ==> k.Parent() in t
  }

  ghost predicate SymbolsCounted(t: Tables)
    requires TablesOk(t)
  {
    forall k, v: byte {:trigger Symbol(k, v)} :: Symbol(k, v) in t <==> k in t && t[k].freq[v] > 0
  }

  /** Every table is well formed, contexts are closed under dropping the oldest byte, and the
      contexts one byte longer than `k` are exactly the symbols counted in `k`. */
  ghost predicate WellFormed(t: Tables) {
    TablesOk(t) && Closed(t) && SymbolsCounted(t)
  }

  /** The table of a context; one that does not exist yet is empty. */
  function Table(t: Tables, k: Key): Context {
    if k in t then t[k] else Fresh()
  }

  /** Codes `v` in context `k` alone, whose table is `c`: counts it, creating the symbol if new. */
  function Touch(t: Tables, k: Key, c: Context, v: byte): Tables {
    (if c.freq[v] > 0 then t else t[Symbol(k, v) := Fresh()])[k := Updated(c, k, v)]
  }

  /** Codes `v` in the contexts from `k` on, each shorter by its oldest byte, up to `last`. */
  function LearnTo(t: Tables, k: Key, last: Key, v: byte): Tables
    decreases k.Order()
  {
    Touch(if k == last || k.Root? then t else LearnTo(t, k.Parent(), last, v), k, Table(t, k), v)
  }

  /** The first context from `k` on that knows `v`; the root knows every value. */
  function Home(t: Tables, k: Key, v: byte): Key
    decreases k.Order()
  {
    if k.Root? || Table(t, k).freq[v] > 0 then k else Home(t, k.Parent(), v)
  }

  /** Codes `v` in context `k` and, as long as `v` is new there, in the shorter contexts. */
  function Learn(t: Tables, k: Key, v: byte): Tables {
    LearnTo(t, k, Home(t, k, v), v)
  }

  /** `last` is one of the contexts from `k` on. */
  predicate Reaches(k: Key, last: Key)
    decreases k.Order()
  {
    k == last || (k.Symbol? && Reaches(k.Parent(), last))
  }

  lemma {:induction false} HomeReached(t: Tables, k: Key, v: byte)
    requires WellFormed(t) && k in t
    ensures Reaches(k, Home(t, k, v)) && Home(t, k, v) in t
    ensures Home(t, k, v).Root? || t[Home(t, k, v)].freq[v] > 0
    decreases k.Order()
  {
    if k.Symbol? && t[k].freq[v] == 0 { HomeReached(t, k.Parent(), v); }
  }

  lemma {:induction false} LearnWellFormed(t: Tables, k: Key, last: Key, v: byte)
    requires WellFormed(t) && k in t && k.Order() <= SUBCONTEXT_ORDER
    requires Reaches(k, last) && last in t && (last.Root? || t[last].freq[v] > 0)
    ensures WellFormed(LearnTo(t, k, last, v))
    ensures Symbol(k, v) in LearnTo(t, k, last, v)
    ensures forall q :: q in t ==> q in LearnTo(t, k, last, v) && (q.Order() > k.Order() ==> LearnTo(t, k, last, v)[q] == t[q])
    ensures |t| <= |LearnTo(t, k, last, v)| <= |t| + k.Order() + 1
    decreases k.Order()
  {
    if k == last {
      if k.Symbol? {
        assert Symbol(k, v) in t;
        assert Symbol(k, v).Parent() == Symbol(k.Parent(), v);
      }
      TouchWellFormed(t, k, v);
      TouchFrame(t, k, v);
    } else {
      var u := LearnTo(t, k.Parent(), last, v);
      LearnWellFormed(t, k.Parent(), last, v);
      TouchWellFormed(u, k, v);
      TouchFrame(u, k, v);
    }
  }

  lemma TouchWellFormed(t: Tables, k: Key, v: byte)
    requires WellFormed(t) && k in t && k.Order() <= SUBCONTEXT_ORDER
    requires k.Symbol? ==> Symbol(k.Parent(), v) in t
    ensures WellFormed(Touch(t, k, t[k], v))
  {
    UpdatedOk(t[k], k, v);
    if t[k].freq[v] > 0 {
      ReplaceWellFormed(t, k, Updated(t[k], k, v));
    } else {
      FreshOk(Symbol(k, v));
      InsertWellFormed(t, k, v, Updated(t[k], k, v), Fresh());
    }
  }

  lemma TouchFrame(t: Tables, k: Key, v: byte)
    requires WellFormed(t) && k in t
    ensures Symbol(k, v) in Touch(t, k, t[k], v)
    ensures forall q :: q in t ==> q in Touch(t, k, t[k], v) && (q != k ==> Touch(t, k, t[k], v)[q] == t[q])
    ensures |Touch(t, k, t[k], v)| == |t| + if t[k].freq[v] > 0 then 0 else 1
  {
    assert Symbol(k, v) in t <==> t[k].freq[v] > 0;
  }

  lemma ReplaceWellFormed(t: Tables, k: Key, d: Context)
    requires WellFormed(t) && k in t && ContextOk(d, k)
    requires forall w: nat :: w < 256 ==> (d.freq[w] > 0 <==> t[k].freq[w] > 0)
    ensures WellFormed(t[k := d])
  {
  }

  lemma InsertWellFormed(t: Tables, k: Key, v: byte, d: Context, e: Context)
    requires WellFormed(t) && k in t && k.Order() <= SUBCONTEXT_ORDER && Symbol(k, v) !in t
    requires k.Symbol? ==> Symbol(k.Parent(), v) in t
    requires ContextOk(d, k) && (forall w: nat :: w < 256 ==> (d.freq[w] > 0 <==> w == v || t[k].freq[w] > 0))
    requires ContextOk(e, Symbol(k, v)) && (forall w: nat :: w < 256 ==> e.freq[w] == 0)
    ensures WellFormed(t[Symbol(k, v) := e][k := d])
  {
    InsertOk(t, k, v, d, e);
    InsertClosed(t, k, v, d, e);
    InsertCounted(t, k, v, d, e);
  }

  lemma InsertOk(t: Tables, k: Key, v: byte, d: Context, e: Context)
    requires TablesOk(t) && k in t && k.Order() <= SUBCONTEXT_ORDER
    requires ContextOk(d, k) && ContextOk(e, Symbol(k, v))
    ensures TablesOk(t[Symbol(k, v) := e][k := d])
  {
  }

  lemma InsertClosed(t: Tables, k: Key, v: byte, d: Context, e: Context)
    requires Closed(t) && k in t && Root in t
    requires k.Symbol? ==> Symbol(k.Parent(), v) in t
    ensures Closed(t[Symbol(k, v) := e][k := d])
  {
    var u := t[Symbol(k, v) := e][k := d];
    forall q | q in u
      ensures q.Parent() in u
    {
      if q != Symbol(k, v) {
        assert q in t;
      }
    }
  }

  lemma InsertCounted(t: Tables, k: Key, v: byte, d: Context, e: Context)
    requires TablesOk(t) && SymbolsCounted(t) && k in t && Symbol(k, v) !in t
    requires forall w: nat :: w < 256 ==> (d.freq[w] > 0 <==> w == v || t[k].freq[w] > 0)
    requires forall w: nat :: w < 256 ==> e.freq[w] == 0
    requires TablesOk(t[Symbol(k, v) := e][k := d])
    ensures SymbolsCounted(t[Symbol(k, v) := e][k := d])
  {
    var u := t[Symbol(k, v) := e][k := d];
    forall q, w: byte
      ensures Symbol(q, w) in u <==> q in u && u[q].freq[w] > 0
    {
    }
  }

  // ---- The model that both sides keep ----

  /** The tables, the context that predicts the next byte, and in what order the contexts came about:
      those of one byte have the number of contexts that there were before it. */
  datatype Model = Model(tables: Tables, predicted: Key, born: map<Key, nat>) {
    ghost predicate Valid() {
      && WellFormed(tables) && predicted in tables && predicted.Order() <= SUBCONTEXT_ORDER
      && |tables| < POOL - SUBCONTEXT_ORDER
    }
  }

  function RootTable(): Context { Context(ESCAPE_MINIMUM, Zeros()) }

  function Initial(): Model { Model(map[Root := RootTable()], Root, map[Root := 0]) }

  /** The dates of birth, once there are the contexts of `t`. */
  function Born(born: map<Key, nat>, t: Tables, now: nat): map<Key, nat> {
    map q | q in t :: if q in born then born[q] else now
  }

  lemma InitialValid()
    ensures Initial().Valid()
  {
    CumEmptyRange(RootTable().freq, 0, |RootTable().freq|);
  }

  /** The model once byte `v` has been coded in the contexts up to `last`.  When too few nodes are left
      in the pool, it starts afresh. */
  function Follow(m: Model, last: Key, v: byte): Model {
    var t := LearnTo(m.tables, m.predicted, last, v);
    if |t| >= POOL - SUBCONTEXT_ORDER then Initial()
    else Model(t, if m.predicted.Order() >= SUBCONTEXT_ORDER then Symbol(m.predicted, v).Parent()
                  else Symbol(m.predicted, v), Born(m.born, t, |m.tables|))
  }

  /** The model after byte `v`. */
  function Advance(m: Model, v: byte): Model {
    Follow(m, Home(m.tables, m.predicted, v), v)
  }

  /** Every byte keeps the model valid, and never needs more nodes than the pool has. */
  lemma {:induction false} FollowValid(m: Model, last: Key, v: byte)
    requires m.Valid() && Reaches(m.predicted, last) && last in m.tables && (last.Root? || m.tables[last].freq[v] > 0)
    ensures Follow(m, last, v).Valid()
    ensures |LearnTo(m.tables, m.predicted, last, v)| <= POOL
  {
    LearnWellFormed(m.tables, m.predicted, last, v);
    InitialValid();
    var t := LearnTo(m.tables, m.predicted, last, v);
    assert Symbol(m.predicted, v).Parent() in t;
  }

  lemma {:induction false} AdvanceValid(m: Model, v: byte)
    requires m.Valid()
    ensures Advance(m, v).Valid()
  {
    HomeReached(m.tables, m.predicted, v);
    FollowValid(m, Home(m.tables, m.predicted, v), v);
  }

  // ---- Compression ----

  function EscapeStep(c: Context, k: Key): Step {
    Step(0, c.escapes, Total(k, c))
  }

  function SymbolStep(c: Context, k: Key, v: byte): Step {
    Step(c.escapes + Below(k, c.freq, v), c.freq[v] + Minimum(k), Total(k, c))
  }

  /** Whether context `k` can announce that the next byte is new to it. */
  predicate CanEscape(k: Key, c: Context) {
    0 < c.escapes < Total(k, c)
  }

  /** The coding steps that tell the decoder that `v` comes next. */
  function Steps(t: Tables, k: Key, v: byte): seq<Step>
    decreases k.Order()
  {
    var c := Table(t, k);
    if k.Root? || c.freq[v] > 0 then [SymbolStep(c, k, v)]
    else (if CanEscape(k, c) then [EscapeStep(c, k)] else []) + Steps(t, k.Parent(), v)
  }

  /** The coding steps that context `k` contributes: the symbol, an escape, or nothing. */
  function OwnSteps(k: Key, c: Context, v: byte): seq<Step> {
    if k.Root? || c.freq[v] > 0 then [SymbolStep(c, k, v)]
    else if CanEscape(k, c) then [EscapeStep(c, k)] else []
  }

  lemma {:induction false} EmitAppend(i: Interval, a: seq<Step>, b: seq<Step>)
    ensures Emit(i, a + b) == (Emit(i, a).0 + Emit(Emit(i, a).1, b).0, Emit(Emit(i, a).1, b).1)
    decreases |a|
  {
    if a == [] {
      assert a + b == b && [] + Emit(i, b).0 == Emit(i, b).0;
    } else {
      assert (a + b)[1..] == a[1..] + b;
      var (out, j) := Code(i, a[0]);
      EmitAppend(j, a[1..], b);
      var (more, k) := Emit(j, a[1..]);
      assert (out + more) + Emit(k, b).0 == out + (more + Emit(k, b).0);
    }
  }

  lemma EmitOne(i: Interval, s: Step)
    ensures Emit(i, [s]) == Code(i, s)
  {
    assert Code(i, s).0 + [] == Code(i, s).0;
  }

  lemma SymbolStepValid(c: Context, k: Key, v: byte)
    requires ContextOk(c, k) && (k.Root? || c.freq[v] > 0)
    ensures SymbolStep(c, k, v).Valid()
  {
    CumCovers(c.freq, v, |c.freq|);
  }

  lemma {:induction false} StepsValid(t: Tables, k: Key, v: byte)
    requires WellFormed(t) && k in t
    ensures AllValid(Steps(t, k, v))
    decreases k.Order()
  {
    if k.Root? || t[k].freq[v] > 0 {
      SymbolStepValid(t[k], k, v);
    } else {
      StepsValid(t, k.Parent(), v);
    }
  }

  /** The compressed form of `data`, from a given model and interval on. */
  function Encode(m: Model, i: Interval, data: seq<byte>): seq<byte>
    decreases |data|
  {
    if data == [] then Flush(i.low)
    else
      var (out, j) := Emit(i, Steps(m.tables, m.predicted, data[0]));
      out + Encode(Advance(m, data[0]), j, data[1..])
  }

  // ---- Decompression ----

  /** The decoder's interval, and the input from the byte that heads its look-ahead. */
  datatype Decoder = Decoder(interval: Interval, stream: seq<byte>) {
    /** `ENET_RANGE_CODER_READ`. */
    function Peek(total: nat): int {
      Quotient(Window(stream) - interval.low, Quotient(interval.range, total))
    }

    /** `ENET_RANGE_CODER_DECODE`: narrows the interval and shifts in as many bytes as fall out. */
    function Consume(s: Step): Decoder {
      var (out, j) := Code(interval, s);
      Decoder(j, Skip(stream, |out|))
    }
  }

  /** The value, from `v` on, whose slice of the weights holds `code`. */
  function Lookup(k: Key, f: Counts, code: int, v: byte): byte
    decreases 256 - v
  {
    if v == 0xFF || code < Below(k, f, v + 1) then v else Lookup(k, f, code, v + 1)
  }

  datatype Outcome = End | Next(context: Key, value: byte) | Malformed

  /** Reads one byte value in context `k`, following escapes to shorter contexts. */
  function Read(t: Tables, k: Key, d: Decoder): (Outcome, Decoder)
    decreases k.Order()
  {
    var c := Table(t, k);
    if k.Symbol? && !CanEscape(k, c) then Read(t, k.Parent(), d)
    else
      var code := d.Peek(Total(k, c));
      if !(0 <= code < Total(k, c)) then (Malformed, d)
      else if code < c.escapes then
        var next := d.Consume(EscapeStep(c, k));
        if k.Root? then (End, next) else Read(t, k.Parent(), next)
      else
        var v := Lookup(k, c.freq, code - c.escapes, 0);
        (Next(k, v), d.Consume(SymbolStep(c, k, v)))
  }

  datatype Decoded = Data(bytes: seq<byte>) | NoRoom | Corrupt {
    function Prepend(v: byte): Decoded {
      if Data? then Data([v] + bytes) else this
    }
  }

  /** The bytes a compressed stream stands for, when they fit in `room`. */
  function Decode(m: Model, d: Decoder, room: nat): Decoded
    decreases room, 1
  {
    Resume(m, Read(m.tables, m.predicted, d), room)
  }

  /** What the outcome of a read and the bytes that follow it come to. */
  function Resume(m: Model, r: (Outcome, Decoder), room: nat): Decoded
    decreases room, 0
  {
    if r.0.End? then Data([])
    else if r.0.Malformed? then Corrupt
    else if room == 0 then NoRoom
    else Decode(Follow(m, r.0.context, r.0.value), r.1, room - 1).Prepend(r.0.value)
  }

  // ---- The round trip ----

  /** A code inside the slice of `v` looks up `v`. */
  lemma {:induction false} LookupUnique(k: Key, f: Counts, code: int, v: byte, from: byte)
    requires from <= v && Below(k, f, v) <= code < Below(k, f, v + 1)
    ensures Lookup(k, f, code, from) == v
    decreases v - from
  {
    if from < v {
      BelowMonotone(k, f, from + 1, v);
      LookupUnique(k, f, code, v, from + 1);
    }
  }

  /** What is looked up is the value whose slice holds the code. */
  lemma {:induction false} LookupHolds(k: Key, f: Counts, code: int, from: byte)
    requires Below(k, f, from) <= code < Below(k, f, |f|)
    ensures var v := Lookup(k, f, code, from); Below(k, f, v) <= code < Below(k, f, v + 1)
    decreases 256 - from
  {
    if from < 0xFF && code >= Below(k, f, from + 1) { LookupHolds(k, f, code, from + 1); }
  }

  /** A look-ahead inside the slice of a step reads as a code inside that step. */
  lemma {:induction false} PeekStep(d: Decoder, s: Step)
    requires d.interval.Settled() && s.Valid()
    requires Narrow(d.interval, s).Contains(Window(d.stream))
    ensures s.under <= d.Peek(s.total) < s.under + s.count
  {
    NarrowValid(d.interval, s);
    QuotientBetween(Window(d.stream) - d.interval.low, d.interval.range / s.total, s.under, s.under + s.count);
  }

  lemma QuotientBetween(x: int, r: int, a: int, b: int)
    requires r > 0 && a * r <= x < b * r
    ensures a <= x / r < b
  {
    var q := x / r;
    assert q * r <= x < (q + 1) * r;
    ScaleOrder(a, q + 1, r);
    ScaleOrder(q, b, r);
  }

  lemma ScaleOrder(a: int, b: int, r: int)
    requires r > 0 && a * r < b * r
    ensures a < b
  {
    assert b <= a ==> b * r <= a * r;
  }

  lemma {:induction false} EmitCons(i: Interval, s: Step, more: seq<Step>)
    ensures Emit(i, [s] + more) == (Code(i, s).0 + Emit(Code(i, s).1, more).0, Emit(Code(i, s).1, more).1)
  {
    assert ([s] + more)[1..] == more;
  }

  /** A step put out before `tail`, as the decoder takes it in. */
  lemma {:induction false} ConsumeCode(i: Interval, s: Step, tail: seq<byte>)
    ensures Decoder(i, Code(i, s).0 + tail).Consume(s) == Decoder(Code(i, s).1, tail)
  {
    var out := Code(i, s).0;
    assert Skip(out + tail, |out|) == tail;
  }

  lemma {:induction false} EmitHead(i: Interval, s: Step, more: seq<Step>, tail: seq<byte>)
    ensures Emit(i, [s] + more).1 == Emit(Code(i, s).1, more).1
    ensures Decoder(i, Emit(i, [s] + more).0 + tail).Consume(s)
         == Decoder(Code(i, s).1, Emit(Code(i, s).1, more).0 + tail)
  {
    hide Emit, Code, Decoder.Consume;
    EmitCons(i, s, more);
    var rest := Emit(Code(i, s).1, more).0;
    ConsumeCode(i, s, rest + tail);
    assert (Code(i, s).0 + rest) + tail == Code(i, s).0 + (rest + tail);
  }

  /** The code of a look-ahead in the slice of `v` leads to `v`. */
  lemma {:induction false} PeekSymbol(k: Key, c: Context, v: byte, d: Decoder)
    requires ContextOk(c, k) && d.interval.Settled() && (k.Root? || c.freq[v] > 0)
    requires Narrow(d.interval, SymbolStep(c, k, v)).Contains(Window(d.stream))
    ensures c.escapes <= d.Peek(Total(k, c)) < Total(k, c)
    ensures Lookup(k, c.freq, d.Peek(Total(k, c)) - c.escapes, 0) == v
  {
    SymbolStepValid(c, k, v);
    PeekStep(d, SymbolStep(c, k, v));
    LookupUnique(k, c.freq, d.Peek(Total(k, c)) - c.escapes, v, 0);
  }

  lemma {:induction false} ReadCode(t: Tables, k: Key, v: byte, d: Decoder)
    requires k.Root? || CanEscape(k, Table(t, k))
    requires Table(t, k).escapes <= d.Peek(Total(k, Table(t, k))) < Total(k, Table(t, k))
    requires Lookup(k, Table(t, k).freq, d.Peek(Total(k, Table(t, k))) - Table(t, k).escapes, 0) == v
    ensures Read(t, k, d) == (Next(k, v), d.Consume(SymbolStep(Table(t, k), k, v)))
  {
  }

  /** What the decoder reads in context `k` when the look-ahead lies in the slice of `v`. */
  lemma {:induction false} ReadSymbol(t: Tables, k: Key, v: byte, d: Decoder)
    requires WellFormed(t) && k in t && d.interval.Settled() && (k.Root? || t[k].freq[v] > 0)
    requires Narrow(d.interval, SymbolStep(t[k], k, v)).Contains(Window(d.stream))
    ensures Read(t, k, d) == (Next(k, v), d.Consume(SymbolStep(t[k], k, v)))
  {
    PeekSymbol(k, t[k], v, d);
    CumCovers(t[k].freq, v, |t[k].freq|);
    ReadCode(t, k, v, d);
  }

  /** What the decoder reads in context `k` when the look-ahead lies in the slice of the escape. */
  lemma {:induction false} ReadEscape(t: Tables, k: Key, d: Decoder)
    requires WellFormed(t) && k in t && d.interval.Settled() && t[k].escapes > 0
    requires Narrow(d.interval, EscapeStep(t[k], k)).Contains(Window(d.stream))
    ensures k.Root? ==> Read(t, k, d).0 == End
    ensures k.Symbol? ==> Read(t, k, d) == Read(t, k.Parent(), d.Consume(EscapeStep(t[k], k)))
  {
    PeekStep(d, EscapeStep(t[k], k));
  }

  /** The decoder follows the encoder through the steps of one byte. */
  lemma {:induction false} ReadSteps(t: Tables, k: Key, v: byte, i: Interval, tail: seq<byte>)
    requires WellFormed(t) && k in t && i.Settled()
    requires Emit(i, Steps(t, k, v)).1.Contains(Window(tail))
    ensures Read(t, k, Decoder(i, Emit(i, Steps(t, k, v)).0 + tail))
         == (Next(Home(t, k, v), v), Decoder(Emit(i, Steps(t, k, v)).1, tail))
    decreases k.Order()
  {
    var c := t[k];
    var steps := Steps(t, k, v);
    var d := Decoder(i, Emit(i, steps).0 + tail);
    StepsValid(t, k, v);
    EmitContains(i, steps, tail);
    if k.Root? || c.freq[v] > 0 {
      var s := SymbolStep(c, k, v);
      ReadSymbol(t, k, v, d);
      EmitHead(i, s, [], tail);
      assert [s] + [] == steps;
      assert [] + tail == tail;
    } else if c.escapes > 0 {
      var s := EscapeStep(c, k);
      ReadEscape(t, k, d);
      EmitHead(i, s, Steps(t, k.Parent(), v), tail);
      CodeSettled(i, s);
      ReadSteps(t, k.Parent(), v, Code(i, s).1, tail);
    } else {
      assert steps == Steps(t, k.Parent(), v);
      ReadSteps(t, k.Parent(), v, i, tail);
    }
  }

  /** The look-ahead of what is still to be put out stays inside the encoder's interval. */
  lemma {:induction false} EncodeContains(m: Model, i: Interval, data: seq<byte>)
    requires m.Valid() && i.Settled()
    ensures i.Contains(Window(Encode(m, i, data)))
    decreases |data|
  {
    if data == [] {
      FlushWindow(i.low);
    } else {
      AdvanceValid(m, data[0]);
      StepsValid(m.tables, m.predicted, data[0]);
      var steps := Steps(m.tables, m.predicted, data[0]);
      var j := Emit(i, steps).1;
      EmitContains(i, steps, Encode(Advance(m, data[0]), j, data[1..]));
      EncodeContains(Advance(m, data[0]), j, data[1..]);
    }
  }

  /** With only the flushed bytes left, the look-ahead is `low`, which lies in the escape's slice, and
      what follows the escape are the flushed bytes of the narrowed interval. */
  lemma {:induction false} FlushEscapes(c: Context, k: Key, i: Interval)
    requires ContextOk(c, k) && c.escapes > 0 && i.Settled()
    ensures Narrow(i, EscapeStep(c, k)).Contains(Window(Flush(i.low)))
    ensures var j := Code(i, EscapeStep(c, k)).1;
      j.Settled() && Decoder(i, Flush(i.low)).Consume(EscapeStep(c, k)) == Decoder(j, Flush(j.low))
  {
    var s := EscapeStep(c, k);
    FlushWindow(i.low);
    NarrowValid(i, s);
    FlushNormalise(Narrow(i, s));
    CodeSettled(i, s);
  }

  /** The end is implicit: when only the flushed bytes are left, every context escapes. */
  lemma {:induction false} ReadEnd(t: Tables, k: Key, i: Interval)
    requires WellFormed(t) && k in t && i.Settled()
    ensures Read(t, k, Decoder(i, Flush(i.low))).0 == End
    decreases k.Order()
  {
    if k.Symbol? && t[k].escapes == 0 {
      ReadEnd(t, k.Parent(), i);
    } else {
      FlushEscapes(t[k], k, i);
      ReadEscape(t, k, Decoder(i, Flush(i.low)));
      if k.Symbol? {
        ReadEnd(t, k.Parent(), Code(i, EscapeStep(t[k], k)).1);
      }
    }
  }

  lemma {:induction false} EncodeCons(m: Model, i: Interval, data: seq<byte>)
    requires data != []
    ensures var (out, j) := Emit(i, Steps(m.tables, m.predicted, data[0]));
      Encode(m, i, data) == out + Encode(Advance(m, data[0]), j, data[1..])
  {
  }

  /** The decoder reads exactly `data`, and then the end. */
  ghost predicate Reads(m: Model, d: Decoder, data: seq<byte>)
    decreases |data|
  {
    var (outcome, next) := Read(m.tables, m.predicted, d);
    if data == [] then outcome == End
    else outcome == Next(Home(m.tables, m.predicted, data[0]), data[0]) && Reads(Advance(m, data[0]), next, data[1..])
  }

  lemma ResumeNext(m: Model, r: (Outcome, Decoder), room: nat, v: byte, rest: seq<byte>)
    requires r.0.Next? && r.0.value == v && room > 0 && Decode(Follow(m, r.0.context, v), r.1, room - 1) == Data(rest)
    ensures Resume(m, r, room) == Data([v] + rest)
  {
  }

  lemma {:induction false} DecodeReads(m: Model, d: Decoder, data: seq<byte>, room: nat)
    requires Reads(m, d, data) && |data| <= room
    ensures Decode(m, d, room) == Data(data)
    decreases |data|
  {
    var r := Read(m.tables, m.predicted, d);
    assert Decode(m, d, room) == Resume(m, r, room);
    if data != [] {
      DecodeReads(Advance(m, data[0]), r.1, data[1..], room - 1);
      ResumeNext(m, r, room, data[0], data[1..]);
      assert [data[0]] + data[1..] == data;
    }
  }

  /** One byte of the round trip. */
  lemma {:induction false} ReadEncode(m: Model, i: Interval, data: seq<byte>) returns (n: Model, j: Interval)
    requires m.Valid() && i.Settled() && data != []
    ensures n == Advance(m, data[0]) && n.Valid() && j.Settled()
    ensures Read(m.tables, m.predicted, Decoder(i, Encode(m, i, data))).0 == Next(Home(m.tables, m.predicted, data[0]), data[0])
    ensures Read(m.tables, m.predicted, Decoder(i, Encode(m, i, data))).1 == Decoder(j, Encode(n, j, data[1..]))
  {
    var v := data[0];
    n, j := Advance(m, v), Emit(i, Steps(m.tables, m.predicted, v)).1;
    var rest := Encode(n, j, data[1..]);
    AdvanceValid(m, v);
    StepsValid(m.tables, m.predicted, v);
    EmitContains(i, Steps(m.tables, m.predicted, v), rest);
    EncodeContains(n, j, data[1..]);
    ReadSteps(m.tables, m.predicted, v, i, rest);
    EncodeCons(m, i, data);
  }

  /** Decompression undoes compression, whatever the model and interval they start from. */
  lemma {:induction false} ReadsEncode(m: Model, i: Interval, data: seq<byte>)
    requires m.Valid() && i.Settled()
    ensures Reads(m, Decoder(i, Encode(m, i, data)), data)
    decreases |data|
  {
    if data == [] {
      ReadEnd(m.tables, m.predicted, i);
    } else {
      var n, j := ReadEncode(m, i, data);
      ReadsEncode(n, j, data[1..]);
    }
  }

  function Compressed(data: seq<byte>): seq<byte> {
    Encode(Initial(), Whole, data)
  }

  function Decompressed(stream: seq<byte>, room: nat): Decoded {
    Decode(Initial(), Decoder(Whole, stream), room)
  }

  // ---- The models on both sides ----

  /** The encoder's model after some data, and its models before, between and after their bytes. */
  function ModelAfter(data: seq<byte>): Model
    decreases |data|
  {
    if data == [] then Initial() else Advance(ModelAfter(data[..|data| - 1]), data[|data| - 1])
  }

  function History(data: seq<byte>): seq<Model>
    decreases |data|
  {
    if data == [] then [Initial()] else History(data[..|data| - 1]) + [ModelAfter(data)]
  }

  lemma HistoryOn(data: seq<byte>, v: byte)
    ensures ModelAfter(data + [v]) == Advance(ModelAfter(data), v)
    ensures History(data + [v]) == History(data) + [ModelAfter(data + [v])]
  {
    assert (data + [v])[..|data|] == data;
  }

  /** The decoder's model and stream after the next byte. */
  function StateNext(s: (Model, Decoder)): (Model, Decoder) {
    var (outcome, next) := Read(s.0.tables, s.0.predicted, s.1);
    if outcome.Next? then (Follow(s.0, outcome.context, outcome.value), next) else s
  }

  function StateAfter(stream: seq<byte>, n: nat): (Model, Decoder) {
    if n == 0 then (Initial(), Decoder(Whole, stream)) else StateNext(StateAfter(stream, n - 1))
  }

  /** What a decoder reads next, if it is a byte. */
  function Spoken(s: (Model, Decoder)): seq<byte> {
    var outcome := Read(s.0.tables, s.0.predicted, s.1).0;
    if outcome.Next? then [outcome.value] else []
  }

  predicate Astray(s: (Model, Decoder)) {
    Read(s.0.tables, s.0.predicted, s.1).0.Malformed?
  }

  /** The bytes read in the first `n` turns. */
  function Heard(stream: seq<byte>, n: nat): seq<byte> {
    if n == 0 then [] else Heard(stream, n - 1) + Spoken(StateAfter(stream, n - 1))
  }

  function ReadHistory(stream: seq<byte>, n: nat): seq<Model> {
    if n == 0 then [Initial()] else ReadHistory(stream, n - 1) + [StateAfter(stream, n).0]
  }

  /** A decoder of compressed data has, after every byte, the model that the encoder had. */
  lemma {:induction false} SameModel(data: seq<byte>, n: nat)
    requires n <= |data|
    ensures StateAfter(Compressed(data), n).0 == ModelAfter(data[..n])
    ensures Reads(StateAfter(Compressed(data), n).0, StateAfter(Compressed(data), n).1, data[n..])
  {
    hide Read, Encode, Advance;
    if n == 0 {
      InitialValid();
      ReadsEncode(Initial(), Whole, data);
      assert data[0..] == data;
    } else {
      SameModel(data, n - 1);
      var s := StateAfter(Compressed(data), n - 1);
      ReadsNext(s.0, s.1, data[n - 1..]);
      assert data[n - 1..][1..] == data[n..] && data[n - 1..][0] == data[n - 1];
      assert data[..n][..n - 1] == data[..n - 1];
    }
  }

  lemma ReadsNext(m: Model, d: Decoder, data: seq<byte>)
    requires Reads(m, d, data) && data != []
    ensures StateNext((m, d)).0 == Advance(m, data[0])
    ensures Reads(StateNext((m, d)).0, StateNext((m, d)).1, data[1..])
  {
    hide Read;
  }

  lemma {:induction false} SameHistory(data: seq<byte>, n: nat)
    requires n <= |data|
    ensures ReadHistory(Compressed(data), n) == History(data[..n])
    decreases n
  {
    hide StateAfter, ModelAfter, Compressed;
    if n > 0 {
      SameHistory(data, n - 1);
      SameModel(data, n);
      assert data[..n][..n - 1] == data[..n - 1];
    }
  }

  /** For every byte string, decompressing its compressed form gives it back. */
  lemma {:induction false} RoundTrip(data: seq<byte>, room: nat)
    requires |data| <= room
    ensures Decompressed(Compressed(data), room) == Data(data)
  {
    InitialValid();
    ReadsEncode(Initial(), Whole, data);
    DecodeReads(Initial(), Decoder(Whole, Compressed(data)), data, room);
  }
}