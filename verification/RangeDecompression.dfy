/**
 Decompression, as the C code runs it.
 */
module RangeDecompression {
  import opened Words
  import opened RangeArithmetic
  import opened FrequencyModel
  import opened SymbolTrees
  import opened RangeCodec
  import opened SymbolNames
  import opened RangeStreams
  import opened RangeCoders
  import opened ModelPools
  import opened PoolMirrors
  import StrayDecoding
  import StrayPools
  import StrayStarts

  /** `decodeCode`, the read position, `decodeLow` and `decodeRange`. */
  datatype Reader = Reader(code: int, at: nat, interval: Interval)

  /** The reader has shifted out `shifted` bytes of the input, and stands where decoder `d` stands. */
  ghost predicate Tracks(input: seq<byte>, shifted: nat, r: Reader, d: Decoder) {
    Looking(input, shifted, r.code, r.at) && r.interval.Settled() && d == Decoder(r.interval, Skip(input, shifted))
  }

  method Take(input: seq<byte>, ghost shifted: nat, r: Reader, s: Step, ghost d: Decoder)
    returns (ghost shifted': nat, r': Reader)
    requires Tracks(input, shifted, r, d) && s.Valid()
    ensures Tracks(input, shifted', r', d.Consume(s))
  {
    CodeSettled(r.interval, s);
    SkipSkip(input, shifted, |Code(r.interval, s).0|);
    var code, at, i;
    shifted', code, at, i := TakeStep(input, shifted, r.code, r.at, r.interval, s);
    r' := Reader(code, at, i);
  }

  /** `ENET_RANGE_CODER_READ`. */
  method Peek(input: seq<byte>, ghost shifted: nat, r: Reader, total: nat, ghost d: Decoder) returns (code: int)
    requires Tracks(input, shifted, r, d) && 0 < total < BOTTOM
    ensures code == d.Peek(total)
  {
    code := (r.code - r.interval.low) / (r.interval.range / total);
  }

  // ---- What a read in one context comes to ----

  lemma ReadSkips(t: Tables, k: Key, d: Decoder)
    requires k in t && k.Symbol? && !CanEscape(k, t[k])
    ensures Read(t, k, d) == Read(t, k.Parent(), d)
  {
  }

  lemma ReadEscapes(t: Tables, k: Key, d: Decoder)
    requires WellFormed(t) && k in t && (k.Root? || CanEscape(k, t[k])) && 0 <= d.Peek(Total(k, t[k])) < t[k].escapes
    ensures EscapeStep(t[k], k).Valid()
    ensures k.Root? ==> Read(t, k, d).0.End?
    ensures k.Symbol? ==> Read(t, k, d) == Read(t, k.Parent(), d.Consume(EscapeStep(t[k], k)))
  {
  }

  lemma ReadLost(t: Tables, k: Key, d: Decoder)
    requires k in t && (k.Root? || CanEscape(k, t[k])) && !(0 <= d.Peek(Total(k, t[k])) < Total(k, t[k]))
    ensures Read(t, k, d).0.Malformed?
  {
  }

  lemma ReadFinds(t: Tables, k: Key, d: Decoder) returns (v: byte)
    requires WellFormed(t) && k in t && (k.Root? || CanEscape(k, t[k]))
    requires t[k].escapes <= d.Peek(Total(k, t[k])) < Total(k, t[k])
    ensures Below(k, t[k].freq, v) <= d.Peek(Total(k, t[k])) - t[k].escapes < Below(k, t[k].freq, v + 1)
    ensures (k.Root? || t[k].freq[v] > 0) && SymbolStep(t[k], k, v).Valid()
    ensures Read(t, k, d) == (Next(k, v), d.Consume(SymbolStep(t[k], k, v)))
  {
    v := Found(t[k], k, d.Peek(Total(k, t[k])));
    ReadCode(t, k, v, d);
  }

  lemma Found(c: Context, k: Key, code: int) returns (v: byte)
    requires ContextOk(c, k) && c.escapes <= code < Total(k, c)
    ensures v == Lookup(k, c.freq, code - c.escapes, 0)
    ensures Below(k, c.freq, v) <= code - c.escapes < Below(k, c.freq, v + 1)
    ensures (k.Root? || c.freq[v] > 0) && SymbolStep(c, k, v).Valid()
  {
    v := Lookup(k, c.freq, code - c.escapes, 0);
    LookupHolds(k, c.freq, code - c.escapes, 0);
    SymbolStepValid(c, k, v);
  }

  /** `whole` is what a read from context `k` on comes to. */
  ghost predicate Comes(t: Tables, k: Key, d: Decoder, whole: (Outcome, Decoder)) {
    whole == Read(t, k, d)
  }

  datatype Turn = Shorter | Here | Ended | Lost

  /** Decodes a value in the context `k` of node `x`. */
  method ReadFound(coder: RangeCoder, x: nat, code: nat, input: seq<byte>, ghost shifted: nat, r: Reader,
                   ghost k: Key, ghost c: Context, ghost v: byte, ghost d: Decoder)
    returns (sym: nat, value: byte, ghost shifted': nat, r': Reader)
    requires Holds(coder, -1) && WellFormed(coder.tables) && x < coder.nextSymbol < POOL
    requires k == coder.keys[x] && c == coder.tables[k] && SymbolStep(c, k, v).Valid()
    requires Below(k, c.freq, v) <= code - c.escapes < Below(k, c.freq, v + 1)
    requires Tracks(input, shifted, r, d)
    modifies coder, coder.symbols
    ensures value == v && Holds(coder, -1) && coder.tables == Touch(old(coder.tables), k, c, v)
    ensures coder.nextSymbol <= old(coder.nextSymbol) + 1 && 0 < sym < coder.nextSymbol
    ensures coder.keys == Renamed(old(coder.keys), x, v, coder.nextSymbol) && coder.keys[sym] == Symbol(k, v)
    ensures Tracks(input, shifted', r', d.Consume(SymbolStep(c, k, v)))
  {
    assert Symbol(k, v) in coder.tables <==> c.freq[v] > 0;
    var under, count, escapes, total;
    sym, value, under, count, escapes, total := Recover(coder, x, code, k, c, v);
    var s := Step(escapes + under, count, total);
    assert s == SymbolStep(c, k, v);
    shifted', r' := Take(input, shifted, r, s, d);
  }

  /** Reads in the context `k` of node `x`: the decoder goes on in the shorter context, has found the
      value, has come to the end, or is lost, with a code that lies in no slice of the context. */
  method ReadNext(coder: RangeCoder, x: nat, input: seq<byte>, ghost shifted: nat, r: Reader,
                  ghost k: Key, ghost d: Decoder, ghost whole: (Outcome, Decoder))
    returns (turn: Turn, value: byte, sym: nat, ghost shifted': nat, r': Reader, ghost d': Decoder)
    requires Holds(coder, -1) && WellFormed(coder.tables) && x < coder.nextSymbol < POOL && k == coder.keys[x]
    requires Tracks(input, shifted, r, d) && Comes(coder.tables, k, d, whole)
    modifies coder, coder.symbols
    ensures turn.Ended? ==> whole.0.End?
    ensures turn.Lost? ==> whole.0.Malformed?
    ensures turn.Shorter? ==> k.Symbol? && Comes(old(coder.tables), k.Parent(), d', whole)
    ensures !turn.Here? ==> unchanged(coder) && unchanged(coder.symbols)
    ensures Tracks(input, shifted', r', d')
    ensures turn.Here? ==> whole == (Next(k, value), d')
    ensures turn.Here? ==> (k.Root? || old(coder.tables)[k].freq[value] > 0)
    ensures turn.Here? ==> Holds(coder, -1) && coder.tables == Touch(old(coder.tables), k, old(coder.tables)[k], value)
    ensures turn.Here? ==> coder.nextSymbol <= old(coder.nextSymbol) + 1 && 0 < sym < coder.nextSymbol
    ensures turn.Here? ==> coder.keys == Renamed(old(coder.keys), x, value, coder.nextSymbol) && coder.keys[sym] == Symbol(k, value)
  {
    var node := coder.symbols[x];
    ghost var t, c := coder.tables, coder.tables[k];
    shifted', r', d', value, sym := shifted, r, d, 0, 0;
    assert ContextHeld(node, coder.freq[x], k, c) && (x == 0 <==> k.Root?);
    if x != 0 && (node.escapes == 0 || node.escapes >= node.total) {
      ReadSkips(t, k, d);
      turn := Shorter;
    } else {
      var code := Peek(input, shifted, r, node.total, d);
      if !(0 <= code < node.total) {
        ReadLost(t, k, d);
        turn := Lost;
      } else if code < node.escapes {
        ReadEscapes(t, k, d);
        d' := d.Consume(EscapeStep(c, k));
        shifted', r' := Take(input, shifted, r, Step(0, node.escapes, node.total), d);
        turn := if x == 0 then Ended else Shorter;
      } else {
        ghost var v := ReadFinds(t, k, d);
        d' := d.Consume(SymbolStep(c, k, v));
        sym, value, shifted', r' := ReadFound(coder, x, code, input, shifted, r, k, c, v, d);
        turn := Here;
      }
    }
  }

  // ---- One byte ----

  /** Walks from the predicted context to the one in which the next byte is coded, and codes it there. */
  method ReadByte(coder: RangeCoder, predicted: nat, input: seq<byte>, ghost shifted: nat, r: Reader,
                  ghost k0: Key, ghost d: Decoder, ghost whole: (Outcome, Decoder))
    returns (turn: Turn, value: byte, x: nat, bottom: nat, ghost last: Key, ghost shifted': nat, r': Reader, ghost d': Decoder)
    requires Holds(coder, -1) && WellFormed(coder.tables) && predicted < coder.nextSymbol < POOL && k0 == coder.keys[predicted] && k0 in coder.tables
    requires Tracks(input, shifted, r, d) && Comes(coder.tables, k0, d, whole)
    modifies coder, coder.symbols
    ensures !turn.Shorter? && (turn.Ended? ==> whole.0.End?) && (turn.Lost? ==> whole.0.Malformed?)
    ensures !turn.Here? ==> unchanged(coder) && unchanged(coder.symbols)
    ensures Tracks(input, shifted', r', d') && x < old(coder.nextSymbol) && old(coder.keys[x]) == last && Reaches(k0, last)
    ensures turn.Here? ==> whole == (Next(last, value), d')
    ensures turn.Here? ==> last in old(coder.tables) && (last.Root? || old(coder.tables)[last].freq[value] > 0)
    ensures turn.Here? ==> Holds(coder, -1) && coder.tables == Touch(old(coder.tables), last, old(coder.tables)[last], value)
    ensures turn.Here? ==> Extends(old(coder.keys), coder.keys, value)
    ensures turn.Here? ==> x < coder.nextSymbol && bottom < coder.nextSymbol
    ensures turn.Here? ==> coder.keys[x] == last && coder.keys[bottom] == Symbol(last, value)
  {
    hide Tracks, Comes, Touch, Names, RangeCoder.Trees;
    ghost var t, names := coder.tables, coder.keys;
    turn := Shorter;
    x, last, shifted', r', d' := predicted, k0, shifted, r, d;
    while true
      invariant unchanged(coder) && unchanged(coder.symbols)
      invariant x < coder.nextSymbol && coder.keys[x] == last && last in t && Reaches(k0, last)
      invariant Tracks(input, shifted', r', d') && Comes(t, last, d', whole)
      decreases last.Order()
    {
      turn, value, bottom, shifted', r', d' := ReadNext(coder, x, input, shifted', r', last, d', whole);
      if turn == Shorter {
        BeforeOn(k0, last);
        ParentOf(coder.symbols[..], coder.nextSymbol, coder.keys, -1, x);
        x, last := coder.symbols[x].parent, last.Parent();
      } else {
        break;
      }
    }
  }

  /** Codes `v` in the longer contexts that passed it on, and links their symbols: `patchContexts`. */
  method Patch(coder: RangeCoder, predicted: nat, v: byte, x: nat, bottom: nat, ghost t: Tables, ghost k0: Key, ghost last: Key)
    returns (next: nat)
    requires Holds(coder, -1) && Patching(t, k0, last, v, k0, coder.tables) && |t| < POOL - SUBCONTEXT_ORDER
    requires predicted < coder.nextSymbol && coder.keys[predicted] == k0
    requires x < coder.nextSymbol && coder.keys[x] == last
    requires bottom < coder.nextSymbol && coder.keys[bottom] == Symbol(last, v)
    modifies coder, coder.symbols
    ensures Holds(coder, -1) && coder.tables == LearnTo(t, k0, last, v)
    ensures next < coder.nextSymbol && coder.keys[next] == Symbol(k0, v)
    ensures Extends(old(coder.keys), coder.keys, v)
  {
    hide Stands, Learned, WellFormed, Reaches, LearnTo, Before;
    var p: nat, slot: int := predicted, -1;
    ghost var k := k0;
    next := bottom;
    while p != x
      invariant Holds(coder, slot) && Patching(t, k0, last, v, k, coder.tables) && Coding(coder.keys, v, k0, k, slot, next)
      invariant p < coder.nextSymbol && coder.keys[p] == k
      invariant Extends(old(coder.keys), coder.keys, v)
      invariant x < coder.nextSymbol && coder.keys[x] == last
      invariant bottom < coder.nextSymbol && coder.keys[bottom] == Symbol(last, v)
      decreases k.Order()
    {
      DifferentNames(coder, slot, p, x);
      p, slot, next := PatchNext(coder, p, v, slot, next, t, k0, last, k);
      k := k.Parent();
    }
    PatchEnds(t, k0, last, v, coder.tables);
    Link(coder, slot, bottom);
    if slot < 0 {
      next := bottom;
    }
  }

  method PatchNext(coder: RangeCoder, p: nat, v: byte, slot: int, next: nat, ghost t: Tables, ghost k0: Key, ghost last: Key, ghost k: Key)
    returns (p': nat, slot': int, next': nat)
    requires Holds(coder, slot) && Patching(t, k0, last, v, k, coder.tables) && Coding(coder.keys, v, k0, k, slot, next)
    requires p < coder.nextSymbol && coder.keys[p] == k && k != last && |t| < POOL - SUBCONTEXT_ORDER
    modifies coder, coder.symbols
    ensures k.Symbol? && Holds(coder, slot') && Patching(t, k0, last, v, k.Parent(), coder.tables)
    ensures Coding(coder.keys, v, k0, k.Parent(), slot', next')
    ensures p' < coder.nextSymbol && coder.keys[p'] == k.Parent()
    ensures Extends(old(coder.keys), coder.keys, v)
  {
    hide Patching, Touch, Names, RangeCoder.Trees, ContextOk;
    ghost var u, names := coder.tables, coder.keys;
    PatchOn(t, k0, last, v, k, u);
    var under, count, escapes, total;
    slot', under, count, escapes, total := Account(coder, p, v, slot, k, t[k]);
    CodingOn(names, coder.keys, p, v, k0, k, slot, slot', next);
    next' := if slot < 0 then slot' else next;
    ParentOf(coder.symbols[..], coder.nextSymbol, coder.keys, slot', p);
    p' := coder.symbols[p].parent;
  }

  // ---- The whole stream ----

  /** What the bytes put out so far and the outcome for the rest of the stream come to. */
  function After(done: seq<byte>, rest: Decoded): Decoded {
    if rest.Data? then Data(done + rest.bytes) else rest
  }

  lemma AfterNext(done: seq<byte>, v: byte, rest: Decoded)
    ensures After(done, rest.Prepend(v)) == After(done + [v], rest)
  {
    if rest.Data? {
      assert done + ([v] + rest.bytes) == done + [v] + rest.bytes;
    }
  }

  /** `done` has been put out, and the rest of the stream will complete it to `all`. */
  ghost predicate Unpacking(all: Decoded, done: seq<byte>, m: Model, d: Decoder, room: nat) {
    all == After(done, Decode(m, d, room))
  }

  lemma UnpackingHere(all: Decoded, done: seq<byte>, m: Model, d: Decoder, room: nat)
    returns (r: (Outcome, Decoder))
    requires Unpacking(all, done, m, d, room)
    ensures Comes(m.tables, m.predicted, d, r)
    ensures (r.0.Malformed? ==> all == Corrupt) && (r.0.End? ==> all == Data(done)) && (r.0.Next? && room == 0 ==> all == NoRoom)
    ensures r.0.Next? && room > 0 ==> Unpacking(all, done + [r.0.value], Follow(m, r.0.context, r.0.value), r.1, room - 1)
  {
    r := Read(m.tables, m.predicted, d);
    assert Decode(m, d, room) == Resume(m, r, room);
    UnpackingResume(all, done, m, r, room);
  }

  lemma UnpackingResume(all: Decoded, done: seq<byte>, m: Model, r: (Outcome, Decoder), room: nat)
    requires all == After(done, Resume(m, r, room))
    ensures (r.0.Malformed? ==> all == Corrupt) && (r.0.End? ==> all == Data(done)) && (r.0.Next? && room == 0 ==> all == NoRoom)
    ensures r.0.Next? && room > 0 ==> Unpacking(all, done + [r.0.value], Follow(m, r.0.context, r.0.value), r.1, room - 1)
  {
    if r.0.Next? && room > 0 {
      AfterNext(done, r.0.value, Decode(Follow(m, r.0.context, r.0.value), r.1, room - 1));
    }
  }

  /** One turn of the decompression loop, up to the output of the byte. */
  method Unpack(coder: RangeCoder, predicted: nat, input: seq<byte>, ghost shifted: nat, r: Reader,
                ghost m: Model, ghost d: Decoder, ghost whole: (Outcome, Decoder))
    returns (turn: Turn, value: byte, x: nat, next: nat, ghost last: Key, ghost shifted': nat, r': Reader, ghost d': Decoder)
    requires Holds(coder, -1) && coder.tables == m.tables && m.Valid()
    requires predicted < coder.nextSymbol && coder.keys[predicted] == m.predicted
    requires Tracks(input, shifted, r, d) && Comes(m.tables, m.predicted, d, whole)
    modifies coder, coder.symbols
    ensures !turn.Shorter? && (turn.Ended? ==> whole.0.End?) && (turn.Lost? ==> whole.0.Malformed?)
    ensures !turn.Here? ==> unchanged(coder) && unchanged(coder.symbols)
    ensures coder.nextSymbol <= POOL
    ensures Tracks(input, shifted', r', d') && x < old(coder.nextSymbol) && old(coder.keys[x]) == last && Reaches(m.predicted, last)
    ensures turn.Here? ==> whole == (Next(last, value), d')
    ensures turn.Here? ==> last in m.tables && (last.Root? || m.tables[last].freq[value] > 0)
    ensures turn.Here? ==> Holds(coder, -1) && coder.tables == LearnTo(m.tables, m.predicted, last, value)
    ensures turn.Here? ==> next < coder.nextSymbol && coder.keys[next] == Symbol(m.predicted, value)
    ensures turn.Here? ==> Extends(old(coder.keys), coder.keys, value)
  {
    hide Stands, Tracks, Comes, LearnTo, Patching, Reaches;
    next := 0;
    var bottom;
    turn, value, x, bottom, last, shifted', r', d' := ReadByte(coder, predicted, input, shifted, r, m.predicted, d, whole);
    if turn == Here {
      PatchStarts(m.tables, m.predicted, last, value);
      next := Patch(coder, predicted, value, x, bottom, m.tables, m.predicted, last);
    }
    HoldsFits(coder);
  }

  lemma HoldsFits(coder: RangeCoder)
    requires Holds(coder, -1)
    ensures coder.nextSymbol <= POOL
  {
  }

  /** One turn of the decompression loop. */
  method UnpackNext(coder: RangeCoder, predicted: nat, order: nat, input: seq<byte>, ghost shifted: nat, r: Reader,
              out: array<byte>, n: nat, ghost all: Decoded, ghost m: Model, ghost d: Decoder)
    returns (turn: Turn, ok: bool, x: nat, predicted': nat, order': nat, ghost shifted': nat, r': Reader, ghost m': Model, ghost d': Decoder)
    requires Ready(coder, m, predicted, order) && Tracks(input, shifted, r, d)
    requires n <= out.Length && Unpacking(all, out[..n], m, d, out.Length - n)
    modifies coder, coder.symbols, out
    ensures !turn.Shorter? && (turn.Ended? ==> all == Data(out[..n])) && (turn.Lost? ==> all.Corrupt?)
    ensures coder.nextSymbol <= POOL
    ensures !turn.Here? ==> unchanged(coder) && unchanged(coder.symbols) && unchanged(out)
    ensures !turn.Here? ==> (predicted', order') == (predicted, order) && Tracks(input, shifted', r', d')
    ensures turn.Lost? ==> Astray((m, d)) && x < coder.nextSymbol && Reaches(m.predicted, coder.keys[x])
    ensures turn.Here? && !ok ==> all.NoRoom?
    ensures turn.Here? && ok ==> (m', d') == StateNext((m, d)) && n < out.Length && out[..n + 1] == old(out[..n]) + Spoken((m, d))
    ensures turn.Here? && ok ==> Ready(coder, m', predicted', order') && Tracks(input, shifted', r', d')
    ensures turn.Here? && ok ==> n < out.Length && Unpacking(all, out[..n + 1], m', d', out.Length - (n + 1))
  {
    hide Stands, Tracks, Comes, Unpacking, Follow, LearnTo, WellFormed, Reaches, Astray, Spoken;
    ok, predicted', order', m' := true, predicted, order, m;
    ghost var whole := UnpackingHere(all, out[..n], m, d, out.Length - n);
    var value, next;
    ghost var last, names := *, coder.keys;
    HoldsLists(coder, -1);
    turn, value, x, next, last, shifted', r', d' := Unpack(coder, predicted, input, shifted, r, m, d, whole);
    ComesLost(m, d, whole);
    if turn == Here {
      ok := PutByte(out, n, value);
      if ok {
        predicted', order' := Proceed(coder, next, order, m, last, value, names);
        HoldsFits(coder);
        m' := Follow(m, last, value);
        ComesNext(m, d, whole, last, value, d');
      }
    }
  }

  lemma ComesNext(m: Model, d: Decoder, whole: (Outcome, Decoder), last: Key, value: byte, d': Decoder)
    requires Comes(m.tables, m.predicted, d, whole) && whole == (Next(last, value), d')
    ensures StateNext((m, d)) == (Follow(m, last, value), d') && Spoken((m, d)) == [value]
  {
    hide Read, Follow;
  }

  lemma ComesLost(m: Model, d: Decoder, whole: (Outcome, Decoder))
    requires Comes(m.tables, m.predicted, d, whole)
    ensures Astray((m, d)) <==> whole.0.Malformed?
  {
    hide Read;
  }

  // ---- After a code in no slice ----

  /** The parents lead from a context to the ones that it reaches. */
  lemma {:induction false} ClimbReaches(s: seq<Node>, n: nat, keys: seq<Key>, p: nat, x: nat)
    requires Parents(s, n, keys, -1) && Distinct(keys) && 0 < n && keys[0] == Root && p < n && x < n && Reaches(keys[p], keys[x])
    ensures keys[x].Order() <= keys[p].Order() && StrayDecoding.Climb(s, p, keys[p].Order() - keys[x].Order()) == x
    decreases keys[p].Order()
  {
    if keys[p] != keys[x] {
      ParentOf(s, n, keys, -1, p);
      ClimbReaches(s, n, keys, s[p].parent, x);
    }
  }

  /** The walk for a byte, stopped at node `x`, is one that a stray decoder can go on with. */
  lemma GoesAstray(coder: RangeCoder, m: Model, predicted: nat, x: nat, order: nat) returns (g: StrayPools.Frame)
    requires Ready(coder, m, predicted, order) && x < coder.nextSymbol && Reaches(m.predicted, coder.keys[x])
    ensures StrayDecoding.Stands(coder.symbols[..], g, coder.nextSymbol, predicted, x) && order == g.depth[predicted]
    ensures coder.symbols.Length == POOL
  {
    hide Linked, Weighs, StrayPools.Sound, StrayDecoding.Climb, Timely, Reaches, ContextOk;
    var s, n, keys := coder.symbols[..], coder.nextSymbol, coder.keys;
    StrayStarts.PoolSound(s, coder.shape, coder.freq, n, keys, coder.tables);
    ClimbReaches(s, n, keys, predicted, x);
    g := StrayStarts.Outline(coder.shape, keys);
  }

  lemma AnyReader(input: seq<byte>, shifted: nat, r: Reader, d: Decoder)
    requires Tracks(input, shifted, r, d)
    ensures Raw(r.interval.low, r.interval.range, r.code, r.at).Valid(input)
  {
    WindowSkip(Skip(input, shifted));
  }

  /** Goes on with a code that lies in no slice of context `x`. */
  method Stray(coder: RangeCoder, predicted: nat, x: nat, order: nat, input: seq<byte>, ghost shifted: nat, r: Reader,
               out: array<byte>, n: nat, ghost m: Model, ghost d: Decoder)
    returns (n': nat)
    requires Ready(coder, m, predicted, order) && x < coder.nextSymbol && Reaches(m.predicted, coder.keys[x])
    requires Tracks(input, shifted, r, d) && n <= out.Length
    modifies coder, coder.symbols, out
    ensures coder.nextSymbol <= POOL && n' <= out.Length && (n' > 0 ==> n <= n' && out[..n] == old(out[..n]))
  {
    hide Stands, Tracks, Timely, Reaches, StrayDecoding.Stands;
    ghost var g := GoesAstray(coder, m, predicted, x, order);
    AnyReader(input, shifted, r, d);
    var raw := Raw(r.interval.low, r.interval.range, r.code, r.at);
    var nodes;
    n', nodes := StrayDecoding.StrayAll(coder.symbols, coder.nextSymbol, predicted, x, order, input, raw, out, n, g);
    coder.nextSymbol := nodes;
  }

  /** The decompression loop.  `pools` are the coder's states before, between and after the bytes, and `last` is
      the node of the context predicted last. */
  method UnpackAll(coder: RangeCoder, input: seq<byte>, out: array<byte>, ghost all: Decoded)
    returns (n: nat, lost: bool, ghost turns: nat, ghost pools: seq<Pool>, ghost last: nat)
    requires coder.symbols.Length == POOL
    requires Unpacking(all, [], Initial(), Decoder(Whole, input), out.Length)
    modifies coder, coder.symbols, out
    ensures lost <==> all == Corrupt
    ensures n <= out.Length && (all.Data? ==> all == Data(out[..n])) && (all.NoRoom? ==> n == 0)
    ensures coder.nextSymbol <= POOL
    ensures lost ==> Strayed(input, turns, out[..n])
    ensures all.Data? ==> Stood(pools, ReadHistory(input, n)) && Current(pools, coder, last)
  {
    hide Ready, Tracks, Unpacking, Stood, StateNext, StateAfter, ReadHistory, Astray, Spoken, Heard, Reaches, Strayed;
    n, lost, turns := 0, false, 0;
    ghost var m, d, shifted: nat := Initial(), Decoder(Whole, input), 0;
    var predicted: nat, order: nat := 0, 0;
    Restart(coder);
    var code, at := Seed(input);
    var r := Reader(code, at, Whole);
    TracksStart(input, r);
    assert out[..n] == [];
    HeardNone(input);
    pools := FirstRead(coder, input);
    while true
      invariant Ready(coder, m, predicted, order) && Tracks(input, shifted, r, d)
      invariant n <= out.Length && Unpacking(all, out[..n], m, d, out.Length - n)
      invariant out[..n] == Heard(input, n)
      invariant (m, d) == StateAfter(input, n) && Stood(pools, ReadHistory(input, n)) && Current(pools, coder, predicted)
      decreases out.Length - n
    {
      ghost var m0, d0 := m, d;
      var turn, ok, x;
      turn, ok, x, predicted, order, shifted, r, m, d := UnpackNext(coder, predicted, order, input, shifted, r, out, n, all, m, d);
      if turn == Ended {
        last := predicted;
        return;
      }
      if turn == Lost {
        turns := n;
        n := Stray(coder, predicted, x, order, input, shifted, r, out, n, m0, d);
        assert n > 0 ==> out[..n][..turns] == out[..turns];
        StrayedNow(input, turns, out[..n]);
        return n, true, turns, [], 0;
      }
      if !ok {
        return 0, false, 0, [], 0;
      }
      HeardNext(input, n, m0, d0);
      pools := NextRead(coder, pools, input, n, m, d, predicted, order);
      n := n + 1;
    }
  }

  /** The decoder has lost its way after `turns` bytes; it has put out nothing, or those bytes and more. */
  ghost predicate Strayed(input: seq<byte>, turns: nat, put: seq<byte>) {
    Astray(StateAfter(input, turns)) && (put != [] ==> turns <= |put| && put[..turns] == Heard(input, turns))
  }

  lemma StrayedNow(input: seq<byte>, turns: nat, put: seq<byte>)
    requires Astray(StateAfter(input, turns)) && (put != [] ==> turns <= |put| && put[..turns] == Heard(input, turns))
    ensures Strayed(input, turns, put)
  {
  }

  lemma HeardNone(input: seq<byte>)
    ensures Heard(input, 0) == []
  {
  }

  lemma HeardNext(input: seq<byte>, n: nat, m: Model, d: Decoder)
    requires (m, d) == StateAfter(input, n)
    ensures Heard(input, n + 1) == Heard(input, n) + Spoken((m, d))
  {
    hide Spoken, StateNext, StateAfter;
  }

  lemma FirstRead(coder: RangeCoder, input: seq<byte>) returns (pools: seq<Pool>)
    requires Ready(coder, Initial(), 0, 0)
    ensures Stood(pools, ReadHistory(input, 0)) && (Initial(), Decoder(Whole, input)) == StateAfter(input, 0)
    ensures pools == [View(coder, 0)]
  {
    hide Standing, Ready;
    ReadyStanding(coder, Initial(), 0, 0);
    pools := [View(coder, 0)];
  }

  lemma NextRead(coder: RangeCoder, pools: seq<Pool>, input: seq<byte>, n: nat, m: Model, d: Decoder, predicted: nat, order: nat)
    returns (pools': seq<Pool>)
    requires Stood(pools, ReadHistory(input, n)) && (m, d) == StateNext(StateAfter(input, n)) && Ready(coder, m, predicted, order)
    ensures (m, d) == StateAfter(input, n + 1) && Stood(pools', ReadHistory(input, n + 1))
    ensures pools' == pools + [View(coder, predicted)]
  {
    hide Standing, Ready, Stood, StateNext;
    ReadyStanding(coder, m, predicted, order);
    StoodOn(pools, ReadHistory(input, n), View(coder, predicted), m);
    pools' := pools + [View(coder, predicted)];
  }

  /** Decompresses a stream.  The method is lost when some code lies in no slice of its context: above all of
      them, in the remainder of the division of the range, or below them, when the range was trimmed.  It goes on
      nevertheless, and ends; what it returns then is either nothing or the bytes of the `turns` before it was lost,
      and more. */
  method Decompress(coder: RangeCoder, input: seq<byte>, out: array<byte>)
    returns (n: nat, lost: bool, ghost turns: nat, ghost pools: seq<Pool>, ghost last: nat)
    requires coder.symbols.Length == POOL
    modifies coder, coder.symbols, out
    ensures lost <==> Decompressed(input, out.Length).Corrupt?
    ensures n <= out.Length && (Decompressed(input, out.Length).NoRoom? ==> n == 0)
    ensures lost ==> Strayed(input, turns, out[..n])
    ensures input != [] ==> coder.nextSymbol <= POOL
    ensures Decompressed(input, out.Length).Data? ==>
      && Decompressed(input, out.Length) == Data(out[..n])
      && (input != [] ==> Stood(pools, ReadHistory(input, n)) && Current(pools, coder, last))
  {
    if input == [] {
      EmptyStream(out.Length);
      return 0, false, 0, [], 0;
    }
    hide Stood, ReadHistory, Strayed;
    UnpackingStarts(input, out.Length);
    n, lost, turns, pools, last := UnpackAll(coder, input, out, Decompressed(input, out.Length));
  }

  lemma TracksStart(input: seq<byte>, r: Reader)
    requires Looking(input, 0, r.code, r.at) && r.interval == Whole
    ensures Tracks(input, 0, r, Decoder(Whole, input))
  {
    assert Skip(input, 0) == input;
  }

  lemma UnpackingStarts(input: seq<byte>, room: nat)
    ensures Unpacking(Decompressed(input, room), [], Initial(), Decoder(Whole, input), room)
  {
    var rest := Decompressed(input, room);
    if rest.Data? {
      assert [] + rest.bytes == rest.bytes;
    }
  }

  lemma EmptyStream(room: nat)
    ensures Decompressed([], room) == Data([])
  {
    RoundTrip([], room);
  }
}
