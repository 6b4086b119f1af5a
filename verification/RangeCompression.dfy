/**
 Compression, as the C code runs it.
 */
module RangeCompression {
  import opened Basics
  import opened Words
  import opened RangeArithmetic
  import opened FrequencyModel
  import opened SymbolTrees
  import opened RangeCodec
  import opened SymbolNames
  import opened RangeStreams
  import opened RangeCoders
  import opened ModelPools
  import opened PoolMirrors

  /** Codes `v` in the context of node `x`, and puts out what the decoder needs to know about it. */
  method EncodeIn(coder: RangeCoder, x: nat, v: byte, slot: int, out: array<byte>, pos: nat, i: Interval,
                  ghost k: Key, ghost c: Context)
    returns (ok: bool, end: nat, j: Interval, sym: nat, count: nat)
    requires Holds(coder, slot) && x < coder.nextSymbol < POOL && slot < coder.nextSymbol
    requires k == coder.keys[x] && c == coder.tables[k]
    requires ContextOk(c, k) && (Symbol(k, v) in coder.tables <==> c.freq[v] > 0)
    requires 0 < slot ==> coder.keys[slot].Parent() == Symbol(k, v)
    requires pos <= out.Length && i.Settled()
    modifies coder, coder.symbols, out
    ensures Holds(coder, if x != 0 && count == 0 then sym else -1)
    ensures coder.tables == Touch(old(coder.tables), k, c, v)
    ensures coder.nextSymbol <= old(coder.nextSymbol) + 1 && 0 < sym < coder.nextSymbol
    ensures coder.keys == Renamed(old(coder.keys), x, v, coder.nextSymbol) && coder.keys[sym] == Symbol(k, v)
    ensures count == c.freq[v] + Minimum(k)
    ensures ok <==> pos + |Emit(i, OwnSteps(k, c, v)).0| <= out.Length
    ensures ok ==> end <= out.Length && out[..end] == old(out[..pos]) + Emit(i, OwnSteps(k, c, v)).0
    ensures ok ==> j == Emit(i, OwnSteps(k, c, v)).1 && j.Settled()
  {
    var under, escapes, total;
    sym, under, count, escapes, total := Account(coder, x, v, slot, k, c);
    ok, end, j := PutOwn(out, pos, i, x == 0, under, count, escapes, total, k, c, v);
  }

  /** Codes `v` in the context `k` of node `x`, and says whether it was known there. */
  method EncodeNext(coder: RangeCoder, x: nat, v: byte, slot: int, next: nat, out: array<byte>, pos: nat, i: Interval,
                    ghost t: Tables, ghost k0: Key, ghost k: Key,
                    ghost all: seq<byte>, ghost last: Interval)
    returns (ok: bool, end: nat, j: Interval, x': nat, slot': int, next': nat, found: bool)
    requires Holds(coder, slot) && Coding(coder.keys, v, k0, k, slot, next)
    requires x < coder.nextSymbol && coder.keys[x] == k && |t| < POOL - SUBCONTEXT_ORDER
    requires Chase(t, k0, v, k, coder.tables)
    requires pos <= out.Length && Sending(all, last, out[..pos], i, t, k, v)
    modifies coder, coder.symbols, out
    ensures !ok ==> |all| > out.Length
    ensures ok ==> end <= out.Length && j.Settled()
    ensures Extends(old(coder.keys), coder.keys, v)
    ensures ok ==> (found <==> k.Root? || t[k].freq[v] > 0)
    ensures ok && found ==>
      Holds(coder, -1) && coder.tables == Learn(t, k0, v) && next' < coder.nextSymbol && coder.keys[next'] == Symbol(k0, v)
      && out[..end] == all && j == last
    ensures ok && !found ==>
      Holds(coder, slot') && Coding(coder.keys, v, k0, k.Parent(), slot', next')
      && x' < coder.nextSymbol && coder.keys[x'] == k.Parent()
      && Chase(t, k0, v, k.Parent(), coder.tables) && Sending(all, last, out[..end], j, t, k.Parent(), v)
  {
    hide Chase, Steps, Touch, Names, RangeCoder.Trees, ContextOk, Emit;
    ghost var u, names := coder.tables, coder.keys;
    ChaseTouch(t, k0, v, k, u);
    if k.Root? || t[k].freq[v] > 0 {
      SendingLast(all, last, out[..pos], i, t, k, v);
      ChaseEnds(t, k0, v, k, u);
    } else {
      SendingOn(all, last, out[..pos], i, t, k, v);
      ChaseOn(t, k0, v, k, u);
    }
    var count;
    ok, end, j, slot', count := EncodeIn(coder, x, v, slot, out, pos, i, k, t[k]);
    CodingOn(names, coder.keys, x, v, k0, k, slot, slot', next);
    next' := if slot < 0 then slot' else next;
    found := x == 0 || count > 0;
    if !found {
      ParentOf(coder.symbols[..], coder.nextSymbol, coder.keys, slot', x);
    }
    x' := coder.symbols[x].parent;
  }

  /** One byte of the compression loop: codes `v` from the predicted context down to the root, as
      long as it is new, and puts out the steps that tell the decoder so. */
  method EncodeByte(coder: RangeCoder, v: byte, predicted: nat, out: array<byte>, pos: nat, i: Interval, ghost k0: Key)
    returns (ok: bool, end: nat, j: Interval, next: nat)
    requires Holds(coder, -1) && WellFormed(coder.tables)
    requires predicted < coder.nextSymbol && coder.keys[predicted] == k0 && k0 in coder.tables
    requires k0.Order() <= SUBCONTEXT_ORDER && coder.nextSymbol < POOL - SUBCONTEXT_ORDER
    requires pos <= out.Length && i.Settled()
    modifies coder, coder.symbols, out
    ensures ok <==> pos + |Emit(i, Steps(old(coder.tables), k0, v)).0| <= out.Length
    ensures ok ==> Holds(coder, -1) && coder.tables == Learn(old(coder.tables), k0, v)
    ensures ok ==> next < coder.nextSymbol && coder.keys[next] == Symbol(k0, v)
    ensures Extends(old(coder.keys), coder.keys, v)
    ensures ok ==> end <= out.Length && out[..end] == old(out[..pos]) + Emit(i, Steps(old(coder.tables), k0, v)).0
    ensures ok ==> j == Emit(i, Steps(old(coder.tables), k0, v)).1 && j.Settled()
  {
    hide Stands, Emit, Steps, Chase;
    ghost var t, k: Key := coder.tables, k0;
    ghost var all, last := out[..pos] + Emit(i, Steps(t, k0, v)).0, Emit(i, Steps(t, k0, v)).1;
    var x: nat, slot: int, found := predicted, -1, false;
    end, j, next := pos, i, predicted;
    ChaseStarts(t, k0, v);
    while x != 0
      invariant Holds(coder, slot) && Coding(coder.keys, v, k0, k, slot, next)
      invariant x < coder.nextSymbol && coder.keys[x] == k
      invariant Extends(old(coder.keys), coder.keys, v)
      invariant Chase(t, k0, v, k, coder.tables)
      invariant end <= out.Length && Sending(all, last, out[..end], j, t, k, v)
      decreases k.Order()
    {
      DifferentNames(coder, slot, 0, x);
      ok, end, j, x, slot, next, found := EncodeNext(coder, x, v, slot, next, out, end, j, t, k0, k, all, last);
      if !ok || found {
        return;
      }
      k := k.Parent();
    }
    ok, end, j, x, slot, next, found := EncodeNext(coder, x, v, slot, next, out, end, j, t, k0, k, all, last);
  }

  /** One turn of the compression loop. */
  method Pack(coder: RangeCoder, v: byte, predicted: nat, order: nat, out: array<byte>, pos: nat, i: Interval,
              ghost m: Model, ghost all: seq<byte>, ghost data: seq<byte>)
    returns (ok: bool, predicted': nat, order': nat, end: nat, j: Interval)
    requires Ready(coder, m, predicted, order) && data != [] && data[0] == v
    requires pos <= out.Length && Packing(all, out[..pos], m, i, data)
    modifies coder, coder.symbols, out
    ensures !ok ==> |all| > out.Length
    ensures ok ==> Ready(coder, Advance(m, v), predicted', order')
    ensures ok ==> end <= out.Length && Packing(all, out[..end], Advance(m, v), j, data[1..])
  {
    hide Stands, Emit, Steps, WellFormed, LearnTo, Reaches;
    PackingOn(all, out[..pos], m, i, data);
    var next;
    ghost var names := coder.keys;
    HoldsLists(coder, -1);
    predicted', order' := predicted, order;
    ok, end, j, next := EncodeByte(coder, v, predicted, out, pos, i, m.predicted);
    if ok {
      HomeReached(m.tables, m.predicted, v);
      predicted', order' := Proceed(coder, next, order, m, Home(m.tables, m.predicted, v), v, names);
    }
  }

  /** The loop has coded `done` of the data `whole`, and `data` are still to come.  `pools` are the coder's
      states before, between and after the bytes done. */
  ghost predicate Doing(coder: RangeCoder, out: array<byte>, pos: nat, i: Interval, predicted: nat, order: nat,
                        whole: seq<byte>, done: seq<byte>, data: seq<byte>, pools: seq<Pool>)
    reads coder, coder.symbols, out
  {
    && Ready(coder, ModelAfter(done), predicted, order) && whole == done + data && Stood(pools, History(done)) && Current(pools, coder, predicted)
    && pos <= out.Length && Packing(Compressed(whole), out[..pos], ModelAfter(done), i, data)
  }

  method PackNext(coder: RangeCoder, v: byte, predicted: nat, order: nat, out: array<byte>, pos: nat, i: Interval,
                  ghost whole: seq<byte>, ghost done: seq<byte>, ghost data: seq<byte>, ghost pools: seq<Pool>)
    returns (ok: bool, predicted': nat, order': nat, end: nat, j: Interval, ghost pools': seq<Pool>)
    requires Doing(coder, out, pos, i, predicted, order, whole, done, data, pools) && data != [] && data[0] == v
    modifies coder, coder.symbols, out
    ensures !ok ==> |Compressed(whole)| > out.Length
    ensures ok ==> Doing(coder, out, end, j, predicted', order', whole, done + [v], data[1..], pools')
    ensures ok ==> pools' == pools + [View(coder, predicted')]
  {
    hide Ready, Stood, Compressed, Packing, Advance, ModelAfter, History;
    pools' := [];
    ok, predicted', order', end, j := Pack(coder, v, predicted, order, out, pos, i, ModelAfter(done), Compressed(whole), data);
    if ok {
      pools' := NextPool(coder, pools, done, v, predicted', order');
      assert done + data == done + [v] + data[1..];
    }
  }

  method Start(coder: RangeCoder, out: array<byte>, ghost whole: seq<byte>) returns (ghost pools: seq<Pool>)
    requires coder.symbols.Length == POOL
    modifies coder, coder.symbols
    ensures Doing(coder, out, 0, Whole, 0, 0, whole, [], whole, pools)
  {
    hide Ready, Stood, Compressed, Packing, History;
    Restart(coder);
    pools := FirstPool(coder);
    PackingStarts(out, whole);
  }

  method Finish(coder: RangeCoder, out: array<byte>, pos: nat, i: Interval, ghost predicted: nat, ghost order: nat,
                ghost whole: seq<byte>, ghost done: seq<byte>, ghost pools: seq<Pool>) returns (ok: bool, n: nat)
    requires Doing(coder, out, pos, i, predicted, order, whole, done, [], pools)
    modifies out
    ensures ok <==> |Compressed(whole)| <= out.Length
    ensures ok ==> n <= out.Length && out[..n] == Compressed(whole)
    ensures ok ==> Stood(pools, History(whole)) && Current(pools, coder, predicted)
  {
    hide Ready, Stood, Compressed, Packing, History;
    PackingEnds(Compressed(whole), out[..pos], ModelAfter(done), i);
    assert whole == done;
    ok, n := PutFlush(out, pos, i);
  }

  /** Compresses the buffers, in the order given, into `out`.  The C code reads one byte of every
      buffer after the first without looking at its length, so those must not be empty.  `pools` are the
      coder's states before, between and after the bytes; `last` is the node of the context predicted last. */
  method Compress(coder: RangeCoder, buffers: seq<seq<byte>>, inLimit: nat, out: array<byte>)
    returns (n: nat, ghost pools: seq<Pool>, ghost last: nat)
    requires coder.symbols.Length == POOL && (forall b :: 0 < b < |buffers| ==> buffers[b] != [])
    modifies coder, coder.symbols, out
    ensures buffers == [] || inLimit == 0 || |Compressed(Flatten(buffers))| > out.Length ==> n == 0
    ensures buffers != [] && inLimit > 0 && |Compressed(Flatten(buffers))| <= out.Length ==>
      && n <= out.Length && out[..n] == Compressed(Flatten(buffers))
      && Stood(pools, History(Flatten(buffers))) && Current(pools, coder, last)
  {
    if buffers == [] || inLimit == 0 {
      return 0, [], 0;
    }
    hide Doing, Left, Stood, Current, Compressed, Flatten, History;
    ghost var whole := Flatten(buffers);
    ghost var done, data := [], whole;
    var input, rest := buffers[0], buffers[1..];
    LeftStarts(buffers);
    var predicted: nat, order: nat, pos: nat, i, ok := 0, 0, 0, Whole, true;
    pools := Start(coder, out, whole);
    while true
      invariant Doing(coder, out, pos, i, predicted, order, whole, done, data, pools)
      invariant Left(data, input, rest)
      decreases |data|
    {
      if input == [] {
        if rest == [] {
          break;
        }
        LeftNext(data, rest);
        input, rest := rest[0], rest[1..];
      }
      LeftTake(data, input, rest);
      ok, predicted, order, pos, i, pools := PackNext(coder, input[0], predicted, order, out, pos, i, whole, done, data, pools);
      if !ok {
        return 0, [], 0;
      }
      done, data, input := done + [input[0]], data[1..], input[1..];
    }
    LeftNothing(data);
    ok, n := Finish(coder, out, pos, i, predicted, order, whole, done, pools);
    if !ok {
      return 0, [], 0;
    }
    last := predicted;
  }

  lemma FirstPool(coder: RangeCoder) returns (pools: seq<Pool>)
    requires Ready(coder, Initial(), 0, 0)
    ensures Stood(pools, History([])) && Initial() == ModelAfter([]) && pools == [View(coder, 0)]
  {
    hide Standing, Ready;
    ReadyStanding(coder, Initial(), 0, 0);
    pools := [View(coder, 0)];
  }

  lemma NextPool(coder: RangeCoder, pools: seq<Pool>, done: seq<byte>, v: byte, predicted: nat, order: nat) returns (pools': seq<Pool>)
    requires Stood(pools, History(done)) && Ready(coder, Advance(ModelAfter(done), v), predicted, order)
    ensures ModelAfter(done + [v]) == Advance(ModelAfter(done), v) && Stood(pools', History(done + [v]))
    ensures pools' == pools + [View(coder, predicted)]
  {
    hide Standing, Ready, History, ModelAfter, Stood;
    HistoryOn(done, v);
    ReadyStanding(coder, ModelAfter(done + [v]), predicted, order);
    StoodOn(pools, History(done), View(coder, predicted), ModelAfter(done + [v]));
    pools' := pools + [View(coder, predicted)];
  }

  lemma PackingStarts(out: array<byte>, data: seq<byte>)
    ensures Packing(Compressed(data), out[..0], Initial(), Whole, data)
  {
  }

  lemma PackingEnds(all: seq<byte>, sent: seq<byte>, m: Model, i: Interval)
    requires Packing(all, sent, m, i, [])
    ensures i.Settled() && all == sent + Flush(i.low)
  {
  }

  lemma LeftStarts(buffers: seq<seq<byte>>)
    requires buffers != [] && forall b :: 0 < b < |buffers| ==> buffers[b] != []
    ensures Left(Flatten(buffers), buffers[0], buffers[1..])
  {
  }

  lemma LeftNothing(data: seq<byte>)
    requires Left(data, [], [])
    ensures data == []
  {
  }

  /** The buffers one after the other. */
  function Flatten(buffers: seq<seq<byte>>): seq<byte> {
    if buffers == [] then [] else buffers[0] + Flatten(buffers[1..])
  }

  /** The data that are still to be read: the rest of a buffer, and the buffers after it. */
  ghost predicate Left(data: seq<byte>, input: seq<byte>, rest: seq<seq<byte>>) {
    data == input + Flatten(rest) && forall b :: 0 <= b < |rest| ==> rest[b] != []
  }

  lemma LeftNext(data: seq<byte>, rest: seq<seq<byte>>)
    requires Left(data, [], rest) && rest != []
    ensures Left(data, rest[0], rest[1..]) && rest[0] != []
  {
  }

  lemma LeftTake(data: seq<byte>, input: seq<byte>, rest: seq<seq<byte>>)
    requires Left(data, input, rest) && input != []
    ensures data != [] && data[0] == input[0] && Left(data[1..], input[1..], rest)
  {
    assert data[1..] == input[1..] + Flatten(rest);
  }

  /** The output so far, and what `data` will add to it, make up `all`. */
  ghost predicate Packing(all: seq<byte>, sent: seq<byte>, m: Model, i: Interval, data: seq<byte>) {
    i.Settled() && all == sent + Encode(m, i, data)
  }

  lemma PackingOn(all: seq<byte>, sent: seq<byte>, m: Model, i: Interval, data: seq<byte>)
    requires Packing(all, sent, m, i, data) && data != []
    ensures var (out, j) := Emit(i, Steps(m.tables, m.predicted, data[0]));
      |all| >= |sent| + |out| && (j.Settled() ==> Packing(all, sent + out, Advance(m, data[0]), j, data[1..]))
  {
    EncodeCons(m, i, data);
    var (out, j) := Emit(i, Steps(m.tables, m.predicted, data[0]));
    Regroup(sent, out, Encode(Advance(m, data[0]), j, data[1..]));
  }

  /** The output so far, and what the contexts from `k` on will add to it, make up `all`; the interval
      will then be `last`. */
  ghost predicate Sending(all: seq<byte>, last: Interval, sent: seq<byte>, j: Interval, t: Tables, k: Key, v: byte) {
    j.Settled() && all == sent + Emit(j, Steps(t, k, v)).0 && last == Emit(j, Steps(t, k, v)).1
  }

  lemma SendingLast(all: seq<byte>, last: Interval, sent: seq<byte>, j: Interval, t: Tables, k: Key, v: byte)
    requires Sending(all, last, sent, j, t, k, v) && k in t && (k.Root? || t[k].freq[v] > 0)
    ensures all == sent + Emit(j, OwnSteps(k, t[k], v)).0 && last == Emit(j, OwnSteps(k, t[k], v)).1
  {
    assert Steps(t, k, v) == OwnSteps(k, t[k], v);
  }

  lemma SendingOn(all: seq<byte>, last: Interval, sent: seq<byte>, j: Interval, t: Tables, k: Key, v: byte)
    requires Sending(all, last, sent, j, t, k, v) && k in t && k.Symbol? && t[k].freq[v] == 0
    ensures var (own, next) := Emit(j, OwnSteps(k, t[k], v));
      |all| >= |sent + own| && (next.Settled() ==> Sending(all, last, sent + own, next, t, k.Parent(), v))
  {
    StepsOn(t, k, v);
    EmitSplit(all, last, sent, j, OwnSteps(k, t[k], v), Steps(t, k.Parent(), v));
  }

  lemma StepsOn(t: Tables, k: Key, v: byte)
    requires k in t && k.Symbol? && t[k].freq[v] == 0
    ensures Steps(t, k, v) == OwnSteps(k, t[k], v) + Steps(t, k.Parent(), v)
  {
  }

  lemma EmitSplit(all: seq<byte>, last: Interval, sent: seq<byte>, j: Interval, a: seq<Step>, b: seq<Step>)
    requires all == sent + Emit(j, a + b).0 && last == Emit(j, a + b).1
    ensures all == sent + Emit(j, a).0 + Emit(Emit(j, a).1, b).0 && last == Emit(Emit(j, a).1, b).1
  {
    EmitAppend(j, a, b);
    Regroup(sent, Emit(j, a).0, Emit(Emit(j, a).1, b).0);
  }

  /** What a context contributes to the output, from its weights and totals. */
  method PutOwn(out: array<byte>, pos: nat, i: Interval, root: bool, under: nat, count: nat, escapes: nat, total: nat,
                ghost k: Key, ghost c: Context, ghost v: byte)
    returns (ok: bool, end: nat, j: Interval)
    requires pos <= out.Length && i.Settled() && ContextOk(c, k) && (root <==> k.Root?)
    requires under == Below(k, c.freq, v) && count == c.freq[v] + Minimum(k) && escapes == c.escapes && total == Total(k, c)
    modifies out
    ensures ok <==> pos + |Emit(i, OwnSteps(k, c, v)).0| <= out.Length
    ensures ok ==> end <= out.Length && out[..end] == old(out[..pos]) + Emit(i, OwnSteps(k, c, v)).0
    ensures ok ==> j == Emit(i, OwnSteps(k, c, v)).1 && j.Settled()
  {
    if root || count > 0 {
      var s := Step(escapes + under, count, total);
      SymbolStepValid(c, k, v);
      CodeSettled(i, s);
      EmitOne(i, s);
      ok, end, j := PutStep(out, pos, i, s);
    } else if escapes > 0 && escapes < total {
      var s := Step(0, escapes, total);
      CodeSettled(i, s);
      EmitOne(i, s);
      ok, end, j := PutStep(out, pos, i, s);
    } else {
      ok, end, j := true, pos, i;
    }
  }
}