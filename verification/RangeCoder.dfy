/**
 The range coder as the C code runs it: one array of nodes, updated in place.
 */
module RangeCoders {
  import opened Words
  import opened RangeArithmetic
  import opened FrequencyModel
  import opened SymbolTrees
  import opened RangeCodec
  import opened SymbolNames

  class RangeCoder {
    const symbols: array<Node>
    var nextSymbol: nat
    ghost var shape: Shape
    ghost var freq: seq<Counts>
    /** The contexts that the nodes stand for, and their tables in the model. */
    ghost var keys: seq<Key>
    ghost var tables: Tables

    /** Every context's tree stands for its frequency table. */
    ghost predicate Trees()
      reads this, symbols
    {
      && symbols.Length == POOL
      && Linked(symbols[..], shape, freq, nextSymbol)
      && Weighs(symbols[..], shape, freq, nextSymbol)
    }

    /** The search for `v` in the tree of context `c`, counting it on the way: the loop of
        `ENET_CONTEXT_ENCODE`. */
    method Descend(c: nat, v: byte, update: byte) returns (at: nat, under: nat, count: nat)
      requires Trees() && c < nextSymbol && symbols[c].symbols != 0
      requires freq[c][v] + update <= 0xFF && Sum(freq[c]) + update <= 0xFFFF
      modifies symbols
      ensures AllBumped(old(symbols[..]), symbols[..], POOL, TreePath(old(symbols[..]), c, v), v, update)
      ensures Arrived(old(symbols[..]), nextSymbol, c, v, at)
      ensures under == Cum(freq[c], v) && count == freq[c][v]
      ensures old(symbols[..])[at].value != v ==> freq[c][v] == 0
    {
      ghost var s, g, n := symbols[..], shape, nextSymbol;
      under, count, at := 0, 0, c + symbols[c].symbols;
      ghost var passed: set<nat> := {};
      WalkStarts(s, g, freq, n, c, v);
      while true
        invariant Walk(s, g, freq, n, c, v, passed, at, under)
        invariant AllBumped(s, symbols[..], POOL, passed, v, update)
        invariant symbols[at] == s[at] && count == 0
        decreases n - at
      {
        NodeFits(s, g, freq, n, at);
        ghost var t := symbols[..];
        var node := symbols[at];
        if HasChild(s[at], v) {
          WalkOn(s, g, freq, n, c, v, passed, at, under);
        } else {
          WalkArrives(s, g, freq, n, c, v, passed, at, under);
          WalkEnds(s, g, freq, n, c, v, passed, at, under);
        }
        if v < node.value {
          symbols[at] := node.(under := node.under + update);
        } else if v > node.value {
          under := under + node.under;
        } else {
          count := count + node.count;
          under := under + node.under - node.count;
          symbols[at] := node.(under := node.under + update, count := node.count + update);
        }
        BumpOne(s, t, symbols[..], passed, at, v, update);
        passed := passed + {at};
        if v < node.value && node.left != 0 {
          at := at + node.left;
        } else if v > node.value && node.right != 0 {
          at := at + node.right;
        } else {
          break;
        }
      }
    }

    /** `ENET_SYMBOL_CREATE`, hung in the given slot of node `at` of context `c`. */
    method Hang(c: nat, v: byte, update: byte, slot: Slot, at: nat, ghost s: seq<Node>)
      requires symbols.Length == POOL == |s| && c < nextSymbol < POOL && at < nextSymbol
      requires Linked(s, shape, freq, nextSymbol) && Weighs(s, shape, freq, nextSymbol)
      requires Ends(s, nextSymbol, c, v, slot, at) && freq[c][v] == 0 && 0 < update
      requires AllBumped(s, symbols[..], POOL, TreePath(s, c, v), v, update)
      modifies symbols, `nextSymbol, `shape, `freq
      ensures Trees() && nextSymbol == old(nextSymbol) + 1
      ensures freq == Added(old(freq), c, v, update) && shape.own == old(shape.own) + [c]
      ensures symbols[old(nextSymbol)] == Node(v, update, update, 0, 0, 0, 0, 0, 0)
      ensures forall i :: 0 <= i < old(nextSymbol) ==> SameContext(s[i], symbols[i])
    {
      var n := nextSymbol;
      ghost var m := symbols[..];
      symbols[n] := Node(v, update, update, 0, 0, 0, 0, 0, 0);
      symbols[at] := Hooked(symbols[at], slot, n - at);
      GrowBumped(s, m, symbols[..], shape, freq, n, c, v, update, slot, at);
      shape, freq, nextSymbol := Grown(s, shape, c, slot, at), Added(freq, c, v, update), n + 1;
    }

    /** `ENET_CONTEXT_ENCODE`: counts `v` in the tree of context `c`, and returns its weight and the
        weight of the values below it as they were before. */
    method ContextEncode(c: nat, v: byte, update: byte, minimum: nat) returns (sym: nat, under: nat, count: nat)
      requires Trees() && c < nextSymbol < POOL && 0 < update
      requires freq[c][v] + update <= 0xFF && Sum(freq[c]) + update <= 0xFFFF
      modifies symbols, `nextSymbol, `shape, `freq
      ensures Trees()
      ensures under == old(Cum(freq[c], v)) + v * minimum && count == old(freq[c][v]) + minimum
      ensures 0 < sym < nextSymbol && shape.own[sym] == c && symbols[sym].value == v
      ensures old(freq[c][v]) > 0 ==>
        nextSymbol == old(nextSymbol) && shape == old(shape) && freq == Tally(old(freq), c, v, update)
      ensures old(freq[c][v]) == 0 ==>
        sym == old(nextSymbol) && nextSymbol == sym + 1 && shape.own == old(shape.own) + [c]
        && freq == Added(old(freq), c, v, update) && symbols[sym] == Node(v, update, update, 0, 0, 0, 0, 0, 0)
      ensures forall i :: 0 <= i < old(nextSymbol) ==> SameContext(old(symbols[..])[i], symbols[i])
    {
      ghost var s := symbols[..];
      if symbols[c].symbols == 0 {
        assert ContextLinked(s, shape, freq, nextSymbol, c);
        CumEmptyRange(freq[c], 0, v);
        under, count, sym := v * minimum, minimum, nextSymbol;
        Hang(c, v, update, AtContext, c, s);
      } else {
        var at;
        at, under, count := Descend(c, v, update);
        under, count := under + v * minimum, count + minimum;
        if symbols[at].value == v {
          BumpFound(s, symbols[..], shape, freq, nextSymbol, c, v, update, at);
          freq := Tally(freq, c, v, update);
          sym := at;
        } else {
          sym := nextSymbol;
          Hang(c, v, update, if v < symbols[at].value then AtLeft else AtRight, at, s);
        }
      }
    }

    /** One turn of the loop of `enet_symbol_rescale`: node `p` and everything left of it. */
    method RescaleNode(p: nat, ghost s: seq<Node>, ghost c: nat, ghost h: Counts) returns (under: u16)
      requires symbols.Length == POOL == |s|
      requires Linked(s, shape, freq, nextSymbol) && Weighs(s, shape, freq, nextSymbol)
      requires 0 < p < nextSymbol && shape.own[p] == c < nextSymbol && h == HalveAll(freq[c]) && Sum(h) <= 0xFFFF
      requires forall j :: 0 <= j < POOL && j in Subtree(s, p) ==> symbols[j] == s[j]
      modifies symbols
      ensures -1 <= shape.lo[p] < s[p].value && under == Cum(h, s[p].value + 1) - Cum(h, shape.lo[p] + 1)
      ensures AllHalved(s, old(symbols[..]), symbols[..], shape, nextSymbol, LeftTree(s, p) + {p}, h)
      decreases nextSymbol - p, 0
    {
      HalvedUnder(s, shape, freq, nextSymbol, p, h);
      SubtreesApart(s, shape, freq, nextSymbol, p);
      CumMonotone(h, s[p].value + 1, |h|);
      assert p in Subtree(s, p);
      var count := symbols[p].count - symbols[p].count / 2;
      under := count;
      if symbols[p].left != 0 {
        var below := RescaleTree(p + symbols[p].left, s, c, h);
        under := under + below;
      }
      HalvedOne(s, old(symbols[..]), symbols[..], shape, nextSymbol, LeftTree(s, p), h, p, symbols[p].(count := count, under := under));
      symbols[p] := symbols[p].(count := count, under := under);
    }

    /** `enet_symbol_rescale`: halves the counts of the tree below node `i`, left subtrees first, and
        returns their sum.  `s` is the pool before any of this context's nodes was rescaled. */
    method RescaleTree(i: nat, ghost s: seq<Node>, ghost c: nat, ghost h: Counts) returns (total: u16)
      requires symbols.Length == POOL == |s|
      requires Linked(s, shape, freq, nextSymbol) && Weighs(s, shape, freq, nextSymbol)
      requires 0 < i < nextSymbol && shape.own[i] == c < nextSymbol && h == HalveAll(freq[c]) && Sum(h) <= 0xFFFF
      requires forall j :: 0 <= j < POOL && j in Subtree(s, i) ==> symbols[j] == s[j]
      modifies symbols
      ensures -1 <= shape.lo[i] < shape.hi[i] <= 256
      ensures total == Cum(h, shape.hi[i]) - Cum(h, shape.lo[i] + 1)
      ensures AllHalved(s, old(symbols[..]), symbols[..], shape, nextSymbol, Subtree(s, i), h)
      decreases nextSymbol - i, 1
    {
      ghost var g, n := shape, nextSymbol;
      ghost var done: set<nat> := {};
      total := 0;
      var p := i;
      SpineStarts(s, g, freq, n, c, h, i);
      while true
        invariant Spine(s, g, n, c, h, i, p, done, total)
        invariant AllHalved(s, old(symbols[..]), symbols[..], g, n, done, h)
        decreases n - p
      {
        ghost var m := symbols[..];
        var under := RescaleNode(p, s, c, h);
        HalvedJoin(s, old(symbols[..]), m, symbols[..], g, n, done, LeftTree(s, p) + {p}, h);
        CumMonotone(h, s[p].value + 1, |h|);
        assert p in LeftTree(s, p) + {p} && symbols[p].right == s[p].right;
        if symbols[p].right == 0 {
          SpineEnds(s, g, freq, n, c, h, i, p, done, total);
          total := total + under;
          return;
        }
        SpineOn(s, g, freq, n, c, h, i, p, done, total);
        done := done + (LeftTree(s, p) + {p});
        total := total + under;
        p := p + symbols[p].right;
      }
    }

    /** `ENET_CONTEXT_RESCALE`. */
    method ContextRescale(c: nat, minimum: nat)
      requires Trees() && c < nextSymbol && minimum <= 1
      requires symbols[c].escapes + Sum(freq[c]) <= 0xFFFF
      modifies symbols, `freq
      ensures Trees() && freq == old(freq)[c := HalveAll(old(freq)[c])]
      ensures symbols[c].escapes == Halve(old(symbols[c].escapes))
      ensures symbols[c].total == symbols[c].escapes + Sum(freq[c]) + 256 * minimum
      ensures symbols[c].value == old(symbols[c].value) && symbols[c].parent == old(symbols[c].parent)
      ensures forall i :: 0 <= i < nextSymbol && i != c ==> SameContext(old(symbols[..])[i], symbols[i])
    {
      ghost var s, h := symbols[..], HalveAll(freq[c]);
      assert ContextLinked(s, shape, freq, nextSymbol, c);
      CumHalve(freq[c], |freq[c]|);
      var total: u16 := 0;
      if symbols[c].symbols != 0 {
        total := RescaleTree(c + symbols[c].symbols, s, c, h);
        HalveTree(s, symbols[..], shape, freq, nextSymbol, c);
        ContextApart(s, shape, freq, nextSymbol, c);
      } else {
        CumEmptyRange(h, 0, |h|);
        assert h == freq[c] && freq[c := h] == freq;
      }
      freq := freq[c := h];
      ghost var t := symbols[..];
      var escapes := symbols[c].escapes - symbols[c].escapes / 2;
      symbols[c] := symbols[c].(escapes := escapes, total := total + escapes + 256 * minimum);
      Relabel(t, symbols[..], shape, freq, nextSymbol);
    }

    /** The search of `ENET_CONTEXT_DECODE`: it is steered by `code`, and takes the turns of the
        search for the value `v` whose slice of the weights holds that code. */
    method DescendByCode(c: nat, code: nat, update: byte, minimum: nat, ghost k: Key, ghost v: byte)
      returns (at: nat, under: nat, after: nat, before: nat)
      requires Trees() && c < nextSymbol && symbols[c].symbols != 0 && minimum == Minimum(k)
      requires Below(k, freq[c], v) <= code < Below(k, freq[c], v + 1)
      requires freq[c][v] + update <= 0xFF && Sum(freq[c]) + update <= 0xFFFF
      modifies symbols
      ensures AllBumped(old(symbols[..]), symbols[..], POOL, TreePath(old(symbols[..]), c, v), v, update)
      ensures Arrived(old(symbols[..]), nextSymbol, c, v, at)
      ensures after == Below(k, freq[c], symbols[at].value + 1) && before == freq[c][symbols[at].value] + minimum
      ensures code >= after <==> v > symbols[at].value
      ensures code < after - before <==> v < symbols[at].value
      ensures v != symbols[at].value ==> k.Root? && freq[c][v] == 0 && code == Below(k, freq[c], v)
      ensures v > symbols[at].value ==> v == symbols[at].value + 1 + (code - after)
      ensures v < symbols[at].value ==> v == symbols[at].value - 1 - (after - before - code - 1)
    {
      ghost var s, g, n := symbols[..], shape, nextSymbol;
      under, at := 0, c + symbols[c].symbols;
      ghost var passed: set<nat> := {};
      WalkStarts(s, g, freq, n, c, v);
      while true
        invariant Walk(s, g, freq, n, c, v, passed, at, under)
        invariant AllBumped(s, symbols[..], POOL, passed, v, update)
        invariant symbols[at] == s[at]
        decreases n - at
      {
        NodeFits(s, g, freq, n, at);
        CodeSide(s, g, freq, n, k, c, v, passed, at, under, code);
        ghost var t := symbols[..];
        var node := symbols[at];
        after, before := under + node.under + (node.value + 1) * minimum, node.count + minimum;
        if HasChild(s[at], v) {
          WalkOn(s, g, freq, n, c, v, passed, at, under);
        } else {
          WalkArrives(s, g, freq, n, c, v, passed, at, under);
          if v != s[at].value {
            CodeValue(s, g, freq, n, k, c, v, passed, at, under, code);
          }
        }
        if code >= after {
          under := under + node.under;
        } else if code < after - before {
          symbols[at] := node.(under := node.under + update);
        } else {
          symbols[at] := node.(under := node.under + update, count := node.count + update);
        }
        BumpOne(s, t, symbols[..], passed, at, v, update);
        passed := passed + {at};
        if code >= after && node.right != 0 {
          at := at + node.right;
        } else if code < after - before && node.left != 0 {
          at := at + node.left;
        } else {
          break;
        }
      }
    }

    /** `ENET_CONTEXT_TRY_DECODE`: finds and counts the symbol whose slice holds `code`.  The branches
        in which the C code gives up can not be reached. */
    method TryDecode(c: nat, code: nat, update: byte, ghost k: Key, ghost v: byte)
      returns (sym: nat, value: byte, under: nat, count: nat)
      requires Trees() && c < nextSymbol && k.Symbol? && 0 < update
      requires Cum(freq[c], v) <= code < Cum(freq[c], v + 1)
      requires freq[c][v] + update <= 0xFF && Sum(freq[c]) + update <= 0xFFFF
      modifies symbols, `freq
      ensures Trees() && freq == Tally(old(freq), c, v, update)
      ensures value == v && under == Cum(old(freq[c]), v) && count == old(freq[c][v]) > 0
      ensures 0 < sym < nextSymbol && shape.own[sym] == c && symbols[sym].value == v
      ensures forall i :: 0 <= i < nextSymbol ==> SameContext(old(symbols[..])[i], symbols[i])
    {
      ghost var s := symbols[..];
      assert ContextLinked(s, shape, freq, nextSymbol, c);
      var after, before;
      sym, under, after, before := DescendByCode(c, code, update, 0, k, v);
      value, count, under := symbols[sym].value, before, after - before;
      BumpFound(s, symbols[..], shape, freq, nextSymbol, c, v, update, sym);
      freq := Tally(freq, c, v, update);
    }

    /** `ENET_CONTEXT_ROOT_DECODE`: as above at the root, where every value has a slice and a value
        met for the first time gets a node. */
    method RootDecode(c: nat, code: nat, update: byte, ghost v: byte)
      returns (sym: nat, value: byte, under: nat, count: nat)
      requires Trees() && c < nextSymbol < POOL && 0 < update
      requires Below(Root, freq[c], v) <= code < Below(Root, freq[c], v + 1)
      requires freq[c][v] + update <= 0xFF && Sum(freq[c]) + update <= 0xFFFF
      modifies symbols, `nextSymbol, `shape, `freq
      ensures Trees()
      ensures value == v && under == Below(Root, old(freq[c]), v) && count == old(freq[c][v]) + SYMBOL_MINIMUM
      ensures 0 < sym < nextSymbol && shape.own[sym] == c && symbols[sym].value == v
      ensures old(freq[c][v]) > 0 ==>
        nextSymbol == old(nextSymbol) && shape == old(shape) && freq == Tally(old(freq), c, v, update)
      ensures old(freq[c][v]) == 0 ==>
        sym == old(nextSymbol) && nextSymbol == sym + 1 && shape.own == old(shape.own) + [c]
        && freq == Added(old(freq), c, v, update) && symbols[sym] == Node(v, update, update, 0, 0, 0, 0, 0, 0)
      ensures forall i :: 0 <= i < old(nextSymbol) ==> SameContext(old(symbols[..])[i], symbols[i])
    {
      ghost var s := symbols[..];
      if symbols[c].symbols == 0 {
        assert ContextLinked(s, shape, freq, nextSymbol, c);
        CumEmptyRange(freq[c], 0, v);
        value, under, count, sym := code / SYMBOL_MINIMUM, code - code % SYMBOL_MINIMUM, SYMBOL_MINIMUM, nextSymbol;
        Hang(c, value, update, AtContext, c, s);
      } else {
        var at, after, before;
        at, under, after, before := DescendByCode(c, code, update, SYMBOL_MINIMUM, Root, v);
        var node := symbols[at];
        if code >= after {
          value := node.value + 1 + (code - after) / SYMBOL_MINIMUM;
          under, count, sym := code - (code - after) % SYMBOL_MINIMUM, SYMBOL_MINIMUM, nextSymbol;
          Hang(c, value, update, AtRight, at, s);
        } else if code < after - before {
          value := node.value - 1 - (after - before - code - 1) / SYMBOL_MINIMUM;
          under, count, sym := code - (after - before - code - 1) % SYMBOL_MINIMUM, SYMBOL_MINIMUM, nextSymbol;
          Hang(c, value, update, AtLeft, at, s);
        } else {
          value, count, under, sym := node.value, before, after - before, at;
          BumpFound(s, symbols[..], shape, freq, nextSymbol, c, v, update, at);
          freq := Tally(freq, c, v, update);
        }
      }
    }

    /** What follows the counting of a symbol in context `x`, whose table was `c`: the totals, and the
        rescaling when a count or the total grows too large. */
    method Settle(x: nat, count: nat, ghost k: Key, ghost c: Context, ghost v: byte)
      requires Trees() && x < nextSymbol && (k.Root? <==> x == 0) && ContextOk(c, k)
      requires freq[x] == Counted(c, k, v).freq && count == c.freq[v] + Minimum(k)
      requires symbols[x].escapes == c.escapes && symbols[x].total == Total(k, c)
      modifies symbols, `freq
      ensures Trees() && freq == old(freq)[x := Updated(c, k, v).freq]
      ensures symbols[x].escapes == Updated(c, k, v).escapes && symbols[x].total == Total(k, Updated(c, k, v))
      ensures symbols[x].value == old(symbols[x].value) && symbols[x].parent == old(symbols[x].parent)
      ensures forall i :: 0 <= i < nextSymbol && i != x ==> SameContext(old(symbols[..])[i], symbols[i])
    {
      hide ContextOk, Counted, MustRescale;
      ghost var s := symbols[..];
      CountedTotals(c, k, v);
      if x != 0 {
        if count == 0 {
          symbols[x] := symbols[x].(escapes := symbols[x].escapes + SUBCONTEXT_ESCAPE_DELTA,
                                    total := symbols[x].total + SUBCONTEXT_ESCAPE_DELTA);
        }
        symbols[x] := symbols[x].(total := symbols[x].total + SUBCONTEXT_SYMBOL_DELTA);
        Relabel(s, symbols[..], shape, freq, nextSymbol);
        if count > 0xFF - 2 * SUBCONTEXT_SYMBOL_DELTA || symbols[x].total > BOTTOM - 0x100 {
          ContextRescale(x, 0);
        }
      } else {
        symbols[x] := symbols[x].(total := symbols[x].total + SYMBOL_DELTA);
        Relabel(s, symbols[..], shape, freq, nextSymbol);
        if count > 0xFF - 2 * SYMBOL_DELTA + SYMBOL_MINIMUM || symbols[x].total > BOTTOM - 0x100 {
          ContextRescale(x, SYMBOL_MINIMUM);
        }
      }
    }

    /** Codes `v` in the context `k` of node `x`: `ENET_CONTEXT_ENCODE` and what follows it.  Returns
        what the range coder needs, the weights and totals as they were before. */
    method CodeIn(x: nat, v: byte, ghost k: Key, ghost c: Context)
      returns (sym: nat, under: nat, count: nat, escapes: nat, total: nat)
      requires Trees() && x < nextSymbol < POOL && (k.Root? <==> x == 0)
      requires ContextOk(c, k) && ContextHeld(symbols[x], freq[x], k, c)
      modifies symbols, `nextSymbol, `shape, `freq
      ensures Trees() && 0 < sym
      ensures Coded(old(symbols[..]), symbols[..], old(shape), shape, old(freq), freq, old(nextSymbol), nextSymbol, k, c, x, v, sym)
      ensures under == Below(k, c.freq, v) && count == c.freq[v] + Minimum(k) && escapes == c.escapes && total == Total(k, c)
    {
      CountedFits(c, k, v);
      escapes, total := symbols[x].escapes, symbols[x].total;
      if x != 0 {
        sym, under, count := ContextEncode(x, v, SUBCONTEXT_SYMBOL_DELTA, 0);
      } else {
        sym, under, count := ContextEncode(x, v, SYMBOL_DELTA, SYMBOL_MINIMUM);
      }
      Settle(x, count, k, c, v);
    }

    /** Decodes the symbol `v` that `code` stands for in the context `k` of node `x`:
        `ENET_CONTEXT_TRY_DECODE` or `ENET_CONTEXT_ROOT_DECODE`, and what follows it. */
    method DecodeIn(x: nat, code: nat, ghost k: Key, ghost c: Context, ghost v: byte)
      returns (sym: nat, value: byte, under: nat, count: nat)
      requires Trees() && x < nextSymbol < POOL && (k.Root? <==> x == 0)
      requires ContextOk(c, k) && ContextHeld(symbols[x], freq[x], k, c)
      requires Below(k, c.freq, v) <= code < Below(k, c.freq, v + 1)
      modifies symbols, `nextSymbol, `shape, `freq
      ensures Trees() && 0 < sym && value == v && (k.Root? || c.freq[v] > 0)
      ensures Coded(old(symbols[..]), symbols[..], old(shape), shape, old(freq), freq, old(nextSymbol), nextSymbol, k, c, x, v, sym)
      ensures under == Below(k, c.freq, v) && count == c.freq[v] + Minimum(k)
    {
      CountedFits(c, k, v);
      if x != 0 {
        sym, value, under, count := TryDecode(x, code, SUBCONTEXT_SYMBOL_DELTA, k, v);
      } else {
        sym, value, under, count := RootDecode(x, code, SYMBOL_DELTA, v);
      }
      Settle(x, count, k, c, v);
    }
  }
}
