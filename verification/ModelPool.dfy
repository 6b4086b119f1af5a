/**
 The range coder's pool of nodes as the context model: both sides code bytes in it the same way.
 */
module ModelPools {
  import opened Words
  import opened RangeArithmetic
  import opened FrequencyModel
  import opened SymbolTrees
  import opened RangeCodec
  import opened SymbolNames
  import opened RangeCoders

  /** The pool stands for the model's tables.  The `parent` of node `pending` is not set yet. */
  ghost predicate Holds(coder: RangeCoder, pending: int)
    reads coder, coder.symbols
  {
    && 0 < |coder.keys| == coder.nextSymbol == |coder.tables| && coder.keys[0] == Root
    && Stands(coder, pending)
  }

  ghost predicate Stands(coder: RangeCoder, pending: int)
    reads coder, coder.symbols
  {
    && coder.Trees()
    && Names(coder.symbols[..], coder.shape, coder.freq, coder.nextSymbol, coder.keys, coder.tables)
    && Parents(coder.symbols[..], coder.nextSymbol, coder.keys, pending)
  }

  /** `*parent = symbol`. */
  method Point(coder: RangeCoder, slot: int, sym: u16, ghost pending: int)
    requires coder.Trees() && slot < coder.nextSymbol
    requires Names(coder.symbols[..], coder.shape, coder.freq, coder.nextSymbol, coder.keys, coder.tables)
    requires Parents(Pointed(coder.symbols[..], slot, sym), coder.nextSymbol, coder.keys, pending)
    modifies coder.symbols
    ensures Holds(coder, pending)
  {
    if 0 < slot {
      ghost var m := coder.symbols[..];
      coder.symbols[slot] := coder.symbols[slot].(parent := sym);
      Relabel(m, coder.symbols[..], coder.shape, coder.freq, coder.nextSymbol);
      NamesRelabel(m, coder.symbols[..], coder.shape, coder.freq, coder.nextSymbol, coder.keys, coder.tables);
    }
  }

  /** Points `slot`, if there is one, to a symbol that exists already. */
  method Link(coder: RangeCoder, slot: int, sym: u16)
    requires Holds(coder, slot) && slot < coder.nextSymbol && sym < coder.nextSymbol
    requires 0 < slot ==> coder.keys[slot].Parent() == coder.keys[sym]
    modifies coder.symbols
    ensures Holds(coder, -1)
  {
    ParentsPointed(coder.symbols[..], coder.nextSymbol, coder.keys, slot, sym);
    Point(coder, slot, sym, -1);
  }

  lemma DifferentNames(coder: RangeCoder, pending: int, p: nat, x: nat)
    requires Holds(coder, pending) && p < coder.nextSymbol && x < coder.nextSymbol && p != x
    ensures coder.keys[p] != coder.keys[x]
  {
  }

  /** Codes `v` in the context of node `x`, and points the longer context's symbol `slot`, if there
      is one, to the symbol found or created here. */
  method Account(coder: RangeCoder, x: nat, v: byte, slot: int, ghost k: Key, ghost c: Context)
    returns (sym: nat, under: nat, count: nat, escapes: nat, total: nat)
    requires Holds(coder, slot) && x < coder.nextSymbol < POOL && slot < coder.nextSymbol
    requires k == coder.keys[x] && c == coder.tables[k]
    requires ContextOk(c, k) && (Symbol(k, v) in coder.tables <==> c.freq[v] > 0)
    requires 0 < slot ==> coder.keys[slot].Parent() == Symbol(k, v)
    modifies coder, coder.symbols
    ensures Holds(coder, if x != 0 && count == 0 then sym else -1)
    ensures coder.tables == Touch(old(coder.tables), k, c, v)
    ensures coder.nextSymbol <= old(coder.nextSymbol) + 1 && 0 < sym < coder.nextSymbol
    ensures coder.keys == Renamed(old(coder.keys), x, v, coder.nextSymbol) && coder.keys[sym] == Symbol(k, v)
    ensures under == Below(k, c.freq, v) && count == c.freq[v] + Minimum(k) && escapes == c.escapes && total == Total(k, c)
  {
    ghost var s, g, f, n := coder.symbols[..], coder.shape, coder.freq, coder.nextSymbol;
    sym, under, count, escapes, total := coder.CodeIn(x, v, k, c);
    NamesCoded(s, coder.symbols[..], g, coder.shape, f, coder.freq, n, coder.nextSymbol, coder.keys, coder.tables, x, v, sym);
    ParentsCoded(s, coder.symbols[..], g, coder.shape, f, coder.freq, n, coder.nextSymbol, coder.keys, coder.tables, x, v, sym, slot);
    coder.keys, coder.tables := Renamed(coder.keys, x, v, coder.nextSymbol), Touch(coder.tables, k, c, v);
    Point(coder, slot, sym, if x != 0 && count == 0 then sym else -1);
  }

  /** Decodes the symbol `v` that `code` stands for in the context of node `x`. */
  method Recover(coder: RangeCoder, x: nat, code: nat, ghost k: Key, ghost c: Context, ghost v: byte)
    returns (sym: nat, value: byte, under: nat, count: nat, escapes: nat, total: nat)
    requires Holds(coder, -1) && x < coder.nextSymbol < POOL
    requires k == coder.keys[x] && c == coder.tables[k]
    requires ContextOk(c, k) && (Symbol(k, v) in coder.tables <==> c.freq[v] > 0)
    requires Below(k, c.freq, v) <= code - c.escapes < Below(k, c.freq, v + 1)
    modifies coder, coder.symbols
    ensures value == v && Holds(coder, -1) && coder.tables == Touch(old(coder.tables), k, c, v)
    ensures coder.nextSymbol <= old(coder.nextSymbol) + 1 && 0 < sym < coder.nextSymbol
    ensures coder.keys == Renamed(old(coder.keys), x, v, coder.nextSymbol) && coder.keys[sym] == Symbol(k, v)
    ensures under == Below(k, c.freq, v) && count == c.freq[v] + Minimum(k) && escapes == c.escapes && total == Total(k, c)
  {
    ghost var s, g, f, n := coder.symbols[..], coder.shape, coder.freq, coder.nextSymbol;
    escapes, total := coder.symbols[x].escapes, coder.symbols[x].total;
    sym, value, under, count := coder.DecodeIn(x, code - escapes, k, c, v);
    NamesCoded(s, coder.symbols[..], g, coder.shape, f, coder.freq, n, coder.nextSymbol, coder.keys, coder.tables, x, v, sym);
    ParentsCoded(s, coder.symbols[..], g, coder.shape, f, coder.freq, n, coder.nextSymbol, coder.keys, coder.tables, x, v, sym, -1);
    coder.keys, coder.tables := Renamed(coder.keys, x, v, coder.nextSymbol), Touch(coder.tables, k, c, v);
  }

  // ---- The model between two bytes ----

  /** The pool stands for the model `m`; `predicted` and `order` lead to the context of the next byte. */
  ghost predicate Ready(coder: RangeCoder, m: Model, predicted: nat, order: nat)
    reads coder, coder.symbols
  {
    && Holds(coder, -1) && coder.tables == m.tables && m.Valid()
    && predicted < coder.nextSymbol && coder.keys[predicted] == m.predicted && order == m.predicted.Order()
    && Timely(coder.keys, m.tables, m.born)
  }

  lemma HoldsLists(coder: RangeCoder, pending: int)
    requires Holds(coder, pending)
    ensures Lists(coder.keys, coder.tables)
  {
    hide RangeCoder.Trees, Parents;
  }

  /** An empty pool with just the root: `ENET_CONTEXT_CREATE`. */
  method Restart(coder: RangeCoder)
    requires coder.symbols.Length == POOL
    modifies coder, coder.symbols
    ensures Ready(coder, Initial(), 0, 0)
  {
    coder.symbols[0] := Node(0, 0, 0, 0, 0, 0, ESCAPE_MINIMUM, ESCAPE_MINIMUM + 256 * SYMBOL_MINIMUM, 0);
    coder.nextSymbol, coder.shape, coder.freq := 1, Shape([0], [0], [0], [0]), [Zeros()];
    coder.keys, coder.tables := [Root], Initial().tables;
    InitialValid();
    CumEmptyRange(RootTable().freq, 0, |RootTable().freq|);
  }

  /** What follows every byte: the next prediction, and `ENET_RANGE_CODER_FREE_SYMBOLS`. */
  method Proceed(coder: RangeCoder, next: nat, order: nat, ghost m: Model, ghost last: Key, ghost v: byte,
                 ghost names: seq<Key>)
    returns (predicted: nat, order': nat)
    requires m.Valid() && Reaches(m.predicted, last) && last in m.tables && (last.Root? || m.tables[last].freq[v] > 0)
    requires Holds(coder, -1) && coder.tables == LearnTo(m.tables, m.predicted, last, v)
    requires next < coder.nextSymbol && coder.keys[next] == Symbol(m.predicted, v) && order == m.predicted.Order()
    requires Lists(names, m.tables) && Timely(names, m.tables, m.born) && Extends(names, coder.keys, v)
    modifies coder, coder.symbols
    ensures Ready(coder, Follow(m, last, v), predicted, order')
  {
    hide Names, Linked, Weighs, LearnTo, Reaches, WellFormed, Timely, Lists, Extends;
    FollowValid(m, last, v);
    HoldsLists(coder, -1);
    TimelyOn(names, coder.keys, m.tables, coder.tables, m.born, v);
    predicted, order' := next, order;
    if order >= SUBCONTEXT_ORDER {
      ParentOf(coder.symbols[..], coder.nextSymbol, coder.keys, -1, next);
      predicted := coder.symbols[next].parent;
    } else {
      order' := order + 1;
    }
    if coder.nextSymbol >= POOL - SUBCONTEXT_ORDER {
      Restart(coder);
      predicted, order' := 0, 0;
    }
  }
}
