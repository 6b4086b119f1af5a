/**
 The order-2 context model of the range coder, on plain frequency tables.

 Every symbol is the context of what follows it, so a context is named by the symbols that lead to
 it from the root: `Symbol(Symbol(Root, a), b)` is the order-2 context after `a b`.  Its `parent` in
 the C structure is the context that has forgotten the oldest byte, here `Symbol(Root, b)`.
 */
module FrequencyModel {
  import opened Words
  import opened RangeArithmetic

  const SYMBOL_DELTA := 3
  const SYMBOL_MINIMUM := 1
  const ESCAPE_MINIMUM := 1
  const SUBCONTEXT_ORDER := 2
  const SUBCONTEXT_SYMBOL_DELTA := 2
  const SUBCONTEXT_ESCAPE_DELTA := 5
  const POOL := 4096

  datatype Key = Root | Symbol(context: Key, value: byte) {
    function Order(): nat { if Root? then 0 else 1 + context.Order() }

    /** The context without its oldest byte. */
    function Parent(): (p: Key)
      ensures p.Order() == if Root? then 0 else Order() - 1
    {
      if Root? || context.Root? then Root else Symbol(context.Parent(), value)
    }
  }

  /** The count of each byte value, 0 when it has not been seen. */
  type Counts = f: seq<nat> | |f| == 256 witness seq(256, _ => 0)

  /** A table: how often the context escaped, and the counts of its symbols. */
  datatype Context = Context(escapes: nat, freq: Counts)

  function Zeros(): (z: Counts)
    ensures forall v :: 0 <= v < 256 ==> z[v] == 0
  {
    seq(256, _ => 0)
  }

  function Fresh(): Context { Context(0, Zeros()) }

  function Minimum(k: Key): nat { if k.Root? then SYMBOL_MINIMUM else 0 }

  function Delta(k: Key): nat { if k.Root? then SYMBOL_DELTA else SUBCONTEXT_SYMBOL_DELTA }

  /** The counts of the values below `n`. */
  function Cum(f: seq<nat>, n: nat): nat
    requires n <= |f|
  {
    if n == 0 then 0 else Cum(f, n - 1) + f[n - 1]
  }

  function Sum(f: seq<nat>): nat { Cum(f, |f|) }

  /** The weights of the values below `n` in context `k`: at the root, every value weighs at least
      `SYMBOL_MINIMUM`. */
  function Below(k: Key, f: seq<nat>, n: nat): nat
    requires n <= |f|
  {
    Cum(f, n) + if k.Root? then n * SYMBOL_MINIMUM else 0
  }

  function Total(k: Key, c: Context): nat {
    c.escapes + Below(k, c.freq, |c.freq|)
  }

  lemma {:induction false} CumMonotone(f: seq<nat>, a: nat, b: nat)
    requires a <= b <= |f|
    ensures Cum(f, a) <= Cum(f, b)
    decreases b
  {
    if a < b { CumMonotone(f, a, b - 1); }
  }

  lemma {:induction false} CumCovers(f: seq<nat>, v: nat, b: nat)
    requires v < b <= |f|
    ensures Cum(f, v) + f[v] <= Cum(f, b)
  {
    CumMonotone(f, v + 1, b);
  }

  lemma BelowMonotone(k: Key, f: Counts, a: nat, b: nat)
    requires a <= b <= 256
    ensures Below(k, f, a) <= Below(k, f, b)
  {
    CumMonotone(f, a, b);
  }

  lemma {:induction false} CumUpdate(f: seq<nat>, v: nat, x: nat, n: nat)
    requires v < |f| && n <= |f|
    ensures Cum(f[v := x], n) == Cum(f, n) + if v < n then x - f[v] else 0
    decreases n
  {
    if n > 0 { CumUpdate(f, v, x, n - 1); }
  }

  lemma {:induction false} CumEmptyRange(f: seq<nat>, a: nat, b: nat)
    requires a <= b <= |f|
    requires forall w :: a <= w < b ==> f[w] == 0
    ensures Cum(f, a) == Cum(f, b)
    decreases b
  {
    if a < b { CumEmptyRange(f, a, b - 1); }
  }

  lemma FreshOk(k: Key)
    requires k.Symbol?
    ensures ContextOk(Fresh(), k)
  {
    CumEmptyRange(Fresh().freq, 0, |Fresh().freq|);
  }

  // ---- Rescaling ----

  function Halve(x: nat): nat { x - x / 2 }

  function HalveAll(f: Counts): (r: Counts)
    ensures forall v :: 0 <= v < 256 ==> r[v] == Halve(f[v])
  {
    seq(256, v requires 0 <= v < 256 => Halve(f[v]))
  }

  function Rescaled(c: Context): Context {
    Context(Halve(c.escapes), HalveAll(c.freq))
  }

  lemma {:induction false} CumHalve(f: Counts, n: nat)
    requires n <= |f|
    ensures Cum(f, n) <= 2 * Cum(HalveAll(f), n) <= Cum(f, n) + n
    decreases n
  {
    if n > 0 { CumHalve(f, n - 1); }
  }

  // ---- One table ----

  /** The counts fit a byte, the total a 16-bit word, and an order-1 or order-2 table has escapes
      exactly when it has symbols, and not too many. */
  ghost predicate ContextOk(c: Context, k: Key) {
    && (forall v :: 0 <= v < 256 ==> c.freq[v] <= 0xFF - Delta(k))
    && Total(k, c) <= BOTTOM - 0x100
    && (if k.Root? then c.escapes == ESCAPE_MINIMUM
        else (c.escapes > 0 <==> Sum(c.freq) > 0) && c.escapes <= SUBCONTEXT_ESCAPE_DELTA * Sum(c.freq))
  }

  /** The table once `v` has been coded in it, before any rescaling. */
  function Counted(c: Context, k: Key, v: byte): Context {
    Context(c.escapes + (if !k.Root? && c.freq[v] == 0 then SUBCONTEXT_ESCAPE_DELTA else 0),
            c.freq[v := c.freq[v] + Delta(k)])
  }

  /** Whether the C code rescales at this point. */
  predicate MustRescale(c: Context, k: Key, v: byte) {
    || c.freq[v] + Minimum(k) > 0xFF - 2 * Delta(k) + Minimum(k)
    || Total(k, Counted(c, k, v)) > BOTTOM - 0x100
  }

  function Updated(c: Context, k: Key, v: byte): Context {
    if MustRescale(c, k, v) then Rescaled(Counted(c, k, v)) else Counted(c, k, v)
  }

  lemma CountedFits(c: Context, k: Key, v: byte)
    requires ContextOk(c, k)
    ensures Total(k, Counted(c, k, v)) <= BOTTOM - 0x100 + 7
    ensures Sum(Counted(c, k, v).freq) == Sum(c.freq) + Delta(k)
    ensures forall w :: 0 <= w < 256 ==> Counted(c, k, v).freq[w] <= 0xFF
  {
    CumUpdate(c.freq, v, c.freq[v] + Delta(k), |c.freq|);
  }

  lemma CountedTotals(c: Context, k: Key, v: byte)
    requires ContextOk(c, k)
    ensures var d := Counted(c, k, v);
      && d.escapes == c.escapes + (if k.Symbol? && c.freq[v] == 0 then SUBCONTEXT_ESCAPE_DELTA else 0) <= Total(k, d)
      && Total(k, d) == Total(k, c) + Delta(k) + d.escapes - c.escapes <= BOTTOM - 0x100 + 7
      && (MustRescale(c, k, v) <==> c.freq[v] > 0xFF - 2 * Delta(k) || Total(k, d) > BOTTOM - 0x100)
  {
    CountedFits(c, k, v);
    CumUpdate(c.freq, v, c.freq[v] + Delta(k), |c.freq|);
  }

  /** Coding a symbol keeps a table well formed, and adds no other symbol. */
  lemma UpdatedOk(c: Context, k: Key, v: byte)
    requires ContextOk(c, k)
    ensures ContextOk(Updated(c, k, v), k)
    ensures forall w: nat :: w < 256 ==> (Updated(c, k, v).freq[w] > 0 <==> w == v || c.freq[w] > 0)
  {
    CountedFits(c, k, v);
    CumCovers(c.freq, v, |c.freq|);
    CumHalve(Counted(c, k, v).freq, |c.freq|);
  }
}
