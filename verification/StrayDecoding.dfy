/**
 Decompression of a stream that no encoder made, from the first code on that lies in no slice.
 */
module StrayDecoding {
  import opened Basics
  import opened Words
  import opened RangeArithmetic
  import opened FrequencyModel
  import opened SymbolTrees
  import opened RangeStreams
  import opened StrayPools

  // ---- Rescaling ----

  /** The nodes in `a` are those of `s` with half the counts, the others those of `o`. */
  ghost predicate HalvedIn(s: seq<Node>, o: seq<Node>, t: seq<Node>, a: set<nat>) {
    && |s| == |o| == |t|
    && forall j :: 0 <= j < |s| ==>
         t[j] == if j in a then s[j].(count := Halve(s[j].count), under := t[j].under) else o[j]
  }

  lemma HalvedMore(s: seq<Node>, o: seq<Node>, m: seq<Node>, t: seq<Node>, a: set<nat>, b: set<nat>)
    requires HalvedIn(s, o, m, a) && HalvedIn(s, m, t, b) && a !! b
    ensures HalvedIn(s, o, t, a + b)
  {
  }

  lemma HalvedNode(s: seq<Node>, o: seq<Node>, t: seq<Node>, a: set<nat>, p: nat, under: u16)
    requires HalvedIn(s, o, t, a) && p < |s| && p !in a && o[p] == s[p]
    ensures HalvedIn(s, o, t[p := t[p].(count := Halve(t[p].count), under := under)], a + {p})
  {
  }

  /** One node of the loop of `enet_symbol_rescale`, with what is to its left. */
  method HalveNode(symbols: array<Node>, p: nat, ghost s: seq<Node>, ghost g: Frame) returns (under: nat)
    requires symbols.Length == |s| && Woven(s, g) && 0 < p < |g.own| && Part(s, Subtree(s, p), |s|) <= 0xFFFF
    requires forall j :: 0 <= j < |s| && j in Subtree(s, p) ==> symbols[j] == s[j]
    modifies symbols
    ensures under == Part(s, LeftTree(s, p) + {p}, |s|)
    ensures HalvedIn(s, old(symbols[..]), symbols[..], LeftTree(s, p) + {p})
    decreases |s| - p, 0
  {
    hide Woven, Subtree, Part;
    HalfSums(s, g, p);
    var node := symbols[p];
    var count := node.count - node.count / 2;
    under := count;
    if node.left != 0 {
      var below := HalveTree(symbols, p + node.left, s, g);
      under := under + below;
    }
    HalvedNode(s, old(symbols[..]), symbols[..], LeftTree(s, p), p, under);
    symbols[p] := symbols[p].(count := count, under := under);
  }

  lemma HalfSums(s: seq<Node>, g: Frame, p: nat)
    requires Woven(s, g) && 0 < p < |g.own|
    ensures p < |g.own| <= |s| && p in Subtree(s, p) && p !in LeftTree(s, p) && LeftTree(s, p) <= Subtree(s, p)
    ensures Part(s, LeftTree(s, p) + {p}, |s|) == Part(s, LeftTree(s, p), |s|) + Halve(s[p].count)
    ensures Part(s, Subtree(s, p), |s|) == Part(s, LeftTree(s, p) + {p}, |s|) + Part(s, RightTree(s, p), |s|)
    ensures (LeftTree(s, p) + {p}) !! RightTree(s, p) && Subtree(s, p) == LeftTree(s, p) + {p} + RightTree(s, p)
    ensures s[p].left == 0 ==> Part(s, LeftTree(s, p), |s|) == 0
    ensures s[p].left != 0 ==> p + s[p].left < |g.own|
    ensures s[p].right != 0 ==> p + s[p].right < |g.own|
  {
    assert NodeWoven(s, g, p);
    Halves(s, g, p);
    hide Woven, Part, Subtree;
    PartOne(s, p, |s|);
    PartNone(s, |s|);
    PartJoin(s, LeftTree(s, p), {p}, |s|);
    PartJoin(s, LeftTree(s, p) + {p}, RightTree(s, p), |s|);
    assert {p} + LeftTree(s, p) + RightTree(s, p) == LeftTree(s, p) + {p} + RightTree(s, p);
  }

  /** `enet_symbol_rescale`: the loop down the right side of a tree, with its recursion to the left, halves all
      its counts and returns their sum, in whatever order its values are. */
  method HalveTree(symbols: array<Node>, i: nat, ghost s: seq<Node>, ghost g: Frame) returns (total: nat)
    requires symbols.Length == |s| && Woven(s, g) && 0 < i < |g.own| && Part(s, Subtree(s, i), |s|) <= 0xFFFF
    requires forall j :: 0 <= j < |s| && j in Subtree(s, i) ==> symbols[j] == s[j]
    modifies symbols
    ensures total == Part(s, Subtree(s, i), |s|)
    ensures HalvedIn(s, old(symbols[..]), symbols[..], Subtree(s, i))
    decreases |s| - i, 1
  {
    hide Woven, Subtree, Part, LeftTree, RightTree;
    ghost var done: set<nat> := {};
    var p := i;
    total := 0;
    PartNone(s, |s|);
    HalfSums(s, g, i);
    while true
      invariant i <= p < |g.own| <= |s|
      invariant done !! Subtree(s, p) && done + Subtree(s, p) == Subtree(s, i)
      invariant total == Part(s, done, |s|) && Part(s, Subtree(s, i), |s|) == total + Part(s, Subtree(s, p), |s|)
      invariant HalvedIn(s, old(symbols[..]), symbols[..], done)
      decreases |s| - p
    {
      HalfSums(s, g, p);
      ghost var m, here := symbols[..], LeftTree(s, p) + {p};
      var under := HalveNode(symbols, p, s, g);
      HalvedMore(s, old(symbols[..]), m, symbols[..], done, here);
      PartJoin(s, done, here, |s|);
      total := total + under;
      RightIs(s, p);
      assert p in here;
      if symbols[p].right == 0 {
        assert done + here == Subtree(s, i);
        return;
      }
      done := done + here;
      p := p + symbols[p].right;
    }
  }

  lemma RightIs(s: seq<Node>, p: nat)
    requires p < |s|
    ensures RightTree(s, p) == if s[p].right == 0 then {} else Subtree(s, p + s[p].right)
  {
  }

  /** The pool once context `c` has been rescaled. */
  ghost predicate Rescaled(s: seq<Node>, t: seq<Node>, g: Frame, c: nat) {
    && c < |g.own| <= |s| == |t|
    && t[c].escapes == Halve(s[c].escapes) && t[c].total == t[c].escapes + Mass(t, g.own, c, |g.own|) + 256 * Least(c)
    && (forall j :: 0 <= j < |s| && j != c ==> t[j].escapes == s[j].escapes && t[j].total == s[j].total)
    && (forall j :: 0 < j < |g.own| ==> t[j].count == if g.own[j] == c then Halve(s[j].count) else s[j].count)
    && (forall j :: 0 <= j < |s| ==> SameHooks(s[j], t[j]) && t[j].parent == s[j].parent && t[j].value == s[j].value)
    && Mass(s, g.own, c, |g.own|) <= 2 * Mass(t, g.own, c, |g.own|) <= Mass(s, g.own, c, |g.own|) + |g.own|
  }

  /** `ENET_CONTEXT_RESCALE`. */
  method Rescale(symbols: array<Node>, c: nat, ghost g: Frame)
    requires symbols.Length == POOL && Woven(symbols[..], g) && c < |g.own|
    requires symbols[c].escapes + Mass(symbols[..], g.own, c, |g.own|) + 256 * Least(c) <= 0xFFFF
    modifies symbols
    ensures Rescaled(old(symbols[..]), symbols[..], g, c)
  {
    hide Woven, Mass, Part, Subtree;
    ghost var s := symbols[..];
    ghost var tree := TreeSet(s, g, c);
    var total := 0;
    if symbols[c].symbols != 0 {
      total := HalveTree(symbols, c + symbols[c].symbols, s, g);
    } else {
      PartNone(s, |s|);
    }
    var escapes := symbols[c].escapes - symbols[c].escapes / 2;
    symbols[c] := symbols[c].(escapes := escapes, total := total + escapes + 256 * Least(c));
    MassHalved(s, symbols[..], g.own, c, tree, |g.own|);
  }

  lemma TreeSet(s: seq<Node>, g: Frame, c: nat) returns (tree: set<nat>)
    requires Woven(s, g) && c < |g.own|
    ensures |g.own| <= |s| && (forall j :: j in tree <==> 0 < j < |g.own| && g.own[j] == c)
    ensures tree == if s[c].symbols == 0 then {} else Subtree(s, c + s[c].symbols)
    ensures Part(s, tree, |s|) == Part(s, tree, |g.own|) <= Mass(s, g.own, c, |g.own|)
    ensures s[c].symbols != 0 ==> 0 < c + s[c].symbols < |g.own|
  {
    hide Part, Mass, Subtree;
    tree := if s[c].symbols == 0 then {} else Subtree(s, c + s[c].symbols);
    forall j | 0 < j < |g.own| && g.own[j] == c ensures j in tree {
      TreeReaches(s, g, c, j);
    }
    forall j | j in tree ensures 0 < j < |g.own| && g.own[j] == c {
      TreeOf(s, g, c, j);
    }
    if s[c].symbols != 0 { TreeOf(s, g, c, 0); }
    PartBeyond(s, tree, |g.own|, |s|);
    PartMass(s, g.own, c, tree, |g.own|);
  }

  lemma {:induction false} PartBeyond(s: seq<Node>, a: set<nat>, n: nat, m: nat)
    requires n <= m <= |s| && forall j :: j in a ==> j < n
    ensures Part(s, a, m) == Part(s, a, n)
    decreases m
  {
    if n < m { PartBeyond(s, a, n, m - 1); }
  }

  lemma {:induction false} PartMass(s: seq<Node>, own: seq<nat>, c: nat, a: set<nat>, n: nat)
    requires n <= |own| && n <= |s| && forall j :: j in a ==> 0 < j < |own| && own[j] == c
    ensures Part(s, a, n) <= Mass(s, own, c, n)
  {
    if n > 1 { PartMass(s, own, c, a, n - 1); }
  }

  // ---- Searching ----

  /** Where a search ends: at the symbol, or at a free place. */
  datatype Spot = Found | Gap(slot: Slot)

  predicate Spotted(s: seq<Node>, g: Frame, c: nat, spot: Spot, at: nat) {
    match spot
    case Found => 0 < at < |g.own| <= |s| && g.own[at] == c
    case Gap(slot) => Free(s, g, c, slot, at)
  }

  /** Nothing but `under` has changed. */
  ghost predicate Alike(s: seq<Node>, t: seq<Node>) {
    |s| == |t| && forall j :: 0 <= j < |s| ==> t[j] == s[j].(under := t[j].under)
  }

  lemma AlikeSound(s: seq<Node>, t: seq<Node>, g: Frame, skip: set<nat>)
    requires Sound(s, g, skip) && Alike(s, t)
    ensures Sound(t, g, skip)
  {
    WovenSame(s, t, g) by { hide Mass; }
    hide Woven;
    WeighedSame(s, t, g, -1);
    RaisedSame(s, t, g, skip);
  }

  lemma WeighedSame(s: seq<Node>, t: seq<Node>, g: Frame, but: int)
    requires Weighed(s, g, but) && |t| == |s|
    requires forall i :: 0 <= i < |g.own| ==>
      t[i].count == s[i].count && t[i].escapes == s[i].escapes && t[i].total == s[i].total
    ensures Weighed(t, g, but)
  {
    hide Mass;
    forall c | 0 <= c < |g.own| ensures Adds(t, g, c) {
      MassSame(s, t, g.own, g.own, c, |g.own|);
      assert Adds(s, g, c);
    }
  }

  lemma RaisedSame(s: seq<Node>, t: seq<Node>, g: Frame, skip: set<nat>)
    requires Raised(s, g, skip) && |t| == |s| && forall i :: 0 <= i < |g.own| ==> t[i].parent == s[i].parent
    ensures Raised(t, g, skip)
  {
    forall i | 0 < i < |g.own| && i !in skip ensures RaisedAt(t, g, i) {
      assert RaisedAt(s, g, i);
    }
  }

  lemma Child(s: seq<Node>, g: Frame, i: nat)
    requires Woven(s, g) && 0 < i < |g.own|
    ensures |g.own| <= |s|
    ensures s[i].left != 0 ==> i + s[i].left < |g.own| && g.own[i + s[i].left] == g.own[i]
    ensures s[i].right != 0 ==> i + s[i].right < |g.own| && g.own[i + s[i].right] == g.own[i]
  {
    assert NodeWoven(s, g, i);
  }

  lemma Top(s: seq<Node>, g: Frame, c: nat)
    requires Woven(s, g) && c < |g.own|
    ensures |g.own| <= |s| && (s[c].symbols != 0 ==> 0 < c + s[c].symbols < |g.own| && g.own[c + s[c].symbols] == c)
  {
    assert ContextWoven(s, g, c);
  }

  function Word16(x: int): u16 { x % 0x1_0000 }

  function Octet(x: int): byte { x % 0x100 }

  /** The search of `ENET_CONTEXT_ENCODE`: it ends, in any tree. */
  method SeekValue(symbols: array<Node>, c: nat, v: byte, gain: nat, ghost g: Frame) returns (spot: Spot, at: nat)
    requires symbols.Length == POOL && Woven(symbols[..], g) && c < |g.own|
    modifies symbols
    ensures Alike(old(symbols[..]), symbols[..]) && Spotted(symbols[..], g, c, spot, at)
    ensures spot.Found? ==> at < POOL && symbols[at].value == v
  {
    hide Woven;
    ghost var s := symbols[..];
    Top(s, g, c);
    if symbols[c].symbols == 0 {
      return Gap(AtContext), c;
    }
    at := c + symbols[c].symbols;
    while true
      invariant 0 < at < |g.own| && g.own[at] == c && Alike(s, symbols[..])
      decreases |g.own| - at
    {
      Child(s, g, at);
      assert symbols[at] == s[at].(under := symbols[at].under);
      var node := symbols[at];
      if v < node.value {
        symbols[at] := node.(under := Word16(node.under + gain));
        if node.left == 0 {
          return Gap(AtLeft), at;
        }
        at := at + node.left;
      } else if v > node.value {
        if node.right == 0 {
          return Gap(AtRight), at;
        }
        at := at + node.right;
      } else {
        symbols[at] := node.(under := Word16(node.under + gain));
        return Found, at;
      }
    }
  }

  /** The search of `ENET_CONTEXT_DECODE`, on 16-bit numbers: it ends, in any tree and with any code.  `value` and
      `under` are what the C code makes of the place where it ends. */
  method SeekCode(symbols: array<Node>, c: nat, code: u16, gain: nat, ghost g: Frame)
    returns (spot: Spot, at: nat, value: byte, under: u16)
    requires symbols.Length == POOL && Woven(symbols[..], g) && c < |g.own|
    modifies symbols
    ensures Alike(old(symbols[..]), symbols[..]) && Spotted(symbols[..], g, c, spot, at)
    ensures spot.Found? ==> at < POOL && symbols[at].value == value
  {
    hide Woven;
    ghost var s := symbols[..];
    Top(s, g, c);
    if symbols[c].symbols == 0 {
      return Gap(AtContext), c, Octet(code), code;
    }
    under, at := 0, c + symbols[c].symbols;
    while true
      invariant 0 < at < |g.own| && g.own[at] == c && Alike(s, symbols[..])
      decreases |g.own| - at
    {
      Child(s, g, at);
      assert symbols[at] == s[at].(under := symbols[at].under);
      var node := symbols[at];
      var after, before := Word16(under + node.under + (node.value + 1) * Least(c)), node.count + Least(c);
      if code >= after {
        under := Word16(under + node.under);
        if node.right == 0 {
          return Gap(AtRight), at, Octet(node.value + 1 + (code - after)), code;
        }
        at := at + node.right;
      } else if code < after - before {
        symbols[at] := node.(under := Word16(node.under + gain));
        if node.left == 0 {
          return Gap(AtLeft), at, Octet(node.value - 1 - (after - before - code - 1)), code;
        }
        at := at + node.left;
      } else {
        symbols[at] := node.(under := Word16(node.under + gain));
        return Found, at, node.value, Word16(after - before);
      }
    }
  }

  // ---- Counting ----

  function After(g: Frame, c: nat, spot: Spot, at: nat): Frame
    requires c < |g.depth|
  {
    if spot.Found? then g else Raise(g, c, at)
  }

  function Sym(n: nat, spot: Spot, at: nat): nat { if spot.Found? then at else n }

  /** The symbol of context `c` is counted, or made: what the search found, without the totals. */
  function Bumped(s: seq<Node>, n: nat, c: nat, spot: Spot, at: nat, v: byte): seq<Node>
    requires at < n < |s| <= POOL && (spot.Found? ==> s[at].count + Gain(c) <= 0xFF)
  {
    if spot.Found? then s[at := s[at].(count := s[at].count + Gain(c))]
    else Hung(s, n, spot.slot, at, Node(v, Gain(c), Gain(c), 0, 0, 0, 0, 0, 0))
  }

  /** What the context's escapes grow by: five when a symbol is new, but for the root. */
  function Surprise(c: nat, spot: Spot): nat { if spot.Found? || c == 0 then 0 else SUBCONTEXT_ESCAPE_DELTA }

  /** The pool once the totals have followed. */
  function Totalled(s: seq<Node>, c: nat, more: nat): seq<Node>
    requires c < |s| && s[c].total + more + Gain(c) <= 0xFFFF && s[c].escapes + more <= 0xFFFF
  {
    s[c := s[c].(escapes := s[c].escapes + more, total := s[c].total + more + Gain(c))]
  }

  lemma SpotWoven(s: seq<Node>, g: Frame, c: nat, spot: Spot, at: nat, v: byte)
    requires Woven(s, g) && |g.own| < |s| <= POOL && Spotted(s, g, c, spot, at) && c < |g.own| && g.depth[c] <= SUBCONTEXT_ORDER
    requires spot.Found? ==> s[at].count + Gain(c) <= 0xFF
    ensures Woven(Bumped(s, |g.own|, c, spot, at, v), After(g, c, spot, at))
  {
    if spot.Found? {
      WovenSame(s, Bumped(s, |g.own|, c, spot, at, v), g);
    } else {
      HungWoven(s, g, c, spot.slot, at, Node(v, Gain(c), Gain(c), 0, 0, 0, 0, 0, 0));
    }
  }

  /** One context's mass grows by the gain, and no other's. */
  lemma SpotMass(s: seq<Node>, g: Frame, c: nat, spot: Spot, at: nat, v: byte, b: nat)
    requires |g.own| == |g.depth| < |s| <= POOL && Spotted(s, g, c, spot, at) && c < |g.own| && 0 < |g.own|
    requires spot.Found? ==> s[at].count + Gain(c) <= 0xFF
    ensures var h := After(g, c, spot, at);
      Mass(Bumped(s, |g.own|, c, spot, at, v), h.own, b, |h.own|) == Mass(s, g.own, b, |g.own|) + if b == c then Gain(c) else 0
  {
    var n, t := |g.own|, Bumped(s, |g.own|, c, spot, at, v);
    if spot.Found? {
      MassUpdate(s, g.own, b, n, at, t[at]);
    } else {
      MassSame(s, t, g.own, Raise(g, c, at).own, b, n);
    }
  }

  lemma SpotRaised(s: seq<Node>, g: Frame, c: nat, spot: Spot, at: nat, v: byte, skip: set<nat>)
    requires Raised(s, g, skip) && |g.own| < |s| <= POOL && Spotted(s, g, c, spot, at) && c < |g.own|
    requires spot.Found? ==> s[at].count + Gain(c) <= 0xFF
    requires |g.up| == |g.own| && g.depth[0] == 0
    ensures var t, h := Bumped(s, |g.own|, c, spot, at, v), After(g, c, spot, at);
      && Raised(t, h, skip + {Sym(|g.own|, spot, at)}) && (spot.Found? || c == 0 ==> Raised(t, h, skip))
      && (forall i :: 0 <= i < |g.own| ==> t[i].parent == s[i].parent)
  {
    var n, t, h := |g.own|, Bumped(s, |g.own|, c, spot, at, v), After(g, c, spot, at);
    forall i | 0 < i < n && i !in skip ensures RaisedAt(t, h, i) {
      assert RaisedAt(s, g, i);
    }
  }

  lemma {:induction false} NoMass(s: seq<Node>, own: seq<nat>, c: nat, n: nat)
    requires n <= |own| && n <= |s| && forall i :: 0 < i < n ==> own[i] != c
    ensures Mass(s, own, c, n) == 0
  {
    if n > 1 { NoMass(s, own, c, n - 1); }
  }

  lemma SpotTotals(s: seq<Node>, g: Frame, c: nat, spot: Spot, at: nat, v: byte, b: nat)
    requires Weighed(s, g, -1) && |g.own| == |g.depth| < |s| <= POOL && Spotted(s, g, c, spot, at) && c < |g.own|
    requires (forall i :: 0 < i < |g.own| ==> g.own[i] < i) && (spot.Found? ==> s[at].count + Gain(c) <= 0xFF)
    requires s[c].total <= 0xFF00 && s[c].escapes <= s[c].total && b < |After(g, c, spot, at).own|
    ensures var t := Totalled(Bumped(s, |g.own|, c, spot, at, v), c, Surprise(c, spot));
      Adds(t, After(g, c, spot, at), b) && (b != c ==> t[b].total <= 0xFF00)
  {
    var h, u := After(g, c, spot, at), Bumped(s, |g.own|, c, spot, at, v);
    var t := Totalled(u, c, Surprise(c, spot));
    MassSame(u, t, h.own, h.own, b, |h.own|);
    SpotMass(s, g, c, spot, at, v, b);
    if b < |g.own| {
      assert Adds(s, g, b);
    } else {
      NoMass(s, g.own, b, b);
    }
    hide Mass;
  }

  lemma SpotWeighed(s: seq<Node>, g: Frame, c: nat, spot: Spot, at: nat, v: byte)
    requires Weighed(s, g, -1) && |g.own| == |g.depth| < |s| <= POOL && Spotted(s, g, c, spot, at) && c < |g.own|
    requires forall i :: 0 < i < |g.own| ==> g.own[i] < i
    ensures (spot.Found? ==> s[at].count + Gain(c) <= 0xFF) && s[c].total <= 0xFF00 && s[c].escapes <= s[c].total
    ensures Weighed(Totalled(Bumped(s, |g.own|, c, spot, at, v), c, Surprise(c, spot)), After(g, c, spot, at), c)
  {
    hide Mass;
    assert Adds(s, g, c);
    var h := After(g, c, spot, at);
    SpotCounts(s, g, c, spot, at, v);
    forall b | 0 <= b < |h.own|
      ensures var t := Totalled(Bumped(s, |g.own|, c, spot, at, v), c, Surprise(c, spot)); Adds(t, h, b) && (b != c ==> t[b].total <= 0xFF00)
    {
      SpotTotals(s, g, c, spot, at, v, b);
    }
  }

  lemma SpotCounts(s: seq<Node>, g: Frame, c: nat, spot: Spot, at: nat, v: byte)
    requires Weighed(s, g, -1) && |g.own| == |g.depth| < |s| <= POOL && Spotted(s, g, c, spot, at) && c < |g.own| && 0 < |g.own|
    requires spot.Found? ==> s[at].count + Gain(c) <= 0xFF
    ensures var u, h := Bumped(s, |g.own|, c, spot, at, v), After(g, c, spot, at);
      && (forall i :: 0 < i < |h.own| ==> 1 <= u[i].count)
      && (forall i :: 0 < i < |h.own| && (i != Sym(|g.own|, spot, at) || h.own[i] != c || !spot.Found? || s[at].count + 2 * Gain(c) <= 0xFF)
            ==> u[i].count <= 0xFF - Gain(h.own[i]))
  {
    hide Adds;
  }

  /** Rescaling a context brings it back into its bounds. */
  lemma RescaledWeighed(s: seq<Node>, t: seq<Node>, g: Frame, c: nat)
    requires Weighed(s, g, c) && Rescaled(s, t, g, c) && |g.own| <= POOL
    ensures Weighed(t, g, -1)
  {
    hide Mass;
    forall b | 0 <= b < |g.own| ensures Adds(t, g, b) && t[b].total <= 0xFF00 {
      assert Adds(s, g, b) && Adds(s, g, c);
      if b != c { MassOther(s, t, g.own, b, |g.own|); }
    }
  }

  lemma Earlier(s: seq<Node>, g: Frame)
    requires Woven(s, g)
    ensures 0 < |g.own| == |g.up| == |g.depth| <= |s| && g.depth[0] == 0 && forall i :: 0 < i < |g.own| ==> g.own[i] < i
  {
    forall i | 0 < i < |g.own| ensures g.own[i] < i { assert NodeWoven(s, g, i); }
  }

  /** Counts a symbol of context `c`, or makes it, and lets the totals follow; rescales the context if it must. */
  method Count(symbols: array<Node>, n: nat, c: nat, spot: Spot, at: nat, v: byte, ghost g: Frame, ghost skip: set<nat>)
    returns (sym: nat, n': nat)
    requires symbols.Length == POOL && Sound(symbols[..], g, skip) && n == |g.own| < POOL
    requires Spotted(symbols[..], g, c, spot, at) && c < n && g.depth[c] <= SUBCONTEXT_ORDER
    modifies symbols
    ensures sym == Sym(n, spot, at) && n' == |After(g, c, spot, at).own|
    ensures symbols[sym].value == if spot.Found? then old(symbols[at].value) else v
    ensures Sound(symbols[..], After(g, c, spot, at), skip + {sym})
    ensures spot.Found? || c == 0 ==> Sound(symbols[..], After(g, c, spot, at), skip)
    ensures forall i :: 0 <= i < n ==> symbols[i].parent == old(symbols[i].parent) && symbols[i].value == old(symbols[i].value)
  {
    hide Woven, Weighed, Raised, Rescaled, Mass;
    ghost var s := symbols[..];
    Earlier(s, g);
    ghost var h := After(g, c, spot, at);
    SpotWeighed(s, g, c, spot, at, v);
    SpotCounts(s, g, c, spot, at, v);
    SpotWoven(s, g, c, spot, at, v);
    SpotRaised(s, g, c, spot, at, v, skip);
    var was: nat := 0;
    sym, n' := n, n + 1;
    if spot.Found? {
      sym, n', was := at, n, symbols[at].count;
      symbols[at] := symbols[at].(count := was + Gain(c));
    } else {
      symbols[n] := Node(v, Gain(c), Gain(c), 0, 0, 0, 0, 0, 0);
      symbols[at] := Hooked(symbols[at], spot.slot, n - at);
    }
    ghost var u, more := symbols[..], Surprise(c, spot);
    assert u == Bumped(s, n, c, spot, at, v);
    symbols[c] := symbols[c].(escapes := symbols[c].escapes + Surprise(c, spot), total := symbols[c].total + Surprise(c, spot) + Gain(c));
    ghost var t := symbols[..];
    assert t == Totalled(u, c, more);
    KeepRest(u, t, h, skip, sym, spot.Found? || c == 0);
    if was > 0xFF - 2 * Gain(c) || symbols[c].total > 0xFF00 {
      Fits(t, h, c);
      Rescale(symbols, c, h);
      RescaledWeighed(t, symbols[..], h, c);
      RescaledRest(t, symbols[..], h, c, skip, sym, spot.Found? || c == 0);
    } else {
      Settles(u, t, h, c);
    }
  }

  /** Totals have nothing to do with links and parents. */
  lemma KeepRest(s: seq<Node>, t: seq<Node>, g: Frame, skip: set<nat>, sym: nat, both: bool)
    requires Woven(s, g) && Raised(s, g, skip + {sym}) && (both ==> Raised(s, g, skip)) && |t| == |s|
    requires forall i :: 0 <= i < |s| ==> SameHooks(s[i], t[i]) && t[i].parent == s[i].parent
    ensures Woven(t, g) && Raised(t, g, skip + {sym}) && (both ==> Raised(t, g, skip))
  {
    Earlier(s, g);
    hide Woven, Raised;
    WovenSame(s, t, g);
    RaisedSame(s, t, g, skip + {sym});
    if both { RaisedSame(s, t, g, skip); }
  }

  lemma RescaledRest(s: seq<Node>, t: seq<Node>, g: Frame, c: nat, skip: set<nat>, sym: nat, both: bool)
    requires Woven(s, g) && Raised(s, g, skip + {sym}) && (both ==> Raised(s, g, skip)) && Rescaled(s, t, g, c)
    ensures Woven(t, g) && Raised(t, g, skip + {sym}) && (both ==> Raised(t, g, skip))
    ensures forall i :: 0 <= i < |s| ==> t[i].parent == s[i].parent && t[i].value == s[i].value
  {
    hide Woven, Raised, Mass;
    KeepRest(s, t, g, skip, sym, both);
  }

  lemma Fits(s: seq<Node>, g: Frame, c: nat)
    requires Weighed(s, g, c) && c < |g.own|
    ensures s[c].escapes + Mass(s, g.own, c, |g.own|) + 256 * Least(c) <= 0xFFFF
  {
    assert Adds(s, g, c);
  }

  lemma Settles(u: seq<Node>, t: seq<Node>, g: Frame, c: nat)
    requires Weighed(t, g, c) && c < |g.own| <= |u| == |t| && t[c].total <= 0xFF00
    requires forall i :: 0 < i < |g.own| ==> t[i].count == u[i].count <= 0xFF - Gain(g.own[i])
    ensures Weighed(t, g, -1)
  {
    hide Adds;
  }

  // ---- One byte ----

  /** The context `k` bytes shorter than that of node `p`. */
  function Climb(s: seq<Node>, p: nat, k: nat): nat
    decreases k
  {
    if k == 0 || p >= |s| then p else Climb(s, s[p].parent, k - 1)
  }

  lemma {:induction false} ClimbOn(s: seq<Node>, p: nat, k: nat)
    requires Climb(s, p, k) < |s|
    ensures Climb(s, p, k + 1) == s[Climb(s, p, k)].parent
    decreases k
  {
    if k > 0 && p < |s| { ClimbOn(s, s[p].parent, k - 1); }
  }

  ghost predicate Extends(g: Frame, h: Frame) {
    && |g.own| == |g.depth| <= |h.own| == |h.depth|
    && forall i :: 0 <= i < |g.own| ==> h.own[i] == g.own[i] && h.depth[i] == g.depth[i]
  }

  lemma RaisedStep(s: seq<Node>, g: Frame, skip: set<nat>, x: nat)
    requires Sound(s, g, skip) && 0 < x < |g.own| && x !in skip
    ensures |g.own| == |g.depth| <= |s| && s[x].parent < |g.own| && g.depth[x] > 0 && g.depth[s[x].parent] == g.depth[x] - 1
  {
    hide Woven, Weighed;
    assert RaisedAt(s, g, x);
  }

  lemma SlimEscape(s: seq<Node>, g: Frame, skip: set<nat>, x: nat)
    requires Sound(s, g, skip) && x < |g.own|
    ensures s[x].total <= 0xFF00 && (0 < s[x].escapes < s[x].total ==> Slim(s[x].escapes, s[x].total))
    ensures x == 0 ==> 0 < s[x].escapes < s[x].total
  {
    hide Woven, Raised, Mass;
    assert Adds(s, g, x);
  }

  lemma SlimSymbol(s: seq<Node>, g: Frame, skip: set<nat>, x: nat, at: nat)
    requires Sound(s, g, skip) && x < |g.own| && 0 < at < |g.own| && g.own[at] == x && s[x].escapes > 0
    ensures Slim(s[at].count + Least(x), s[x].total)
  {
    hide Woven, Raised, Mass;
    assert Adds(s, g, x);
    MassHas(s, g.own, x, |g.own|, at);
  }

  /** How reading a byte ends: with a value, with the end of the stream, or with the C code giving up. */
  datatype Catch = Caught | Over | GaveUp

  /** Codes in context `x` what `code` stands for: `ENET_CONTEXT_TRY_DECODE` or `ENET_CONTEXT_ROOT_DECODE`, and what
      follows it. */
  method StrayFound(symbols: array<Node>, n: nat, x: nat, code: u16, input: seq<byte>, r: Raw, ghost g: Frame)
    returns (catch: Catch, value: byte, bottom: nat, n': nat, r': Raw, ghost h: Frame)
    requires symbols.Length == POOL && Sound(symbols[..], g, {}) && n == |g.own| < POOL && r.Valid(input)
    requires x < n && g.depth[x] <= SUBCONTEXT_ORDER && 0 < symbols[x].escapes < symbols[x].total
    modifies symbols
    ensures !catch.Over? && (catch.GaveUp? ==> x != 0 && n' == n)
    ensures catch.Caught? ==> Sound(symbols[..], h, {}) && n' == |h.own| <= n + 1 && Extends(g, h) && r'.Valid(input)
    ensures catch.Caught? ==> 0 < bottom < n' && h.own[bottom] == x && h.depth[bottom] == g.depth[x] + 1 && symbols[bottom].value == value
    ensures catch.Caught? ==> forall i :: 0 <= i < n ==> symbols[i].parent == old(symbols[i].parent)
  {
    hide Sound, Alike, Slim, Woven;
    ghost var s := symbols[..];
    SoundUse(s, g, {});
    var escapes: nat, total: nat := symbols[x].escapes, symbols[x].total;
    var spot, at, under: nat;
    spot, at, value, under := SeekCode(symbols, x, code, Gain(x), g);
    ghost var t := symbols[..];
    AlikeSound(s, t, g, {});
    AlikeUse(s, t);
    bottom, n', r', h := 0, n, r, g;
    if x != 0 && !spot.Found? {
      return GaveUp, value, 0, n, r, g;
    }
    SlimRoot(t, g, {}, x);
    var count := Least(x);
    if spot.Found? {
      SlimSymbol(t, g, {}, x, at);
      count := count + symbols[at].count;
    }
    r' := AnyStep(input, r, escapes + under, count, total);
    h := After(g, x, spot, at);
    bottom, n' := Count(symbols, n, x, spot, at, value, g, {});
    catch := Caught;
  }

  lemma SoundUse(s: seq<Node>, g: Frame, skip: set<nat>)
    requires Sound(s, g, skip)
    ensures Woven(s, g) && 0 < |g.own| == |g.up| == |g.depth| <= |s| && g.depth[0] == 0
    ensures forall i :: 0 < i < |g.own| ==> g.own[i] < i && g.depth[i] == g.depth[g.own[i]] + 1
  {
    forall i | 0 < i < |g.own| ensures g.own[i] < i && g.depth[i] == g.depth[g.own[i]] + 1 { assert NodeWoven(s, g, i); }
  }

  lemma AlikeUse(s: seq<Node>, t: seq<Node>)
    requires Alike(s, t)
    ensures |t| == |s|
    ensures forall i :: 0 <= i < |s| ==> t[i].parent == s[i].parent && t[i].value == s[i].value
    ensures forall i :: 0 <= i < |s| ==> t[i].escapes == s[i].escapes && t[i].total == s[i].total
  {
  }

  /** A value new to the root weighs one part. */
  lemma SlimRoot(s: seq<Node>, g: Frame, skip: set<nat>, x: nat)
    requires Sound(s, g, skip) && x < |g.own|
    ensures x == 0 ==> Slim(Least(x), s[x].total)
  {
    hide Woven, Raised, Mass;
    assert Adds(s, g, x);
  }

  /** The walk from context `x0` on to the one that codes the next byte, as in `enet_range_coder_decompress`, but with
      a code in any place. */
  method StrayRead(symbols: array<Node>, n: nat, x0: nat, input: seq<byte>, r0: Raw, ghost g: Frame)
    returns (catch: Catch, value: byte, x: nat, bottom: nat, n': nat, r: Raw, ghost h: Frame)
    requires symbols.Length == POOL && Sound(symbols[..], g, {}) && n == |g.own| < POOL && r0.Valid(input)
    requires x0 < n && g.depth[x0] <= SUBCONTEXT_ORDER
    modifies symbols
    ensures !catch.Caught? ==> n' == n
    ensures catch.Caught? ==> Sound(symbols[..], h, {}) && n' == |h.own| <= n + 1 && Extends(g, h) && r.Valid(input)
    ensures catch.Caught? ==> x < n && 0 < bottom < n' && h.own[bottom] == x && h.depth[bottom] == g.depth[x] + 1
    ensures catch.Caught? ==> symbols[bottom].value == value
    ensures catch.Caught? ==> g.depth[x] <= g.depth[x0] && Climb(old(symbols[..]), x0, g.depth[x0] - g.depth[x]) == x
    ensures catch.Caught? ==> forall i :: 0 <= i < n ==> symbols[i].parent == old(symbols[i].parent)
  {
    hide Sound, Woven, Climb, Extends, Slim;
    ghost var s := symbols[..];
    SoundUse(s, g, {});
    x, r, value, bottom, n', h := x0, r0, 0, 0, n, g;
    ClimbNone(s, x0);
    while x != 0
      invariant symbols[..] == s && x < n && g.depth[x] <= g.depth[x0] && r.Valid(input)
      invariant Climb(s, x0, g.depth[x0] - g.depth[x]) == x
      decreases g.depth[x]
    {
      var node := symbols[x];
      SlimEscape(s, g, {}, x);
      if node.escapes != 0 && node.escapes < node.total {
        var code := RawPeek(r, node.total);
        if code >= node.escapes {
          catch, value, bottom, n', r, h := StrayFound(symbols, n, x, code - node.escapes, input, r, g);
          return;
        }
        r := AnyStep(input, r, 0, node.escapes, node.total);
      }
      RaisedStep(s, g, {}, x);
      ClimbOn(s, x0, g.depth[x0] - g.depth[x]);
      x := node.parent;
    }
    var node := symbols[0];
    SlimEscape(s, g, {}, 0);
    var code := RawPeek(r, node.total);
    if code < node.escapes {
      r := AnyStep(input, r, 0, node.escapes, node.total);
      catch := Over;
    } else {
      catch, value, bottom, n', r, h := StrayFound(symbols, n, 0, code - node.escapes, input, r, g);
    }
  }

  lemma ClimbNone(s: seq<Node>, p: nat)
    ensures Climb(s, p, 0) == p
  {
  }

  // ---- The longer contexts ----

  /** Climbing depends only on the parents of shorter contexts. */
  lemma {:induction false} ClimbSame(s: seq<Node>, t: seq<Node>, g: Frame, p: nat, k: nat)
    requires |s| == |t| && p < |g.depth| <= |s| && k <= g.depth[p]
    requires forall i :: 0 <= i < |g.depth| && 0 < g.depth[i] <= g.depth[p] ==>
      t[i].parent == s[i].parent < |g.depth| && g.depth[s[i].parent] == g.depth[i] - 1
    ensures Climb(t, p, k) == Climb(s, p, k)
    decreases k
  {
    if k > 0 { ClimbSame(s, t, g, s[p].parent, k - 1); }
  }

  /** `*parent = symbol`: the pending node gets its parent. */
  method SetParent(symbols: array<Node>, slot: nat, sym: u16, ghost g: Frame, ghost skip: set<nat>)
    requires symbols.Length == POOL && 0 < slot < |g.own| <= POOL && sym < |g.own| && Sound(symbols[..], g, skip + {slot})
    requires |g.depth| == |g.own| && g.depth[slot] == g.depth[sym] + 1
    modifies symbols
    ensures Sound(symbols[..], g, skip)
    ensures symbols[..] == old(symbols[..])[slot := old(symbols[slot]).(parent := sym)]
  {
    ghost var s := symbols[..];
    symbols[slot] := symbols[slot].(parent := sym);
    ParentSound(s, g, skip, slot, sym);
  }

  lemma ParentSound(s: seq<Node>, g: Frame, skip: set<nat>, slot: nat, sym: u16)
    requires 0 < slot < |g.own| <= |s| && sym < |g.own| && Sound(s, g, skip + {slot})
    requires |g.depth| == |g.own| && g.depth[slot] == g.depth[sym] + 1
    ensures Sound(s[slot := s[slot].(parent := sym)], g, skip)
  {
    var t := s[slot := s[slot].(parent := sym)];
    WovenSame(s, t, g);
    hide Woven;
    WeighedSame(s, t, g, -1);
    forall i | 0 < i < |g.own| && i !in skip ensures RaisedAt(t, g, i) {
      if i != slot { assert RaisedAt(s, g, i); }
    }
  }

  /** Codes `v` in the longer context `p`, and links the symbol of the one before, `slot`. */
  method PatchOne(symbols: array<Node>, n: nat, p: nat, v: byte, slot: int, ghost g: Frame)
    returns (sym: nat, n': nat, ghost h: Frame)
    requires symbols.Length == POOL && n == |g.own| < POOL && 0 < p < n && |g.depth| == n && g.depth[p] <= SUBCONTEXT_ORDER
    requires Sound(symbols[..], g, if slot < 0 then {} else {slot as nat})
    requires 0 <= slot ==> 0 < slot < n && g.depth[slot] == g.depth[p] + 2
    modifies symbols
    ensures Extends(g, h) && n' == |h.own| <= n + 1 && 0 < sym < n' && h.depth[sym] == h.depth[p] + 1
    ensures h.own[sym] == p && symbols[sym].value == v && forall i :: 0 <= i < n ==> symbols[i].value == old(symbols[i].value)
    ensures Sound(symbols[..], h, {sym})
    ensures forall i :: 0 <= i < n && g.depth[i] <= g.depth[p] ==> symbols[i].parent == old(symbols[i].parent)
  {
    hide Sound, Alike, Woven, Free;
    ghost var s := symbols[..];
    ghost var skip: set<nat> := if slot < 0 then {} else {slot as nat};
    SoundUse(s, g, skip);
    var spot, at := SeekValue(symbols, p, v, Gain(p), g);
    AlikeSound(s, symbols[..], g, skip);
    AlikeUse(s, symbols[..]);
    h := After(g, p, spot, at);
    sym, n' := Count(symbols, n, p, spot, at, v, g, skip);
    SoundUse(symbols[..], h, skip + {sym});
    if 0 <= slot {
      assert skip + {sym} == {sym} + {slot as nat};
      SetParent(symbols, slot, sym, h, {sym});
    } else {
      assert skip + {sym} == {sym};
    }
  }

  /** `patchContexts`: the longer contexts, from `predicted` down to the one before `x`, code the value too. */
  method StrayPatch(symbols: array<Node>, n0: nat, predicted: nat, v: byte, x: nat, bottom: nat, ghost g: Frame)
    returns (next: nat, n: nat, ghost h: Frame)
    requires symbols.Length == POOL && Sound(symbols[..], g, {}) && n0 == |g.own| == |g.depth| <= POOL
    requires predicted < n0 && x < n0 && 0 < bottom < n0 && g.depth[x] <= g.depth[predicted] <= SUBCONTEXT_ORDER
    requires Climb(symbols[..], predicted, g.depth[predicted] - g.depth[x]) == x
    requires g.own[bottom] == x && g.depth[bottom] == g.depth[x] + 1 && symbols[bottom].value == v
    requires n0 + g.depth[predicted] - g.depth[x] <= POOL
    modifies symbols
    ensures Sound(symbols[..], h, {}) && Extends(g, h) && n == |h.own| <= n0 + g.depth[predicted] - g.depth[x]
    ensures 0 < next < n && h.depth[next] == g.depth[predicted] + 1 && h.own[next] == predicted && symbols[next].value == v
  {
    hide Sound, Climb;
    var p: nat, slot := predicted, -1;
    next, n, h := bottom, n0, g;
    while p != x
      invariant n == |h.own| == |h.depth| && Extends(g, h) && p < n && h.depth[x] <= h.depth[p] <= h.depth[predicted]
      invariant n + h.depth[p] - h.depth[x] <= n0 + g.depth[predicted] - g.depth[x]
      invariant Climb(symbols[..], p, h.depth[p] - h.depth[x]) == x
      invariant Sound(symbols[..], h, if slot < 0 then {} else {slot as nat})
      invariant slot < 0 ==> p == predicted && next == bottom
      invariant 0 <= slot ==> 0 < slot < n && h.depth[slot] == h.depth[p] + 2
      invariant 0 <= slot ==> 0 < next < n && h.depth[next] == h.depth[predicted] + 1 && h.own[next] == predicted
      invariant symbols[next].value == v
      decreases h.depth[p]
    {
      ghost var s, skip: set<nat> := symbols[..], if slot < 0 then {} else {slot as nat};
      PatchStep(s, h, skip, p, x);
      ghost var before := h;
      var sym;
      sym, n, h := PatchOne(symbols, n, p, v, slot, h);
      PatchKept(s, symbols[..], before, h, skip, p, h.depth[p] - h.depth[x]);
      if slot < 0 {
        next := sym;
      }
      slot := sym;
      p := symbols[p].parent;
    }
    if 0 <= slot {
      ghost var none: set<nat> := {};
      assert none + {slot as nat} == {slot as nat};
      SetParent(symbols, slot, bottom, h, none);
    }
  }

  /** A context that is not the last one has a parent to go on to. */
  lemma PatchStep(s: seq<Node>, g: Frame, skip: set<nat>, p: nat, x: nat)
    requires Sound(s, g, skip) && p < |g.own| == |g.depth| && x < |g.own| && p != x && p !in skip && g.depth[x] <= g.depth[p]
    requires Climb(s, p, g.depth[p] - g.depth[x]) == x
    ensures g.depth[x] < g.depth[p] && 0 < p < |s| && s[p].parent < |g.own| && g.depth[s[p].parent] == g.depth[p] - 1
    ensures Climb(s, s[p].parent, g.depth[p] - g.depth[x] - 1) == x
  {
    SoundUse(s, g, skip);
    if 0 < p { RaisedStep(s, g, skip, p); }
  }

  /** Coding in context `p` changes nothing of the way on from it. */
  lemma PatchKept(s: seq<Node>, t: seq<Node>, g: Frame, h: Frame, skip: set<nat>, p: nat, k: nat)
    requires Sound(s, g, skip) && Extends(g, h) && |t| == |s| && 0 < p < |g.own| && 0 < k <= g.depth[p]
    requires forall i :: i in skip ==> i < |g.depth| && g.depth[i] > g.depth[p]
    requires forall i :: 0 <= i < |g.own| && g.depth[i] <= g.depth[p] ==> t[i].parent == s[i].parent
    ensures p < |t| && t[p].parent == s[p].parent < |g.own| && Climb(t, s[p].parent, k - 1) == Climb(s, s[p].parent, k - 1)
  {
    hide Climb, Sound, Woven;
    SoundUse(s, g, skip);
    forall i | 0 <= i < |g.depth| && 0 < g.depth[i] <= g.depth[p]
      ensures t[i].parent == s[i].parent < |g.depth| && g.depth[s[i].parent] == g.depth[i] - 1
    {
      RaisedStep(s, g, skip, i);
    }
    ClimbSame(s, t, g, s[p].parent, k - 1);
  }

  // ---- The rest of the stream ----

  lemma {:induction false} ClimbFar(s: seq<Node>, p: nat, k: nat, j: nat)
    requires Climb(s, p, k) < |s|
    ensures Climb(s, p, k + j) == Climb(s, Climb(s, p, k), j)
    decreases k
  {
    if k > 0 && p < |s| { ClimbFar(s, s[p].parent, k - 1, j); }
  }

  /** What a byte leaves of the way from one context to a shorter one. */
  lemma ClimbKept(s: seq<Node>, t: seq<Node>, g: Frame, p: nat, k: nat)
    requires Sound(s, g, {}) && |t| == |s| && p < |g.own| && |g.own| == |g.depth| && k <= g.depth[p]
    requires forall i :: 0 <= i < |g.own| ==> t[i].parent == s[i].parent
    ensures Climb(t, p, k) == Climb(s, p, k)
  {
    hide Climb, Sound, Woven;
    SoundUse(s, g, {});
    forall i | 0 <= i < |g.depth| && 0 < g.depth[i] <= g.depth[p]
      ensures t[i].parent == s[i].parent < |g.depth| && g.depth[s[i].parent] == g.depth[i] - 1
    {
      RaisedStep(s, g, {}, i);
    }
    ClimbSame(s, t, g, p, k);
  }

  /** The walk for a byte has come from context `predicted` to context `x`. */
  ghost predicate Stands(s: seq<Node>, g: Frame, n: nat, predicted: nat, x: nat) {
    && Sound(s, g, {}) && n == |g.own| == |g.depth| < POOL - SUBCONTEXT_ORDER
    && predicted < n && x < n && g.depth[x] <= g.depth[predicted] <= SUBCONTEXT_ORDER
    && Climb(s, predicted, g.depth[predicted] - g.depth[x]) == x
  }

  /** One byte, from context `x0` on, in all the contexts that learn it. */
  method StrayByte(symbols: array<Node>, n: nat, predicted: nat, x0: nat, input: seq<byte>, r: Raw, ghost g: Frame)
    returns (catch: Catch, value: byte, next: nat, n': nat, r': Raw, ghost h: Frame)
    requires symbols.Length == POOL && Stands(symbols[..], g, n, predicted, x0) && r.Valid(input)
    modifies symbols
    ensures !catch.Caught? ==> n' == n
    ensures catch.Caught? ==> Sound(symbols[..], h, {}) && n' == |h.own| == |h.depth| <= POOL && r'.Valid(input)
    ensures catch.Caught? ==> 0 < next < n' && h.own[next] == predicted && symbols[next].value == value
    ensures catch.Caught? ==> h.depth[next] == g.depth[predicted] + 1
  {
    hide Sound, Climb;
    ghost var s := symbols[..];
    var x, bottom;
    catch, value, x, bottom, n', r', h := StrayRead(symbols, n, x0, input, r, g);
    next := bottom;
    if catch == Caught {
      ghost var up, on: nat := g.depth[predicted] - g.depth[x0], g.depth[x0] - g.depth[x];
      SoundUse(s, g, {});
      ClimbFar(s, predicted, up, on);
      ClimbKept(s, symbols[..], g, predicted, up + on);
      next, n', h := StrayPatch(symbols, n', predicted, value, x, bottom, h);
      SoundUse(symbols[..], h, {});
    }
  }

  /** The root alone: `ENET_CONTEXT_CREATE`. */
  method StrayRoot(symbols: array<Node>) returns (ghost g: Frame)
    requires symbols.Length == POOL
    modifies symbols
    ensures Stands(symbols[..], g, 1, 0, 0) && g.depth[0] == 0
  {
    symbols[0] := Node(0, 0, 0, 0, 0, 0, ESCAPE_MINIMUM, ESCAPE_MINIMUM + 256 * SYMBOL_MINIMUM, 0);
    g := Frame([0], [0], [0]);
    ghost var s := symbols[..];
    assert ContextWoven(s, g, 0) && Adds(s, g, 0);
  }

  /** The next prediction, and `ENET_RANGE_CODER_FREE_SYMBOLS`. */
  method StrayNext(symbols: array<Node>, n: nat, next: nat, order: nat, ghost g: Frame)
    returns (predicted: nat, order': nat, n': nat, ghost h: Frame)
    requires symbols.Length == POOL && Sound(symbols[..], g, {}) && n == |g.own| == |g.depth| <= POOL
    requires 0 < next < n && g.depth[next] == order + 1 && order <= SUBCONTEXT_ORDER
    modifies symbols
    ensures Stands(symbols[..], h, n', predicted, predicted) && order' == h.depth[predicted]
    ensures n < 4094 ==> n' == n && order' == (if order < 2 then order + 1 else 2) && symbols[..] == old(symbols[..])
    ensures n < 4094 ==> predicted == if order < 2 then next else old(symbols[next].parent)
    ensures n >= 4094 ==> n' == 1
  {
    hide Sound, Climb;
    h, n' := g, n;
    if order >= SUBCONTEXT_ORDER {
      RaisedStep(symbols[..], g, {}, next);
      predicted, order' := symbols[next].parent, order;
    } else {
      predicted, order' := next, order + 1;
    }
    if n >= POOL - SUBCONTEXT_ORDER {
      h := StrayRoot(symbols);
      predicted, order', n' := 0, 0, 1;
    }
    ClimbNone(symbols[..], predicted);
  }

  /** The decompression loop from the first code on that lies in no slice of its context, `x0`.  It ends, with at
      most `POOL` nodes, and leaves the bytes put out before in their places. */
  method StrayAll(symbols: array<Node>, n0: nat, p0: nat, x0: nat, order0: nat, input: seq<byte>, r0: Raw,
                  out: array<byte>, k0: nat, ghost g0: Frame)
    returns (k: nat, n: nat)
    requires symbols.Length == POOL && Stands(symbols[..], g0, n0, p0, x0) && order0 == g0.depth[p0]
    requires r0.Valid(input) && k0 <= out.Length
    modifies symbols, out
    ensures n <= POOL && k <= out.Length && (k == 0 || (k0 <= k && out[..k0] == old(out[..k0])))
  {
    hide Sound, Climb;
    k, n := k0, n0;
    var predicted, x, order, r := p0, x0, order0, r0;
    ghost var g := g0;
    while true
      invariant Stands(symbols[..], g, n, predicted, x) && order == g.depth[predicted]
      invariant r.Valid(input) && k0 <= k <= out.Length
      invariant out[..k0] == old(out[..k0])
      decreases out.Length - k
    {
      var catch, value, next;
      catch, value, next, n, r, g := StrayByte(symbols, n, predicted, x, input, r, g);
      if catch != Caught {
        return if catch == Over then k else 0, n;
      }
      var ok := PutByte(out, k, value);
      if !ok {
        return 0, n;
      }
      assert out[..k0] == out[..k + 1][..k0];
      k := k + 1;
      predicted, order, n, g := StrayNext(symbols, n, next, order, g);
      x := predicted;
    }
  }
}
