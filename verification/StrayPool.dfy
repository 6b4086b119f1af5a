/**
 The node pool on a stream that no encoder made.

 A code that lies in no slice of the root makes the decoder create a symbol with a wrapped value, so that the
 root's tree is no search tree any more, and two symbols may have the same value.  What is left of the pool's
 order is this: links lead to later nodes of the same context, each node hangs in one place, parents are one
 byte shorter, and the totals are the sums of the counts.
 */
module StrayPools {
  import opened Basics
  import opened Words
  import opened FrequencyModel
  import opened SymbolTrees

  /** Whose tree a node is in, where it hangs, and how many bytes its context has. */
  datatype Frame = Frame(own: seq<nat>, up: seq<nat>, depth: seq<nat>)

  predicate Joins(g: Frame, j: nat, c: nat, u: nat) {
    0 < j < |g.own| == |g.up| && g.own[j] == c && g.up[j] == u
  }

  predicate ContextWoven(s: seq<Node>, g: Frame, c: nat)
    requires c < |s|
  {
    s[c].symbols != 0 ==> Joins(g, c + s[c].symbols, c, c)
  }

  predicate NodeWoven(s: seq<Node>, g: Frame, i: nat)
    requires 0 < i < |g.own| == |g.up| == |g.depth| <= |s|
  {
    var c, u := g.own[i], g.up[i];
    && c < i && u < i && g.depth[i] == g.depth[c] + 1 <= SUBCONTEXT_ORDER + 1
    && (s[i].left != 0 ==> Joins(g, i + s[i].left, c, i) && s[i].left != s[i].right)
    && (s[i].right != 0 ==> Joins(g, i + s[i].right, c, i))
    && (if u == c then s[c].symbols != 0 && i == c + s[c].symbols
        else u > 0 && g.own[u] == c &&
             ((s[u].left != 0 && i == u + s[u].left) || (s[u].right != 0 && i == u + s[u].right)))
  }

  ghost predicate Woven(s: seq<Node>, g: Frame) {
    && 0 < |g.own| == |g.up| == |g.depth| <= |s| && g.depth[0] == 0
    && (forall c :: 0 <= c < |g.own| ==> ContextWoven(s, g, c))
    && (forall i :: 0 < i < |g.own| ==> NodeWoven(s, g, i))
  }

  predicate RaisedAt(s: seq<Node>, g: Frame, i: nat)
    requires i < |g.own| == |g.depth| <= |s|
  {
    s[i].parent < |g.own| && g.depth[i] > 0 && g.depth[s[i].parent] == g.depth[i] - 1
  }

  /** Parents are one byte shorter, but for the nodes whose parents are still to be set. */
  ghost predicate Raised(s: seq<Node>, g: Frame, skip: set<nat>) {
    |g.own| == |g.depth| <= |s| && forall i :: 0 < i < |g.own| && i !in skip ==> RaisedAt(s, g, i)
  }

  // ---- Trees ----

  /** What is below a node belongs to its context, comes later, and hangs from something below the node. */
  lemma {:induction false} SubtreeUp(s: seq<Node>, g: Frame, i: nat, j: nat)
    requires Woven(s, g) && 0 < i < |g.own|
    ensures j in Subtree(s, i) ==>
      i <= j < |g.own| && g.own[j] == g.own[i] && (j == i || (g.up[j] in Subtree(s, i) && g.up[j] < j))
    decreases |s| - i
  {
    assert NodeWoven(s, g, i);
    if s[i].left != 0 { SubtreeUp(s, g, i + s[i].left, j); }
    if s[i].right != 0 { SubtreeUp(s, g, i + s[i].right, j); }
    if j in Subtree(s, i) && j != i { assert NodeWoven(s, g, j); }
  }

  lemma {:induction false} SubtreeStep(s: seq<Node>, i: nat, u: nat)
    requires u in Subtree(s, i) && u < |s|
    ensures s[u].left != 0 && u + s[u].left < |s| ==> u + s[u].left in Subtree(s, i)
    ensures s[u].right != 0 && u + s[u].right < |s| ==> u + s[u].right in Subtree(s, i)
    decreases |s| - i
  {
    if u != i {
      if s[i].left != 0 && u in Subtree(s, i + s[i].left) {
        SubtreeStep(s, i + s[i].left, u);
      } else {
        SubtreeStep(s, i + s[i].right, u);
      }
    }
  }

  lemma {:induction false} TreeReaches(s: seq<Node>, g: Frame, c: nat, j: nat)
    requires Woven(s, g) && 0 < j < |g.own| && g.own[j] == c
    ensures c < j && s[c].symbols != 0 && j in Subtree(s, c + s[c].symbols)
    decreases j
  {
    assert NodeWoven(s, g, j);
    var u := g.up[j];
    if u != c {
      TreeReaches(s, g, c, u);
      SubtreeStep(s, c + s[c].symbols, u);
    }
  }

  /** The tree of a context has exactly its symbols. */
  lemma TreeOf(s: seq<Node>, g: Frame, c: nat, j: nat)
    requires Woven(s, g) && c < |g.own| && s[c].symbols != 0
    ensures 0 < c + s[c].symbols < |g.own| && g.own[c + s[c].symbols] == c
    ensures j in Subtree(s, c + s[c].symbols) <==> 0 < j < |g.own| && g.own[j] == c
  {
    assert ContextWoven(s, g, c);
    SubtreeUp(s, g, c + s[c].symbols, j);
    if 0 < j < |g.own| && g.own[j] == c { TreeReaches(s, g, c, j); }
  }

  /** The two sides of a node have nothing in common. */
  lemma {:induction false} SidesApart(s: seq<Node>, g: Frame, i: nat, j: nat)
    requires Woven(s, g) && 0 < i < |g.own| && s[i].left != 0 && s[i].right != 0 && j in Subtree(s, i + s[i].left)
    ensures j !in Subtree(s, i + s[i].right)
    decreases j
  {
    assert NodeWoven(s, g, i);
    var l, r := i + s[i].left, i + s[i].right;
    SubtreeUp(s, g, l, j);
    SubtreeUp(s, g, r, j);
    SubtreeUp(s, g, l, i);
    SubtreeUp(s, g, r, i);
    if j != l {
      SidesApart(s, g, i, g.up[j]);
    }
  }

  lemma Halves(s: seq<Node>, g: Frame, i: nat)
    requires Woven(s, g) && 0 < i < |g.own|
    ensures Subtree(s, i) == {i} + LeftTree(s, i) + RightTree(s, i)
    ensures i !in LeftTree(s, i) && i !in RightTree(s, i) && LeftTree(s, i) !! RightTree(s, i)
  {
    assert NodeWoven(s, g, i);
    if s[i].left != 0 { SubtreeUp(s, g, i + s[i].left, i); }
    if s[i].right != 0 { SubtreeUp(s, g, i + s[i].right, i); }
    if s[i].left != 0 && s[i].right != 0 {
      forall j | j in LeftTree(s, i) ensures j !in RightTree(s, i) {
        SidesApart(s, g, i, j);
      }
    }
  }

  // ---- Only what is below a node changes ----

  predicate SameHooks(a: Node, b: Node) {
    b.left == a.left && b.right == a.right && b.symbols == a.symbols
  }

  lemma WovenSame(s: seq<Node>, t: seq<Node>, g: Frame)
    requires Woven(s, g) && |t| == |s| && forall i :: 0 <= i < |g.own| ==> SameHooks(s[i], t[i])
    ensures Woven(t, g)
  {
    forall c | 0 <= c < |g.own| ensures ContextWoven(t, g, c) {
      assert ContextWoven(s, g, c);
    }
    forall i | 0 < i < |g.own| ensures NodeWoven(t, g, i) {
      assert NodeWoven(s, g, i);
    }
  }

  // ---- Growing ----

  /** The place `at` for a new node in the tree of context `c`. */
  predicate Free(s: seq<Node>, g: Frame, c: nat, slot: Slot, at: nat) {
    && c < |g.own| <= |s| && at < |g.own|
    && match slot
       case AtContext => at == c && s[c].symbols == 0
       case AtLeft => 0 < at && g.own[at] == c && s[at].left == 0
       case AtRight => 0 < at && g.own[at] == c && s[at].right == 0
  }

  function Raise(g: Frame, c: nat, at: nat): Frame
    requires c < |g.depth|
  {
    Frame(g.own + [c], g.up + [at], g.depth + [g.depth[c] + 1])
  }

  /** The pool with a new node hung. */
  function Hung(s: seq<Node>, n: nat, slot: Slot, at: nat, node: Node): seq<Node>
    requires at < n < |s| <= POOL
  {
    s[n := node][at := Hooked(s[at], slot, n - at)]
  }

  lemma HungWoven(s: seq<Node>, g: Frame, c: nat, slot: Slot, at: nat, node: Node)
    requires Woven(s, g) && |g.own| < |s| <= POOL && Free(s, g, c, slot, at) && g.depth[c] <= SUBCONTEXT_ORDER
    requires node.left == node.right == node.symbols == 0
    ensures Woven(Hung(s, |g.own|, slot, at, node), Raise(g, c, at))
  {
    var n, t, h := |g.own|, Hung(s, |g.own|, slot, at, node), Raise(g, c, at);
    forall b | 0 <= b < n + 1 ensures ContextWoven(t, h, b) {
      if b < n { assert ContextWoven(s, g, b); }
    }
    forall i | 0 < i < n + 1 ensures NodeWoven(t, h, i) {
      if i < n { HungNode(s, g, c, slot, at, node, i); } else { HungNew(s, g, c, slot, at, node); }
    }
  }

  lemma HungNode(s: seq<Node>, g: Frame, c: nat, slot: Slot, at: nat, node: Node, i: nat)
    requires Woven(s, g) && |g.own| < |s| <= POOL && Free(s, g, c, slot, at) && 0 < i < |g.own|
    ensures NodeWoven(Hung(s, |g.own|, slot, at, node), Raise(g, c, at), i)
  {
    assert NodeWoven(s, g, i);
  }

  lemma HungNew(s: seq<Node>, g: Frame, c: nat, slot: Slot, at: nat, node: Node)
    requires Woven(s, g) && |g.own| < |s| <= POOL && Free(s, g, c, slot, at) && g.depth[c] <= SUBCONTEXT_ORDER
    requires node.left == node.right == node.symbols == 0
    ensures NodeWoven(Hung(s, |g.own|, slot, at, node), Raise(g, c, at), |g.own|)
  {
    if !slot.AtContext? { assert NodeWoven(s, g, at); }
  }

  // ---- Sums ----

  /** The counts of the first `n` nodes, of those that belong to context `c`. */
  function Mass(s: seq<Node>, own: seq<nat>, c: nat, n: nat): nat
    requires n <= |own| && n <= |s|
  {
    if n <= 1 then 0 else Mass(s, own, c, n - 1) + if own[n - 1] == c then s[n - 1].count else 0
  }

  /** The halved counts of the first `n` nodes, of those in `a`. */
  function Part(s: seq<Node>, a: set<nat>, n: nat): nat
    requires n <= |s|
  {
    if n == 0 then 0 else Part(s, a, n - 1) + if n - 1 in a then Halve(s[n - 1].count) else 0
  }

  lemma {:induction false} PartJoin(s: seq<Node>, a: set<nat>, b: set<nat>, n: nat)
    requires n <= |s| && a !! b
    ensures Part(s, a + b, n) == Part(s, a, n) + Part(s, b, n)
  {
    if n > 0 { PartJoin(s, a, b, n - 1); }
  }

  lemma {:induction false} PartNone(s: seq<Node>, n: nat)
    requires n <= |s|
    ensures Part(s, {}, n) == 0
  {
    if n > 0 { PartNone(s, n - 1); }
  }

  lemma {:induction false} PartOne(s: seq<Node>, p: nat, n: nat)
    requires n <= |s|
    ensures Part(s, {p}, n) == if p < n then Halve(s[p].count) else 0
  {
    if n > 0 { PartOne(s, p, n - 1); }
  }

  lemma {:induction false} MassUpdate(s: seq<Node>, own: seq<nat>, c: nat, n: nat, p: nat, node: Node)
    requires n <= |own| && n <= |s| && 0 < p < |s| && p < |own|
    ensures Mass(s[p := node], own, c, n) == Mass(s, own, c, n) + if p < n && own[p] == c then node.count - s[p].count else 0
  {
    if n > 1 { MassUpdate(s, own, c, n - 1, p, node); }
  }

  lemma {:induction false} MassSame(s: seq<Node>, t: seq<Node>, own: seq<nat>, own': seq<nat>, c: nat, n: nat)
    requires n <= |own| && n <= |own'| && n <= |s| && n <= |t|
    requires forall i :: 0 < i < n ==> t[i].count == s[i].count && own'[i] == own[i]
    ensures Mass(t, own', c, n) == Mass(s, own, c, n)
  {
    if n > 1 { MassSame(s, t, own, own', c, n - 1); }
  }

  lemma {:induction false} MassHas(s: seq<Node>, own: seq<nat>, c: nat, n: nat, i: nat)
    requires n <= |own| && n <= |s| && 0 < i < n && own[i] == c
    ensures s[i].count <= Mass(s, own, c, n)
  {
    if i < n - 1 { MassHas(s, own, c, n - 1, i); }
  }

  /** When the nodes `a` of a context are halved, so is its mass, but for rounding up. */
  lemma {:induction false} MassHalved(s: seq<Node>, t: seq<Node>, own: seq<nat>, c: nat, a: set<nat>, n: nat)
    requires n <= |own| && n <= |s| && n <= |t| && 0 !in a
    requires forall i :: 0 < i < n ==> (i in a <==> own[i] == c)
    requires forall i :: 0 < i < n ==> t[i].count == if i in a then Halve(s[i].count) else s[i].count
    ensures Mass(t, own, c, n) == Part(s, a, n)
    ensures Mass(s, own, c, n) <= 2 * Part(s, a, n) <= Mass(s, own, c, n) + n
    ensures Part(s, a, n) <= Mass(s, own, c, n)
  {
    if n > 1 { MassHalved(s, t, own, c, a, n - 1); }
  }

  lemma {:induction false} MassOther(s: seq<Node>, t: seq<Node>, own: seq<nat>, b: nat, n: nat)
    requires n <= |own| && n <= |s| && n <= |t|
    requires forall i :: 0 < i < n && own[i] == b ==> t[i].count == s[i].count
    ensures Mass(t, own, b, n) == Mass(s, own, b, n)
  {
    if n > 1 { MassOther(s, t, own, b, n - 1); }
  }

  // ---- Weights ----

  /** What a symbol of context `c` gains when it is coded, and what every value weighs there at least. */
  function Gain(c: nat): nat { if c == 0 then SYMBOL_DELTA else SUBCONTEXT_SYMBOL_DELTA }

  function Least(c: nat): nat { if c == 0 then SYMBOL_MINIMUM else 0 }

  /** The total of context `c` is that of its escapes and symbols. */
  predicate Adds(s: seq<Node>, g: Frame, c: nat)
    requires c < |g.own| <= |s|
  {
    var m := Mass(s, g.own, c, |g.own|);
    && s[c].total == s[c].escapes + m + 256 * Least(c)
    && if c == 0 then s[c].escapes == ESCAPE_MINIMUM else s[c].escapes <= SUBCONTEXT_ESCAPE_DELTA * m
  }

  /** All counts and totals are in their bounds, but for those of context `but`, which only fit their fields. */
  ghost predicate Weighed(s: seq<Node>, g: Frame, but: int) {
    && |g.own| <= |s|
    && (forall c :: 0 <= c < |g.own| ==> Adds(s, g, c) && (c != but ==> s[c].total <= 0xFF00))
    && (forall i :: 0 < i < |g.own| ==> 1 <= s[i].count && (g.own[i] != but ==> s[i].count <= 0xFF - Gain(g.own[i])))
  }

  /** The pool is in order. */
  ghost predicate Sound(s: seq<Node>, g: Frame, skip: set<nat>) {
    Woven(s, g) && Weighed(s, g, -1) && Raised(s, g, skip)
  }
}
