/**
 The node pool of the range coder: all contexts' search trees in one array, linked by offsets.

 A node `i > 0` is a symbol in the tree of context `own[i]`, and at the same time a context whose own
 tree hangs from `i + symbols`.  `lo[i] < value < hi[i]` is the interval of values the search for
 which passes through `i`, and `up[i]` the node it hangs from.  `freq[c]` is the frequency table
 that the tree of context `c` stands for.
 */
module SymbolTrees {
  import opened Words
  import opened FrequencyModel

  datatype Node = Node(
    value: byte, count: byte, under: u16, left: u16, right: u16,
    symbols: u16, escapes: u16, total: u16, parent: u16)

  /** Where the nodes of the pool hang, one entry per node in use. */
  datatype Shape = Shape(own: seq<nat>, lo: seq<int>, hi: seq<int>, up: seq<nat>) {
    predicate Sized(n: nat) {
      |own| == n && |lo| == n && |hi| == n && |up| == n
    }
  }

  predicate NoneIn(f: Counts, a: int, b: int) {
    forall w :: 0 <= w < 256 && a < w < b ==> f[w] == 0
  }

  /** `j` hangs from `u` in the tree of context `c`, with the interval `lo`..`hi`. */
  predicate Hangs(g: Shape, n: nat, j: nat, c: nat, u: nat, lo: int, hi: int)
    requires g.Sized(n)
  {
    j < n && 0 < j && g.own[j] == c && g.up[j] == u && g.lo[j] == lo && g.hi[j] == hi
  }

  /** The tree of context `c`: absent exactly when its table is empty. */
  predicate ContextLinked(s: seq<Node>, g: Shape, f: seq<Counts>, n: nat, c: nat)
    requires c < n <= |s| && g.Sized(n) && |f| == n
  {
    if s[c].symbols == 0 then NoneIn(f[c], -1, 256)
    else Hangs(g, n, c + s[c].symbols, c, c, -1, 256)
  }

  /** The place of node `i` in its tree: a missing subtree means no symbols in its interval. */
  predicate NodeLinked(s: seq<Node>, g: Shape, f: seq<Counts>, n: nat, i: nat)
    requires 0 < i < n <= |s| && g.Sized(n) && |f| == n
  {
    var c, u, v := g.own[i], g.up[i], s[i].value;
    && c < i && u < i && -1 <= g.lo[i] < v < g.hi[i] <= 256
    && (if s[i].left == 0 then NoneIn(f[c], g.lo[i], v)
        else Hangs(g, n, i + s[i].left, c, i, g.lo[i], v))
    && (if s[i].right == 0 then NoneIn(f[c], v, g.hi[i])
        else Hangs(g, n, i + s[i].right, c, i, v, g.hi[i]))
    && (if u == c then i == c + s[c].symbols && s[c].symbols != 0
        else u > 0 && g.own[u] == c &&
             ((s[u].left != 0 && i == u + s[u].left) || (s[u].right != 0 && i == u + s[u].right)))
  }

  /** Node `i` holds its symbol's count, and its own plus its left subtree's counts. */
  predicate NodeWeighs(s: seq<Node>, g: Shape, f: seq<Counts>, n: nat, i: nat)
    requires 0 < i < n <= |s| && g.Sized(n) && |f| == n
  {
    var c, v, lo := g.own[i], s[i].value, g.lo[i];
    c < n && -1 <= lo < v && 0 < s[i].count == f[c][v] && s[i].under == Cum(f[c], v + 1) - Cum(f[c], lo + 1)
  }

  ghost predicate Linked(s: seq<Node>, g: Shape, f: seq<Counts>, n: nat) {
    && 0 < n <= |s| && g.Sized(n) && |f| == n
    && (forall c :: 0 <= c < n ==> ContextLinked(s, g, f, n, c))
    && (forall i :: 0 < i < n ==> NodeLinked(s, g, f, n, i))
  }

  ghost predicate Weighs(s: seq<Node>, g: Shape, f: seq<Counts>, n: nat) {
    && 0 < n <= |s| && g.Sized(n) && |f| == n
    && (forall i :: 0 < i < n ==> NodeWeighs(s, g, f, n, i))
  }

  // ---- Searching ----

  /** The nodes passed by the search for `v` from node `i` on. */
  function Path(s: seq<Node>, i: nat, v: byte): set<nat>
    decreases |s| - i
  {
    if i >= |s| then {}
    else if v < s[i].value && s[i].left != 0 then {i} + Path(s, i + s[i].left, v)
    else if v > s[i].value && s[i].right != 0 then {i} + Path(s, i + s[i].right, v)
    else {i}
  }

  /** A search only passes nodes of its own tree whose interval holds the value. */
  lemma {:induction false} PathInside(s: seq<Node>, g: Shape, f: seq<Counts>, n: nat, i: nat, v: byte, j: nat)
    requires Linked(s, g, f, n) && 0 < i < n && g.lo[i] < v < g.hi[i] && j in Path(s, i, v)
    ensures 0 < j < n && g.own[j] == g.own[i] && g.lo[i] <= g.lo[j] < v < g.hi[j] <= g.hi[i]
    decreases n - i
  {
    assert NodeLinked(s, g, f, n, i);
    if j != i {
      if v < s[i].value {
        PathInside(s, g, f, n, i + s[i].left, v, j);
      } else {
        PathInside(s, g, f, n, i + s[i].right, v, j);
      }
    }
  }

  /** A search that passes a node goes on to the child on the side of the value. */
  lemma {:induction false} PathStep(s: seq<Node>, i: nat, v: byte, u: nat)
    requires u in Path(s, i, v) && u < |s|
    ensures v < s[u].value && s[u].left != 0 && u + s[u].left < |s| ==> u + s[u].left in Path(s, i, v)
    ensures v > s[u].value && s[u].right != 0 && u + s[u].right < |s| ==> u + s[u].right in Path(s, i, v)
    decreases |s| - i
  {
    if u != i {
      if v < s[i].value {
        PathStep(s, i + s[i].left, v, u);
      } else {
        PathStep(s, i + s[i].right, v, u);
      }
    }
  }

  /** Every node whose interval holds `v` is passed by the search for `v`. */
  lemma {:induction false} Reach(s: seq<Node>, g: Shape, f: seq<Counts>, n: nat, j: nat, v: byte)
    requires Linked(s, g, f, n) && 0 < j < n && g.lo[j] < v < g.hi[j]
    ensures g.own[j] < n && s[g.own[j]].symbols != 0
    ensures j in Path(s, g.own[j] + s[g.own[j]].symbols, v)
    decreases j
  {
    assert NodeLinked(s, g, f, n, j);
    var c, u := g.own[j], g.up[j];
    if u != c {
      assert NodeLinked(s, g, f, n, u);
      Reach(s, g, f, n, u, v);
      PathStep(s, c + s[c].symbols, v, u);
    }
  }

  // ---- Counting a symbol ----

  /** What coding `v` does to a node: the counts on the search path grow by `d`, nothing else moves. */
  predicate Bumped(a: Node, b: Node, passed: bool, v: byte, d: nat) {
    && b.value == a.value && b.left == a.left && b.right == a.right && b.symbols == a.symbols
    && b.escapes == a.escapes && b.total == a.total && b.parent == a.parent
    && b.under == a.under + (if passed && v <= a.value then d else 0)
    && b.count == a.count + (if passed && v == a.value then d else 0)
  }

  function Tally(f: seq<Counts>, c: nat, v: byte, d: nat): seq<Counts>
    requires c < |f|
  {
    f[c := f[c][v := f[c][v] + d]]
  }

  ghost predicate AllBumped(s: seq<Node>, t: seq<Node>, n: nat, path: set<nat>, v: byte, d: nat) {
    n <= |s| == |t| && forall i :: 0 <= i < n ==> Bumped(s[i], t[i], i in path, v, d)
  }

  lemma BumpOne(s: seq<Node>, t: seq<Node>, u: seq<Node>, passed: set<nat>, at: nat, v: byte, d: nat)
    requires AllBumped(s, t, |s|, passed, v, d) && at < |s| && at !in passed
    requires |u| == |t| && u == t[at := u[at]] && Bumped(s[at], u[at], true, v, d)
    ensures AllBumped(s, u, |s|, passed + {at}, v, d)
  {
  }

  /** The search path of `v` is the only place where the counts depend on the count of `v`. */
  lemma BumpWeighs(s: seq<Node>, t: seq<Node>, g: Shape, f: seq<Counts>, n: nat, c: nat, v: byte, d: nat, i: nat)
    requires Linked(s, g, f, n) && Weighs(s, g, f, n) && c < n && s[c].symbols != 0 && 0 < i < n <= |t|
    requires Bumped(s[i], t[i], i in Path(s, c + s[c].symbols, v), v, d)
    ensures NodeWeighs(t, g, Tally(f, c, v, d), n, i)
  {
    assert NodeLinked(s, g, f, n, i) && NodeWeighs(s, g, f, n, i) && ContextLinked(s, g, f, n, c);
    if i in Path(s, c + s[c].symbols, v) {
      PathInside(s, g, f, n, c + s[c].symbols, v, i);
    } else if g.own[i] == c && g.lo[i] < v < g.hi[i] {
      Reach(s, g, f, n, i, v);
    }
    if g.own[i] == c {
      CumUpdate(f[c], v, f[c][v] + d, s[i].value + 1);
      CumUpdate(f[c], v, f[c][v] + d, g.lo[i] + 1);
    }
  }

  /** Coding a symbol already in the tree of `c` counts it in the table of `c`. */
  lemma BumpTree(s: seq<Node>, t: seq<Node>, g: Shape, f: seq<Counts>, n: nat, c: nat, v: byte, d: nat)
    requires Linked(s, g, f, n) && Weighs(s, g, f, n) && c < n && s[c].symbols != 0 && f[c][v] > 0
    requires AllBumped(s, t, n, Path(s, c + s[c].symbols, v), v, d)
    ensures Linked(t, g, Tally(f, c, v, d), n) && Weighs(t, g, Tally(f, c, v, d), n)
  {
    var h := Tally(f, c, v, d);
    forall i | 0 < i < n
      ensures NodeWeighs(t, g, h, n, i)
    {
      BumpWeighs(s, t, g, f, n, c, v, d, i);
    }
    Relink(s, t, g, f, h, n);
  }

  lemma BumpFound(s: seq<Node>, t: seq<Node>, g: Shape, f: seq<Counts>, n: nat, c: nat, v: byte, d: nat, at: nat)
    requires Linked(s, g, f, n) && Weighs(s, g, f, n) && c < n && s[c].symbols != 0
    requires at in TreePath(s, c, v) && at < n && s[at].value == v
    requires AllBumped(s, t, |s|, TreePath(s, c, v), v, d)
    ensures f[c][v] > 0 && 0 < at && g.own[at] == c
    ensures Linked(t, g, Tally(f, c, v, d), n) && Weighs(t, g, Tally(f, c, v, d), n)
  {
    assert ContextLinked(s, g, f, n, c);
    PathInside(s, g, f, n, c + s[c].symbols, v, at);
    assert NodeWeighs(s, g, f, n, at);
    BumpTree(s, t, g, f, n, c, v, d);
  }

  predicate SameLinks(a: Node, b: Node) {
    b.value == a.value && b.left == a.left && b.right == a.right && b.symbols == a.symbols
  }

  /** Changing counts moves nothing, as long as no absent symbol gets a count. */
  lemma Relink(s: seq<Node>, t: seq<Node>, g: Shape, f: seq<Counts>, h: seq<Counts>, n: nat)
    requires Linked(s, g, f, n) && n <= |t| && |h| == n
    requires forall i :: 0 <= i < n ==> SameLinks(s[i], t[i])
    requires forall c, w :: 0 <= c < n && 0 <= w < 256 && f[c][w] == 0 ==> h[c][w] == 0
    ensures Linked(t, g, h, n)
  {
    forall i | 0 <= i < n
      ensures ContextLinked(t, g, h, n, i)
    {
      assert ContextLinked(s, g, f, n, i);
    }
    forall i | 0 < i < n
      ensures NodeLinked(t, g, h, n, i)
    {
      assert NodeLinked(s, g, f, n, i);
    }
  }

  // ---- Walking down a tree ----

  /** The search path of `v` in the tree of context `c`. */
  function TreePath(s: seq<Node>, c: nat, v: byte): set<nat> {
    if c >= |s| || s[c].symbols == 0 then {} else Path(s, c + s[c].symbols, v)
  }

  predicate HasChild(a: Node, v: byte) {
    (v < a.value && a.left != 0) || (v > a.value && a.right != 0)
  }

  function ChildOf(a: Node, i: nat, v: byte): nat {
    if v < a.value then i + a.left else i + a.right
  }

  /** The search for `v` in context `c` has come to node `at` after `passed`, and the counts to the
      left of that node's interval add up to `sum`. */
  ghost predicate Walk(s: seq<Node>, g: Shape, f: seq<Counts>, n: nat, c: nat, v: byte,
                       passed: set<nat>, at: nat, sum: int) {
    && 0 < at < n <= |s| && g.Sized(n) && |f| == n && c < n
    && g.own[at] == c && -1 <= g.lo[at] < v < g.hi[at]
    && TreePath(s, c, v) == passed + Path(s, at, v)
    && (forall j :: j in passed ==> j < at && HasChild(s[j], v))
    && sum == Cum(f[c], g.lo[at] + 1)
  }

  /** The search for `v` in context `c` ends at node `at`. */
  ghost predicate Arrived(s: seq<Node>, n: nat, c: nat, v: byte, at: nat) {
    && 0 < at < n <= |s| && at in TreePath(s, c, v) && !HasChild(s[at], v)
    && (forall j :: j in TreePath(s, c, v) && j != at ==> j < |s| && HasChild(s[j], v))
  }

  lemma WalkStarts(s: seq<Node>, g: Shape, f: seq<Counts>, n: nat, c: nat, v: byte)
    requires Linked(s, g, f, n) && c < n && s[c].symbols != 0
    ensures Walk(s, g, f, n, c, v, {}, c + s[c].symbols, 0)
  {
    assert ContextLinked(s, g, f, n, c);
  }

  lemma WalkOn(s: seq<Node>, g: Shape, f: seq<Counts>, n: nat, c: nat, v: byte, passed: set<nat>, at: nat, sum: int)
    requires Linked(s, g, f, n) && Weighs(s, g, f, n) && Walk(s, g, f, n, c, v, passed, at, sum)
    requires HasChild(s[at], v)
    ensures at < ChildOf(s[at], at, v)
    ensures Walk(s, g, f, n, c, v, passed + {at}, ChildOf(s[at], at, v), sum + if v > s[at].value then s[at].under else 0)
  {
    assert NodeLinked(s, g, f, n, at) && NodeWeighs(s, g, f, n, at);
    assert passed + Path(s, at, v) == passed + {at} + Path(s, ChildOf(s[at], at, v), v);
  }

  lemma WalkArrives(s: seq<Node>, g: Shape, f: seq<Counts>, n: nat, c: nat, v: byte, passed: set<nat>, at: nat, sum: int)
    requires Walk(s, g, f, n, c, v, passed, at, sum) && !HasChild(s[at], v)
    ensures TreePath(s, c, v) == passed + {at} && Arrived(s, n, c, v, at)
  {
    assert Path(s, at, v) == {at};
  }

  lemma WalkEnds(s: seq<Node>, g: Shape, f: seq<Counts>, n: nat, c: nat, v: byte, passed: set<nat>, at: nat, sum: int)
    requires Linked(s, g, f, n) && Weighs(s, g, f, n) && Walk(s, g, f, n, c, v, passed, at, sum)
    requires !HasChild(s[at], v)
    ensures v < s[at].value ==> Cum(f[c], v) == sum && f[c][v] == 0
    ensures v > s[at].value ==> Cum(f[c], v) == sum + s[at].under && f[c][v] == 0
    ensures v == s[at].value ==> Cum(f[c], v) == sum + s[at].under - s[at].count && f[c][v] == s[at].count
  {
    assert NodeLinked(s, g, f, n, at) && NodeWeighs(s, g, f, n, at);
    if v < s[at].value {
      CumEmptyRange(f[c], g.lo[at] + 1, v);
    } else if v > s[at].value {
      CumEmptyRange(f[c], s[at].value + 1, v);
    }
  }

  /** Searching by code takes the turns of searching for the value `v` whose slice holds the code. */
  lemma CodeSide(s: seq<Node>, g: Shape, f: seq<Counts>, n: nat, k: Key, c: nat, v: byte, passed: set<nat>,
                 at: nat, sum: int, code: int)
    requires Linked(s, g, f, n) && Weighs(s, g, f, n) && Walk(s, g, f, n, c, v, passed, at, sum)
    requires Below(k, f[c], v) <= code < Below(k, f[c], v + 1)
    ensures sum + s[at].under + (s[at].value + 1) * Minimum(k) == Below(k, f[c], s[at].value + 1)
    ensures s[at].count == f[c][s[at].value]
    ensures code >= Below(k, f[c], s[at].value + 1) <==> v > s[at].value
    ensures code < Below(k, f[c], s[at].value + 1) - (s[at].count + Minimum(k)) <==> v < s[at].value
  {
    assert NodeLinked(s, g, f, n, at) && NodeWeighs(s, g, f, n, at);
    var w: int := s[at].value;
    assert Below(k, f[c], w + 1) == Below(k, f[c], w) + f[c][w] + Minimum(k);
    if v > w {
      BelowMonotone(k, f[c], w + 1, v);
    } else {
      BelowMonotone(k, f[c], v + 1, w + 1);
      if v < w { BelowMonotone(k, f[c], v + 1, w); } else { BelowMonotone(k, f[c], w, v); }
    }
  }

  /** Where a search by code ends without finding a symbol, the code counts off the value. */
  lemma CodeValue(s: seq<Node>, g: Shape, f: seq<Counts>, n: nat, k: Key, c: nat, v: byte, passed: set<nat>,
                  at: nat, sum: int, code: int)
    requires Linked(s, g, f, n) && Weighs(s, g, f, n) && Walk(s, g, f, n, c, v, passed, at, sum)
    requires Below(k, f[c], v) <= code < Below(k, f[c], v + 1) && !HasChild(s[at], v) && v != s[at].value
    ensures k.Root? && f[c][v] == 0 && code == Below(k, f[c], v)
    ensures v > s[at].value ==> v == s[at].value + 1 + (code - Below(k, f[c], s[at].value + 1))
    ensures v < s[at].value ==> v == s[at].value - 1 - (Below(k, f[c], s[at].value) - code - 1)
  {
    assert NodeLinked(s, g, f, n, at) && NodeWeighs(s, g, f, n, at);
    WalkEnds(s, g, f, n, c, v, passed, at, sum);
    if v > s[at].value {
      CumEmptyRange(f[c], s[at].value + 1, v);
    } else {
      CumEmptyRange(f[c], v, s[at].value);
    }
  }

  /** The counts stored in a node are part of its context's. */
  lemma NodeFits(s: seq<Node>, g: Shape, f: seq<Counts>, n: nat, i: nat)
    requires Linked(s, g, f, n) && Weighs(s, g, f, n) && 0 < i < n
    ensures g.own[i] < n && s[i].under <= Sum(f[g.own[i]]) && s[i].count == f[g.own[i]][s[i].value]
  {
    assert NodeLinked(s, g, f, n, i) && NodeWeighs(s, g, f, n, i);
    CumMonotone(f[g.own[i]], s[i].value + 1, |f[g.own[i]]|);
  }

  // ---- Growing a tree ----

  /** Where a new node is hung: the empty tree of a context, or a missing subtree of a node. */
  datatype Slot = AtContext | AtLeft | AtRight

  /** `at` is where the search for `v` in context `c` ends without finding it. */
  ghost predicate Ends(s: seq<Node>, n: nat, c: nat, v: byte, slot: Slot, at: nat) {
    && c < n <= |s| && at < n
    && (match slot
        case AtContext => at == c && s[c].symbols == 0
        case AtLeft => at in TreePath(s, c, v) && v < s[at].value && s[at].left == 0
        case AtRight => at in TreePath(s, c, v) && v > s[at].value && s[at].right == 0)
    && (forall i :: i in TreePath(s, c, v) && i != at && i < |s| ==> HasChild(s[i], v))
  }

  /** Node `b` is node `a`, with the new node hung `off` further on if `here`. */
  predicate Attached(a: Node, b: Node, here: bool, slot: Slot, off: nat) {
    && b.value == a.value
    && b.symbols == (if here && slot.AtContext? then off else a.symbols)
    && b.left == (if here && slot.AtLeft? then off else a.left)
    && b.right == (if here && slot.AtRight? then off else a.right)
  }

  function Grown(s: seq<Node>, g: Shape, c: nat, slot: Slot, at: nat): Shape
    requires at < |s| && at < |g.lo| && at < |g.hi|
  {
    Shape(g.own + [c],
          g.lo + [match slot case AtContext => -1 case AtLeft => g.lo[at] case AtRight => s[at].value],
          g.hi + [match slot case AtContext => 256 case AtLeft => s[at].value case AtRight => g.hi[at]],
          g.up + [at])
  }

  ghost predicate Grows(s: seq<Node>, t: seq<Node>, g: Shape, f: seq<Counts>, n: nat,
                        c: nat, v: byte, d: byte, slot: Slot, at: nat) {
    && Linked(s, g, f, n) && n < |s| == |t| && Ends(s, n, c, v, slot, at) && f[c][v] == 0
    && t[n] == Node(v, d, d, 0, 0, 0, 0, 0, 0)
    && (forall i :: 0 <= i < n ==> Attached(s[i], t[i], i == at, slot, n - at))
  }

  /** The tables once the new node, itself an empty context, is in. */
  function Added(f: seq<Counts>, c: nat, v: byte, d: nat): seq<Counts>
    requires c < |f|
  {
    Tally(f, c, v, d) + [Zeros()]
  }

  lemma GrowContexts(s: seq<Node>, t: seq<Node>, g: Shape, f: seq<Counts>, n: nat,
                     c: nat, v: byte, d: byte, slot: Slot, at: nat, i: nat)
    requires Grows(s, t, g, f, n, c, v, d, slot, at) && i <= n
    ensures ContextLinked(t, Grown(s, g, c, slot, at), Added(f, c, v, d), n + 1, i)
  {
    if i < n {
      assert ContextLinked(s, g, f, n, i);
    }
  }

  lemma GrowNodes(s: seq<Node>, t: seq<Node>, g: Shape, f: seq<Counts>, n: nat,
                  c: nat, v: byte, d: byte, slot: Slot, at: nat, i: nat)
    requires Grows(s, t, g, f, n, c, v, d, slot, at) && 0 < i < n
    ensures NodeLinked(t, Grown(s, g, c, slot, at), Added(f, c, v, d), n + 1, i)
  {
    assert NodeLinked(s, g, f, n, i) && ContextLinked(s, g, f, n, c);
    assert Attached(s[i], t[i], i == at, slot, n - at);
    assert Attached(s[g.own[i]], t[g.own[i]], g.own[i] == at, slot, n - at);
    assert Attached(s[g.up[i]], t[g.up[i]], g.up[i] == at, slot, n - at);
    if i == at && slot != AtContext {
      PathInside(s, g, f, n, c + s[c].symbols, v, at);
    } else if g.own[i] == c && g.lo[i] < v < g.hi[i] {
      Reach(s, g, f, n, i, v);
    }
  }

  lemma GrowLeaf(s: seq<Node>, t: seq<Node>, g: Shape, f: seq<Counts>, n: nat,
                 c: nat, v: byte, d: byte, slot: Slot, at: nat)
    requires Grows(s, t, g, f, n, c, v, d, slot, at) && 0 < d
    ensures NodeLinked(t, Grown(s, g, c, slot, at), Added(f, c, v, d), n + 1, n)
    ensures NodeWeighs(t, Grown(s, g, c, slot, at), Added(f, c, v, d), n + 1, n)
  {
    assert ContextLinked(s, g, f, n, c);
    if slot != AtContext {
      PathInside(s, g, f, n, c + s[c].symbols, v, at);
      assert NodeLinked(s, g, f, n, at);
    }
    var l := Grown(s, g, c, slot, at).lo[n];
    var h := Added(f, c, v, d)[c];
    CumEmptyRange(h, l + 1, v);
  }

  /** Hanging a new symbol where its search ended keeps every tree a search tree, and adds exactly
      that symbol to the table of `c`. */
  lemma GrowTree(s: seq<Node>, t: seq<Node>, g: Shape, f: seq<Counts>, n: nat,
                 c: nat, v: byte, d: byte, slot: Slot, at: nat)
    requires Grows(s, t, g, f, n, c, v, d, slot, at) && Weighs(s, g, f, n) && 0 < d
    requires forall i :: 0 < i < n ==> t[i].count == s[i].count
    requires forall i :: 0 < i < n ==> t[i].under == s[i].under + if i in TreePath(s, c, v) && v < s[i].value then d else 0
    ensures Linked(t, Grown(s, g, c, slot, at), Added(f, c, v, d), n + 1)
    ensures Weighs(t, Grown(s, g, c, slot, at), Added(f, c, v, d), n + 1)
  {
    var g', f', m := Grown(s, g, c, slot, at), Added(f, c, v, d), n + 1;
    forall i | 0 <= i < m
      ensures ContextLinked(t, g', f', m, i)
    {
      GrowContexts(s, t, g, f, n, c, v, d, slot, at, i);
    }
    forall i | 0 < i < m
      ensures NodeLinked(t, g', f', m, i) && NodeWeighs(t, g', f', m, i)
    {
      if i == n {
        GrowLeaf(s, t, g, f, n, c, v, d, slot, at);
      } else {
        GrowNodes(s, t, g, f, n, c, v, d, slot, at, i);
        GrowWeighs(s, t, g, f, n, c, v, d, slot, at, i);
      }
    }
  }

  lemma GrowWeighs(s: seq<Node>, t: seq<Node>, g: Shape, f: seq<Counts>, n: nat,
                   c: nat, v: byte, d: byte, slot: Slot, at: nat, i: nat)
    requires Grows(s, t, g, f, n, c, v, d, slot, at) && Weighs(s, g, f, n) && 0 < i < n
    requires t[i].count == s[i].count
    requires t[i].under == s[i].under + if i in TreePath(s, c, v) && v < s[i].value then d else 0
    ensures NodeWeighs(t, Grown(s, g, c, slot, at), Added(f, c, v, d), n + 1, i)
  {
    assert NodeLinked(s, g, f, n, i) && NodeWeighs(s, g, f, n, i) && ContextLinked(s, g, f, n, c);
    assert Attached(s[i], t[i], i == at, slot, n - at);
    if i in TreePath(s, c, v) {
      PathInside(s, g, f, n, c + s[c].symbols, v, i);
    } else if g.own[i] == c && g.lo[i] < v < g.hi[i] {
      Reach(s, g, f, n, i, v);
    }
    if g.own[i] == c {
      CumUpdate(f[c], v, f[c][v] + d, s[i].value + 1);
      CumUpdate(f[c], v, f[c][v] + d, g.lo[i] + 1);
    }
  }

  /** The node on the path where the search ends does not hold the value searched for. */
  lemma EndsApart(s: seq<Node>, g: Shape, f: seq<Counts>, n: nat, c: nat, v: byte, slot: Slot, at: nat)
    requires Linked(s, g, f, n) && Ends(s, n, c, v, slot, at)
    ensures forall i :: i in TreePath(s, c, v) ==> 0 < i < n && s[i].value != v
  {
    assert ContextLinked(s, g, f, n, c);
    forall i | i in TreePath(s, c, v)
      ensures 0 < i < n && s[i].value != v
    {
      PathInside(s, g, f, n, c + s[c].symbols, v, i);
    }
  }

  /** Nodes whose place as a context is untouched. */
  predicate SameContext(a: Node, b: Node) {
    b.value == a.value && b.escapes == a.escapes && b.total == a.total && b.parent == a.parent
  }

  function Hooked(a: Node, slot: Slot, off: u16): Node {
    match slot
    case AtContext => a.(symbols := off)
    case AtLeft => a.(left := off)
    case AtRight => a.(right := off)
  }

  /** The pool once the path has been counted and the new node hung. */
  lemma GrowBumped(s: seq<Node>, m: seq<Node>, t: seq<Node>, g: Shape, f: seq<Counts>, n: nat,
                   c: nat, v: byte, d: byte, slot: Slot, at: nat)
    requires Linked(s, g, f, n) && Weighs(s, g, f, n) && n < |s| <= POOL && 0 < d
    requires Ends(s, n, c, v, slot, at) && f[c][v] == 0 && AllBumped(s, m, |s|, TreePath(s, c, v), v, d)
    requires t == m[n := Node(v, d, d, 0, 0, 0, 0, 0, 0)][at := Hooked(m[at], slot, n - at)]
    ensures Linked(t, Grown(s, g, c, slot, at), Added(f, c, v, d), n + 1)
    ensures Weighs(t, Grown(s, g, c, slot, at), Added(f, c, v, d), n + 1)
    ensures forall i :: 0 <= i < n ==> SameContext(s[i], t[i])
  {
    assert forall i :: 0 <= i < n ==> Bumped(s[i], m[i], i in TreePath(s, c, v), v, d);
    EndsApart(s, g, f, n, c, v, slot, at);
    GrowTree(s, t, g, f, n, c, v, d, slot, at);
  }

  // ---- Rescaling a tree ----

  /** The nodes of the tree below node `i`. */
  function Subtree(s: seq<Node>, i: nat): set<nat>
    decreases |s| - i
  {
    if i >= |s| then {}
    else
      {i} + (if s[i].left != 0 then Subtree(s, i + s[i].left) else {})
          + (if s[i].right != 0 then Subtree(s, i + s[i].right) else {})
  }

  lemma {:induction false} SubtreeInside(s: seq<Node>, g: Shape, f: seq<Counts>, n: nat, i: nat, j: nat)
    requires Linked(s, g, f, n) && 0 < i < n && j in Subtree(s, i)
    ensures 0 < j < n && g.own[j] == g.own[i] && g.lo[i] <= g.lo[j] && g.hi[j] <= g.hi[i]
    ensures g.lo[i] < s[j].value < g.hi[i]
    decreases n - i
  {
    assert NodeLinked(s, g, f, n, i);
    if j != i {
      if s[i].left != 0 && j in Subtree(s, i + s[i].left) {
        SubtreeInside(s, g, f, n, i + s[i].left, j);
      } else {
        SubtreeInside(s, g, f, n, i + s[i].right, j);
      }
    }
  }

  lemma {:induction false} PathInSubtree(s: seq<Node>, i: nat, v: byte)
    ensures Path(s, i, v) <= Subtree(s, i)
    decreases |s| - i
  {
    if i < |s| {
      if v < s[i].value && s[i].left != 0 {
        PathInSubtree(s, i + s[i].left, v);
      } else if v > s[i].value && s[i].right != 0 {
        PathInSubtree(s, i + s[i].right, v);
      }
    }
  }

  /** The tree of a context holds exactly the symbols that it owns. */
  lemma TreeIsContext(s: seq<Node>, g: Shape, f: seq<Counts>, n: nat, c: nat, j: nat)
    requires Linked(s, g, f, n) && c < n && s[c].symbols != 0 && 0 < j < n
    ensures j in Subtree(s, c + s[c].symbols) <==> g.own[j] == c
  {
    assert ContextLinked(s, g, f, n, c) && NodeLinked(s, g, f, n, j);
    if g.own[j] == c {
      Reach(s, g, f, n, j, s[j].value);
      PathInSubtree(s, c + s[c].symbols, s[j].value);
    }
    if j in Subtree(s, c + s[c].symbols) {
      SubtreeInside(s, g, f, n, c + s[c].symbols, j);
    }
  }

  function LeftTree(s: seq<Node>, i: nat): set<nat>
    requires i < |s|
  {
    if s[i].left != 0 then Subtree(s, i + s[i].left) else {}
  }

  function RightTree(s: seq<Node>, i: nat): set<nat>
    requires i < |s|
  {
    if s[i].right != 0 then Subtree(s, i + s[i].right) else {}
  }

  lemma SubtreesApart(s: seq<Node>, g: Shape, f: seq<Counts>, n: nat, i: nat)
    requires Linked(s, g, f, n) && 0 < i < n
    ensures i !in LeftTree(s, i) && i !in RightTree(s, i) && LeftTree(s, i) !! RightTree(s, i)
  {
    assert NodeLinked(s, g, f, n, i);
    forall j | j in LeftTree(s, i)
      ensures j < |s| && s[j].value < s[i].value
    {
      SubtreeInside(s, g, f, n, i + s[i].left, j);
    }
    forall j | j in RightTree(s, i)
      ensures j < |s| && s[j].value > s[i].value
    {
      SubtreeInside(s, g, f, n, i + s[i].right, j);
    }
  }

  /** What rescaling does to a node of a tree whose table becomes `h`. */
  predicate Halved(a: Node, b: Node, h: Counts, lo: int) {
    && b.value == a.value && b.left == a.left && b.right == a.right && b.symbols == a.symbols
    && b.escapes == a.escapes && b.total == a.total && b.parent == a.parent
    && b.count == Halve(a.count)
    && -1 <= lo < b.value && b.under == Cum(h, b.value + 1) - Cum(h, lo + 1)
  }

  /** Exactly the nodes of `done` have been rescaled, of a pool that was `s` in them and `o` elsewhere. */
  ghost predicate AllHalved(s: seq<Node>, o: seq<Node>, t: seq<Node>, g: Shape, n: nat, done: set<nat>, h: Counts) {
    && n <= |s| == |o| == |t| && g.Sized(n)
    && (forall j :: j in done ==> j < n && Halved(s[j], t[j], h, g.lo[j]))
    && (forall j :: 0 <= j < |s| && j !in done ==> t[j] == o[j])
  }

  lemma HalvedJoin(s: seq<Node>, o: seq<Node>, m: seq<Node>, t: seq<Node>, g: Shape, n: nat, a: set<nat>, b: set<nat>, h: Counts)
    requires AllHalved(s, o, m, g, n, a, h) && AllHalved(s, m, t, g, n, b, h) && a !! b
    ensures AllHalved(s, o, t, g, n, a + b, h)
  {
  }

  lemma HalvedOne(s: seq<Node>, o: seq<Node>, t: seq<Node>, g: Shape, n: nat, a: set<nat>, h: Counts, p: nat, node: Node)
    requires AllHalved(s, o, t, g, n, a, h) && p < n && p !in a && Halved(s[p], node, h, g.lo[p])
    ensures AllHalved(s, o, t[p := node], g, n, a + {p}, h)
  {
  }

  /** What a node has to hold after rescaling: its own halved count and its left subtree's. */
  lemma HalvedUnder(s: seq<Node>, g: Shape, f: seq<Counts>, n: nat, p: nat, h: Counts)
    requires Linked(s, g, f, n) && Weighs(s, g, f, n) && 0 < p < n && g.own[p] < n && h == HalveAll(f[g.own[p]])
    ensures -1 <= g.lo[p] < s[p].value
    ensures s[p].left == 0 ==> Cum(h, s[p].value + 1) - Cum(h, g.lo[p] + 1) == Halve(s[p].count)
    ensures s[p].left != 0 ==> Hangs(g, n, p + s[p].left, g.own[p], p, g.lo[p], s[p].value)
    ensures s[p].left != 0 ==> Cum(h, s[p].value + 1) == Cum(h, s[p].value) + Halve(s[p].count)
  {
    assert NodeLinked(s, g, f, n, p) && NodeWeighs(s, g, f, n, p);
    if s[p].left == 0 {
      CumEmptyRange(h, g.lo[p] + 1, s[p].value);
    }
  }

  /** The loop of the rescaling has gone down the right spine from `i` to `p`. */
  ghost predicate Spine(s: seq<Node>, g: Shape, n: nat, c: nat, h: Counts, i: nat, p: nat, done: set<nat>, total: int) {
    && 0 < i <= p < n <= |s| && g.Sized(n) && g.own[p] == c
    && -1 <= g.lo[i] <= g.lo[p] < g.hi[p] == g.hi[i] <= 256
    && total == Cum(h, g.lo[p] + 1) - Cum(h, g.lo[i] + 1)
    && Subtree(s, i) == done + Subtree(s, p) && done !! Subtree(s, p)
  }

  lemma SpineStarts(s: seq<Node>, g: Shape, f: seq<Counts>, n: nat, c: nat, h: Counts, i: nat)
    requires Linked(s, g, f, n) && 0 < i < n && g.own[i] == c
    ensures Spine(s, g, n, c, h, i, i, {}, 0)
  {
    assert NodeLinked(s, g, f, n, i);
  }

  lemma SpineOn(s: seq<Node>, g: Shape, f: seq<Counts>, n: nat, c: nat, h: Counts, i: nat, p: nat, done: set<nat>, total: int)
    requires Linked(s, g, f, n) && c < n && Spine(s, g, n, c, h, i, p, done, total) && s[p].right != 0
    requires g.lo[p] < s[p].value
    ensures Spine(s, g, n, c, h, i, p + s[p].right, done + (LeftTree(s, p) + {p}),
                  total + Cum(h, s[p].value + 1) - Cum(h, g.lo[p] + 1))
  {
    assert NodeLinked(s, g, f, n, p);
    SubtreesApart(s, g, f, n, p);
    assert Subtree(s, p) == LeftTree(s, p) + {p} + Subtree(s, p + s[p].right);
  }

  lemma SpineEnds(s: seq<Node>, g: Shape, f: seq<Counts>, n: nat, c: nat, h: Counts, i: nat, p: nat, done: set<nat>, total: int)
    requires Linked(s, g, f, n) && c < n && Spine(s, g, n, c, h, i, p, done, total) && s[p].right == 0
    requires h == HalveAll(f[c]) && g.lo[p] < s[p].value
    ensures Subtree(s, i) == done + (LeftTree(s, p) + {p})
    ensures total + Cum(h, s[p].value + 1) - Cum(h, g.lo[p] + 1) == Cum(h, g.hi[i]) - Cum(h, g.lo[i] + 1)
  {
    assert NodeLinked(s, g, f, n, p);
    assert Subtree(s, p) == LeftTree(s, p) + {p};
    CumEmptyRange(h, s[p].value + 1, g.hi[p]);
  }

  /** Rescaling every node of the tree of `c` halves every count in its table. */
  lemma HalveTree(s: seq<Node>, t: seq<Node>, g: Shape, f: seq<Counts>, n: nat, c: nat)
    requires Linked(s, g, f, n) && Weighs(s, g, f, n) && c < n && s[c].symbols != 0
    requires AllHalved(s, s, t, g, n, Subtree(s, c + s[c].symbols), HalveAll(f[c]))
    ensures Linked(t, g, f[c := HalveAll(f[c])], n) && Weighs(t, g, f[c := HalveAll(f[c])], n)
  {
    var h := f[c := HalveAll(f[c])];
    forall i | 0 < i < n
      ensures NodeWeighs(t, g, h, n, i)
    {
      assert NodeLinked(s, g, f, n, i) && NodeWeighs(s, g, f, n, i);
      TreeIsContext(s, g, f, n, c, i);
    }
    Relink(s, t, g, f, h, n);
  }

  /** No context is a symbol of its own. */
  lemma ContextApart(s: seq<Node>, g: Shape, f: seq<Counts>, n: nat, c: nat)
    requires Linked(s, g, f, n) && c < n && s[c].symbols != 0
    ensures c !in Subtree(s, c + s[c].symbols)
  {
    assert ContextLinked(s, g, f, n, c);
    assert 0 < c ==> NodeLinked(s, g, f, n, c);
    if c in Subtree(s, c + s[c].symbols) {
      SubtreeInside(s, g, f, n, c + s[c].symbols, c);
    }
  }

  /** Escapes, totals and parents play no part in the trees. */
  lemma Relabel(s: seq<Node>, t: seq<Node>, g: Shape, f: seq<Counts>, n: nat)
    requires Linked(s, g, f, n) && Weighs(s, g, f, n) && |t| == |s|
    requires forall i :: 0 <= i < n ==> SameLinks(s[i], t[i]) && t[i].count == s[i].count && t[i].under == s[i].under
    ensures Linked(t, g, f, n) && Weighs(t, g, f, n)
  {
    Relink(s, t, g, f, f, n);
    forall i | 0 < i < n
      ensures NodeWeighs(t, g, f, n, i)
    {
      assert NodeWeighs(s, g, f, n, i);
    }
  }
}
