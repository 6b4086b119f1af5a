/**
 The encoder's and the decoder's node pools.

 The two create the symbols of a byte in opposite orders, so a context has different node numbers on
 the two sides.  Between two bytes the pools are the same up to that renumbering: every field of a node
 agrees, and every link leads to the node of the same context.
 */
module PoolMirrors {
  import opened Words
  import opened FrequencyModel
  import opened SymbolTrees
  import opened RangeCodec
  import opened SymbolNames
  import opened RangeCoders
  import opened ModelPools

  /** What a coder's fields say, as one value, with the node of the predicted context. */
  datatype Pool = Pool(s: seq<Node>, g: Shape, f: seq<Counts>, n: nat, keys: seq<Key>, predicted: nat)

  ghost predicate Standing(p: Pool, m: Model) {
    && Linked(p.s, p.g, p.f, p.n) && Weighs(p.s, p.g, p.f, p.n)
    && Names(p.s, p.g, p.f, p.n, p.keys, m.tables) && Parents(p.s, p.n, p.keys, -1)
    && Lists(p.keys, m.tables) && Timely(p.keys, m.tables, m.born)
    && p.predicted < p.n < POOL - SUBCONTEXT_ORDER && p.keys[p.predicted] == m.predicted
  }

  // ---- One pool ----

  /** A search comes to its nodes in the order of their numbers, and stops at the value. */
  lemma {:induction false} PathOrder(s: seq<Node>, i: nat, v: byte, a: nat, b: nat)
    requires a in Path(s, i, v) && b in Path(s, i, v) && a < b
    ensures a < |s| && s[a].value != v
    decreases |s| - i
  {
    if a != i {
      PathFrom(s, i, v, a);
      if v < s[i].value {
        PathOrder(s, i + s[i].left, v, a, b);
      } else {
        PathOrder(s, i + s[i].right, v, a, b);
      }
    }
  }

  lemma {:induction false} PathFrom(s: seq<Node>, i: nat, v: byte, a: nat)
    requires a in Path(s, i, v)
    ensures i <= a < |s|
    decreases |s| - i
  {
    if a != i {
      if v < s[i].value {
        PathFrom(s, i + s[i].left, v, a);
      } else {
        PathFrom(s, i + s[i].right, v, a);
      }
    }
  }

  /** A node is older than all others whose values lie in its interval. */
  lemma Eldest(p: Pool, m: Model, i: nat, j: nat)
    requires Standing(p, m) && 0 < i < p.n && 0 < j < p.n && p.g.own[i] == p.g.own[j]
    requires p.g.lo[i] < p.s[j].value < p.g.hi[i]
    ensures i <= j
  {
    hide Names, Parents, Lists, Timely, Weighs, Path;
    var v := p.s[j].value;
    assert NodeLinked(p.s, p.g, p.f, p.n, j);
    Reach(p.s, p.g, p.f, p.n, i, v);
    Reach(p.s, p.g, p.f, p.n, j, v);
    if j < i {
      PathOrder(p.s, p.g.own[i] + p.s[p.g.own[i]].symbols, v, j, i);
    }
  }

  // ---- Two pools ----

  /** The node of `q` that stands for the context of node `x` of `p`. */
  ghost function Twin(p: Pool, q: Pool, x: nat): nat {
    if x < |p.keys| && p.keys[x] in q.keys then
      var y :| 0 <= y < |q.keys| && q.keys[y] == p.keys[x];
      y
    else 0
  }

  lemma TwinKey(p: Pool, q: Pool, m: Model, x: nat)
    requires Standing(p, m) && Standing(q, m) && x < p.n
    ensures Twin(p, q, x) < q.n == p.n && q.keys[Twin(p, q, x)] == p.keys[x]
  {
    hide Linked, Weighs, Parents, Timely, Held;
    ListsAll(q.keys, m.tables, p.keys[x]);
  }

  lemma OneNode(p: Pool, m: Model, x: nat, y: nat)
    requires Standing(p, m) && x < p.n && y < p.n && p.keys[x] == p.keys[y]
    ensures x == y
  {
    hide Linked, Weighs, Parents, Timely, Held;
  }

  lemma TwinBack(p: Pool, q: Pool, m: Model, y: nat)
    requires Standing(p, m) && Standing(q, m) && y < q.n
    ensures Twin(q, p, y) < p.n && Twin(p, q, Twin(q, p, y)) == y
  {
    hide Standing, Twin;
    TwinKey(q, p, m, y);
    TwinKey(p, q, m, Twin(q, p, y));
    OneNode(q, m, y, Twin(p, q, Twin(q, p, y)));
  }

  lemma NameOf(p: Pool, m: Model, x: nat)
    requires Standing(p, m) && x < p.n
    ensures |p.keys| == |p.g.own| == p.n == |p.f| == |p.g.lo| == |p.g.hi| && p.n <= |p.s| && p.keys[x] in m.tables
    ensures m.tables[p.keys[x]] == Context(p.s[x].escapes, p.f[x]) && p.s[x].total == Total(p.keys[x], m.tables[p.keys[x]])
    ensures 0 < x ==> p.g.own[x] < x && p.keys[x] == Symbol(p.keys[p.g.own[x]], p.s[x].value)
    ensures x == 0 <==> p.keys[x].Root?
  {
    hide Weighs, Parents, Timely, Lists, ContextLinked, NodeLinked, Total;
  }

  /** Twins have the same table, and hang in the trees of twins. */
  lemma TwinSame(p: Pool, q: Pool, m: Model, x: nat)
    requires Standing(p, m) && Standing(q, m) && x < p.n
    ensures |p.keys| == |p.g.own| == p.n == |p.f| == |p.g.lo| == |p.g.hi| <= |p.s|
    ensures |q.keys| == |q.g.own| == q.n == |q.f| == |q.g.lo| == |q.g.hi| <= |q.s|
    ensures var y := Twin(p, q, x);
            && y < q.n == p.n && (y == 0 <==> x == 0) && q.f[y] == p.f[x]
            && q.s[y].escapes == p.s[x].escapes && q.s[y].total == p.s[x].total
            && (0 < x ==> p.g.own[x] < x && q.s[y].value == p.s[x].value && q.g.own[y] == Twin(p, q, p.g.own[x]))
  {
    hide Standing, Twin, Total;
    var y := Twin(p, q, x);
    TwinKey(p, q, m, x);
    NameOf(p, m, x);
    NameOf(q, m, y);
    if 0 < x {
      TwinKey(p, q, m, p.g.own[x]);
      OneNode(q, m, q.g.own[y], Twin(p, q, p.g.own[x]));
    }
  }

  /** Symbols of one context have been created in the same order on both sides. */
  lemma SameOrder(p: Pool, q: Pool, m: Model, i: nat, j: nat)
    requires Standing(p, m) && Standing(q, m) && 0 < i < j < p.n
    requires |p.g.own| == p.n && p.g.own[i] == p.g.own[j]
    ensures Twin(p, q, i) < Twin(p, q, j)
  {
    hide Standing, Twin, Total;
    NameOf(p, m, i);
    NameOf(p, m, j);
    TwinKey(p, q, m, i);
    TwinKey(p, q, m, j);
    NameOf(q, m, Twin(p, q, i));
    Younger(p, m, i, j);
    if Twin(p, q, j) < Twin(p, q, i) {
      Younger(q, m, Twin(p, q, j), Twin(p, q, i));
    } else if Twin(p, q, j) == Twin(p, q, i) {
      OneNode(p, m, i, j);
    }
  }

  lemma Younger(p: Pool, m: Model, i: nat, j: nat)
    requires Standing(p, m) && i < j < p.n == |p.keys| && Siblings(p.keys[i], p.keys[j])
    ensures p.keys[i] in m.born && p.keys[j] in m.born && m.born[p.keys[i]] < m.born[p.keys[j]]
  {
    hide Linked, Weighs, Names, Parents, Lists;
  }

  ghost predicate SameInterval(p: Pool, q: Pool, x: nat, y: nat) {
    && x < |p.g.lo| && x < |p.g.hi| && y < |q.g.lo| && y < |q.g.hi|
    && p.g.lo[x] == q.g.lo[y] && p.g.hi[x] == q.g.hi[y]
  }

  /** A place in a tree is taken by the oldest symbol that fits in, so by twins on the two sides. */
  lemma SameTop(p: Pool, q: Pool, m: Model, x: nat, z: nat)
    requires Standing(p, m) && Standing(q, m) && 0 < x < p.n && 0 < z < q.n
    requires |p.g.own| == p.n && |q.g.own| == q.n && q.g.own[z] == Twin(p, q, p.g.own[x]) && SameInterval(p, q, x, z)
    ensures Twin(p, q, x) == z
  {
    hide Standing, Twin;
    var y, w := Twin(p, q, x), Twin(q, p, z);
    TwinBack(p, q, m, z);
    TwinSame(p, q, m, x);
    TwinSame(q, p, m, z);
    TwinSame(p, q, m, w);
    TwinKey(p, q, m, p.g.own[x]);
    TwinKey(p, q, m, p.g.own[w]);
    OneNode(p, m, p.g.own[x], p.g.own[w]);
    Inside(p, m, w);
    Inside(q, m, z);
    Inside(p, m, x);
    Eldest(p, m, x, w);
    Eldest(q, m, z, y);
    if x < w {
      SameOrder(p, q, m, x, w);
    }
  }

  lemma Inside(p: Pool, m: Model, x: nat)
    requires Standing(p, m) && 0 < x < p.n
    ensures |p.g.own| == |p.g.lo| == |p.g.hi| == p.n <= |p.s| && p.g.lo[x] < p.s[x].value < p.g.hi[x]
  {
    hide Weighs, Names, Parents, Lists, Timely;
    assert NodeLinked(p.s, p.g, p.f, p.n, x);
  }

  // ---- Links ----

  /** `j` is a node of the tree of `c` with the interval `lo`..`hi`. */
  ghost predicate Takes(p: Pool, j: nat, c: nat, lo: int, hi: int) {
    && 0 < j < p.n && |p.g.own| == |p.g.lo| == |p.g.hi| == p.n
    && p.g.own[j] == c && p.g.lo[j] == lo && p.g.hi[j] == hi
  }

  /** A link to what stands in the tree of `c` between `lo` and `hi`: none if nothing does. */
  ghost predicate Fills(p: Pool, from: nat, link: nat, c: nat, lo: int, hi: int) {
    c < |p.f| && if link == 0 then NoneIn(p.f[c], lo, hi) else Takes(p, from + link, c, lo, hi)
  }

  lemma Places(p: Pool, m: Model, x: nat)
    requires Standing(p, m) && x < p.n
    ensures |p.g.own| == |p.g.lo| == |p.g.hi| == p.n <= |p.s|
    ensures Fills(p, x, p.s[x].symbols, x, -1, 256)
    ensures 0 < x ==> Fills(p, x, p.s[x].left, p.g.own[x], p.g.lo[x], p.s[x].value)
    ensures 0 < x ==> Fills(p, x, p.s[x].right, p.g.own[x], p.s[x].value, p.g.hi[x])
  {
    hide Weighs, Names, Parents, Lists, Timely, NoneIn;
    assert ContextLinked(p.s, p.g, p.f, p.n, x);
    if 0 < x {
      assert NodeLinked(p.s, p.g, p.f, p.n, x);
    }
  }

  lemma Weight(p: Pool, m: Model, x: nat)
    requires Standing(p, m) && 0 < x < p.n
    ensures |p.g.own| == |p.g.lo| == p.n == |p.f| <= |p.s| && p.g.own[x] < p.n && -1 <= p.g.lo[x] < p.s[x].value
    ensures 0 < p.s[x].count == p.f[p.g.own[x]][p.s[x].value]
    ensures p.s[x].under == Cum(p.f[p.g.own[x]], p.s[x].value + 1) - Cum(p.f[p.g.own[x]], p.g.lo[x] + 1)
  {
    hide Linked, Names, Parents, Lists, Timely;
    assert NodeWeighs(p.s, p.g, p.f, p.n, x);
  }

  /** A link is there exactly when something stands in its place. */
  lemma FillsIff(p: Pool, m: Model, from: nat, link: nat, c: nat, lo: int, hi: int)
    requires Standing(p, m) && Fills(p, from, link, c, lo, hi)
    ensures link == 0 <==> NoneIn(p.f[c], lo, hi)
  {
    hide Standing;
    if link != 0 {
      Weight(p, m, from + link);
      Inside(p, m, from + link);
    }
  }

  ghost predicate SameLink(p: Pool, q: Pool, from: nat, link: nat, from': nat, link': nat) {
    (link == 0 <==> link' == 0) && (link != 0 ==> from + link < p.n && Twin(p, q, from + link) == from' + link')
  }

  lemma FillsTwin(p: Pool, q: Pool, m: Model, from: nat, link: nat, from': nat, link': nat, c: nat, lo: int, hi: int)
    requires Standing(p, m) && Standing(q, m) && c < p.n
    requires Fills(p, from, link, c, lo, hi) && Fills(q, from', link', Twin(p, q, c), lo, hi)
    ensures SameLink(p, q, from, link, from', link')
    ensures link != 0 ==> SameInterval(p, q, from + link, Twin(p, q, from + link))
  {
    hide Standing, NoneIn, Twin;
    TwinSame(p, q, m, c);
    FillsIff(p, m, from, link, c, lo, hi);
    FillsIff(q, m, from', link', Twin(p, q, c), lo, hi);
    if link != 0 {
      SameTop(p, q, m, from + link, from' + link');
    }
  }

  lemma ChildTwins(p: Pool, q: Pool, m: Model, x: nat)
    requires Standing(p, m) && Standing(q, m) && 0 < x < p.n && SameInterval(p, q, x, Twin(p, q, x))
    ensures |p.s| >= p.n && |q.s| >= q.n && Twin(p, q, x) < q.n
    ensures var y := Twin(p, q, x);
            && SameLink(p, q, x, p.s[x].left, y, q.s[y].left) && SameLink(p, q, x, p.s[x].right, y, q.s[y].right)
            && (p.s[x].left != 0 ==> SameInterval(p, q, x + p.s[x].left, Twin(p, q, x + p.s[x].left)))
            && (p.s[x].right != 0 ==> SameInterval(p, q, x + p.s[x].right, Twin(p, q, x + p.s[x].right)))
  {
    hide Standing, Twin, Fills;
    var y := Twin(p, q, x);
    TwinSame(p, q, m, x);
    Places(p, m, x);
    Places(q, m, y);
    FillsTwin(p, q, m, x, p.s[x].left, y, q.s[y].left, p.g.own[x], p.g.lo[x], p.s[x].value);
    FillsTwin(p, q, m, x, p.s[x].right, y, q.s[y].right, p.g.own[x], p.s[x].value, p.g.hi[x]);
  }

  lemma RootTwins(p: Pool, q: Pool, m: Model, c: nat)
    requires Standing(p, m) && Standing(q, m) && c < p.n
    ensures |p.s| >= p.n && |q.s| >= q.n && Twin(p, q, c) < q.n
    ensures SameLink(p, q, c, p.s[c].symbols, Twin(p, q, c), q.s[Twin(p, q, c)].symbols)
    ensures p.s[c].symbols != 0 ==> SameInterval(p, q, c + p.s[c].symbols, Twin(p, q, c + p.s[c].symbols))
  {
    hide Standing, Twin, Fills;
    TwinSame(p, q, m, c);
    Places(p, m, c);
    Places(q, m, Twin(p, q, c));
    FillsTwin(p, q, m, c, p.s[c].symbols, Twin(p, q, c), q.s[Twin(p, q, c)].symbols, c, -1, 256);
  }

  lemma HangsFrom(p: Pool, m: Model, x: nat) returns (u: nat, c: nat)
    requires Standing(p, m) && 0 < x < p.n
    ensures |p.s| >= p.n && c < x && u < x
    ensures if u == c then x == c + p.s[c].symbols && p.s[c].symbols != 0
            else 0 < u && ((p.s[u].left != 0 && x == u + p.s[u].left) || (p.s[u].right != 0 && x == u + p.s[u].right))
  {
    hide Weighs, Names, Parents, Lists, Timely, NoneIn;
    assert NodeLinked(p.s, p.g, p.f, p.n, x);
    u, c := p.g.up[x], p.g.own[x];
  }

  /** Twins have the same interval in their trees. */
  lemma {:induction false} Intervals(p: Pool, q: Pool, m: Model, x: nat)
    requires Standing(p, m) && Standing(q, m) && 0 < x < p.n
    ensures SameInterval(p, q, x, Twin(p, q, x))
    decreases x
  {
    hide Standing, Twin, SameInterval;
    var u, c := HangsFrom(p, m, x);
    if u == c {
      RootTwins(p, q, m, c);
    } else {
      Intervals(p, q, m, u);
      ChildTwins(p, q, m, u);
    }
  }

  // ---- The renumbering ----

  ghost predicate SameNode(p: Pool, q: Pool, x: nat, y: nat)
    requires x < p.n <= |p.s| && y < q.n <= |q.s|
  {
    && q.s[y].escapes == p.s[x].escapes && q.s[y].total == p.s[x].total
    && SameLink(p, q, x, p.s[x].symbols, y, q.s[y].symbols)
    && (0 < x ==>
          && q.s[y].value == p.s[x].value && q.s[y].count == p.s[x].count && q.s[y].under == p.s[x].under
          && SameLink(p, q, x, p.s[x].left, y, q.s[y].left) && SameLink(p, q, x, p.s[x].right, y, q.s[y].right)
          && p.s[x].parent < p.n && Twin(p, q, p.s[x].parent) == q.s[y].parent)
  }

  lemma ParentTwins(p: Pool, q: Pool, m: Model, x: nat)
    requires Standing(p, m) && Standing(q, m) && 0 < x < p.n
    ensures |p.s| >= p.n && |q.s| >= q.n && Twin(p, q, x) < q.n
    ensures p.s[x].parent < p.n && Twin(p, q, p.s[x].parent) == q.s[Twin(p, q, x)].parent
  {
    hide Standing, Twin, Total;
    TwinSame(p, q, m, x);
    TwinKey(p, q, m, x);
    ParentKey(p, m, x);
    ParentKey(q, m, Twin(p, q, x));
    TwinKey(p, q, m, p.s[x].parent);
    OneNode(q, m, Twin(p, q, p.s[x].parent), q.s[Twin(p, q, x)].parent);
  }

  lemma ParentKey(p: Pool, m: Model, x: nat)
    requires Standing(p, m) && 0 < x < p.n
    ensures |p.keys| == p.n <= |p.s| && p.s[x].parent < p.n && p.keys[p.s[x].parent] == p.keys[x].Parent()
  {
    hide Linked, Weighs, Names, Lists, Timely;
    ParentOf(p.s, p.n, p.keys, -1, x);
  }

  lemma NodeTwins(p: Pool, q: Pool, m: Model, x: nat)
    requires Standing(p, m) && Standing(q, m) && x < p.n
    ensures |p.s| >= p.n && |q.s| >= q.n && Twin(p, q, x) < q.n && SameNode(p, q, x, Twin(p, q, x))
  {
    hide Standing, Twin, SameLink;
    RootTwins(p, q, m, x);
    TwinSame(p, q, m, x);
    if 0 < x {
      Intervals(p, q, m, x);
      ChildTwins(p, q, m, x);
      ParentTwins(p, q, m, x);
      Weight(p, m, x);
      Weight(q, m, Twin(p, q, x));
      TwinSame(p, q, m, p.g.own[x]);
    }
  }

  /** The pools are the same but for the numbers of their nodes: they use as many, never close to all there
      are; the renumbering is one to one, and takes the root to the root and the predicted context to the
      predicted context; and every node's fields and links are those of its twin. */
  ghost predicate Mirrored(p: Pool, q: Pool) {
    && p.n == q.n < POOL - SUBCONTEXT_ORDER && p.n <= |p.s| && q.n <= |q.s|
    && Twin(p, q, 0) == 0 && Twin(p, q, p.predicted) == q.predicted
    && forall x: nat {:trigger Twin(p, q, x)} :: x < p.n ==>
         Twin(p, q, x) < q.n && Twin(q, p, Twin(p, q, x)) == x && SameNode(p, q, x, Twin(p, q, x))
  }

  /** Two pools that stand for one model mirror each other. */
  lemma Mirror(p: Pool, q: Pool, m: Model)
    requires Standing(p, m) && Standing(q, m)
    ensures Mirrored(p, q)
  {
    Predicts(p, m);
    Predicts(q, m);
    hide Standing, Twin, SameNode;
    TwinKey(p, q, m, 0);
    TwinSame(p, q, m, 0);
    TwinKey(p, q, m, p.predicted);
    OneNode(q, m, Twin(p, q, p.predicted), q.predicted);
    NodeTwins(p, q, m, 0);
    forall x: nat | x < p.n
      ensures Twin(p, q, x) < q.n && Twin(q, p, Twin(p, q, x)) == x && |p.s| >= p.n && |q.s| >= q.n
      ensures SameNode(p, q, x, Twin(p, q, x))
    {
      NodeTwins(p, q, m, x);
      TwinBack(q, p, m, x);
    }
  }

  lemma Predicts(p: Pool, m: Model)
    requires Standing(p, m)
    ensures p.predicted < p.n == |p.keys| && 0 < p.n < POOL - SUBCONTEXT_ORDER && p.keys[p.predicted] == m.predicted
  {
    hide Weighs, Parents, Lists, Timely;
  }

  // ---- After every byte ----

  ghost function View(coder: RangeCoder, predicted: nat): Pool
    reads coder, coder.symbols
  {
    Pool(coder.symbols[..], coder.shape, coder.freq, coder.nextSymbol, coder.keys, predicted)
  }

  lemma ReadyStanding(coder: RangeCoder, m: Model, predicted: nat, order: nat)
    requires Ready(coder, m, predicted, order)
    ensures Standing(View(coder, predicted), m)
  {
    hide Linked, Weighs, Names, Parents, Timely, WellFormed;
    HoldsLists(coder, -1);
  }

  /** The last of the pools is the coder's own, as it is now. */
  ghost predicate Current(pools: seq<Pool>, coder: RangeCoder, predicted: nat)
    reads coder, coder.symbols
  {
    pools != [] && pools[|pools| - 1] == View(coder, predicted)
  }

  /** Pool `j` stands for model `j`. */
  ghost predicate Stood(pools: seq<Pool>, models: seq<Model>) {
    |pools| == |models| && forall j :: 0 <= j < |pools| ==> Standing(pools[j], models[j])
  }

  lemma StoodOn(pools: seq<Pool>, models: seq<Model>, p: Pool, m: Model)
    requires Stood(pools, models) && Standing(p, m)
    ensures Stood(pools + [p], models + [m])
  {
    hide Standing;
  }

  /** Whatever the two sides did, with the same models they kept mirrored pools. */
  lemma MirrorAll(encoder: seq<Pool>, decoder: seq<Pool>, models: seq<Model>)
    requires Stood(encoder, models) && Stood(decoder, models)
    ensures |encoder| == |decoder| && forall j :: 0 <= j < |encoder| ==> Mirrored(encoder[j], decoder[j])
  {
    hide Standing, Mirrored;
    forall j | 0 <= j < |encoder| ensures Mirrored(encoder[j], decoder[j]) {
      Mirror(encoder[j], decoder[j], models[j]);
    }
  }
}
