/**
 How the nodes of the pool stand for the contexts of the model.  Encoder and decoder create nodes in
 different orders, so each has its own naming of node indices by contexts; what they share is the
 tables that the names lead to.
 */
module SymbolNames {
  import opened Basics
  import opened Words
  import opened FrequencyModel
  import opened SymbolTrees
  import opened RangeCodec

  // ---- Coding a byte touches contexts in any order ----

  /** The contexts from `k` on, before `last`. */
  function Before(k: Key, last: Key): set<Key>
    decreases k.Order()
  {
    if k == last || k.Root? then {} else {k} + Before(k.Parent(), last)
  }

  /** `u` is `t` once `v` has been coded in the contexts `done`, in whatever order. */
  ghost predicate Learned(t: Tables, done: set<Key>, v: byte, u: Tables) {
    && (forall q :: q in done ==> q in t)
    && (forall q :: q in u <==> q in t || (q.Symbol? && q.value == v && q.context in done))
    && (forall q :: q in u ==> u[q] == if q in done then Updated(t[q], q, v) else if q in t then t[q] else Fresh())
  }

  lemma LearnedUnique(t: Tables, done: set<Key>, v: byte, a: Tables, b: Tables)
    requires Learned(t, done, v, a) && Learned(t, done, v, b)
    ensures a == b
  {
    assert a.Keys == b.Keys;
  }

  lemma TouchLearned(t: Tables, done: set<Key>, v: byte, u: Tables, k: Key)
    requires WellFormed(t) && Learned(t, done, v, u) && k in t && k !in done
    ensures k in u && u[k] == t[k]
    ensures Symbol(k, v) in u <==> t[k].freq[v] > 0
    ensures Learned(t, done + {k}, v, Touch(u, k, t[k], v))
    ensures |Touch(u, k, t[k], v)| == |u| + if t[k].freq[v] > 0 then 0 else 1
  {
    hide WellFormed, Updated;
    SymbolCounted(t, k, v);
    if t[k].freq[v] == 0 {
      LearnedNew(t, done, v, u, k);
    } else {
      LearnedOld(t, done, v, u, k);
    }
  }

  lemma LearnedNew(t: Tables, done: set<Key>, v: byte, u: Tables, k: Key)
    requires Learned(t, done, v, u) && k in t && k !in done && Symbol(k, v) !in t
    ensures k in u && u[k] == t[k] && Symbol(k, v) !in u
    ensures Learned(t, done + {k}, v, u[Symbol(k, v) := Fresh()][k := Updated(t[k], k, v)])
    ensures |u[Symbol(k, v) := Fresh()][k := Updated(t[k], k, v)]| == |u| + 1
  {
    hide Updated, Fresh;
  }

  lemma LearnedOld(t: Tables, done: set<Key>, v: byte, u: Tables, k: Key)
    requires Learned(t, done, v, u) && k in t && k !in done && Symbol(k, v) in t
    ensures k in u && u[k] == t[k] && Symbol(k, v) in u
    ensures Learned(t, done + {k}, v, u[k := Updated(t[k], k, v)]) && |u[k := Updated(t[k], k, v)]| == |u|
  {
    hide Updated, Fresh;
  }

  lemma SymbolCounted(t: Tables, k: Key, v: byte)
    requires WellFormed(t) && k in t
    ensures Symbol(k, v) in t <==> t[k].freq[v] > 0
  {
  }

  lemma {:induction false} BeforeOrder(k: Key, last: Key, q: Key)
    requires Reaches(k, last) && q in Before(k, last)
    ensures last.Order() < q.Order() <= k.Order()
    decreases k.Order()
  {
    ReachesOrder(k.Parent(), last);
    if q != k { BeforeOrder(k.Parent(), last, q); }
  }

  lemma {:induction false} ReachesOrder(k: Key, last: Key)
    requires Reaches(k, last)
    ensures last.Order() <= k.Order()
    decreases k.Order()
  {
    if k != last { ReachesOrder(k.Parent(), last); }
  }

  /** The next shorter context comes after the same ones, and `k`. */
  lemma {:induction false} BeforeOn(k0: Key, k: Key)
    requires Reaches(k0, k) && k.Symbol?
    ensures Reaches(k0, k.Parent()) && Before(k0, k.Parent()) == Before(k0, k) + {k}
    decreases k0.Order()
  {
    if k0 == k {
      assert Before(k, k) == {} && Before(k.Parent(), k.Parent()) == {};
    } else {
      BeforeOn(k0.Parent(), k);
      ReachesOrder(k0.Parent(), k);
    }
  }

  /** What the model learns from a byte is the coding in all its contexts up to `last`. */
  lemma {:induction false} LearnLearned(t: Tables, k: Key, last: Key, v: byte)
    requires WellFormed(t) && k in t && Reaches(k, last)
    ensures Learned(t, Before(k, last) + {last}, v, LearnTo(t, k, last, v))
    decreases k.Order()
  {
    if k == last {
      assert Learned(t, {}, v, t);
      TouchLearned(t, {}, v, t, k);
      assert {} + {k} == Before(k, last) + {last};
    } else {
      var p := k.Parent();
      LearnLearned(t, p, last, v);
      ReachesOrder(p, last);
      if k in Before(p, last) { BeforeOrder(p, last, k); }
      var done, u := Before(p, last) + {last}, LearnTo(t, p, last, v);
      assert k !in done && done + {k} == Before(k, last) + {last};
      TouchLearned(t, done, v, u, k);
      assert LearnTo(t, k, last, v) == Touch(u, k, t[k], v);
    }
  }

  /** The encoder has left the longer contexts of `k0` behind and comes to `k`. */
  ghost predicate Chase(t: Tables, k0: Key, v: byte, k: Key, u: Tables) {
    && WellFormed(t) && k in t && k0 in t && k0.Order() <= SUBCONTEXT_ORDER
    && Reaches(k0, k) && Home(t, k, v) == Home(t, k0, v)
    && Learned(t, Before(k0, k), v, u) && |t| <= |u| <= |t| + k0.Order() - k.Order()
  }

  lemma ChaseStarts(t: Tables, k: Key, v: byte)
    requires WellFormed(t) && k in t && k.Order() <= SUBCONTEXT_ORDER
    ensures Chase(t, k, v, k, t)
  {
  }

  lemma ChaseTouch(t: Tables, k0: Key, v: byte, k: Key, u: Tables)
    requires Chase(t, k0, v, k, u)
    ensures k in t && k in u && u[k] == t[k] && ContextOk(u[k], k) && (Symbol(k, v) in u <==> u[k].freq[v] > 0)
    ensures Learned(t, Before(k0, k) + {k}, v, Touch(u, k, t[k], v))
    ensures |u| <= |t| + SUBCONTEXT_ORDER && |u| <= |Touch(u, k, t[k], v)| <= |u| + 1
  {
    if k in Before(k0, k) { BeforeOrder(k0, k, k); }
    TouchLearned(t, Before(k0, k), v, u, k);
  }

  lemma ChaseOn(t: Tables, k0: Key, v: byte, k: Key, u: Tables)
    requires Chase(t, k0, v, k, u) && k.Symbol? && t[k].freq[v] == 0
    ensures Chase(t, k0, v, k.Parent(), Touch(u, k, t[k], v))
  {
    ChaseTouch(t, k0, v, k, u);
    BeforeOn(k0, k);
    assert k.Parent() in t;
  }

  lemma ChaseEnds(t: Tables, k0: Key, v: byte, k: Key, u: Tables)
    requires Chase(t, k0, v, k, u) && (k.Root? || t[k].freq[v] > 0)
    ensures Touch(u, k, t[k], v) == Learn(t, k0, v)
  {
    ChaseTouch(t, k0, v, k, u);
    LearnLearned(t, k0, k, v);
    LearnedUnique(t, Before(k0, k) + {k}, v, Touch(u, k, t[k], v), Learn(t, k0, v));
  }

  /** The decoder has coded `v` in context `last`, and patches the longer ones: it comes to `k`. */
  ghost predicate Patching(t: Tables, k0: Key, last: Key, v: byte, k: Key, u: Tables) {
    && WellFormed(t) && k0 in t && k in t && k0.Order() <= SUBCONTEXT_ORDER
    && Reaches(k0, k) && Reaches(k, last)
    && Learned(t, {last} + Before(k0, k), v, u) && |t| <= |u| <= |t| + 1 + k0.Order() - k.Order()
  }

  lemma PatchStarts(t: Tables, k0: Key, last: Key, v: byte)
    requires WellFormed(t) && k0 in t && last in t && k0.Order() <= SUBCONTEXT_ORDER && Reaches(k0, last)
    ensures Patching(t, k0, last, v, k0, Touch(t, last, t[last], v))
  {
    assert Learned(t, {}, v, t);
    TouchLearned(t, {}, v, t, last);
    assert {last} + Before(k0, k0) == {} + {last};
  }

  lemma PatchOn(t: Tables, k0: Key, last: Key, v: byte, k: Key, u: Tables)
    requires Patching(t, k0, last, v, k, u) && k != last
    ensures k in t && k.Symbol? && k in u && u[k] == t[k] && ContextOk(u[k], k) && (Symbol(k, v) in u <==> u[k].freq[v] > 0)
    ensures Patching(t, k0, last, v, k.Parent(), Touch(u, k, t[k], v)) && |u| <= |t| + SUBCONTEXT_ORDER
  {
    hide Updated, Touch, ContextOk, Fresh;
    if k in Before(k0, k) { BeforeOrder(k0, k, k); }
    BeforeOn(k0, k);
    var done := {last} + Before(k0, k);
    assert done + {k} == {last} + Before(k0, k.Parent());
    TouchLearned(t, done, v, u, k);
    assert k.Parent() in t;
  }

  /** Patching the longer contexts last has taught the model the same. */
  lemma PatchEnds(t: Tables, k0: Key, last: Key, v: byte, u: Tables)
    requires Patching(t, k0, last, v, last, u)
    ensures u == LearnTo(t, k0, last, v)
  {
    LearnLearned(t, k0, last, v);
    assert {last} + Before(k0, last) == Before(k0, last) + {last};
    LearnedUnique(t, Before(k0, last) + {last}, v, u, LearnTo(t, k0, last, v));
  }

  // ---- Nodes and contexts ----

  predicate ContextHeld(a: Node, f: Counts, k: Key, c: Context) {
    c == Context(a.escapes, f) && a.total == Total(k, c)
  }

  /** Node `i` stands for context `keys[i]`: different nodes for different contexts, each the symbol of
      its owner's name, and each with the table of its context. */
  ghost predicate Names(s: seq<Node>, g: Shape, f: seq<Counts>, n: nat, keys: seq<Key>, t: Tables) {
    && 0 < n <= |s| && |g.own| == n && |f| == n && |keys| == n && |t| == n && keys[0] == Root
    && (forall i {:trigger g.own[i]} :: 0 < i < n ==> g.own[i] < i && keys[i] == Symbol(keys[g.own[i]], s[i].value))
    && Distinct(keys) && Held(s, f, n, keys, t)
  }

  ghost predicate Distinct(keys: seq<Key>) {
    forall i, j :: 0 <= i < j < |keys| ==> keys[i] != keys[j]
  }

  ghost predicate Held(s: seq<Node>, f: seq<Counts>, n: nat, keys: seq<Key>, t: Tables) {
    && n <= |s| && n <= |f| && n <= |keys|
    && forall i :: 0 <= i < n ==> keys[i] in t && ContextHeld(s[i], f[i], keys[i], t[keys[i]])
  }

  lemma DistinctGrow(keys: seq<Key>, k: Key)
    requires Distinct(keys) && k !in keys
    ensures Distinct(keys + [k])
  {
  }

  lemma HeldGrow(s: seq<Node>, s': seq<Node>, f: seq<Counts>, n: nat, keys: seq<Key>, t: Tables, k: Key, e: Context)
    requires Held(s, f, n, keys, t) && n < |s| == |s'| && n == |f| == |keys| && k !in t
    requires forall i :: 0 <= i < n ==> SameContext(s[i], s'[i])
    requires ContextHeld(s'[n], e.freq, k, e)
    ensures Held(s', f + [e.freq], n + 1, keys + [k], t[k := e])
  {
    forall i | 0 <= i <= n
      ensures (keys + [k])[i] in t[k := e]
      ensures ContextHeld(s'[i], (f + [e.freq])[i], (keys + [k])[i], t[k := e][(keys + [k])[i]])
    {
      if i < n {
        assert keys[i] in t && ContextHeld(s[i], f[i], keys[i], t[keys[i]]);
      }
    }
  }

  lemma NamesUpdate(s: seq<Node>, s': seq<Node>, g: Shape, f: seq<Counts>, f': seq<Counts>, n: nat,
                    keys: seq<Key>, t: Tables, x: nat, c: Context)
    requires Names(s, g, f, n, keys, t) && x < n && |s'| == |s| && f' == f[x := c.freq]
    requires forall i :: 0 <= i < n && i != x ==> SameContext(s[i], s'[i])
    requires s'[x].value == s[x].value && s'[x].escapes == c.escapes && s'[x].total == Total(keys[x], c)
    ensures Names(s', g, f', n, keys, t[keys[x] := c])
  {
  }

  lemma NamesGrow(s: seq<Node>, s': seq<Node>, g: Shape, g': Shape, f: seq<Counts>, f': seq<Counts>, n: nat,
                  keys: seq<Key>, t: Tables, x: nat, v: byte, e: Context)
    requires Names(s, g, f, n, keys, t) && x < n < |s| == |s'| && Symbol(keys[x], v) !in t
    requires g'.own == g.own + [x] && f' == f + [e.freq]
    requires forall i :: 0 <= i < n ==> SameContext(s[i], s'[i])
    requires s'[n].value == v && ContextHeld(s'[n], e.freq, Symbol(keys[x], v), e)
    ensures Names(s', g', f', n + 1, keys + [Symbol(keys[x], v)], t[Symbol(keys[x], v) := e])
  {
    DistinctGrow(keys, Symbol(keys[x], v));
    HeldGrow(s, s', f, n, keys, t, Symbol(keys[x], v), e);
  }

  lemma FreshTotal(k: Key)
    requires k.Symbol?
    ensures Total(k, Fresh()) == 0
  {
    CumEmptyRange(Fresh().freq, 0, |Fresh().freq|);
  }

  /** What coding `v` in context `k`, with table `c` and node `x`, does to the pool. */
  ghost predicate Coded(s: seq<Node>, s': seq<Node>, g: Shape, g': Shape, f: seq<Counts>, f': seq<Counts>, n: nat, n': nat,
                        k: Key, c: Context, x: nat, v: byte, sym: nat) {
    && x < n <= n' <= |s| == |s'| && |f| == n && |f'| == n' && |g'.own| == n'
    && f'[x] == Updated(c, k, v).freq && SameContext(s[x].(escapes := 0, total := 0), s'[x].(escapes := 0, total := 0))
    && s'[x].escapes == Updated(c, k, v).escapes && s'[x].total == Total(k, Updated(c, k, v))
    && (forall i :: 0 <= i < n && i != x ==> f'[i] == f[i] && SameContext(s[i], s'[i]))
    && (if c.freq[v] > 0 then n' == n && g'.own == g.own && 0 < sym < n
        else n' == n + 1 && g'.own == g.own + [x] && f'[n] == Zeros() && sym == n
             && SameContext(Node(v, 0, 0, 0, 0, 0, 0, 0, 0), s'[n]))
    && g'.own[sym] == x && s'[sym].value == v
  }

  /** The pool goes on standing for the tables when both code `v` in the same context. */
  lemma NamesCoded(s: seq<Node>, s': seq<Node>, g: Shape, g': Shape, f: seq<Counts>, f': seq<Counts>, n: nat, n': nat,
                   keys: seq<Key>, t: Tables, x: nat, v: byte, sym: nat)
    requires Names(s, g, f, n, keys, t) && x < n && 0 < sym
    requires Coded(s, s', g, g', f, f', n, n', keys[x], t[keys[x]], x, v, sym)
    requires Symbol(keys[x], v) in t <==> t[keys[x]].freq[v] > 0
    ensures Names(s', g', f', n', Renamed(keys, x, v, n'), Touch(t, keys[x], t[keys[x]], v))
    ensures sym < n' && Renamed(keys, x, v, n')[sym] == Symbol(keys[x], v)
  {
    var k := keys[x];
    var c := Updated(t[k], k, v);
    if t[k].freq[v] > 0 {
      assert f' == f[x := c.freq];
      NamesUpdate(s, s', g, f, f', n, keys, t, x, c);
      NamesOwn(s', g, g', f', n, keys, t[k := c]);
    } else {
      var m, h := s'[x := s[x]], f + [Fresh().freq];
      FreshTotal(Symbol(k, v));
      NamesGrow(s, m, g, g', f, h, n, keys, t, x, v, Fresh());
      assert f' == h[x := c.freq];
      NamesUpdate(m, s', g', h, f', n', keys + [Symbol(k, v)], t[Symbol(k, v) := Fresh()], x, c);
    }
  }

  /** The names once the symbol for `v` in the context of node `x` may have been created. */
  function Renamed(keys: seq<Key>, x: nat, v: byte, n': nat): seq<Key>
    requires x < |keys|
  {
    if n' == |keys| then keys else keys + [Symbol(keys[x], v)]
  }

  /** Nodes keep their names, and new ones stand for symbols of value `v`. */
  ghost predicate Extends(keys: seq<Key>, keys': seq<Key>, v: byte) {
    && |keys| <= |keys'| && (forall i :: 0 <= i < |keys| ==> keys'[i] == keys[i])
    && (forall i :: |keys| <= i < |keys'| ==> keys'[i].Symbol? && keys'[i].value == v)
  }

  lemma NamesOwn(s: seq<Node>, g: Shape, g': Shape, f: seq<Counts>, n: nat, keys: seq<Key>, t: Tables)
    requires Names(s, g, f, n, keys, t) && g'.own == g.own
    ensures Names(s, g', f, n, keys, t)
  {
  }

  lemma NamesRelabel(s: seq<Node>, s': seq<Node>, g: Shape, f: seq<Counts>, n: nat, keys: seq<Key>, t: Tables)
    requires Names(s, g, f, n, keys, t) && |s'| == |s|
    requires forall i :: 0 <= i < n ==> s'[i].value == s[i].value && s'[i].escapes == s[i].escapes && s'[i].total == s[i].total
    ensures Names(s', g, f, n, keys, t)
  {
  }

  // ---- The order in which nodes are created ----

  predicate Siblings(a: Key, b: Key) { a.Symbol? && b.Symbol? && a.context == b.context }

  /** `keys` lists the contexts of `t`, each once. */
  ghost predicate Lists(keys: seq<Key>, t: Tables) {
    |keys| == |t| && Distinct(keys) && forall i :: 0 <= i < |keys| ==> keys[i] in t
  }

  lemma {:induction false} DistinctCount(keys: seq<Key>)
    requires Distinct(keys)
    ensures |set k | k in keys| == |keys|
    decreases |keys|
  {
    if keys != [] {
      var n := |keys| - 1;
      DistinctCount(keys[..n]);
      assert (set k | k in keys) == (set k | k in keys[..n]) + {keys[n]};
    }
  }

  lemma ListsAll(keys: seq<Key>, t: Tables, k: Key)
    requires Lists(keys, t) && k in t
    ensures k in keys
  {
    DistinctCount(keys);
    SubsetSize((set q | q in keys), t.Keys);
  }

  ghost predicate Aged(keys: seq<Key>, born: map<Key, nat>) {
    forall i, j :: 0 <= i < j < |keys| && Siblings(keys[i], keys[j])
      ==> keys[i] in born && keys[j] in born && born[keys[i]] < born[keys[j]]
  }

  /** The symbols of one context have been created in the order in which they were born. */
  ghost predicate Timely(keys: seq<Key>, t: Tables, born: map<Key, nat>) {
    born.Keys == t.Keys && (forall q :: q in born ==> born[q] < |t|) && Aged(keys, born)
  }

  /** Coding a byte keeps this so: the contexts it adds have the same last value, so that no two of them
      are symbols of one context. */
  lemma TimelyOn(keys: seq<Key>, keys': seq<Key>, t: Tables, t': Tables, born: map<Key, nat>, v: byte)
    requires Timely(keys, t, born) && Lists(keys, t) && Lists(keys', t') && Extends(keys, keys', v)
    ensures Timely(keys', t', Born(born, t', |t|))
  {
    var born' := Born(born, t', |t|);
    forall i | 0 <= i < |keys'|
      ensures keys'[i] in born' && born'[keys'[i]] == if i < |keys| then born[keys[i]] else |t|
    {
      if |keys| <= i && keys'[i] in t {
        ListsAll(keys, t, keys'[i]);
      }
    }
    forall q | q in born'
      ensures born'[q] < |t'|
    {
      ListsAll(keys', t', q);
    }
    AgedOn(keys, keys', born, born', |t|, v);
  }

  lemma AgedOn(keys: seq<Key>, keys': seq<Key>, born: map<Key, nat>, born': map<Key, nat>, now: nat, v: byte)
    requires Aged(keys, born) && Distinct(keys') && Extends(keys, keys', v)
    requires forall i :: 0 <= i < |keys| ==> keys[i] in born && born[keys[i]] < now
    requires forall i :: 0 <= i < |keys'| ==>
      keys'[i] in born' && born'[keys'[i]] == if i < |keys| then born[keys[i]] else now
    ensures Aged(keys', born')
  {
    forall i, j | 0 <= i < j < |keys'| && Siblings(keys'[i], keys'[j])
      ensures keys'[i] in born' && keys'[j] in born' && born'[keys'[i]] < born'[keys'[j]]
    {
      if j < |keys| {
        assert Siblings(keys[i], keys[j]);
      }
    }
  }

  /** Every node's `parent` stands for the context without the oldest byte, except for node `skip`. */
  ghost predicate Parents(s: seq<Node>, n: nat, keys: seq<Key>, skip: int) {
    && n <= |s| && n == |keys|
    && forall i {:trigger s[i].parent} :: 0 < i < n && i != skip ==> s[i].parent < n && keys[s[i].parent] == keys[i].Parent()
  }

  lemma ParentOf(s: seq<Node>, n: nat, keys: seq<Key>, skip: int, x: nat)
    requires Parents(s, n, keys, skip) && 0 < x < n && (0 <= skip < n ==> keys[skip] != keys[x])
    ensures s[x].parent < n && keys[s[x].parent] == keys[x].Parent()
  {
  }

  /** The pool once the longer context's symbol `slot`, if there is one, points to `sym`. */
  function Pointed(s: seq<Node>, slot: int, sym: u16): seq<Node> {
    if 0 < slot < |s| then s[slot := s[slot].(parent := sym)] else s
  }

  lemma ParentsPointed(s: seq<Node>, n: nat, keys: seq<Key>, slot: int, sym: u16)
    requires Parents(s, n, keys, slot) && slot < n && sym < n && (0 < slot ==> keys[slot].Parent() == keys[sym])
    ensures Parents(Pointed(s, slot, sym), n, keys, -1)
  {
    var t := Pointed(s, slot, sym);
    forall i {:trigger t[i].parent} | 0 < i < n
      ensures t[i].parent < n && keys[t[i].parent] == keys[i].Parent()
    {
      if i != slot {
        assert s[i].parent < n && keys[s[i].parent] == keys[i].Parent();
      }
    }
  }

  /** The parent links once `slot` points to the symbol coded here. */
  lemma ParentsCoded(s: seq<Node>, s': seq<Node>, g: Shape, g': Shape, f: seq<Counts>, f': seq<Counts>, n: nat, n': nat,
                     keys: seq<Key>, t: Tables, x: nat, v: byte, sym: u16, slot: int)
    requires Names(s, g, f, n, keys, t) && x < n && 0 < sym && Parents(s, n, keys, slot) && slot < n
    requires Coded(s, s', g, g', f, f', n, n', keys[x], t[keys[x]], x, v, sym)
    requires Renamed(keys, x, v, n')[sym] == Symbol(keys[x], v) && |Renamed(keys, x, v, n')| == n'
    requires 0 < slot ==> keys[slot].Parent() == Symbol(keys[x], v)
    ensures Parents(Pointed(s', slot, sym), n', Renamed(keys, x, v, n'), if x != 0 && n' > n then sym else -1)
  {
    var t', keys' := Pointed(s', slot, sym), Renamed(keys, x, v, n');
    forall i {:trigger t'[i].parent} | 0 < i < n' && !(i == n && x != 0)
      ensures t'[i].parent < n' && keys'[t'[i].parent] == keys'[i].Parent()
    {
      if i < n && i != slot {
        assert s[i].parent < n && keys[s[i].parent] == keys[i].Parent();
        assert t'[i].parent == s[i].parent;
      }
    }
  }

  /** The coder has come to context `k`: the longer context's symbol is `slot`, and the symbol of the
      predicted context `k0`, once there is one, is `next`. */
  ghost predicate Coding(keys: seq<Key>, v: byte, k0: Key, k: Key, slot: int, next: nat) {
    && slot < |keys| && next < |keys|
    && if slot < 0 then k == k0 else 0 < slot && keys[slot].Parent() == Symbol(k, v) && keys[next] == Symbol(k0, v)
  }

  lemma CodingOn(keys: seq<Key>, keys': seq<Key>, x: nat, v: byte, k0: Key, k: Key, slot: int, sym: nat, next: nat)
    requires Coding(keys, v, k0, k, slot, next) && x < |keys| && 0 < sym < |keys'|
    requires keys' == Renamed(keys, x, v, |keys'|) && keys'[sym] == Symbol(k, v)
    ensures k.Symbol? ==> Coding(keys', v, k0, k.Parent(), sym, if slot < 0 then sym else next)
    ensures var n := if slot < 0 then sym else next; n < |keys'| && keys'[n] == Symbol(k0, v)
  {
  }
}
