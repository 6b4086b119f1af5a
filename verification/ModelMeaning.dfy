/**
 The context model and the coding steps, from the data alone.

 Of the bytes since the last restart, the model has a context for every string of up to three of them that occurs;
 the next byte is predicted from the last two; a byte is coded in the context of the last two, and in that of fewer
 as long as it has never followed the longer one; and a context's table is what the bytes coded in it make it.  The
 numbers are those of the C code.
 */
module ModelMeaning {
  import opened Basics
  import opened Words
  import opened RangeArithmetic
  import opened FrequencyModel
  import opened RangeCodec
  import opened SymbolNames

  // ---- Contexts as strings of bytes ----

  function KeyOf(c: seq<byte>): Key {
    if c == [] then Root else Symbol(KeyOf(c[..|c| - 1]), c[|c| - 1])
  }

  function Bytes(k: Key): seq<byte> {
    if k.Root? then [] else Bytes(k.context) + [k.value]
  }

  lemma {:induction false} KeyBytes(c: seq<byte>)
    ensures Bytes(KeyOf(c)) == c && KeyOf(c).Order() == |c|
  {
    if c != [] { KeyBytes(c[..|c| - 1]); }
  }

  lemma {:induction false} BytesKey(k: Key)
    ensures KeyOf(Bytes(k)) == k && k.Order() == |Bytes(k)|
    decreases k
  {
    if k.Symbol? {
      BytesKey(k.context);
      assert Bytes(k)[..|Bytes(k)| - 1] == Bytes(k.context);
    }
  }

  lemma {:induction false} KeyParent(c: seq<byte>)
    requires c != []
    ensures KeyOf(c).Parent() == KeyOf(c[1..])
    decreases |c|
  {
    if |c| > 1 {
      KeyParent(c[..|c| - 1]);
      assert c[..|c| - 1][1..] == c[1..][..|c| - 2];
    }
  }

  // ---- Strings in strings ----

  predicate IsAt(c: seq<byte>, s: seq<byte>, i: nat) {
    i + |c| <= |s| && s[i..i + |c|] == c
  }

  ghost predicate Occurs(c: seq<byte>, s: seq<byte>) {
    exists i: nat :: IsAt(c, s, i)
  }

  predicate IsTail(c: seq<byte>, s: seq<byte>) {
    |c| <= |s| && s[|s| - |c|..] == c
  }

  function Tail(s: seq<byte>, m: nat): seq<byte>
    requires m <= |s|
  {
    s[|s| - m..]
  }

  /** How many bytes predict the next one: two, if there are as many. */
  function Depth(s: seq<byte>): nat { if |s| < 2 then |s| else 2 }

  lemma TailOccurs(b: seq<byte>, a: seq<byte>, s: seq<byte>)
    requires IsTail(b, a) && Occurs(a, s)
    ensures Occurs(b, s)
  {
    var i: nat :| IsAt(a, s, i);
    assert s[i..i + |a|][|a| - |b|..] == s[i + (|a| - |b|)..i + |a|];
    assert IsAt(b, s, i + (|a| - |b|));
  }

  /** What occurs with one byte more. */
  lemma OccursOn(c: seq<byte>, r: seq<byte>, v: byte)
    ensures Occurs(c, r + [v]) <==> Occurs(c, r) || IsTail(c, r + [v])
  {
    var s := r + [v];
    if i: nat :| IsAt(c, s, i) {
      if i + |c| <= |r| { assert r[i..i + |c|] == s[i..i + |c|] && IsAt(c, r, i); }
    }
    if i: nat :| IsAt(c, r, i) { assert s[i..i + |c|] == r[i..i + |c|] && IsAt(c, s, i); }
    if IsTail(c, s) { assert s[|s| - |c|..|s|] == s[|s| - |c|..] && IsAt(c, s, |s| - |c|); }
  }

  lemma TailOn(c: seq<byte>, r: seq<byte>, v: byte)
    ensures IsTail(c, r + [v]) <==> c == [] || (c[|c| - 1] == v && IsTail(c[..|c| - 1], r))
  {
    var s := r + [v];
    if c != [] && |c| <= |s| {
      var e := c[..|c| - 1];
      assert s[|s| - |c|..] == r[|r| - |e|..] + [v];
      assert c == e + [c[|c| - 1]];
      assert (e + [c[|c| - 1]])[..|e|] == e && (r[|r| - |e|..] + [v])[..|e|] == r[|r| - |e|..];
    }
  }

  lemma TailIsPart(c: seq<byte>, s: seq<byte>)
    ensures IsTail(c, s) ==> Occurs(c, s)
  {
    if IsTail(c, s) { assert s[|s| - |c|..|s|] == s[|s| - |c|..] && IsAt(c, s, |s| - |c|); }
  }

  lemma EmptyOccurs(s: seq<byte>)
    ensures Occurs([], s)
  {
    assert IsAt([], s, 0);
  }

  // ---- What is coded where ----

  /** After `r`, byte `v` is coded in context `c`: one of the last up to two bytes, after longer ones of which `v`
      has never come before. */
  ghost predicate Codes(r: seq<byte>, v: byte, c: seq<byte>) {
    && |c| <= 2 && IsTail(c, r)
    && forall m: nat :: |c| < m <= Depth(r) ==> !Occurs(Tail(r, m) + [v], r)
  }

  /** The bytes coded in context `c`. */
  ghost function Written(s: seq<byte>, c: seq<byte>): seq<byte> {
    if s == [] then []
    else
      var r, v := s[..|s| - 1], s[|s| - 1];
      Written(r, c) + if Codes(r, v, c) then [v] else []
  }

  lemma WrittenOn(r: seq<byte>, v: byte, c: seq<byte>)
    ensures Written(r + [v], c) == Written(r, c) + if Codes(r, v, c) then [v] else []
  {
    assert (r + [v])[..|r|] == r;
  }

  /** In a context that has not come, nothing has been coded. */
  lemma {:induction false} WrittenNone(s: seq<byte>, c: seq<byte>)
    requires !Occurs(c, s)
    ensures Written(s, c) == []
  {
    if s != [] {
      var r, v := s[..|s| - 1], s[|s| - 1];
      assert s == r + [v];
      OccursOn(c, r, v);
      WrittenNone(r, c);
      TailIsPart(c, r);
    }
  }

  // ---- Tables ----

  function HalfUp(f: Counts): (r: Counts)
    ensures forall w :: 0 <= w < 256 ==> r[w] == (f[w] + 1) / 2
  {
    seq(256, w requires 0 <= w < 256 => (f[w] + 1) / 2)
  }

  /** A context once a byte has been coded in it: the byte counts three more in the root and two more elsewhere,
      where a new byte counts for five escapes.  When the count or the total get too high, everything is halved. */
  function Coded(c: Context, root: bool, v: byte): Context {
    var e := c.escapes + if !root && c.freq[v] == 0 then 5 else 0;
    var f: Counts := c.freq[v := c.freq[v] + if root then 3 else 2];
    if c.freq[v] > (if root then 249 else 251) || e + Sum(f) + (if root then 256 else 0) > 65280
      then Context((e + 1) / 2, HalfUp(f))
    else Context(e, f)
  }

  lemma CodedIs(c: Context, k: Key, v: byte)
    ensures Updated(c, k, v) == Coded(c, k.Root?, v)
  {
    var f := Counted(c, k, v).freq;
    assert HalveAll(f) == HalfUp(f);
  }

  /** The table of a context in which the bytes `h` have been coded. */
  function TableOf(h: seq<byte>, root: bool): Context {
    if h == [] then Context(if root then 1 else 0, Zeros())
    else Coded(TableOf(h[..|h| - 1], root), root, h[|h| - 1])
  }

  lemma TableOn(h: seq<byte>, root: bool, v: byte)
    ensures TableOf(h + [v], root) == Coded(TableOf(h, root), root, v)
  {
    assert (h + [v])[..|h|] == h;
  }

  /** A byte has a count exactly when it has been coded. */
  lemma {:induction false} TableKnows(h: seq<byte>, root: bool, v: byte)
    ensures TableOf(h, root).freq[v] > 0 <==> v in h
  {
    if h != [] {
      TableKnows(h[..|h| - 1], root, v);
      assert h == h[..|h| - 1] + [h[|h| - 1]];
    }
  }

  // ---- Until the first halving ----

  function Distinct(h: seq<byte>): set<byte> { set v | v in h }

  /** Nothing has had to be halved: no byte has come too often, and not too many in all. */
  ghost predicate Calm(h: seq<byte>, root: bool) {
    && (forall v: byte :: multiset(h)[v] <= if root then 84 else 126)
    && (if root then 257 + 3 * |h| else 5 * |Distinct(h)| + 2 * |h|) <= 65280
  }

  lemma CalmBefore(h: seq<byte>, v: byte, root: bool)
    requires Calm(h + [v], root)
    ensures Calm(h, root) && multiset(h)[v] < if root then 84 else 126
  {
    assert multiset(h + [v])[v] == multiset(h)[v] + 1;
    forall w: byte ensures multiset(h)[w] <= if root then 84 else 126 {
      assert multiset(h)[w] <= multiset(h + [v])[w];
    }
    DistinctOn(h, v);
  }

  lemma DistinctOn(h: seq<byte>, v: byte)
    ensures |Distinct(h + [v])| == |Distinct(h)| + if v in h then 0 else 1
  {
    assert Distinct(h + [v]) == Distinct(h) + {v};
  }

  /** What a byte counts for, in the root and elsewhere. */
  function Weight(root: bool): nat { if root then 3 else 2 }

  /** The table has counted the bytes `h`: each three times, or twice, as often as it has been coded, and five escapes
      for every byte that it knows; the root has one escape. */
  ghost predicate Counts(c: Context, h: seq<byte>, root: bool) {
    && (forall v: byte :: c.freq[v] == Weight(root) * multiset(h)[v])
    && c.escapes == (if root then 1 else 5 * |Distinct(h)|) && Sum(c.freq) == Weight(root) * |h|
  }

  lemma CountsOn(c: Context, h: seq<byte>, root: bool, v: byte)
    requires Counts(c, h, root)
    ensures var e := c.escapes + if !root && c.freq[v] == 0 then 5 else 0;
      Counts(Context(e, c.freq[v := c.freq[v] + Weight(root)]), h + [v], root)
  {
    hide Cum;
    DistinctOn(h, v);
    CumUpdate(c.freq, v, c.freq[v] + Weight(root), 256);
    assert v in h <==> multiset(h)[v] > 0;
    var f := c.freq[v := c.freq[v] + Weight(root)];
    forall w: byte ensures f[w] == Weight(root) * multiset(h + [v])[w] {
      assert multiset(h + [v])[w] == multiset(h)[w] + if w == v then 1 else 0;
    }
  }

  /** Until the first halving, that is the table. */
  lemma {:induction false} CalmCounts(h: seq<byte>, root: bool)
    requires Calm(h, root)
    ensures Counts(TableOf(h, root), h, root)
  {
    hide Counts, Calm;
    if h == [] {
      CountsNone(root);
    } else {
      var g, v := h[..|h| - 1], h[|h| - 1];
      assert h == g + [v];
      CalmBefore(g, v, root);
      CalmCounts(g, root);
      CountsOn(TableOf(g, root), g, root, v);
      CalmCoded(TableOf(g, root), g, root, v);
    }
  }

  lemma CountsNone(root: bool)
    ensures Counts(TableOf([], root), [], root)
  {
    CumEmptyRange(Zeros(), 0, 256);
    assert Distinct([]) == {};
  }

  /** The table is halved exactly when the bytes are calm no more. */
  lemma CalmCoded(c: Context, h: seq<byte>, root: bool, v: byte)
    requires Counts(c, h, root) && Calm(h, root)
    ensures var e, f := c.escapes + (if !root && c.freq[v] == 0 then 5 else 0), c.freq[v := c.freq[v] + Weight(root)];
      Coded(c, root, v) == if Calm(h + [v], root) then Context(e, f) else Context((e + 1) / 2, HalfUp(f))
  {
    hide Counts, Cum;
    CountsOn(c, h, root, v);
    CountsUse(c, h, root, v);
    var e, f := c.escapes + (if !root && c.freq[v] == 0 then 5 else 0), c.freq[v := c.freq[v] + Weight(root)];
    CountsUse(Context(e, f), h + [v], root, v);
    assert multiset(h + [v])[v] == multiset(h)[v] + 1;
    assert forall w: byte :: w != v ==> multiset(h + [v])[w] == multiset(h)[w];
  }

  lemma CountsUse(c: Context, h: seq<byte>, root: bool, v: byte)
    requires Counts(c, h, root)
    ensures c.freq[v] == Weight(root) * multiset(h)[v] && Sum(c.freq) == Weight(root) * |h|
    ensures c.escapes == if root then 1 else 5 * |Distinct(h)|
  {
  }

  // ---- The model ----

  /** The strings of up to three bytes in `s`. */
  function Parts(s: seq<byte>): set<seq<byte>> {
    set i: nat, j: nat | i <= j <= |s| && j <= i + 3 :: s[i..j]
  }

  lemma PartOccurs(c: seq<byte>, s: seq<byte>)
    ensures c in Parts(s) <==> |c| <= 3 && Occurs(c, s)
  {
    if c in Parts(s) {
      var i: nat, j: nat :| i <= j <= |s| && j <= i + 3 && c == s[i..j];
      assert IsAt(c, s, i);
    }
    if |c| <= 3 && Occurs(c, s) {
      var i: nat :| IsAt(c, s, i);
      assert s[i..i + |c|] in Parts(s);
    }
  }

  /** The bytes since the last restart, which comes when they have 4094 strings of up to three bytes. */
  function Segment(data: seq<byte>): seq<byte> {
    if data == [] then []
    else
      var s := Segment(data[..|data| - 1]) + [data[|data| - 1]];
      if |Parts(s)| >= 4094 then [] else s
  }

  /** The tables of the contexts in `s`. */
  ghost predicate Tabled(t: Tables, s: seq<byte>) {
    && (forall k :: k in t <==> |Bytes(k)| <= 3 && Occurs(Bytes(k), s))
    && (forall k :: k in t ==> t[k] == TableOf(Written(s, Bytes(k)), k.Root?))
  }

  /** The model of the bytes `s`. */
  ghost predicate Means(m: Model, s: seq<byte>) {
    m.predicted == KeyOf(Tail(s, Depth(s))) && Tabled(m.tables, s)
  }

  /** A context knows a byte exactly when the byte has come after it. */
  lemma KnowsWhen(t: Tables, s: seq<byte>, c: seq<byte>, v: byte)
    requires WellFormed(t) && Tabled(t, s) && |c| <= 2 && Occurs(c, s)
    ensures KeyOf(c) in t && (t[KeyOf(c)].freq[v] > 0 <==> Occurs(c + [v], s))
  {
    hide Occurs, TableOf, Written, TablesOk, Closed;
    KeyBytes(c);
    KeyBytes(c + [v]);
    assert (c + [v])[..|c|] == c;
    assert KeyOf(c + [v]) == Symbol(KeyOf(c), v);
    assert KeyOf(c) in t;
    assert Symbol(KeyOf(c), v) in t <==> t[KeyOf(c)].freq[v] > 0;
  }

  /** The tails of `r`, of `j` to `m` bytes. */
  predicate Between(c: seq<byte>, r: seq<byte>, j: nat, m: nat) { j <= |c| <= m && IsTail(c, r) }

  lemma TailTail(r: seq<byte>, m: nat)
    requires m <= |r|
    ensures IsTail(Tail(r, m), r) && |Tail(r, m)| == m && Occurs(Tail(r, m), r)
    ensures m > 0 ==> Tail(r, m)[1..] == Tail(r, m - 1)
  {
    TailIsPart(Tail(r, m), r);
  }

  /** Where a byte is found. */
  lemma {:induction false} HomeIs(t: Tables, r: seq<byte>, v: byte, m: nat) returns (j: nat)
    requires WellFormed(t) && Tabled(t, r) && m <= Depth(r)
    ensures j <= m && Home(t, KeyOf(Tail(r, m)), v) == KeyOf(Tail(r, j))
    ensures j == 0 || Occurs(Tail(r, j) + [v], r)
    ensures forall x: nat :: j < x <= m ==> !Occurs(Tail(r, x) + [v], r)
  {
    hide Occurs, WellFormed, Tabled, KeyOf;
    var k := KeyOf(Tail(r, m));
    TailTail(r, m);
    KeyBytes(Tail(r, m));
    KnowsWhen(t, r, Tail(r, m), v);
    hide Tail;
    if m == 0 || t[k].freq[v] > 0 {
      j := m;
    } else {
      KeyParent(Tail(r, m));
      j := HomeIs(t, r, v, m - 1);
    }
  }

  /** The contexts on the way there. */
  lemma {:induction false} BeforeTails(r: seq<byte>, j: nat, m: nat, q: Key)
    requires j <= m <= |r|
    ensures q in Before(KeyOf(Tail(r, m)), KeyOf(Tail(r, j))) + {KeyOf(Tail(r, j))} <==> Between(Bytes(q), r, j, m)
    decreases m
  {
    hide KeyOf;
    TailTail(r, m);
    TailTail(r, j);
    KeyBytes(Tail(r, m));
    KeyBytes(Tail(r, j));
    OnlyTail(r, m, q);
    hide Tail;
    if j < m {
      KeyParent(Tail(r, m));
      BeforeTails(r, j, m - 1, q);
    }
  }

  lemma OnlyTail(r: seq<byte>, m: nat, q: Key)
    requires m <= |r|
    ensures Between(Bytes(q), r, m, m) <==> q == KeyOf(Tail(r, m))
  {
    KeyBytes(Tail(r, m));
    BytesKey(q);
  }

  lemma CodesWhen(r: seq<byte>, v: byte, c: seq<byte>, j: nat)
    requires j <= Depth(r) && (j == 0 || Occurs(Tail(r, j) + [v], r))
    requires forall x: nat :: j < x <= Depth(r) ==> !Occurs(Tail(r, x) + [v], r)
    ensures Codes(r, v, c) <==> Between(c, r, j, Depth(r))
  {
    hide Occurs;
  }

  /** What a byte adds to the contexts and their tables. */
  lemma TabledOn(t: Tables, r: seq<byte>, v: byte)
    requires WellFormed(t) && Tabled(t, r)
    ensures var k := KeyOf(Tail(r, Depth(r))); Tabled(LearnTo(t, k, Home(t, k, v), v), r + [v])
  {
    hide Occurs, WellFormed, Tabled, Codes;
    var m, k := Depth(r), KeyOf(Tail(r, Depth(r)));
    var j := HomeIs(t, r, v, m);
    TailTail(r, m);
    KnowsWhen(t, r, Tail(r, m), v);
    HomeReached(t, k, v);
    var last, u := KeyOf(Tail(r, j)), LearnTo(t, k, Home(t, k, v), v);
    LearnLearned(t, k, last, v);
    forall q ensures q in Before(k, last) + {last} <==> Between(Bytes(q), r, j, m) {
      BeforeTails(r, j, m, q);
    }
    hide Learned, Between;
    forall q ensures q in u <==> |Bytes(q)| <= 3 && Occurs(Bytes(q), r + [v]) {
      TabledKey(t, r, v, j, u, Before(k, last) + {last}, q);
    }
    forall q | q in u ensures u[q] == TableOf(Written(r + [v], Bytes(q)), q.Root?) {
      TabledTable(t, r, v, j, u, Before(k, last) + {last}, q);
    }
    TabledIf(u, r + [v]);
  }

  lemma TabledIf(t: Tables, s: seq<byte>)
    requires forall k :: k in t <==> |Bytes(k)| <= 3 && Occurs(Bytes(k), s)
    requires forall k :: k in t ==> t[k] == TableOf(Written(s, Bytes(k)), k.Root?)
    ensures Tabled(t, s)
  {
  }

  lemma TabledKey(t: Tables, r: seq<byte>, v: byte, j: nat, u: Tables, done: set<Key>, q: Key)
    requires Tabled(t, r) && Learned(t, done, v, u)
    requires j <= Depth(r) && (j == 0 || Occurs(Tail(r, j) + [v], r))
    requires forall p :: p in done <==> Between(Bytes(p), r, j, Depth(r))
    ensures q in u <==> |Bytes(q)| <= 3 && Occurs(Bytes(q), r + [v])
  {
    hide Occurs, TableOf, Written, Updated;
    var c := Bytes(q);
    OccursOn(c, r, v);
    TailOn(c, r, v);
    EmptyOccurs(r);
    if q.Symbol? {
      var e := Bytes(q.context);
      assert c[..|c| - 1] == e && c[|c| - 1] == q.value;
      if q.value == v && IsTail(e, r) && |e| < j {
        assert IsTail(e + [v], Tail(r, j) + [v]);
        TailOccurs(c, Tail(r, j) + [v], r);
      }
    }
  }

  lemma TabledTable(t: Tables, r: seq<byte>, v: byte, j: nat, u: Tables, done: set<Key>, q: Key)
    requires Tabled(t, r) && Learned(t, done, v, u) && q in u
    requires j <= Depth(r) && (j == 0 || Occurs(Tail(r, j) + [v], r))
    requires forall x: nat :: j < x <= Depth(r) ==> !Occurs(Tail(r, x) + [v], r)
    requires forall p :: p in done <==> Between(Bytes(p), r, j, Depth(r))
    ensures u[q] == TableOf(Written(r + [v], Bytes(q)), q.Root?)
  {
    hide Occurs, Updated, Codes, Written;
    var c := Bytes(q);
    CodesWhen(r, v, c, j);
    WrittenOn(r, v, c);
    EmptyOccurs(r);
    assert Written(r, c) + [] == Written(r, c);
    if q in done {
      TableOn(Written(r, c), q.Root?, v);
      CodedIs(t[q], q, v);
    } else if q !in t {
      TabledShort(t, r, v, u, done, q);
      WrittenNone(r, c);
    }
  }

  lemma TabledShort(t: Tables, r: seq<byte>, v: byte, u: Tables, done: set<Key>, q: Key)
    requires Tabled(t, r) && Learned(t, done, v, u) && q in u && q !in t
    requires forall p :: p in done ==> |Bytes(p)| <= 2
    ensures q.Symbol? && !Occurs(Bytes(q), r)
  {
    hide Occurs, Updated, TableOf, Written;
  }

  // ---- Restarts ----

  lemma {:induction false} SameSize(a: set<Key>, b: set<seq<byte>>)
    requires (forall k :: k in a ==> Bytes(k) in b) && (forall c :: c in b ==> KeyOf(c) in a)
    ensures |a| == |b|
    decreases |a|
  {
    if a == {} {
      assert b == {};
    } else {
      var k :| k in a;
      var c := Bytes(k);
      BytesKey(k);
      forall q | q in a - {k} ensures Bytes(q) in b - {c} { BytesKey(q); }
      forall e | e in b - {c} ensures KeyOf(e) in a - {k} { KeyBytes(e); }
      SameSize(a - {k}, b - {c});
    }
  }

  lemma TabledSize(t: Tables, s: seq<byte>)
    requires Tabled(t, s)
    ensures |t| == |Parts(s)|
  {
    hide Occurs, TableOf, Written, Parts;
    forall k | k in t.Keys ensures Bytes(k) in Parts(s) { PartOccurs(Bytes(k), s); }
    forall c | c in Parts(s) ensures KeyOf(c) in t.Keys {
      PartOccurs(c, s);
      KeyBytes(c);
    }
    SameSize(t.Keys, Parts(s));
    assert |t| == |t.Keys|;
  }

  lemma InitialMeans()
    ensures Means(Initial(), [])
  {
    RootStarts();
    hide Occurs, TableOf, Written, Zeros, RootTable, KeyOf, Tail;
    forall k ensures k in Initial().tables <==> |Bytes(k)| <= 3 && Occurs(Bytes(k), []) {
      EmptyOccurs([]);
      NothingOccurs(Bytes(k));
    }
  }

  lemma RootStarts()
    ensures TableOf(Written([], []), true) == RootTable() && KeyOf(Tail([], 0)) == Root && Bytes(Root) == []
  {
  }

  lemma NothingOccurs(c: seq<byte>)
    ensures Occurs(c, []) ==> c == []
  {
  }

  /** What predicts the byte after the next. */
  lemma PredictedOn(r: seq<byte>, v: byte)
    ensures KeyOf(Tail(r, Depth(r))).Order() == Depth(r)
    ensures var k := KeyOf(Tail(r, Depth(r)));
      KeyOf(Tail(r + [v], Depth(r + [v]))) == if |r| >= 2 then Symbol(k, v).Parent() else Symbol(k, v)
  {
    var d, s := Tail(r, Depth(r)), r + [v];
    KeyBytes(d);
    assert (d + [v])[..|d|] == d;
    if |r| >= 2 {
      KeyParent(d + [v]);
      assert Tail(s, 2) == (d + [v])[1..];
    } else {
      assert Tail(s, Depth(s)) == d + [v];
    }
  }

  lemma MeansOn(m: Model, r: seq<byte>, v: byte)
    requires m.Valid() && Means(m, r)
    ensures Means(Advance(m, v), if |Parts(r + [v])| >= 4094 then [] else r + [v])
  {
    hide WellFormed, Tabled, LearnTo, Home, Parts, KeyOf;
    TabledOn(m.tables, r, v);
    var t := LearnTo(m.tables, m.predicted, Home(m.tables, m.predicted, v), v);
    TabledSize(t, r + [v]);
    PredictedOn(r, v);
    AdvanceIs(m, v, t);
    hide Advance, Tail;
    InitialMeans();
  }

  lemma AdvanceIs(m: Model, v: byte, t: Tables)
    requires t == LearnTo(m.tables, m.predicted, Home(m.tables, m.predicted, v), v)
    ensures |t| >= 4094 ==> Advance(m, v) == Initial()
    ensures |t| < 4094 ==> Advance(m, v).tables == t
    ensures var k := Symbol(m.predicted, v);
      |t| < 4094 ==> Advance(m, v).predicted == if m.predicted.Order() >= 2 then k.Parent() else k
  {
    hide LearnTo, Home;
  }

  /** After any data, the model is that of the bytes since the last restart. */
  lemma {:induction false} ModelIs(data: seq<byte>)
    ensures ModelAfter(data).Valid() && Means(ModelAfter(data), Segment(data))
    decreases |data|
  {
    hide Means, Advance, Parts;
    if data == [] {
      InitialMeans();
      InitialValid();
    } else {
      var r, v := data[..|data| - 1], data[|data| - 1];
      ModelIs(r);
      MeansOn(ModelAfter(r), Segment(r), v);
      AdvanceValid(ModelAfter(r), v);
    }
  }

  // ---- The coding steps ----

  /** The slice of a byte in a context; in the root every byte weighs one more. */
  function Slice(c: Context, root: bool, v: byte): Step {
    if root then Step(c.escapes + Cum(c.freq, v) + v, c.freq[v] + 1, c.escapes + Sum(c.freq) + 256)
    else Step(c.escapes + Cum(c.freq, v), c.freq[v], c.escapes + Sum(c.freq))
  }

  function Escape(c: Context): Step { Step(0, c.escapes, c.escapes + Sum(c.freq)) }

  lemma SlicesAre(c: Context, k: Key, v: byte)
    ensures SymbolStep(c, k, v) == Slice(c, k.Root?, v) && (k.Symbol? ==> EscapeStep(c, k) == Escape(c))
  {
  }

  /** How byte `v` is told after the bytes `r`, from the context of the last `m` of them on: one that has met the byte,
      or the root, gives its slice; one that has met others only gives its escapes. */
  ghost function Told(r: seq<byte>, v: byte, m: nat): seq<Step>
    requires m <= |r|
  {
    var h := Written(r, Tail(r, m));
    var c := TableOf(h, m == 0);
    if m == 0 || Occurs(Tail(r, m) + [v], r) then [Slice(c, m == 0, v)]
    else (if h == [] then [] else [Escape(c)]) + Told(r, v, m - 1)
  }

  /** A context has escapes when something has been coded in it. */
  lemma EscapesWhen(h: seq<byte>, k: Key)
    requires k.Symbol? && ContextOk(TableOf(h, false), k)
    ensures CanEscape(k, TableOf(h, false)) <==> h != []
  {
    var c := TableOf(h, false);
    if h != [] {
      TableKnows(h, false, h[0]);
      CumCovers(c.freq, h[0], 256);
    } else {
      CumEmptyRange(c.freq, 0, 256);
    }
  }

  lemma {:induction false} StepsAre(t: Tables, r: seq<byte>, v: byte, m: nat)
    requires WellFormed(t) && Tabled(t, r) && m <= Depth(r)
    ensures Steps(t, KeyOf(Tail(r, m)), v) == Told(r, v, m)
  {
    hide Occurs, WellFormed, Tabled, KeyOf, Written, TableOf, SymbolStep, EscapeStep, CanEscape, Slice, Escape, ContextOk;
    var d := Tail(r, m);
    var k := KeyOf(d);
    TailTail(r, m);
    KeyBytes(d);
    KnowsWhen(t, r, d, v);
    TabledUse(t, r, k);
    SlicesAre(t[k], k, v);
    hide Tail;
    if m > 0 {
      KeyParent(d);
      if t[k].freq[v] == 0 {
        EscapesWhen(Written(r, d), k);
        StepsAre(t, r, v, m - 1);
      }
    }
  }

  lemma TabledUse(t: Tables, s: seq<byte>, k: Key)
    requires WellFormed(t) && Tabled(t, s) && k in t
    ensures t[k] == TableOf(Written(s, Bytes(k)), k.Root?) && ContextOk(t[k], k)
  {
  }

  /** The steps for all of the data. */
  ghost function AllTold(data: seq<byte>): seq<Step> {
    if data == [] then []
    else
      var r := Segment(data[..|data| - 1]);
      AllTold(data[..|data| - 1]) + Told(r, data[|data| - 1], Depth(r))
  }

  lemma {:induction false} EncodeFrom(data: seq<byte>, n: nat)
    requires n <= |data|
    ensures var (out, i) := Emit(Whole, AllTold(data[..n]));
      Compressed(data) == out + Encode(ModelAfter(data[..n]), i, data[n..])
    decreases n
  {
    hide Told, Emit, Means, Advance, Segment, Flush, Encode, AllTold, ModelAfter;
    if n == 0 {
      EncodeStarts(data);
    } else {
      var r, v, p := data[..n - 1], data[n - 1], Segment(data[..n - 1]);
      EncodeFrom(data, n - 1);
      assert data[..n] == r + [v] && data[n - 1..][0] == v && data[n - 1..][1..] == data[n..];
      var (out, i) := Emit(Whole, AllTold(r));
      var steps := Told(p, v, Depth(p));
      ToldOn(r, v);
      EncodeOne(ModelAfter(r), i, data[n - 1..]);
      EmitAppend(Whole, AllTold(r), steps);
      Regroup(out, Emit(i, steps).0, Encode(ModelAfter(data[..n]), Emit(i, steps).1, data[n..]));
    }
  }

  lemma EncodeStarts(data: seq<byte>)
    ensures var (out, i) := Emit(Whole, AllTold(data[..0]));
      Compressed(data) == out + Encode(ModelAfter(data[..0]), i, data[0..])
  {
    hide Encode;
    assert data[..0] == [] && data[0..] == data;
  }

  lemma EncodeOne(m: Model, i: Interval, data: seq<byte>)
    requires data != []
    ensures var (out, j) := Emit(i, Steps(m.tables, m.predicted, data[0]));
      Encode(m, i, data) == out + Encode(Advance(m, data[0]), j, data[1..])
  {
    hide Emit, Steps, Advance;
  }

  lemma ToldOn(r: seq<byte>, v: byte)
    ensures var p := Segment(r); AllTold(r + [v]) == AllTold(r) + Told(p, v, Depth(p))
    ensures var p := Segment(r); Steps(ModelAfter(r).tables, ModelAfter(r).predicted, v) == Told(p, v, Depth(p))
    ensures ModelAfter(r + [v]) == Advance(ModelAfter(r), v)
  {
    hide Told, Segment, Steps, Advance;
    assert (r + [v])[..|r|] == r;
    ModelSteps(r, v);
  }

  lemma ModelSteps(r: seq<byte>, v: byte)
    ensures var m, p := ModelAfter(r), Segment(r); Steps(m.tables, m.predicted, v) == Told(p, v, Depth(p))
  {
    hide Steps, Told, Segment, ModelAfter;
    ModelIs(r);
    StepsAre(ModelAfter(r).tables, Segment(r), v, Depth(Segment(r)));
  }

  /** The compressed form of any data is the code of these steps, and the significant bytes of its low end. */
  lemma CompressedIs(data: seq<byte>)
    ensures var (out, i) := Emit(Whole, AllTold(data)); Compressed(data) == out + Flush(i.low)
  {
    hide AllTold, Emit, ModelAfter, Compressed;
    EncodeFrom(data, |data|);
    assert data[..|data|] == data && data[|data|..] == [];
  }
}
