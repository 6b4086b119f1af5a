/**
 The node pool of a decoder that has not gone astray is in the order that a stray decoder keeps.
 */
module StrayStarts {
  import opened Words
  import opened RangeArithmetic
  import opened FrequencyModel
  import opened SymbolTrees
  import opened RangeCodec
  import opened SymbolNames
  import opened StrayPools

  /** Where the nodes hang, without their intervals of values. */
  function Outline(g: Shape, keys: seq<Key>): Frame {
    Frame(g.own, g.up, seq(|keys|, i requires 0 <= i < |keys| => keys[i].Order()))
  }

  // ---- The counts of a context's symbols add up to its table's ----

  /** The symbols of context `c` among the first `m` nodes have different values, and the counts `f` of them. */
  ghost predicate Apart(s: seq<Node>, own: seq<nat>, c: nat, m: nat, f: Counts) {
    && m <= |own| && m <= |s|
    && (forall i :: 0 < i < m && own[i] == c ==> s[i].count == f[s[i].value])
    && (forall i, j :: 0 < i < j < m && own[i] == c && own[j] == c ==> s[i].value != s[j].value)
  }

  ghost predicate Has(s: seq<Node>, own: seq<nat>, c: nat, m: nat, v: byte) {
    m <= |own| && m <= |s| && exists i :: 0 < i < m && own[i] == c && s[i].value == v
  }

  lemma {:induction false} MassTable(s: seq<Node>, own: seq<nat>, c: nat, m: nat, f: Counts) returns (z: Counts)
    requires Apart(s, own, c, m, f)
    ensures Sum(z) == Mass(s, own, c, m)
    ensures forall v: byte :: z[v] == if Has(s, own, c, m, v) then f[v] else 0
  {
    if m <= 1 {
      z := Zeros();
      CumEmptyRange(z, 0, |z|);
    } else {
      z := MassTable(s, own, c, m - 1, f);
      if own[m - 1] == c {
        var v := s[m - 1].value;
        CumUpdate(z, v, f[v], |z|);
        z := z[v := f[v]];
        assert Has(s, own, c, m, v);
      }
      forall v: byte ensures z[v] == if Has(s, own, c, m, v) then f[v] else 0 {
        HasMore(s, own, c, m, v);
      }
    }
  }

  lemma HasMore(s: seq<Node>, own: seq<nat>, c: nat, m: nat, v: byte)
    requires 1 < m <= |own| && m <= |s|
    ensures Has(s, own, c, m, v) <==> Has(s, own, c, m - 1, v) || (own[m - 1] == c && s[m - 1].value == v)
  {
  }

  lemma MassIsSum(s: seq<Node>, g: Shape, f: seq<Counts>, n: nat, keys: seq<Key>, t: Tables, c: nat)
    requires Weighs(s, g, f, n) && Names(s, g, f, n, keys, t) && WellFormed(t) && c < n
    ensures Mass(s, g.own, c, n) == Sum(f[c])
  {
    TableApart(s, g, f, n, keys, t, c);
    var z := MassTable(s, g.own, c, n, f[c]);
    forall v: byte ensures z[v] == f[c][v] {
      if f[c][v] > 0 { TableFull(s, g, f, n, keys, t, c, v); }
    }
    assert z == f[c];
  }

  lemma TableApart(s: seq<Node>, g: Shape, f: seq<Counts>, n: nat, keys: seq<Key>, t: Tables, c: nat)
    requires Weighs(s, g, f, n) && Names(s, g, f, n, keys, t) && c < n
    ensures Apart(s, g.own, c, n, f[c])
  {
    forall i | 0 < i < n && g.own[i] == c ensures s[i].count == f[c][s[i].value] {
      assert NodeWeighs(s, g, f, n, i);
    }
  }

  lemma TableFull(s: seq<Node>, g: Shape, f: seq<Counts>, n: nat, keys: seq<Key>, t: Tables, c: nat, v: byte)
    requires Names(s, g, f, n, keys, t) && WellFormed(t) && c < n && f[c][v] > 0
    ensures Has(s, g.own, c, n, v)
  {
    assert keys[c] in t && t[keys[c]].freq == f[c];
    var k := Symbol(keys[c], v);
    assert k in t;
    ListsAll(keys, t, k);
    var j :| 0 <= j < n && keys[j] == k;
    assert g.own[j] == c;
  }

  // ---- Links, weights and parents ----

  lemma LinkedWoven(s: seq<Node>, g: Shape, f: seq<Counts>, n: nat, keys: seq<Key>, t: Tables)
    requires Linked(s, g, f, n) && Names(s, g, f, n, keys, t) && TablesOk(t)
    ensures Woven(s, Outline(g, keys))
  {
    var h := Outline(g, keys);
    forall c | 0 <= c < n ensures ContextWoven(s, h, c) {
      assert ContextLinked(s, g, f, n, c);
    }
    forall i | 0 < i < n ensures NodeWoven(s, h, i) {
      assert NodeLinked(s, g, f, n, i) && keys[i] in t && keys[i] == Symbol(keys[g.own[i]], s[i].value);
    }
  }

  lemma NamesWeighed(s: seq<Node>, g: Shape, f: seq<Counts>, n: nat, keys: seq<Key>, t: Tables)
    requires Weighs(s, g, f, n) && Names(s, g, f, n, keys, t) && WellFormed(t)
    ensures Weighed(s, Outline(g, keys), -1)
  {
    var h := Outline(g, keys);
    forall c | 0 <= c < n ensures Adds(s, h, c) && s[c].total <= 0xFF00 {
      MassIsSum(s, g, f, n, keys, t, c);
      assert ContextHeld(s[c], f[c], keys[c], t[keys[c]]) && ContextOk(t[keys[c]], keys[c]) && (c == 0 <==> keys[c].Root?);
    }
    forall i | 0 < i < n ensures 1 <= s[i].count <= 0xFF - Gain(g.own[i]) {
      var c := g.own[i];
      assert NodeWeighs(s, g, f, n, i);
      assert ContextHeld(s[c], f[c], keys[c], t[keys[c]]) && ContextOk(t[keys[c]], keys[c]) && (c == 0 <==> keys[c].Root?);
    }
  }

  lemma ParentsRaised(s: seq<Node>, g: Shape, f: seq<Counts>, n: nat, keys: seq<Key>, t: Tables)
    requires Names(s, g, f, n, keys, t) && Parents(s, n, keys, -1)
    ensures Raised(s, Outline(g, keys), {})
  {
    var h := Outline(g, keys);
    forall i | 0 < i < n ensures RaisedAt(s, h, i) {
      assert s[i].parent < n && keys[i] == Symbol(keys[g.own[i]], s[i].value);
    }
  }

  lemma PoolSound(s: seq<Node>, g: Shape, f: seq<Counts>, n: nat, keys: seq<Key>, t: Tables)
    requires Linked(s, g, f, n) && Weighs(s, g, f, n) && Names(s, g, f, n, keys, t) && Parents(s, n, keys, -1) && WellFormed(t)
    ensures Sound(s, Outline(g, keys), {})
  {
    hide Linked, Weighs, Names, Parents, Woven, Weighed, Raised;
    LinkedWoven(s, g, f, n, keys, t);
    NamesWeighed(s, g, f, n, keys, t);
    ParentsRaised(s, g, f, n, keys, t);
  }
}
