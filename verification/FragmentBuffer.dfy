/**
 Fragmentation and reassembly in the Rust port.
 */
module FragmentBuffers {
  import opened Basics
  import opened Fragmentation
  import opened Words
  import opened ReliableOrder

  /** A message in the making: bit `i % 64` of word `i / 64` of the mask is element `i`. */
  datatype Assembly = Assembly(count: nat, received: nat, buf: seq<byte>, mask: seq<bool>)

  function Empty(total: nat, count: nat): Assembly {
    Assembly(count, 0, seq(total, _ => 0), seq((count + 63) / 64 * 64, _ => false))
  }

  /** A fragment arrives: the new state, and whether it was the last one needed. */
  function Feed(a: Assembly, number: nat, offset: nat, data: seq<byte>): (Assembly, bool) {
    if number >= |a.mask| || a.mask[number] || offset + |data| > |a.buf| then (a, false)
    else
      var a' := a.(mask := a.mask[number := true], received := a.received + 1,
                   buf := a.buf[..offset] + data + a.buf[offset + |data|..]);
      (a', a'.received == a.count)
  }

  class FragmentBuffer {
    const count: nat
    var received: nat
    const buf: array<byte>
    const mask: array<bool>

    ghost function Model(): Assembly
      reads this, buf, mask
    {
      Assembly(count, received, buf[..], mask[..])
    }

    constructor (total: nat, count: nat)
      ensures Model() == Empty(total, count) && fresh(buf) && fresh(mask) && mask.Length % 64 == 0
    {
      this.count, received := count, 0;
      buf := new byte[total](_ => 0);
      mask := new bool[(count + 63) / 64 * 64](_ => false);
    }

    method Receive(number: nat, offset: nat, data: seq<byte>) returns (done: bool)
      requires mask.Length % 64 == 0
      modifies this, buf, mask
      ensures (Model(), done) == Feed(old(Model()), number, offset, data)
    {
      if number / 64 >= mask.Length / 64 {
        return false;
      }
      if mask[number] {
        return false;
      }
      var end := offset + |data|;
      if end > buf.Length {
        return false;
      }
      mask[number] := true;
      received := received + 1;
      ghost var was := buf[..];
      for i := 0 to |data|
        invariant mask[..] == old(mask[..])[number := true] && received == old(received) + 1
        invariant forall x :: 0 <= x < buf.Length ==> buf[x] == if offset <= x < offset + i then data[x - offset] else was[x]
      {
        buf[offset + i] := data[i];
      }
      assert buf[..] == was[..offset] + data + was[end..];
      done := received == count;
    }
  }

  // ---- Arbitrary fragments ----

  datatype Fragment = Fragment(number: nat, offset: nat, data: seq<byte>)

  predicate Tallied(a: Assembly) { a.received + Unset(a.mask) == |a.mask| }

  lemma EmptyTallied(total: nat, count: nat)
    ensures Tallied(Empty(total, count))
  {
    UnsetAll((count + 63) / 64 * 64);
  }

  /** Whatever arrives, the counter is the number of bits that are set. */
  lemma FeedTallied(a: Assembly, number: nat, offset: nat, data: seq<byte>)
    requires Tallied(a)
    ensures Tallied(Feed(a, number, offset, data).0)
  {
    if number < |a.mask| && !a.mask[number] { UnsetSet(a.mask, number); }
  }

  /** A buffer once the fragments have arrived in it, be they of its message or not. */
  function Fed(total: nat, count: nat, fragments: seq<Fragment>): Assembly
    decreases |fragments|
  {
    if fragments == [] then Empty(total, count)
    else
      var f := fragments[|fragments| - 1];
      Feed(Fed(total, count, fragments[..|fragments| - 1]), f.number, f.offset, f.data).0
  }

  /** Over any sequence of fragments at all, the counter is the number of bits that are set. */
  lemma {:induction false} FedTallied(total: nat, count: nat, fragments: seq<Fragment>)
    ensures Tallied(Fed(total, count, fragments))
    decreases |fragments|
  {
    hide Tallied, Feed, Empty;
    if fragments == [] {
      EmptyTallied(total, count);
    } else {
      var n := |fragments| - 1;
      FedTallied(total, count, fragments[..n]);
      FeedTallied(Fed(total, count, fragments[..n]), fragments[n].number, fragments[n].offset, fragments[n].data);
    }
  }

  // ---- The sender's fragments ----

  function FragmentOf(data: seq<byte>, size: nat, i: nat): Fragment {
    var a, b := Cut(|data|, size, i), Cut(|data|, size, i + 1);
    Fragment(i, i * size, if a <= b then data[a..b] else [])
  }

  lemma FragmentFacts(data: seq<byte>, size: nat, i: nat)
    requires size > 0 && i < Count(|data|, size)
    ensures var f, a, b := FragmentOf(data, size, i), Cut(|data|, size, i), Cut(|data|, size, i + 1);
      a < b <= |data| && f.number == i && f.offset == a && f.data == data[a..b]
  {
    CutBounds(|data|, size, i);
  }

  /** The fragmentation loop of `send_packet`. */
  method Split(data: seq<byte>, size: nat) returns (fragments: seq<Fragment>)
    requires size > 0
    ensures |fragments| == Count(|data|, size)
    ensures forall i :: 0 <= i < |fragments| ==> fragments[i] == FragmentOf(data, size, i)
    ensures Joined(fragments) == data
  {
    hide Cut, Count, FragmentOf;
    fragments := [];
    var count := Count(|data|, size);
    CutEnds(|data|, size);
    for i := 0 to count
      invariant |fragments| == i && forall j :: 0 <= j < i ==> fragments[j] == FragmentOf(data, size, j)
      invariant Cut(|data|, size, i) <= |data| && Joined(fragments) == data[..Cut(|data|, size, i)]
    {
      FragmentFacts(data, size, i);
      CutNext(|data|, size, i);
      var offset := i * size;
      var end := if offset + size < |data| then offset + size else |data|;
      var f := Fragment(i, offset, data[offset..end]);
      JoinOne(fragments, f);
      assert data[..end] == data[..offset] + data[offset..end];
      fragments := fragments + [f];
    }
  }

  lemma CutNext(n: nat, size: nat, i: nat)
    requires size > 0 && i < Count(n, size)
    ensures Cut(n, size, i) == i * size
    ensures Cut(n, size, i + 1) == if i * size + size < n then i * size + size else n
  {
    CutBounds(n, size, i);
    assert (i + 1) * size == i * size + size;
  }

  lemma CutEnds(n: nat, size: nat)
    requires size > 0
    ensures Cut(n, size, 0) == 0 && Cut(n, size, Count(n, size)) == n
  {
    DivBounds(n + size - 1, size);
  }

  function Joined(fragments: seq<Fragment>): seq<byte> {
    if fragments == [] then [] else Joined(fragments[..|fragments| - 1]) + fragments[|fragments| - 1].data
  }

  lemma JoinOne(fragments: seq<Fragment>, f: Fragment)
    ensures Joined(fragments + [f]) == Joined(fragments) + f.data
  {
    assert (fragments + [f])[..|fragments|] == fragments;
  }

  // ---- Any order, any duplicates ----

  /** The fragments `got` of the message have arrived. */
  ghost predicate Holding(a: Assembly, data: seq<byte>, size: nat, got: set<nat>)
    requires size > 0
  {
    && a.count == Count(|data|, size) <= |a.mask| && |a.buf| == |data| && a.received == |got|
    && (forall i :: i in got ==> i < a.count)
    && (forall i :: 0 <= i < |a.mask| ==> (a.mask[i] <==> i in got))
    && (forall i :: i in got ==> Held(a.buf, data, size, i))
  }

  predicate Held(buf: seq<byte>, data: seq<byte>, size: nat, i: nat)
    requires |buf| == |data|
  {
    forall x :: 0 <= x < |data| && Cut(|data|, size, i) <= x < Cut(|data|, size, i + 1) ==> buf[x] == data[x]
  }

  lemma StartHolding(data: seq<byte>, size: nat)
    requires size > 0
    ensures Holding(Empty(|data|, Count(|data|, size)), data, size, {})
  {
  }

  lemma FeedHolding(a: Assembly, data: seq<byte>, size: nat, got: set<nat>, i: nat)
    requires size > 0 && Holding(a, data, size, got) && i < a.count
    ensures var f := FragmentOf(data, size, i); var (a', done) := Feed(a, f.number, f.offset, f.data);
      Holding(a', data, size, got + {i}) && (done <==> i !in got && |got + {i}| == a.count)
  {
    hide Count, Cut, FragmentOf;
    var f := FragmentOf(data, size, i);
    FragmentFacts(data, size, i);
    var (a', done) := Feed(a, f.number, f.offset, f.data);
    if i in got {
      assert got + {i} == got;
    } else {
      assert forall x :: 0 <= x < |data| ==>
        a'.buf[x] == if Cut(|data|, size, i) <= x < Cut(|data|, size, i + 1) then data[x] else a.buf[x];
      forall j | j in got + {i} ensures Held(a'.buf, data, size, j) {
        assert j == i || Held(a.buf, data, size, j);
      }
    }
  }

  function Distinct(order: seq<nat>): set<nat> {
    set j | 0 <= j < |order| :: order[j]
  }

  /** The state and the answers after the fragments `order` have arrived, one by one. */
  function Delivered(data: seq<byte>, size: nat, order: seq<nat>): (r: (Assembly, seq<bool>))
    requires size > 0
    ensures |r.1| == |order|
  {
    if order == [] then (Empty(|data|, Count(|data|, size)), [])
    else
      var (a, answers) := Delivered(data, size, order[..|order| - 1]);
      var f := FragmentOf(data, size, order[|order| - 1]);
      var (a', done) := Feed(a, f.number, f.offset, f.data);
      (a', answers + [done])
  }

  /** The arrival of `order[j]` completes a message of `n` fragments. */
  predicate Completes(order: seq<nat>, j: nat, n: nat)
    requires j < |order|
  {
    order[j] !in Distinct(order[..j]) && |Distinct(order[..j + 1])| == n
  }

  lemma {:induction false} DeliveredHolding(data: seq<byte>, size: nat, order: seq<nat>)
    requires size > 0 && forall j :: 0 <= j < |order| ==> order[j] < Count(|data|, size)
    ensures Holding(Delivered(data, size, order).0, data, size, Distinct(order))
    ensures forall j :: 0 <= j < |order| ==> (Delivered(data, size, order).1[j] <==> Completes(order, j, Count(|data|, size)))
    decreases |order|
  {
    hide Count, Holding, Feed, FragmentOf, Distinct;
    if order == [] {
      StartHolding(data, size);
      DistinctNone();
    } else {
      var n := |order| - 1;
      var before, i := order[..n], order[n];
      DeliveredHolding(data, size, before);
      assert Distinct(order) == Distinct(before) + {i} by { DistinctOne(before, i); assert order == before + [i]; }
      var (a, answers) := Delivered(data, size, before);
      HoldingCount(a, data, size, Distinct(before));
      FeedHolding(a, data, size, Distinct(before), i);
      forall j | 0 <= j < |order|
        ensures Delivered(data, size, order).1[j] <==> Completes(order, j, Count(|data|, size))
      {
        if j < n {
          assert before[..j] == order[..j] && before[..j + 1] == order[..j + 1];
        } else {
          assert order[..n + 1] == order;
        }
      }
    }
  }

  lemma HoldingCount(a: Assembly, data: seq<byte>, size: nat, got: set<nat>)
    requires size > 0 && Holding(a, data, size, got)
    ensures a.count == Count(|data|, size)
  {
  }

  lemma DistinctNone()
    ensures Distinct([]) == {}
  {
  }

  lemma DistinctOne(order: seq<nat>, i: nat)
    ensures Distinct(order + [i]) == Distinct(order) + {i}
  {
    var more := order + [i];
    forall x | x in Distinct(order) ensures x in Distinct(more) {
      var j :| 0 <= j < |order| && order[j] == x;
      assert more[j] == x;
    }
    assert more[|order|] == i;
  }

  lemma DistinctWithin(order: seq<nat>, a: nat, b: nat)
    requires a <= b <= |order|
    ensures Distinct(order[..a]) <= Distinct(order[..b])
  {
    forall x | x in Distinct(order[..a]) ensures x in Distinct(order[..b]) {
      var j :| 0 <= j < a && order[..a][j] == x;
      assert order[..b][j] == x;
    }
  }

  lemma DistinctBelow(order: seq<nat>, n: nat)
    requires forall j :: 0 <= j < |order| ==> order[j] < n
    ensures Distinct(order) <= UpTo(n) && |Distinct(order)| <= n
    ensures |Distinct(order)| == n ==> Distinct(order) == UpTo(n)
  {
    SubsetSize(Distinct(order), UpTo(n));
  }

  /** The first arrival after which all have come. */
  lemma {:induction false} FirstFull(order: seq<nat>, n: nat) returns (j: nat)
    requires n > 0 && |Distinct(order)| == n
    ensures j < |order| && |Distinct(order[..j + 1])| == n && |Distinct(order[..j])| != n
    decreases |order|
  {
    hide Distinct;
    DistinctNone();
    var m := |order| - 1;
    if |Distinct(order[..m])| == n {
      j := FirstFull(order[..m], n);
      assert order[..m][..j] == order[..j] && order[..m][..j + 1] == order[..j + 1];
    } else {
      j := m;
      assert order[..m + 1] == order;
    }
  }

  /** One arrival completes the message, and only one. */
  lemma CompletesOnce(order: seq<nat>, n: nat) returns (j: nat)
    requires n > 0 && (forall i :: 0 <= i < |order| ==> order[i] < n) && forall i :: 0 <= i < n ==> i in order
    ensures j < |order| && forall k :: 0 <= k < |order| ==> (Completes(order, k, n) <==> k == j)
  {
    AllDistinct(order, n);
    j := FirstFull(order, n);
    hide Distinct;
    DistinctOne(order[..j], order[j]);
    assert order[..j + 1] == order[..j] + [order[j]];
    NotNew(Distinct(order[..j]), order[j]);
    forall k | 0 <= k < |order| && k != j ensures !Completes(order, k, n) {
      CompletesOther(order, n, j, k);
    }
  }

  lemma NotNew(s: set<nat>, x: nat)
    ensures x in s ==> s + {x} == s
  {
  }

  lemma CompletesOther(order: seq<nat>, n: nat, j: nat, k: nat)
    requires j < |order| && k < |order| && k != j && forall i :: 0 <= i < |order| ==> order[i] < n
    requires |Distinct(order[..j + 1])| == n && |Distinct(order[..j])| != n
    ensures !Completes(order, k, n)
  {
    hide Distinct;
    if k < j {
      DistinctWithin(order, k + 1, j);
      DistinctBelow(order[..j], n);
      SubsetSize(Distinct(order[..k + 1]), Distinct(order[..j]));
    } else {
      DistinctWithin(order, j + 1, k);
      DistinctBelow(order[..j + 1], n);
    }
  }

  lemma AllDistinct(order: seq<nat>, n: nat)
    requires (forall i :: 0 <= i < |order| ==> order[i] < n) && forall i :: 0 <= i < n ==> i in order
    ensures |Distinct(order)| == n
  {
    forall i | i in UpTo(n) ensures i in Distinct(order) {
      assert 0 <= i < n && i in order;
    }
    assert Distinct(order) == UpTo(n);
  }

  /** The answer at `j` is the only `true`. */
  predicate OnlyAt(answers: seq<bool>, j: nat) {
    j < |answers| && forall k :: 0 <= k < |answers| ==> (answers[k] <==> k == j)
  }

  lemma HoldsWhole(a: Assembly, data: seq<byte>, size: nat, order: seq<nat>)
    requires size > 0 && Holding(a, data, size, Distinct(order)) && forall i :: 0 <= i < Count(|data|, size) ==> i in order
    ensures a.buf == data
  {
    hide Count, Cut;
    forall x | 0 <= x < |data| ensures a.buf[x] == data[x] {
      var i := CutHolds(|data|, size, x);
      assert i in order && i in Distinct(order) && Held(a.buf, data, size, i);
    }
  }

  /** However the fragments of a message arrive, once they all have, the buffer is the message, and exactly
      one arrival was answered with `true`: that of the last one that was missing. */
  lemma Reassembles(data: seq<byte>, size: nat, order: seq<nat>)
    requires size > 0 && (forall j :: 0 <= j < |order| ==> order[j] < Count(|data|, size))
    requires forall i :: 0 <= i < Count(|data|, size) ==> i in order
    ensures Delivered(data, size, order).0.buf == data
    ensures forall j :: 0 <= j < |order| ==> (Delivered(data, size, order).1[j] <==> Completes(order, j, Count(|data|, size)))
    ensures data != [] ==> exists j :: OnlyAt(Delivered(data, size, order).1, j)
  {
    SomeCount(|data|, size);
    hide Count, Delivered, Completes, Cut, Holding, Distinct;
    DeliveredHolding(data, size, order);
    HoldsWhole(Delivered(data, size, order).0, data, size, order);
    if data != [] {
      var j := CompletesOnce(order, Count(|data|, size));
      assert OnlyAt(Delivered(data, size, order).1, j);
    }
  }

  lemma SomeCount(n: nat, size: nat)
    requires size > 0
    ensures n > 0 ==> Count(n, size) > 0
  {
    if n > 0 { var i := CutHolds(n, size, 0); }
  }
}
