/**
 The intrusive circular list on which every queue rests.

 A list is its sentinel and the nodes after it; the ghost sequence `ring` names them in order, the
 sentinel first.  A node is linked into at most one list at a time.
 */
module IntrusiveLists {
  class Node {
    var next: Node
    var previous: Node

    /** A node by itself; as a sentinel, the empty list: `enet_list_clear`. */
    constructor ()
      ensures Ring([this])
    {
      next, previous := this, this;
    }

    /** `enet_list_clear`. */
    method Clear()
      modifies this
      ensures Ring([this])
    {
      next, previous := this, this;
    }
  }

  /** The node at position `i` of a ring; behind the last one comes the first. */
  function At(ring: seq<Node>, i: nat): Node
    requires 0 < |ring| && i <= |ring|
  {
    if i == |ring| then ring[0] else ring[i]
  }

  ghost predicate Distinct(ring: seq<Node>) {
    forall i, j :: 0 <= i < j < |ring| ==> ring[i] != ring[j]
  }

  predicate Linked(a: Node, b: Node)
    reads a, b
  {
    a.next == b && b.previous == a
  }

  /** The nodes are linked in both directions, in this order, all round. */
  ghost predicate Ring(ring: seq<Node>)
    reads ring
  {
    && 0 < |ring| && Distinct(ring)
    && forall i :: 0 <= i < |ring| ==> Linked(ring[i], At(ring, i + 1))
  }

  /** `enet_list_insert`: `data` goes before `position`. */
  method Insert(position: Node, data: Node, ghost ring: seq<Node>, ghost p: nat)
    requires Ring(ring) && 0 < p <= |ring| && position == At(ring, p) && data !in ring
    modifies position, position.previous, data
    ensures Ring(ring[..p] + [data] + ring[p..])
  {
    assert Linked(ring[p - 1], At(ring, p));
    data.previous := position.previous;
    data.next := position;
    data.previous.next := data;
    position.previous := data;
    ghost var more := ring[..p] + [data] + ring[p..];
    forall i | 0 <= i < |more| ensures Linked(more[i], At(more, i + 1)) {
      if i < p - 1 {
        assert old(Linked(ring[i], At(ring, i + 1)));
        assert more[i] == ring[i] && At(more, i + 1) == ring[i + 1];
      } else if i > p {
        assert old(Linked(ring[i - 1], At(ring, i)));
        assert more[i] == ring[i - 1] && At(more, i + 1) == At(ring, i);
      } else if i == p {
        assert At(more, i + 1) == At(ring, p);
      }
    }
  }

  /** `enet_list_remove`. */
  method Remove(position: Node, ghost ring: seq<Node>, ghost p: nat)
    requires Ring(ring) && 0 < p < |ring| && position == ring[p]
    modifies position.previous, position.next
    ensures Ring(ring[..p] + ring[p + 1..])
  {
    assert Linked(ring[p - 1], ring[p]) && Linked(ring[p], At(ring, p + 1));
    position.previous.next := position.next;
    position.next.previous := position.previous;
    ghost var rest := ring[..p] + ring[p + 1..];
    forall i | 0 <= i < |rest| ensures Linked(rest[i], At(rest, i + 1)) {
      if i < p - 1 {
        assert old(Linked(ring[i], At(ring, i + 1)));
        assert rest[i] == ring[i] && At(rest, i + 1) == ring[i + 1];
      } else if i >= p {
        assert old(Linked(ring[i + 1], At(ring, i + 2)));
        assert rest[i] == ring[i + 1] && At(rest, i + 1) == At(ring, i + 2);
      } else {
        assert rest[i] == ring[p - 1] && At(rest, i + 1) == At(ring, p + 1);
      }
    }
  }

  // ---- Moving a segment ----

  /** The nodes are linked in this order; what the outer ones point to is open. */
  ghost predicate Segment(part: seq<Node>)
    reads part
  {
    0 < |part| && Distinct(part) && forall i :: 0 <= i < |part| - 1 ==> Linked(part[i], part[i + 1])
  }

  /** The ring without its nodes from `a` to `b`. */
  function Cut(ring: seq<Node>, a: nat, b: nat): seq<Node>
    requires 0 < a <= b < |ring|
  {
    ring[..a] + ring[b + 1..]
  }

  lemma AtDistinct(ring: seq<Node>, i: nat, j: nat)
    requires Distinct(ring) && 0 < i <= |ring| && 0 < j <= |ring| && i != j
    ensures At(ring, i) != At(ring, j)
  {
  }

  lemma CutAt(ring: seq<Node>, a: nat, b: nat, i: nat)
    requires 0 < a <= b < |ring| && i < |Cut(ring, a, b)|
    ensures var rest := Cut(ring, a, b);
      && (i < a - 1 ==> rest[i] == ring[i] && At(rest, i + 1) == At(ring, i + 1))
      && (i == a - 1 ==> rest[i] == ring[a - 1] && At(rest, i + 1) == At(ring, b + 1))
      && (i >= a ==> rest[i] == ring[i + (b + 1 - a)] && At(rest, i + 1) == At(ring, i + (b + 1 - a) + 1))
  {
  }

  function Join(ring: seq<Node>, p: nat, part: seq<Node>): seq<Node>
    requires p <= |ring|
  {
    ring[..p] + part + ring[p..]
  }

  lemma JoinAt(ring: seq<Node>, p: nat, part: seq<Node>, i: nat)
    requires 0 < p <= |ring| && 0 < |part| && i < |Join(ring, p, part)|
    ensures var more, n := Join(ring, p, part), |part|;
      && (i < p - 1 ==> more[i] == ring[i] && At(more, i + 1) == At(ring, i + 1))
      && (i == p - 1 ==> more[i] == ring[p - 1] && At(more, i + 1) == part[0])
      && (p <= i < p + n - 1 ==> more[i] == part[i - p] && At(more, i + 1) == part[i - p + 1])
      && (i == p + n - 1 ==> more[i] == part[n - 1] && At(more, i + 1) == At(ring, p))
      && (i >= p + n ==> more[i] == ring[i - n] && At(more, i + 1) == At(ring, i - n + 1))
  {
  }

  lemma DistinctPieces(ring: seq<Node>, a: nat, b: nat)
    requires Distinct(ring) && 0 < a <= b < |ring|
    ensures Distinct(Cut(ring, a, b)) && Distinct(ring[a..b + 1])
  {
  }

  lemma DistinctJoin(ring: seq<Node>, p: nat, part: seq<Node>)
    requires Distinct(ring) && Distinct(part) && p <= |ring| && forall x :: x in part ==> x !in ring
    ensures Distinct(Join(ring, p, part))
  {
    var more, n := Join(ring, p, part), |part|;
    forall i, j | 0 <= i < j < |more| ensures more[i] != more[j] {
      assert more[i] == if i < p then ring[i] else if i < p + n then part[i - p] else ring[i - n];
      assert more[j] == if j < p then ring[j] else if j < p + n then part[j - p] else ring[j - n];
      assert (p <= i < p + n ==> more[i] in part) && (p <= j < p + n ==> more[j] in part);
      assert (!(p <= i < p + n) ==> more[i] in ring) && (!(p <= j < p + n) ==> more[j] in ring);
    }
  }

  /** The first half of `enet_list_move`: the neighbours of the segment are linked to each other. */
  method CutOut(first: Node, last: Node, ghost ring: seq<Node>, ghost a: nat, ghost b: nat)
    requires Ring(ring) && 0 < a <= b < |ring| && first == ring[a] && last == ring[b]
    modifies first.previous`next, last.next`previous
    ensures Ring(Cut(ring, a, b)) && Segment(ring[a..b + 1])
  {
    assert Linked(ring[a - 1], At(ring, a)) && Linked(ring[b], At(ring, b + 1));
    DistinctPieces(ring, a, b);
    first.previous.next := last.next;
    last.next.previous := first.previous;
    ghost var rest, part := Cut(ring, a, b), ring[a..b + 1];
    forall i | 0 <= i < |rest| ensures Linked(rest[i], At(rest, i + 1)) {
      CutAt(ring, a, b, i);
      var j := if i < a then i else i + (b + 1 - a);
      assert old(Linked(ring[j], At(ring, j + 1)));
    }
    forall i | 0 <= i < |part| - 1 ensures Linked(part[i], part[i + 1]) {
      assert old(Linked(ring[a + i], At(ring, a + i + 1)));
    }
  }

  /** The second half: the segment goes before `position`. */
  method Splice(position: Node, first: Node, last: Node, ghost ring: seq<Node>, ghost p: nat, ghost part: seq<Node>)
    requires Ring(ring) && 0 < p <= |ring| && position == At(ring, p)
    requires Segment(part) && first == part[0] && last == part[|part| - 1] && (forall x :: x in part ==> x !in ring)
    modifies first`previous, last`next, position.previous`next, position`previous
    ensures Ring(Join(ring, p, part))
  {
    assert Linked(ring[p - 1], At(ring, p)) && ring[p - 1] in ring && At(ring, p) in ring;
    DistinctJoin(ring, p, part);
    first.previous := position.previous;
    last.next := position;
    first.previous.next := first;
    position.previous := last;
    ghost var more, n := Join(ring, p, part), |part|;
    forall i | 0 <= i < |more| ensures Linked(more[i], At(more, i + 1)) {
      JoinAt(ring, p, part, i);
      if p <= i < p + n - 1 {
        assert old(Linked(part[i - p], part[i - p + 1])) && part[i - p] in part && part[i - p + 1] in part;
      } else if i != p - 1 && i != p + n - 1 {
        var j := if i < p then i else i - n;
        assert old(Linked(ring[j], At(ring, j + 1))) && ring[j] in ring && At(ring, j + 1) in ring;
        AtDistinct(ring, j + 1, p);
      }
    }
  }

  /** `enet_list_move`: the segment from `first` to `last` leaves its ring and goes, in order, before
      `position` in the ring `target`: another one, or what is left of its own. */
  method Move(position: Node, first: Node, last: Node, ghost ring: seq<Node>, ghost a: nat, ghost b: nat,
              ghost target: seq<Node>, ghost p: nat)
    requires Ring(ring) && 0 < a <= b < |ring| && first == ring[a] && last == ring[b]
    requires target == Cut(ring, a, b) || (Ring(target) && forall x :: x in target ==> x !in ring)
    requires 0 < p <= |target| && position == At(target, p)
    modifies ring, target
    ensures Ring(Join(target, p, ring[a..b + 1]))
    ensures target != Cut(ring, a, b) ==> Ring(Cut(ring, a, b))
  {
    ghost var rest, part := Cut(ring, a, b), ring[a..b + 1];
    assert Linked(ring[a - 1], At(ring, a)) && Linked(ring[b], At(ring, b + 1));
    assert ring[a - 1] in ring && At(ring, b + 1) in ring && ring[a] in ring && ring[b] in ring;
    SegmentApart(ring, a, b);
    CutOut(first, last, ring, a, b);
    if target != rest {
      forall i | 0 <= i < |target| ensures Linked(target[i], At(target, i + 1)) {
        assert old(Linked(target[i], At(target, i + 1))) && target[i] in target && At(target, i + 1) in target;
      }
    }
    SpliceApart(position, first, last, target, p, part, rest);
  }

  /** Splicing leaves the rings alone that have nothing to do with it. */
  method SpliceApart(position: Node, first: Node, last: Node, ghost ring: seq<Node>, ghost p: nat, ghost part: seq<Node>,
                     ghost rest: seq<Node>)
    requires Ring(ring) && 0 < p <= |ring| && position == At(ring, p)
    requires Segment(part) && first == part[0] && last == part[|part| - 1] && (forall x :: x in part ==> x !in ring)
    requires rest == ring || (Ring(rest) && forall x :: x in rest ==> x !in ring && x !in part)
    modifies part, ring
    ensures Ring(Join(ring, p, part)) && (rest != ring ==> Ring(rest))
  {
    assert Linked(ring[p - 1], At(ring, p)) && ring[p - 1] in ring && At(ring, p) in ring && first in part && last in part;
    Splice(position, first, last, ring, p, part);
    if rest != ring {
      forall i | 0 <= i < |rest| ensures Linked(rest[i], At(rest, i + 1)) {
        assert old(Linked(rest[i], At(rest, i + 1))) && rest[i] in rest && At(rest, i + 1) in rest;
      }
    }
  }

  lemma SegmentApart(ring: seq<Node>, a: nat, b: nat)
    requires Distinct(ring) && 0 < a <= b < |ring|
    ensures forall x :: x in ring[a..b + 1] ==> x !in Cut(ring, a, b)
  {
  }

  /** `enet_list_size`. */
  method Size(sentinel: Node, ghost ring: seq<Node>) returns (size: nat)
    requires Ring(ring) && ring[0] == sentinel
    ensures size == |ring| - 1
  {
    size := 0;
    assert Linked(ring[0], At(ring, 1));
    var position := sentinel.next;
    while position != sentinel
      invariant size < |ring| && position == At(ring, size + 1)
      decreases |ring| - size
    {
      assert Linked(ring[size + 1], At(ring, size + 2));
      size := size + 1;
      position := position.next;
    }
  }
}
