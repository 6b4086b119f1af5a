/**
 How the host shares its bandwidth among its peers: the most limited peers get what they can take, and
 what is left is shared evenly, again and again until nobody gets more than it can take.

 Products and sums are taken as unbounded: what happens when they overflow 32 bits is not modelled.
 */
module BandwidthThrottle {
  const SCALE := 32

  /** What the allocator reads and writes of a peer.  `data` is `outgoingDataTotal`. */
  datatype Link = Link(
    up: bool, incoming: nat, outgoing: nat, data: nat, throttle: nat, limit: nat, outgoingEpoch: nat, incomingEpoch: nat)
  {
    /** Not connected, or dealt with in this call. */
    predicate Settled(now: nat) { !up || outgoingEpoch == now }

    function Share(elapsed: nat): nat { incoming * elapsed / 1000 }
  }

  /** `packetThrottle` stays below its limit. */
  predicate Throttled(x: Link) { x.throttle <= x.limit <= SCALE }

  /** `t` parts of 32 of the data fit into the bandwidth, and no more parts would. */
  predicate Greatest(t: nat, data: nat, bandwidth: nat) {
    t <= 32 && t * data <= 32 * bandwidth && (t == 32 || (t + 1) * data > 32 * bandwidth)
  }

  function Scaled(data: nat, bandwidth: nat): (t: nat)
    ensures Greatest(t, data, bandwidth)
  {
    if data <= bandwidth then SCALE
    else
      ScaleBounds(data, bandwidth);
      bandwidth * SCALE / data
  }

  lemma ScaleBounds(data: nat, bandwidth: nat)
    requires data > bandwidth
    ensures Greatest(bandwidth * SCALE / data, data, bandwidth)
  {
    DivBelow(bandwidth * SCALE, data, SCALE);
  }

  /** When some of the bandwidth is given away for as much of the data, the others get no more than before. */
  lemma GreatestShrinks(t: nat, data: nat, bandwidth: nat, t': nat, given: nat)
    requires given <= data && given <= bandwidth
    requires Greatest(t, data, bandwidth) && Greatest(t', data - given, bandwidth - given)
    ensures t' <= t
  {
    var rest, left := data - given, bandwidth - given;
    assert t' * rest <= 32 * left;
    Distribute(t', rest, given);
    if t < t' { Monotone(t + 1, t', data); }
  }

  lemma Distribute(t: nat, rest: nat, given: nat)
    requires t <= 32
    ensures t * (rest + given) <= t * rest + 32 * given
  {
    Monotone(t, 32, given);
    assert t * (rest + given) == t * rest + t * given;
  }

  lemma Monotone(a: nat, b: nat, c: nat)
    requires a <= b
    ensures a * c <= b * c
  {
  }

  lemma DivBelow(a: nat, d: nat, c: nat)
    requires 0 < d && a < c * d
    ensures a / d < c && a / d * d <= a < (a / d + 1) * d
  {
    var q := a / d;
    assert q * d <= a < q * d + d;
    assert c <= q ==> c * d <= q * d;
  }

  /** The data of the connected peers that have not been dealt with, from peer `k` on. */
  function Rest(s: seq<Link>, now: nat, k: nat): nat
    decreases |s| - k
  {
    if k >= |s| then 0 else (if s[k].Settled(now) then 0 else s[k].data) + Rest(s, now, k + 1)
  }

  function UpCount(s: seq<Link>, now: nat, k: nat): nat
    decreases |s| - k
  {
    if k >= |s| then 0 else (if s[k].Settled(now) then 0 else 1) + UpCount(s, now, k + 1)
  }

  lemma {:induction false} RestUpdate(s: seq<Link>, now: nat, k: nat, i: nat, x: Link)
    requires i < |s| && x.Settled(now) && !s[i].Settled(now) && k <= |s|
    ensures Rest(s[i := x], now, k) + (if k <= i then s[i].data else 0) == Rest(s, now, k)
    ensures UpCount(s[i := x], now, k) + (if k <= i then 1 else 0) == UpCount(s, now, k)
    decreases |s| - k
  {
    if k < |s| { RestUpdate(s, now, k + 1, i, x); }
  }

  // ---- One round ----

  /** A peer for which the even share is more than it can take gets what it can take. */
  predicate Takes(x: Link, now: nat, elapsed: nat, t: nat) {
    !x.Settled(now) && x.incoming != 0 && t * x.data / SCALE > x.Share(elapsed)
  }

  function Capped(x: Link, now: nat, elapsed: nat): Link
    requires x.data > 0
  {
    var limit := x.Share(elapsed) * SCALE / x.data;
    var limit' := if limit == 0 then 1 else limit;
    x.(limit := limit', throttle := if x.throttle > limit' then limit' else x.throttle, outgoingEpoch := now, data := 0)
  }

  lemma TakesBounds(x: Link, now: nat, elapsed: nat, t: nat)
    requires Takes(x, now, elapsed, t) && t <= SCALE
    ensures x.Share(elapsed) < x.data && SCALE * x.Share(elapsed) <= t * x.data
    ensures Throttled(Capped(x, now, elapsed))
  {
    var b, d := x.Share(elapsed), x.data;
    assert SCALE * (t * d / SCALE) <= t * d;
    assert t * d <= SCALE * d;
    CapBounds(b, d);
  }

  lemma CapBounds(b: nat, d: nat)
    requires b < d
    ensures b * SCALE / d < SCALE && (b * SCALE / d) * d <= b * SCALE
  {
    DivBelow(b * SCALE, d, SCALE);
  }

  /** What the peers use of the outgoing bandwidth under their limits, not counting those whose limit had
      to be rounded up to 1.  `o` are the peers before the call. */
  function Used(o: seq<Link>, s: seq<Link>, now: nat, elapsed: nat, k: nat): nat
    requires |o| == |s| && k <= |s|
  {
    if k == 0 then 0
    else Used(o, s, now, elapsed, k - 1) + Use(o[k - 1], s[k - 1], now, elapsed)
  }

  function Use(x: Link, y: Link, now: nat, elapsed: nat): nat {
    if !x.up || !y.Settled(now) || SCALE * x.Share(elapsed) < x.data then 0 else y.limit * x.data / SCALE
  }

  /** The shares of the peers that have been capped. */
  function Given(o: seq<Link>, s: seq<Link>, now: nat, elapsed: nat, k: nat): nat
    requires |o| == |s| && k <= |s|
  {
    if k == 0 then 0
    else Given(o, s, now, elapsed, k - 1) + GivenTo(o[k - 1], s[k - 1], now, elapsed)
  }

  function GivenTo(x: Link, y: Link, now: nat, elapsed: nat): nat {
    if x.up && y.Settled(now) then x.Share(elapsed) else 0
  }

  /** Where the call stands: `given` of the bandwidth has been shared out to peers that are settled. */
  ghost predicate Shared(o: seq<Link>, s: seq<Link>, now: nat, elapsed: nat, given: nat) {
    && |o| == |s|
    && (forall i :: 0 <= i < |s| ==> Same(o[i], s[i], now, elapsed))
    && Given(o, s, now, elapsed, |s|) == given
  }

  /** A peer is as before, or has been capped. */
  predicate Same(x: Link, y: Link, now: nat, elapsed: nat) {
    (y == x && !(y.up && y.Settled(now))) || (x.up && 0 < x.data && x.Share(elapsed) < x.data && y == Capped(x, now, elapsed))
  }

  lemma {:induction false} GivenUpdate(o: seq<Link>, s: seq<Link>, now: nat, elapsed: nat, k: nat, i: nat, y: Link)
    requires |o| == |s| && k <= |s| && i < |s|
    ensures Given(o, s[i := y], now, elapsed, k) + (if i < k then GivenTo(o[i], s[i], now, elapsed) else 0)
         == Given(o, s, now, elapsed, k) + if i < k then GivenTo(o[i], y, now, elapsed) else 0
  {
    if k > 0 { GivenUpdate(o, s, now, elapsed, k - 1, i, y); }
  }

  /** Capping a peer uses no more than its share. */
  lemma CappedUse(x: Link, y: Link, now: nat, elapsed: nat)
    requires Same(x, y, now, elapsed)
    ensures Use(x, y, now, elapsed) <= GivenTo(x, y, now, elapsed)
    ensures x.up && y.Settled(now) ==> Throttled(y)
  {
    var b, d := x.Share(elapsed), x.data;
    if x.up && y.Settled(now) {
      CapBounds(b, d);
      if SCALE * b >= d { CapPositive(b, d); }
    }
  }

  lemma CapPositive(b: nat, d: nat)
    requires 0 < d <= SCALE * b && b < d
    ensures b * SCALE / d > 0 && (b * SCALE / d) * d / SCALE <= b
  {
    CapBounds(b, d);
  }

  lemma {:induction false} UsedGiven(o: seq<Link>, s: seq<Link>, now: nat, elapsed: nat, k: nat)
    requires |o| == |s| && k <= |s| && forall i :: 0 <= i < |s| ==> Same(o[i], s[i], now, elapsed)
    ensures Used(o, s, now, elapsed, k) <= Given(o, s, now, elapsed, k)
  {
    hide Same, Use, GivenTo;
    if k > 0 {
      UsedGiven(o, s, now, elapsed, k - 1);
      CappedUse(o[k - 1], s[k - 1], now, elapsed);
    }
  }

  lemma SharedOn(o: seq<Link>, s: seq<Link>, now: nat, elapsed: nat, given: nat, i: nat, t: nat)
    requires Shared(o, s, now, elapsed, given) && i < |s| && Takes(s[i], now, elapsed, t) && t <= SCALE
    ensures s[i].data > 0 && Shared(o, s[i := Capped(s[i], now, elapsed)], now, elapsed, given + s[i].Share(elapsed))
  {
    hide Given, Takes, Capped;
    TakesUp(s[i], now, elapsed, t);
    TakesBounds(s[i], now, elapsed, t);
    assert s[i] == o[i] by { assert Same(o[i], s[i], now, elapsed); SameOpen(o[i], s[i], now, elapsed); }
    CappedSettled(s[i], now, elapsed);
    GivenUpdate(o, s, now, elapsed, |s|, i, Capped(s[i], now, elapsed));
  }

  lemma SameOpen(x: Link, y: Link, now: nat, elapsed: nat)
    requires Same(x, y, now, elapsed) && !y.Settled(now)
    ensures y == x
  {
  }

  lemma CappedSettled(x: Link, now: nat, elapsed: nat)
    requires x.data > 0
    ensures Capped(x, now, elapsed).Settled(now)
  {
  }

  lemma TakesUp(x: Link, now: nat, elapsed: nat, t: nat)
    requires Takes(x, now, elapsed, t)
    ensures x.up && !x.Settled(now)
  {
  }

  /** A round stands before peer `i`: of the data `seen`, peers with the data `capped` have been given `g`. */
  ghost predicate InRound(s: seq<Link>, now: nat, t: nat, i: nat, all: nat, seen: nat, capped: nat, g: nat) {
    && i <= |s| && seen + Rest(s, now, i) == all && Rest(s, now, 0) + capped == all
    && g <= capped <= all && SCALE * g <= t * seen
  }

  lemma RoundSkips(s: seq<Link>, now: nat, t: nat, i: nat, all: nat, seen: nat, capped: nat, g: nat)
    requires InRound(s, now, t, i, all, seen, capped, g) && i < |s|
    ensures InRound(s, now, t, i + 1, all, seen + if s[i].Settled(now) then 0 else s[i].data, capped, g)
  {
    assert t * seen <= t * (seen + if s[i].Settled(now) then 0 else s[i].data);
  }

  /** Giving the next peer its share takes neither the bandwidth nor the data total below zero. */
  lemma RoundGives(s: seq<Link>, now: nat, elapsed: nat, t: nat, i: nat, all: nat, seen: nat, capped: nat, g: nat,
                   total: nat, bandwidth: nat)
    requires InRound(s, now, t, i, all, seen, capped, g) && i < |s| && Takes(s[i], now, elapsed, t) && t <= SCALE
    requires all <= total && t * total <= SCALE * bandwidth
    ensures var b, d := s[i].Share(elapsed), s[i].data;
      d > 0 && g + b <= bandwidth && g + b <= total
      && InRound(s[i := Capped(s[i], now, elapsed)], now, t, i + 1, all, seen + d, capped + d, g + b)
    ensures UpCount(s, now, 0) == UpCount(s[i := Capped(s[i], now, elapsed)], now, 0) + 1
  {
    hide Takes, Link.Share;
    TakesUp(s[i], now, elapsed, t);
    TakesBounds(s[i], now, elapsed, t);
    var b, d, y := s[i].Share(elapsed), s[i].data, Capped(s[i], now, elapsed);
    RestUpdate(s, now, 0, i, y);
    RestUpdate(s, now, i + 1, i, y);
    assert Rest(s, now, i) == d + Rest(s, now, i + 1);
    RoundArithmetic(t, seen, d, g, b, all, total, bandwidth);
  }

  lemma RoundArithmetic(t: nat, seen: nat, d: nat, g: nat, b: nat, all: nat, total: nat, bandwidth: nat)
    requires SCALE * g <= t * seen && SCALE * b <= t * d && seen + d <= all <= total && t * total <= SCALE * bandwidth
    ensures SCALE * (g + b) <= t * (seen + d) && g + b <= bandwidth
  {
    assert t * (seen + d) == t * seen + t * d;
    assert t * (seen + d) <= t * total;
  }

  /** One pass over the peers with the same throttle. */
  method Round(peers: array<Link>, now: nat, elapsed: nat, t: nat, remaining: nat, bandwidth: nat, total: nat,
               ghost o: seq<Link>, ghost given: nat)
    returns (again: bool, remaining': nat, bandwidth': nat, total': nat)
    requires Shared(o, peers[..], now, elapsed, given) && remaining == UpCount(peers[..], now, 0)
    requires Rest(peers[..], now, 0) <= total && t <= SCALE && t * total <= SCALE * bandwidth
    modifies peers
    ensures bandwidth' <= bandwidth && total - total' == bandwidth - bandwidth'
    ensures Shared(o, peers[..], now, elapsed, given + (bandwidth - bandwidth')) && remaining' == UpCount(peers[..], now, 0)
    ensures Rest(peers[..], now, 0) <= total'
    ensures if again then remaining' < remaining else peers[..] == old(peers[..]) && bandwidth' == bandwidth
    ensures !again ==> forall i :: 0 <= i < peers.Length ==> !Takes(peers[i], now, elapsed, t)
    ensures CappedAt(old(peers[..]), peers[..], now, elapsed, t)
  {
    hide Shared, Takes, Capped, Rest, UpCount, Link.Share;
    again, remaining', bandwidth', total' := false, remaining, bandwidth, total;
    ghost var all, seen: nat, capped: nat, g: nat := Rest(peers[..], now, 0), 0, 0, 0;
    for i := 0 to peers.Length
      invariant InRound(peers[..], now, t, i, all, seen, capped, g)
      invariant bandwidth' + g == bandwidth && total' + g == total
      invariant Shared(o, peers[..], now, elapsed, given + g) && remaining' == UpCount(peers[..], now, 0)
      invariant if again then remaining' < remaining else peers[..] == old(peers[..]) && g == 0 && capped == 0
      invariant !again ==> forall j :: 0 <= j < i ==> !Takes(peers[j], now, elapsed, t)
      invariant CappedAt(old(peers[..]), peers[..], now, elapsed, t) && forall j :: i <= j < peers.Length ==> peers[j] == old(peers[j])
    {
      ghost var s := peers[..];
      var x := peers[i];
      if Takes(x, now, elapsed, t) {
        RoundGives(s, now, elapsed, t, i, all, seen, capped, g, total, bandwidth);
        SharedOn(o, s, now, elapsed, given + g, i, t);
        seen, capped, g := seen + x.data, capped + x.data, g + x.Share(elapsed);
        peers[i] := Capped(x, now, elapsed);
        again, remaining' := true, remaining' - 1;
        bandwidth', total' := bandwidth' - x.Share(elapsed), total' - x.Share(elapsed);
        assert peers[..] == s[i := Capped(x, now, elapsed)];
      } else {
        RoundSkips(s, now, t, i, all, seen, capped, g);
        seen := seen + if x.Settled(now) then 0 else x.data;
      }
    }
  }

  // ---- The outgoing side ----

  function Levelled(x: Link, now: nat, t: nat): Link {
    x.(limit := t, throttle := if x.throttle > t then t else x.throttle, data := 0)
  }

  /** What the peers use in the end, counting every peer that is connected. */
  function Final(o: seq<Link>, s: seq<Link>, now: nat, elapsed: nat, k: nat): nat
    requires |o| == |s| && k <= |s|
  {
    if k == 0 then 0
    else Final(o, s, now, elapsed, k - 1) + FinalUse(o[k - 1], s[k - 1], now, elapsed)
  }

  function FinalUse(x: Link, y: Link, now: nat, elapsed: nat): nat {
    if !x.up || (y.outgoingEpoch == now && SCALE * x.Share(elapsed) < x.data) then 0 else y.limit * x.data / SCALE
  }

  /** Before peer `i` of the last pass. */
  ghost predicate Levelling(o: seq<Link>, s: seq<Link>, s': seq<Link>, now: nat, t: nat, i: nat) {
    && |o| == |s| == |s'| && i <= |s|
    && forall j :: 0 <= j < |s| ==> s'[j] == if j < i && !s[j].Settled(now) then Levelled(s[j], now, t) else s[j]
  }

  /** The last pass: the throttle for those that have not been dealt with. */
  lemma {:induction false} FinalBound(o: seq<Link>, s: seq<Link>, s': seq<Link>, now: nat, elapsed: nat, t: nat, k: nat)
    requires Levelling(o, s, s', now, t, |s|) && k <= |s| && (forall i :: 0 <= i < |s| ==> Same(o[i], s[i], now, elapsed))
    ensures SCALE * Final(o, s', now, elapsed, k) + t * Rest(s, now, k)
         <= SCALE * Used(o, s, now, elapsed, k) + t * Rest(s, now, 0)
    decreases k
  {
    hide Same, Levelled;
    if k > 0 {
      FinalBound(o, s, s', now, elapsed, t, k - 1);
      assert Same(o[k - 1], s[k - 1], now, elapsed);
      FinalOne(o[k - 1], s[k - 1], s'[k - 1], now, elapsed, t);
      FinalSum(t, Final(o, s', now, elapsed, k - 1), FinalUse(o[k - 1], s'[k - 1], now, elapsed), Rest(s, now, k),
               if s[k - 1].Settled(now) then 0 else s[k - 1].data);
    }
  }

  lemma FinalSum(t: nat, f: nat, u: nat, rest: nat, d: nat)
    ensures SCALE * (f + u) == SCALE * f + SCALE * u && t * (d + rest) == t * d + t * rest
  {
  }

  lemma FinalOne(x: Link, y: Link, y': Link, now: nat, elapsed: nat, t: nat)
    requires Same(x, y, now, elapsed) && y' == if y.Settled(now) then y else Levelled(y, now, t)
    ensures SCALE * FinalUse(x, y', now, elapsed)
         <= SCALE * Use(x, y, now, elapsed) + t * if y.Settled(now) then 0 else y.data
  {
    assert t * x.data / SCALE * SCALE <= t * x.data;
  }

  /** How a peer comes out: capped at the most that it can take, but not at 0, if at the throttle `first` with which
      the call began it would have sent more than that; or at the common throttle `t`, at which it does not. */
  predicate Served(x: Link, y: Link, now: nat, elapsed: nat, t: nat, first: nat, adjusted: bool) {
    var share := x.incoming * elapsed / 1000;
    if !x.up then y == x
    else
      && y == x.(limit := y.limit, throttle := y.throttle, data := 0, outgoingEpoch := y.outgoingEpoch)
      && y.throttle == (if x.throttle > y.limit then y.limit else x.throttle)
      && if y.outgoingEpoch == now then
           adjusted && x.incoming != 0 && first * x.data / 32 > share
           && (Greatest(y.limit, x.data, share) || (y.limit == 1 && Greatest(0, x.data, share)))
         else
           y.outgoingEpoch == x.outgoingEpoch && y.limit == t && (adjusted && x.incoming != 0 ==> t * x.data / 32 <= share)
  }

  /** The throttles at the start, and at the end when `given` has been shared out to capped peers, are the greatest
      that the bandwidth allows for the data. */
  predicate Even(given: nat, data: nat, bandwidth: nat, t: nat, first: nat) {
    given <= data && given <= bandwidth && Greatest(first, data, bandwidth) && Greatest(t, data - given, bandwidth - given)
  }

  /** Where the bandwidth is enough for all data, nobody is held back. */
  lemma EvenFull(given: nat, data: nat, t: nat, first: nat)
    requires Even(given, data, data, t, first)
    ensures t == first == 32
  {
    if first < 32 { Monotone(first + 1, 32, data); }
    if t < 32 { Monotone(t + 1, 32, data - given); }
  }

  lemma CappedServed(x: Link, now: nat, elapsed: nat, t: nat, first: nat)
    requires Takes(x, now, elapsed, first) && first <= 32
    ensures x.data > 0 && Served(x, Capped(x, now, elapsed), now, elapsed, t, first, true)
  {
    TakesBounds(x, now, elapsed, first);
    ScaleBounds(x.data, x.Share(elapsed));
  }

  /** Peers that the round has capped would have taken too much at its throttle. */
  ghost predicate CappedAt(s: seq<Link>, s': seq<Link>, now: nat, elapsed: nat, t: nat) {
    |s| == |s'| && forall i :: 0 <= i < |s| && s'[i] != s[i] ==> Takes(s[i], now, elapsed, t)
  }

  ghost predicate CappedBy(o: seq<Link>, s: seq<Link>, now: nat, elapsed: nat, first: nat, adjusted: bool) {
    |o| == |s| && forall i :: 0 <= i < |s| && s[i] != o[i] ==> adjusted && Takes(o[i], now, elapsed, first)
  }

  lemma CappedOn(o: seq<Link>, s: seq<Link>, s': seq<Link>, now: nat, elapsed: nat, t: nat, first: nat)
    requires CappedBy(o, s, now, elapsed, first, true) && CappedAt(s, s', now, elapsed, t) && t <= first
    ensures CappedBy(o, s', now, elapsed, first, true)
  {
    forall i | 0 <= i < |s'| && s'[i] != o[i] ensures Takes(o[i], now, elapsed, first) {
      if s'[i] != s[i] && s[i] == o[i] {
        assert t * o[i].data <= first * o[i].data;
        assert t * o[i].data / SCALE <= first * o[i].data / SCALE;
      }
    }
  }

  /** The host's outgoing bandwidth is shared out: every peer is capped at what it can take or gets the
      common throttle, the greatest for what the others leave; no peer's throttle is above its limit; and under
      their limits the peers use no more than the host has, not counting those that were rounded up to 1. */
  method ShareOutgoing(peers: array<Link>, now: nat, elapsed: nat, connected: nat, limitedPeers: nat, total0: nat, bandwidth0: nat)
    returns (t: nat, ghost first: nat)
    requires connected == UpCount(peers[..], now, 0)
    requires forall i :: 0 <= i < peers.Length ==> peers[i].up ==> peers[i].outgoingEpoch != now
    requires Rest(peers[..], now, 0) <= total0
    modifies peers
    ensures forall i :: 0 <= i < peers.Length ==> Served(old(peers[i]), peers[i], now, elapsed, t, first, limitedPeers > 0)
    ensures forall i :: 0 <= i < peers.Length ==> peers[i].up ==> Throttled(peers[i])
    ensures Even(Given(old(peers[..]), peers[..], now, elapsed, peers.Length), total0, bandwidth0, t, first)
    ensures Final(old(peers[..]), peers[..], now, elapsed, peers.Length) <= bandwidth0
  {
    hide Rest, UpCount, FinalUse, Throttled, Takes, Served, Given, Final, CappedBy, CappedAt, Shared;
    ghost var o, given: nat := peers[..], 0;
    var remaining, total, bandwidth, again := connected, total0, bandwidth0, limitedPeers > 0;
    first := Scaled(total0, bandwidth0);
    SharedStart(o, now, elapsed);
    CappedNone(o, now, elapsed, first, limitedPeers > 0);
    while remaining > 0 && again
      invariant given + bandwidth == bandwidth0 && given + total == total0 && Shared(o, peers[..], now, elapsed, given)
      invariant remaining == UpCount(peers[..], now, 0) && Rest(peers[..], now, 0) <= total
      invariant !again && limitedPeers > 0 ==> NoTakers(peers[..], now, elapsed, Scaled(total, bandwidth))
      invariant CappedBy(o, peers[..], now, elapsed, first, limitedPeers > 0) && (again ==> limitedPeers > 0)
      decreases remaining, again
    {
      t := Scaled(total, bandwidth);
      GreatestShrinks(first, total0, bandwidth0, t, given);
      ghost var before, were := bandwidth, peers[..];
      again, remaining, bandwidth, total := Round(peers, now, elapsed, t, remaining, bandwidth, total, o, given);
      given := given + (before - bandwidth);
      CappedOn(o, were, peers[..], now, elapsed, t, first);
    }
    ghost var s := peers[..];
    t := Scaled(total, bandwidth);
    if remaining > 0 {
      for i := 0 to peers.Length
        invariant Levelling(o, s, peers[..], now, t, i)
      {
        if !peers[i].Settled(now) {
          peers[i] := Levelled(peers[i], now, t);
        }
      }
    } else {
      NoneLeft(s, now, 0);
    }
    FinalShare(o, s, peers[..], now, elapsed, t, given, bandwidth, total);
    FinalServed(o, s, peers[..], now, elapsed, t, first, limitedPeers > 0, given);
  }

  lemma CappedNone(o: seq<Link>, now: nat, elapsed: nat, first: nat, adjusted: bool)
    ensures CappedBy(o, o, now, elapsed, first, adjusted)
  {
  }

  ghost predicate NoTakers(s: seq<Link>, now: nat, elapsed: nat, t: nat) {
    forall i :: 0 <= i < |s| ==> !Takes(s[i], now, elapsed, t)
  }

  lemma FinalServed(o: seq<Link>, s: seq<Link>, s': seq<Link>, now: nat, elapsed: nat, t: nat, first: nat, adjusted: bool, given: nat)
    requires Shared(o, s, now, elapsed, given) && CappedBy(o, s, now, elapsed, first, adjusted)
    requires Levelling(o, s, s', now, t, |s|) && first <= 32
    requires (adjusted ==> NoTakers(s, now, elapsed, t)) || (forall i :: 0 <= i < |s| ==> s[i].Settled(now))
    ensures forall i :: 0 <= i < |s| ==> Served(o[i], s'[i], now, elapsed, t, first, adjusted)
    ensures Given(o, s', now, elapsed, |s|) == given
  {
    hide Given;
    forall i | 0 <= i < |s| ensures Served(o[i], s'[i], now, elapsed, t, first, adjusted) {
      assert Same(o[i], s[i], now, elapsed);
      if s[i] != o[i] {
        CappedServed(o[i], now, elapsed, t, first);
      } else if !s[i].Settled(now) {
        OpenServed(s[i], now, elapsed, t, first, adjusted);
      }
    }
    GivenSame(o, s, s', now, elapsed, t, |s|);
  }

  lemma OpenServed(x: Link, now: nat, elapsed: nat, t: nat, first: nat, adjusted: bool)
    requires !x.Settled(now) && (adjusted ==> !Takes(x, now, elapsed, t))
    ensures Served(x, Levelled(x, now, t), now, elapsed, t, first, adjusted)
  {
  }

  lemma {:induction false} GivenSame(o: seq<Link>, s: seq<Link>, s': seq<Link>, now: nat, elapsed: nat, t: nat, k: nat)
    requires |o| == |s| && (forall i :: 0 <= i < |s| ==> Same(o[i], s[i], now, elapsed)) && Levelling(o, s, s', now, t, |s|) && k <= |s|
    ensures Given(o, s', now, elapsed, k) == Given(o, s, now, elapsed, k)
  {
    if k > 0 { GivenSame(o, s, s', now, elapsed, t, k - 1); }
  }

  lemma SharedStart(o: seq<Link>, now: nat, elapsed: nat)
    requires forall i :: 0 <= i < |o| ==> o[i].up ==> o[i].outgoingEpoch != now
    ensures Shared(o, o, now, elapsed, 0)
  {
    GivenNone(o, now, elapsed, |o|);
  }

  lemma {:induction false} GivenNone(o: seq<Link>, now: nat, elapsed: nat, k: nat)
    requires k <= |o| && forall i :: 0 <= i < |o| ==> o[i].up ==> o[i].outgoingEpoch != now
    ensures Given(o, o, now, elapsed, k) == 0
  {
    if k > 0 { GivenNone(o, now, elapsed, k - 1); }
  }

  lemma {:induction false} NoneLeft(s: seq<Link>, now: nat, k: nat)
    requires UpCount(s, now, k) == 0
    ensures Rest(s, now, k) == 0 && forall i :: k <= i < |s| ==> s[i].Settled(now)
    decreases |s| - k
  {
    if k < |s| { NoneLeft(s, now, k + 1); }
  }

  lemma FinalShare(o: seq<Link>, s: seq<Link>, s': seq<Link>, now: nat, elapsed: nat, t: nat, given: nat, bandwidth: nat, total: nat)
    requires Shared(o, s, now, elapsed, given) && Levelling(o, s, s', now, t, |s|) && t <= SCALE
    requires Rest(s, now, 0) <= total && t * total <= SCALE * bandwidth
    ensures Final(o, s', now, elapsed, |s|) <= given + bandwidth
    ensures forall i :: 0 <= i < |s'| ==> s'[i].up ==> Throttled(s'[i])
  {
    FinalBound(o, s, s', now, elapsed, t, |s|);
    FinalMul(t, Rest(s, now, 0), total);
    UsedGiven(o, s, now, elapsed, |s|);
    forall i | 0 <= i < |s'| ensures s'[i].up ==> Throttled(s'[i]) {
      assert Same(o[i], s[i], now, elapsed);
      CappedUse(o[i], s[i], now, elapsed);
    }
  }

  lemma FinalMul(t: nat, rest: nat, total: nat)
    requires rest <= total
    ensures t * rest <= t * total && t * 0 == 0
  {
  }

  /** The first half of `enet_host_bandwidth_throttle`.  Without a limit of its own, the host has more
      than enough. */
  method ThrottleOutgoing(peers: array<Link>, now: nat, elapsed: nat, connected: nat, limitedPeers: nat, outgoing: nat)
    returns (t: nat, ghost first: nat)
    requires forall i :: 0 <= i < peers.Length ==> peers[i].up ==> peers[i].outgoingEpoch != now
    requires connected == UpCount(peers[..], now, 0) && Rest(peers[..], now, 0) <= 0xFFFF_FFFF
    modifies peers
    ensures connected == 0 ==> peers[..] == old(peers[..])
    ensures connected > 0 ==> forall i :: 0 <= i < peers.Length ==> Served(old(peers[i]), peers[i], now, elapsed, t, first, limitedPeers > 0)
    ensures connected > 0 ==> forall i :: 0 <= i < peers.Length ==> peers[i].up ==> Throttled(peers[i])
    ensures connected > 0 && outgoing == 0 ==> t == first == 32
    ensures connected > 0 && outgoing != 0 ==>
      Even(Given(old(peers[..]), peers[..], now, elapsed, peers.Length), old(Rest(peers[..], now, 0)), outgoing * elapsed / 1000, t, first)
    ensures connected > 0 && outgoing != 0 ==>
      Final(old(peers[..]), peers[..], now, elapsed, peers.Length) <= outgoing * elapsed / 1000
  {
    hide Served, Throttled, Given, Final, Even;
    t, first := SCALE, SCALE;
    if connected == 0 {
      return;
    }
    var total, bandwidth := 0xFFFF_FFFF, 0xFFFF_FFFF;
    if outgoing != 0 {
      total, bandwidth := 0, outgoing * elapsed / 1000;
      var i := 0;
      while i < peers.Length
        invariant i <= peers.Length && total + Rest(peers[..], now, i) == Rest(peers[..], now, 0)
      {
        if peers[i].up {
          total := total + peers[i].data;
        }
        i := i + 1;
      }
    }
    assert Rest(peers[..], now, peers.Length) == 0;
    hide Rest;
    t, first := ShareOutgoing(peers, now, elapsed, connected, limitedPeers, total, bandwidth);
    if outgoing == 0 {
      EvenFull(Given(old(peers[..]), peers[..], now, elapsed, peers.Length), total, t, first);
    }
  }

  // ---- The incoming side ----

  /** The connected peers, from `k` on, that have not been given a limit. */
  function Open(s: seq<Link>, now: nat, k: nat): nat
    decreases |s| - k
  {
    if k >= |s| then 0 else (if s[k].up && s[k].incomingEpoch != now then 1 else 0) + Open(s, now, k + 1)
  }

  lemma {:induction false} OpenUpdate(s: seq<Link>, now: nat, k: nat, i: nat)
    requires i < |s| && s[i].up && s[i].incomingEpoch != now && k <= |s|
    ensures Open(s[i := s[i].(incomingEpoch := now)], now, k) + (if k <= i then 1 else 0) == Open(s, now, k)
    decreases |s| - k
  {
    if k < |s| { OpenUpdate(s, now, k + 1, i); }
  }

  /** What has been promised to the peers that are done. */
  function Promised(s: seq<Link>, now: nat, k: nat): nat
    decreases |s| - k
  {
    if k >= |s| then 0 else (if s[k].up && s[k].incomingEpoch == now then s[k].outgoing else 0) + Promised(s, now, k + 1)
  }

  lemma {:induction false} PromisedUpdate(s: seq<Link>, now: nat, k: nat, i: nat)
    requires i < |s| && s[i].up && s[i].incomingEpoch != now && k <= |s|
    ensures Promised(s[i := s[i].(incomingEpoch := now)], now, k) == Promised(s, now, k) + if k <= i then s[i].outgoing else 0
    decreases |s| - k
  {
    if k < |s| { PromisedUpdate(s, now, k + 1, i); }
  }

  /** A connected peer is done exactly when it sends nothing by itself, or less than the level. */
  ghost predicate Filled(o: seq<Link>, s: seq<Link>, now: nat, level: nat) {
    && |o| == |s|
    && (forall i :: 0 <= i < |s| ==> s[i] == o[i] || s[i] == o[i].(incomingEpoch := now))
    && (forall i :: 0 <= i < |s| && s[i].up && s[i].incomingEpoch == now ==> s[i].outgoing == 0 || s[i].outgoing < level)
  }

  /** The fair share of a peer: what it sends by itself, but no more than the level. */
  function Fair(x: Link, level: nat): nat {
    if !x.up || x.outgoing == 0 then 0 else if x.outgoing < level then x.outgoing else level
  }

  /** One pass with the same level. */
  method FillRound(peers: array<Link>, now: nat, level: nat, remaining: nat, bandwidth: nat, ghost o: seq<Link>)
    returns (again: bool, remaining': nat, bandwidth': nat)
    requires Filled(o, peers[..], now, level) && remaining == Open(peers[..], now, 0) && level * remaining <= bandwidth
    modifies peers
    ensures Filled(o, peers[..], now, level) && remaining' == Open(peers[..], now, 0)
    ensures bandwidth' + Promised(peers[..], now, 0) == bandwidth + Promised(old(peers[..]), now, 0)
    ensures level * remaining' <= bandwidth' && (again ==> remaining' < remaining)
    ensures !again ==> remaining' == remaining && bandwidth' == bandwidth && peers[..] == old(peers[..])
    ensures again ==> !Sparse(old(peers[..]), now, level)
    ensures !again ==> forall i :: 0 <= i < peers.Length && peers[i].up && peers[i].incomingEpoch != now ==> peers[i].outgoing >= level && peers[i].outgoing > 0
  {
    hide Open, Promised;
    again, remaining', bandwidth' := false, remaining, bandwidth;
    for i := 0 to peers.Length
      invariant Filled(o, peers[..], now, level) && remaining' == Open(peers[..], now, 0) && level * remaining' <= bandwidth'
      invariant bandwidth' + Promised(peers[..], now, 0) == bandwidth + Promised(old(peers[..]), now, 0)
      invariant if again then remaining' < remaining else remaining' == remaining && bandwidth' == bandwidth && peers[..] == old(peers[..])
      invariant again ==> !Sparse(old(peers[..]), now, level)
      invariant !again ==> forall j :: 0 <= j < i && peers[j].up && peers[j].incomingEpoch != now ==> peers[j].outgoing >= level && peers[j].outgoing > 0
    {
      var x := peers[i];
      if x.up && x.incomingEpoch != now && !(x.outgoing > 0 && x.outgoing >= level) {
        ghost var s := peers[..];
        OpenUpdate(s, now, 0, i);
        PromisedUpdate(s, now, 0, i);
        LevelOne(level, remaining', bandwidth', x.outgoing);
        peers[i] := x.(incomingEpoch := now);
        assert peers[..] == s[i := x.(incomingEpoch := now)];
        again, remaining', bandwidth' := true, remaining' - 1, bandwidth' - x.outgoing;
      }
    }
  }

  lemma LevelOne(level: nat, remaining: nat, bandwidth: nat, own: nat)
    requires remaining > 0 && level * remaining <= bandwidth && (own == 0 || own < level)
    ensures own <= bandwidth && level * (remaining - 1) <= bandwidth - own
  {
    assert level * remaining == level * (remaining - 1) + level;
  }

  predicate Covers(level: nat, remaining: nat, bandwidth: nat) { level * remaining <= bandwidth }

  predicate Tight(level: nat, remaining: nat, bandwidth: nat) { bandwidth < (level + 1) * remaining }

  /** A round with the level that what is left now allows. */
  method NextLevel(peers: array<Link>, now: nat, before: nat, remaining: nat, bandwidth: nat, ghost o: seq<Link>)
    returns (again: bool, level: nat, remaining': nat, bandwidth': nat)
    requires Filled(o, peers[..], now, before) && remaining == Open(peers[..], now, 0) > 0 && Covers(before, remaining, bandwidth)
    modifies peers
    ensures before <= level && (level > 0 <==> remaining <= bandwidth)
    ensures Filled(o, peers[..], now, level) && remaining' == Open(peers[..], now, 0) && Covers(level, remaining', bandwidth')
    ensures bandwidth' + Promised(peers[..], now, 0) == bandwidth + Promised(old(peers[..]), now, 0)
    ensures again ==> remaining' < remaining && !Sparse(old(peers[..]), now, level)
    ensures !again ==> Sparse(peers[..], now, level) && Tight(level, remaining', bandwidth')
    ensures !again ==> remaining' == remaining && bandwidth' == bandwidth && peers[..] == old(peers[..])
  {
    hide Open, Promised;
    FirstLevel(remaining, bandwidth);
    LevelUp(before, remaining, bandwidth);
    level := bandwidth / remaining;
    again, remaining', bandwidth' := FillRound(peers, now, level, remaining, bandwidth, o);
  }

  /** The rounds that find the level. */
  method FindLevel(peers: array<Link>, now: nat, connected: nat, incoming: nat, ghost o: seq<Link>)
    returns (level: nat, remaining: nat, ghost left: nat)
    requires o == peers[..] && connected == Open(o, now, 0)
    requires forall i :: 0 <= i < |o| ==> o[i].up ==> o[i].incomingEpoch != now
    modifies peers
    ensures Filled(o, peers[..], now, level) && remaining == Open(peers[..], now, 0)
    ensures left + Promised(peers[..], now, 0) == incoming && Covers(level, remaining, left)
    ensures incoming > 0 && remaining > 0 ==> Sparse(peers[..], now, level) && Tight(level, remaining, left)
    ensures incoming == 0 ==> level == 0 && peers[..] == o
    ensures connected > 0 && connected <= incoming ==> level > 0
    ensures Rated(o) && incoming < connected ==> level == 0
  {
    hide Open, Promised, Covers, Tight, Sparse, Rated, Filled;
    level, remaining, left := 0, connected, incoming;
    FillStarts(o, now, connected, incoming);
    var bandwidth: nat, again := incoming, true;
    if incoming != 0 {
      while remaining > 0 && again
        invariant Filled(o, peers[..], now, level) && remaining == Open(peers[..], now, 0)
        invariant bandwidth + Promised(peers[..], now, 0) == incoming && Covers(level, remaining, bandwidth)
        invariant !again ==> Sparse(peers[..], now, level) && Tight(level, remaining, bandwidth)
        invariant connected <= incoming ==> level > 0 || (remaining == connected && bandwidth == incoming && again)
        invariant Rated(o) && incoming < connected ==> level == 0 && remaining == connected && bandwidth == incoming && peers[..] == o
        decreases remaining, again
      {
        RatedSparse(o, now);
        again, level, remaining, bandwidth := NextLevel(peers, now, level, remaining, bandwidth, o);
      }
      left := bandwidth;
    }
  }

  lemma FillStarts(o: seq<Link>, now: nat, connected: nat, incoming: nat)
    requires forall i :: 0 <= i < |o| ==> o[i].up ==> o[i].incomingEpoch != now
    ensures Filled(o, o, now, 0) && Promised(o, now, 0) == 0 && Covers(0, connected, incoming)
  {
    hide Promised;
    PromisedNone(o, now, 0);
  }

  lemma RatedSparse(o: seq<Link>, now: nat)
    ensures Rated(o) ==> Sparse(o, now, 0)
  {
  }

  /** The second half of `enet_host_bandwidth_throttle`: the limits that the peers are told.  Every peer
      gets the smaller of what it sends by itself and one common level; the limits add up to no more than the
      host takes in, and the level could not be higher.  A peer that is told 0 takes it for no limit at all:
      none is told 0 exactly when every connected peer has a rate of its own and the host has at least one
      unit for each. */
  method ShareIncoming(peers: array<Link>, now: nat, connected: nat, incoming: nat) returns (level: nat, told: seq<nat>)
    requires forall i :: 0 <= i < peers.Length ==> peers[i].up ==> peers[i].incomingEpoch != now
    requires connected == Open(peers[..], now, 0)
    modifies peers
    ensures |told| == peers.Length && Total(told) <= incoming
    ensures var n := Topped(old(peers[..]), level, 0); n > 0 ==> incoming < Total(told) + n
    ensures forall i :: 0 <= i < peers.Length ==> told[i] == Fair(old(peers[i]), level)
    ensures (forall i :: 0 <= i < peers.Length && old(peers[i]).up ==> told[i] > 0)
      <==> Rated(old(peers[..])) && connected <= incoming
  {
    hide Open, Promised, Total, Filled, Sparse;
    ghost var o := peers[..];
    var remaining;
    ghost var left;
    level, remaining, left := FindLevel(peers, now, connected, incoming, o);
    FilledSparse(o, peers[..], now, level, remaining, incoming);
    ghost var s := peers[..];
    told := [];
    for i := 0 to peers.Length
      invariant |told| == i && peers[..] == s && (forall j :: 0 <= j < i ==> told[j] == Told(s[j], now, level))
    {
      told := told + [Told(peers[i], now, level)];
    }
    assert told[0..] == told;
    ToldTotal(s, now, level, told, 0);
    ToldMin(o, s, now, level);
    if incoming != 0 { ToppedOpen(o, s, now, level, 0); }
    RatedLevel(o, now, level, connected, incoming);
  }

  /** Every connected peer has told a rate. */
  predicate Rated(s: seq<Link>) {
    forall i :: 0 <= i < |s| && s[i].up ==> s[i].outgoing > 0
  }

  lemma FilledSparse(o: seq<Link>, s: seq<Link>, now: nat, level: nat, remaining: nat, incoming: nat)
    requires remaining == Open(s, now, 0) && (incoming > 0 && remaining > 0 ==> Sparse(s, now, level))
    ensures incoming > 0 ==> Sparse(s, now, level)
  {
    hide Open;
    if remaining == 0 { NoneOpen(s, now, 0); }
  }

  lemma FirstLevel(remaining: nat, bandwidth: nat)
    requires remaining > 0
    ensures bandwidth / remaining > 0 <==> remaining <= bandwidth
  {
  }

  lemma RatedLevel(o: seq<Link>, now: nat, level: nat, connected: nat, incoming: nat)
    requires connected == Open(o, now, 0) && forall i :: 0 <= i < |o| ==> o[i].up ==> o[i].incomingEpoch != now
    requires connected > 0 && connected <= incoming ==> level > 0
    requires Rated(o) && incoming < connected ==> level == 0
    ensures (forall i :: 0 <= i < |o| && o[i].up ==> Fair(o[i], level) > 0) <==> Rated(o) && connected <= incoming
  {
    hide Open;
    if connected == 0 {
      NoneOpen(o, now, 0);
    } else if Rated(o) && incoming < connected {
      OpenSome(o, now, 0);
    } else if i :| 0 <= i < |o| && o[i].up && o[i].outgoing == 0 {
      assert Fair(o[i], level) == 0;
    }
  }

  lemma {:induction false} OpenSome(s: seq<Link>, now: nat, k: nat)
    requires Open(s, now, k) > 0
    ensures exists i :: k <= i < |s| && s[i].up
    decreases |s| - k
  {
    if !s[k].up { OpenSome(s, now, k + 1); }
  }

  /** A connected peer that has told no rate, as it is by default, is told no limit, whatever the host
      takes in. */
  method TellsNoLimit(incoming: nat) returns (told: seq<nat>)
    ensures told == [0]
  {
    var peers := new Link[1][Link(true, 0, 0, 0, SCALE, SCALE, 0, 0)];
    var level;
    level, told := ShareIncoming(peers, 1, 1, incoming);
  }

  /** The peers that would send more than the level, or just as much. */
  function Topped(s: seq<Link>, level: nat, k: nat): nat
    decreases |s| - k
  {
    if k >= |s| then 0 else (if s[k].up && s[k].outgoing > 0 && s[k].outgoing >= level then 1 else 0) + Topped(s, level, k + 1)
  }

  lemma {:induction false} ToppedOpen(o: seq<Link>, s: seq<Link>, now: nat, level: nat, k: nat)
    requires Filled(o, s, now, level) && Sparse(s, now, level)
    requires forall i :: 0 <= i < |o| ==> o[i].up ==> o[i].incomingEpoch != now
    ensures Topped(o, level, k) == Open(s, now, k)
    decreases |s| - k
  {
    if k < |s| { ToppedOpen(o, s, now, level, k + 1); }
  }

  /** Those that are not done send at least the level by themselves. */
  ghost predicate Sparse(s: seq<Link>, now: nat, level: nat) {
    forall i :: 0 <= i < |s| && s[i].up && s[i].incomingEpoch != now ==> s[i].outgoing >= level && s[i].outgoing > 0
  }

  lemma {:induction false} PromisedNone(s: seq<Link>, now: nat, k: nat)
    requires forall i :: 0 <= i < |s| ==> s[i].up ==> s[i].incomingEpoch != now
    ensures Promised(s, now, k) == 0
    decreases |s| - k
  {
    if k < |s| { PromisedNone(s, now, k + 1); }
  }

  /** The level never falls from one round to the next. */
  lemma LevelUp(before: nat, remaining: nat, bandwidth: nat)
    requires remaining > 0 && before * remaining <= bandwidth
    ensures var l := bandwidth / remaining; before <= l && l * remaining <= bandwidth < (l + 1) * remaining
  {
    var l := bandwidth / remaining;
    assert bandwidth < (l + 1) * remaining;
    assert l + 1 <= before ==> (l + 1) * remaining <= before * remaining;
  }

  lemma {:induction false} NoneOpen(s: seq<Link>, now: nat, k: nat)
    requires Open(s, now, k) == 0
    ensures forall i :: k <= i < |s| ==> !(s[i].up && s[i].incomingEpoch != now)
    decreases |s| - k
  {
    if k < |s| { NoneOpen(s, now, k + 1); }
  }

  lemma {:induction false} ToldTotal(s: seq<Link>, now: nat, level: nat, told: seq<nat>, k: nat)
    requires |told| == |s| && k <= |s| && forall i :: 0 <= i < |s| ==> told[i] == Told(s[i], now, level)
    ensures Total(told[k..]) == Promised(s, now, k) + level * Open(s, now, k)
    decreases |s| - k
  {
    if k < |s| {
      ToldTotal(s, now, level, told, k + 1);
      assert told[k..][1..] == told[k + 1..];
      MulOne(level, Open(s, now, k + 1));
    }
  }

  lemma MulOne(level: nat, n: nat)
    ensures level * (1 + n) == level + level * n && level * (0 + n) == level * n
  {
  }

  lemma ToldMin(o: seq<Link>, s: seq<Link>, now: nat, level: nat)
    requires Filled(o, s, now, level) && (level == 0 || Sparse(s, now, level))
    requires forall i :: 0 <= i < |o| ==> o[i].up ==> o[i].incomingEpoch != now
    ensures forall i :: 0 <= i < |o| ==> Told(s[i], now, level) == Fair(o[i], level)
  {
  }

  function Told(x: Link, now: nat, level: nat): nat {
    if !x.up then 0 else if x.incomingEpoch == now then x.outgoing else level
  }

  function Total(s: seq<nat>): nat {
    if s == [] then 0 else s[0] + Total(s[1..])
  }

  // ---- A peer's own throttle ----

  /** `enet_peer_throttle`: the throttle follows the round trip time, and stays below its limit. */
  method AdjustThrottle(throttle: nat, limit: nat, rtt: nat, last: nat, variance: nat, acceleration: nat, deceleration: nat)
    returns (throttle': nat, change: int)
    requires throttle <= limit
    ensures throttle' <= limit
    ensures change == (if last <= variance then 0 else if rtt <= last then 1 else if rtt > last + 2 * variance then -1 else 0)
    ensures last <= variance ==> throttle' == limit
    ensures change == 1 ==> throttle' - throttle == (if throttle + acceleration > limit then limit - throttle else acceleration)
    ensures change == -1 ==> throttle - throttle' == (if throttle < deceleration then throttle else deceleration)
    ensures last > variance && change == 0 ==> throttle' == throttle
  {
    throttle', change := throttle, 0;
    if last <= variance {
      throttle' := limit;
    } else if rtt <= last {
      throttle' := throttle + acceleration;
      if throttle' > limit {
        throttle' := limit;
      }
      change := 1;
    } else if rtt > last + 2 * variance {
      if throttle > deceleration {
        throttle' := throttle - deceleration;
      } else {
        throttle' := 0;
      }
      change := -1;
    }
  }
}
