/**
 The receiver's channel mirrors the messages sent: what has been handed over is a prefix of them, and
 every queued entry is part of one of those that follow.  `held` names the queued entries' messages.
 */
module ReliableMirror {
  import opened Words
  import opened SequenceWindows
  import opened ReliableReceivers
  import opened ReliableOrder
  import opened ReliableMessages

  /** The last number handed over, before it is cut to 16 bits. */
  function Base(ms: seq<Message>, b: Inbox): nat {
    if |b.dispatched| <= |ms| then First(ms, |b.dispatched|) - 1 else 0
  }

  predicate InQueue(ms: seq<Message>, base: nat, e: Entry, k: nat) {
    && k < |ms| && e.seqno == Wire(First(ms, k)) && First(ms, k) / WINDOW <= base / WINDOW + (FREE_WINDOWS - 2)
    && EntryFor(e, ms[k])
  }

  predicate Increasing(held: seq<nat>, from: nat) {
    && (forall j :: 0 <= j < |held| ==> from <= held[j])
    && (forall i, j :: 0 <= i < j < |held| ==> held[i] < held[j])
  }

  predicate Delivered(ms: seq<Message>, out: seq<seq<byte>>) {
    |out| <= |ms| && forall j :: 0 <= j < |out| ==> out[j] == ms[j].data
  }

  predicate Mirrors(ms: seq<Message>, b: Inbox, held: seq<nat>) {
    && AllValid(ms) && Delivered(ms, b.dispatched) && b.incoming == Wire(Base(ms, b))
    && |held| == |b.queue| && Increasing(held, |b.dispatched|)
    && forall j :: 0 <= j < |held| ==> InQueue(ms, Base(ms, b), b.queue[j], held[j])
  }

  /** The receiver has fragment `i` of message `k`. */
  ghost predicate Has(b: Inbox, held: seq<nat>, k: nat, i: nat) {
    k < |b.dispatched| ||
    exists j :: 0 <= j < |held| && j < |b.queue| && held[j] == k && Keeps(b.queue[j], i)
  }

  predicate Keeps(e: Entry, i: nat) {
    e.count == 0 || (i < |e.have| && e.have[i])
  }

  lemma NextNumber(ms: seq<Message>, b: Inbox, k: nat)
    requires AllValid(ms) && Delivered(ms, b.dispatched) && |b.dispatched| <= k < |ms|
    ensures Base(ms, b) < First(ms, k)
    ensures First(ms, k) == Base(ms, b) + 1 <==> k == |b.dispatched|
  {
    FirstMonotone(ms, |b.dispatched|, k);
  }

  /** A queued entry's rank tells its number. */
  lemma MirrorRank(ms: seq<Message>, b: Inbox, held: seq<nat>, j: nat)
    requires Mirrors(ms, b, held) && j < |held|
    ensures Base(ms, b) < First(ms, held[j]) < Base(ms, b) + WRAP
    ensures Rank(b.incoming, b.queue[j].seqno) == First(ms, held[j]) - Base(ms, b)
  {
    NextNumber(ms, b, held[j]);
    assert InQueue(ms, Base(ms, b), b.queue[j], held[j]);
    SeenAhead(Base(ms, b), First(ms, held[j]));
  }

  lemma {:induction false} PlaceSplits(queue: seq<Entry>, base: u16, seqno: u16)
    ensures var at := Place(queue, base, seqno);
      && (at > 0 ==> Rank(base, queue[at - 1].seqno) <= Rank(base, seqno))
      && forall i :: at <= i < |queue| ==> Rank(base, queue[i].seqno) > Rank(base, seqno)
    decreases |queue|
  {
    hide Rank;
    if queue != [] && Rank(base, queue[|queue| - 1].seqno) > Rank(base, seqno) {
      var n := |queue| - 1;
      PlaceSplits(queue[..n], base, seqno);
      assert forall i :: 0 <= i < n ==> queue[i] == queue[..n][i];
    }
  }

  /** The scan separates the entries of the messages up to `k` from those of later ones. */
  lemma MirrorFind(ms: seq<Message>, b: Inbox, held: seq<nat>, k: nat)
    requires Mirrors(ms, b, held) && |b.dispatched| <= k < |ms| && First(ms, k) < Base(ms, b) + WRAP
    ensures var at := Place(b.queue, b.incoming, Wire(First(ms, k)));
      && (at > 0 ==> held[at - 1] <= k) && (forall j :: at <= j < |held| ==> k < held[j])
  {
    hide Rank, Wire, Mirrors, Place;
    var seqno, at := Wire(First(ms, k)), Place(b.queue, b.incoming, Wire(First(ms, k)));
    MirrorsUse(ms, b, held);
    NextNumber(ms, b, k);
    SeenAhead(Base(ms, b), First(ms, k));
    PlaceSplits(b.queue, b.incoming, seqno);
    forall j | at <= j < |held| ensures k < held[j] {
      MirrorRank(ms, b, held, j);
      if held[j] <= k { FirstMonotone(ms, held[j], k); }
    }
    if at > 0 {
      MirrorRank(ms, b, held, at - 1);
      if held[at - 1] > k { FirstMonotone(ms, k, held[at - 1]); }
    }
  }

  lemma MirrorsUse(ms: seq<Message>, b: Inbox, held: seq<nat>)
    requires Mirrors(ms, b, held)
    ensures AllValid(ms) && Delivered(ms, b.dispatched) && b.incoming == Wire(Base(ms, b)) && |held| == |b.queue|
    ensures Increasing(held, |b.dispatched|) && forall j :: 0 <= j < |held| ==> held[j] < |ms|
  {
    assert forall j :: 0 <= j < |held| ==> InQueue(ms, Base(ms, b), b.queue[j], held[j]);
  }

  /** The scan finds a message's entry exactly when there is one. */
  lemma MirrorTaken(ms: seq<Message>, b: Inbox, held: seq<nat>, k: nat)
    requires Mirrors(ms, b, held) && |b.dispatched| <= k < |ms| && First(ms, k) < Base(ms, b) + WRAP
    ensures var at := Place(b.queue, b.incoming, Wire(First(ms, k)));
      && (Taken(b.queue, b.incoming, Wire(First(ms, k))) <==> at > 0 && held[at - 1] == k)
      && (Taken(b.queue, b.incoming, Wire(First(ms, k))) <==> k in held)
  {
    hide Place, EntryFor, Rank, Wire, First, Delivered;
    var at := Place(b.queue, b.incoming, Wire(First(ms, k)));
    MirrorFind(ms, b, held, k);
    if at > 0 {
      MirrorRank(ms, b, held, at - 1);
      NextNumber(ms, b, k);
      if Wire(First(ms, held[at - 1])) == Wire(First(ms, k)) {
        WireUnique(First(ms, held[at - 1]), First(ms, k));
        if held[at - 1] < k { FirstMonotone(ms, held[at - 1], k); }
      }
    }
    if k in held {
      var j :| 0 <= j < |held| && held[j] == k;
      assert j < at;
    }
  }

  /** Nothing the receiver has is lost. */
  ghost predicate Grows(b: Inbox, held: seq<nat>, b': Inbox, held': seq<nat>) {
    forall k: nat, i: nat :: Has(b, held, k, i) ==> Has(b', held', k, i)
  }

  /** The receiver has nothing new, but for fragment `i` of message `k`. */
  ghost predicate Only(ms: seq<Message>, b: Inbox, held: seq<nat>, b': Inbox, held': seq<nat>, k: nat, i: nat) {
    forall k': nat, i': nat :: k' < |ms| && i' < ms[k'].Count() && Has(b', held', k', i') ==>
      Has(b, held, k', i') || (k' == k && i' == i)
  }

  ghost predicate Stays(ms: seq<Message>, b: Inbox, held: seq<nat>, b': Inbox, held': seq<nat>) {
    forall k: nat, i: nat :: k < |ms| && i < ms[k].Count() && Has(b', held', k, i) ==> Has(b, held, k, i)
  }

  lemma StaysOnly(ms: seq<Message>, b: Inbox, held: seq<nat>, b1: Inbox, h1: seq<nat>, b2: Inbox, h2: seq<nat>, k: nat, i: nat)
    requires (Stays(ms, b, held, b1, h1) && Only(ms, b1, h1, b2, h2, k, i)) || (Only(ms, b, held, b1, h1, k, i) && Stays(ms, b1, h1, b2, h2))
    ensures Only(ms, b, held, b2, h2, k, i)
  {
    hide Has, Message.Count;
  }

  lemma InsertAt(queue: seq<Entry>, held: seq<nat>, at: nat, e: Entry, k: nat)
    requires at <= |queue| == |held|
    ensures var q, h := queue[..at] + [e] + queue[at..], held[..at] + [k] + held[at..];
      && |q| == |h| == |queue| + 1 && q[at] == e && h[at] == k
      && (forall j :: 0 <= j < at ==> q[j] == queue[j] && h[j] == held[j])
      && (forall j :: at < j < |q| ==> q[j] == queue[j - 1] && h[j] == held[j - 1])
  {
  }

  lemma InsertGrows(b: Inbox, held: seq<nat>, at: nat, e: Entry, k: nat)
    requires at == Place(b.queue, b.incoming, e.seqno) && |b.queue| == |held|
    ensures Grows(b, held, Insert(b, e), held[..at] + [k] + held[at..])
    ensures forall i: nat :: Keeps(e, i) ==> Has(Insert(b, e), held[..at] + [k] + held[at..], k, i)
    ensures forall k': nat, i: nat :: Has(Insert(b, e), held[..at] + [k] + held[at..], k', i) ==>
      Has(b, held, k', i) || (k' == k && Keeps(e, i))
  {
    hide Place, Keeps;
    var b', held' := Insert(b, e), held[..at] + [k] + held[at..];
    InsertAt(b.queue, held, at, e, k);
    forall k': nat, i: nat | Has(b, held, k', i) ensures Has(b', held', k', i) {
      if k' >= |b.dispatched| {
        var j :| 0 <= j < |held| && held[j] == k' && Keeps(b.queue[j], i);
        var j' := if j < at then j else j + 1;
        assert held'[j'] == k' && b'.queue[j'] == b.queue[j];
      }
    }
    forall k': nat, i: nat | Has(b', held', k', i) ensures Has(b, held, k', i) || (k' == k && Keeps(e, i)) {
      if k' >= |b.dispatched| {
        var j :| 0 <= j < |held'| && held'[j] == k' && Keeps(b'.queue[j], i);
        if j != at {
          var j' := if j < at then j else j - 1;
          assert held[j'] == k' && b'.queue[j] == b.queue[j'];
        }
      }
    }
  }

  lemma MirrorInsert(ms: seq<Message>, b: Inbox, held: seq<nat>, k: nat, e: Entry) returns (held': seq<nat>)
    requires Mirrors(ms, b, held) && |b.dispatched| <= k < |ms| && InQueue(ms, Base(ms, b), e, k)
    requires e.seqno == Wire(First(ms, k)) && First(ms, k) < Base(ms, b) + WRAP && !Taken(b.queue, b.incoming, e.seqno)
    ensures Mirrors(ms, Insert(b, e), held') && Grows(b, held, Insert(b, e), held')
    ensures forall i: nat :: Keeps(e, i) ==> Has(Insert(b, e), held', k, i)
    ensures forall k': nat, i: nat :: Has(Insert(b, e), held', k', i) ==> Has(b, held, k', i) || (k' == k && Keeps(e, i))
  {
    hide Wire, Place, Has, Keeps, InQueue, First, AllValid, Delivered;
    MirrorFind(ms, b, held, k);
    MirrorTaken(ms, b, held, k);
    var at := Place(b.queue, b.incoming, e.seqno);
    held' := held[..at] + [k] + held[at..];
    InsertAt(b.queue, held, at, e, k);
    InsertGrows(b, held, at, e, k);
    assert forall j :: 0 <= j < at ==> held[j] <= held[at - 1] < k;
  }

  lemma SpanFor(e: Entry, m: Message)
    requires EntryFor(e, m) && m.Valid()
    ensures e.Span() == m.Count()
  {
    CountPositive(m);
  }

  lemma PopNumber(first: nat, span: nat)
    requires span > 0
    ensures (Wire(first) + span - 1) % WRAP == Wire(first + span - 1)
  {
  }

  lemma PopGrows(b: Inbox, held: seq<nat>)
    requires b.queue != [] && |held| == |b.queue| && held[0] == |b.dispatched|
    ensures Grows(b, held, Pop(b), held[1..])
  {
    hide Keeps;
    var b', held' := Pop(b), held[1..];
    forall k: nat, i: nat | Has(b, held, k, i) ensures Has(b', held', k, i) {
      if k > |b.dispatched| {
        var j :| 0 <= j < |held| && held[j] == k && Keeps(b.queue[j], i);
        assert held'[j - 1] == k && b'.queue[j - 1] == b.queue[j];
      }
    }
  }

  /** A complete entry keeps all of its message's fragments. */
  lemma CompleteKeeps(e: Entry, m: Message, i: nat)
    requires m.Valid() && EntryFor(e, m) && e.missing == 0 && i < m.Count()
    ensures Keeps(e, i)
  {
    if m.Pieces? { UnsetNone(e.have); }
  }

  lemma PopStays(ms: seq<Message>, b: Inbox, held: seq<nat>)
    requires Mirrors(ms, b, held) && b.queue != [] && b.queue[0].missing == 0 && held[0] == |b.dispatched|
    ensures Stays(ms, b, held, Pop(b), held[1..])
  {
    hide Keeps, EntryFor, Message.Count, Message.Valid;
    var b', held' := Pop(b), held[1..];
    forall k: nat, i: nat | k < |ms| && i < ms[k].Count() && Has(b', held', k, i) ensures Has(b, held, k, i) {
      if k == |b.dispatched| {
        assert InQueue(ms, Base(ms, b), b.queue[0], k);
        CompleteKeeps(b.queue[0], ms[k], i);
      } else if k > |b.dispatched| {
        var j :| 0 <= j < |held'| && held'[j] == k && Keeps(b'.queue[j], i);
        assert held[j + 1] == k && b.queue[j + 1] == b'.queue[j];
      }
    }
  }

  /** The front entry is dispatched only when it is the next message, and then it is all there. */
  lemma MirrorPop(ms: seq<Message>, b: Inbox, held: seq<nat>)
    requires Mirrors(ms, b, held) && Ready(b)
    ensures held[0] == |b.dispatched| && Mirrors(ms, Pop(b), held[1..])
    ensures Grows(b, held, Pop(b), held[1..]) && Stays(ms, b, held, Pop(b), held[1..])
  {
    hide EntryFor, Has, Wire;
    var base, k, e := Base(ms, b), |b.dispatched|, b.queue[0];
    MirrorRank(ms, b, held, 0);
    ReadyRank(b);
    NextNumber(ms, b, held[0]);
    assert InQueue(ms, base, e, held[0]);
    CompleteData(e, ms[k]);
    SpanFor(e, ms[k]);
    PopNumber(First(ms, k), ms[k].Count());
    PopGrows(b, held);
    PopStays(ms, b, held);
    hide Stays;
    var b', held' := Pop(b), held[1..];
    assert Base(ms, b') == base + ms[k].Count();
    WindowMonotone(base, Base(ms, b'));
    forall j | 0 <= j < |held'| ensures held'[j] > k && InQueue(ms, Base(ms, b'), b'.queue[j], held'[j]) {
      assert InQueue(ms, base, b.queue[j + 1], held[j + 1]);
    }
  }

  lemma {:induction false} MirrorDispatch(ms: seq<Message>, b: Inbox, held: seq<nat>) returns (held': seq<nat>)
    requires Mirrors(ms, b, held)
    ensures Mirrors(ms, Dispatch(b), held') && Grows(b, held, Dispatch(b), held') && Stays(ms, b, held, Dispatch(b), held')
    decreases |b.queue|
  {
    hide Has;
    if Ready(b) {
      MirrorPop(ms, b, held);
      held' := MirrorDispatch(ms, Pop(b), held[1..]);
    } else {
      held' := held;
    }
  }

  // ---- A command arrives ----

  lemma FillGrows(b: Inbox, held: seq<nat>, at: nat, p: Piece, k: nat)
    requires |b.queue| == |held| && 0 < at <= |held| && Fits(b.queue[at - 1], p) && held[at - 1] == k
    ensures var b' := b.(queue := b.queue[at - 1 := Filled(b.queue[at - 1], p)]);
      && Grows(b, held, b', held) && Has(b', held, k, p.number)
      && (forall k': nat, i: nat :: Has(b', held, k', i) ==> Has(b, held, k', i) || (k' == k && i == p.number))
  {
    var b' := b.(queue := b.queue[at - 1 := Filled(b.queue[at - 1], p)]);
    forall k': nat, i: nat | Has(b, held, k', i) ensures Has(b', held, k', i) {
      if k' >= |b.dispatched| {
        var j :| 0 <= j < |held| && held[j] == k' && Keeps(b.queue[j], i);
        assert Keeps(b'.queue[j], i);
      }
    }
    assert Keeps(b'.queue[at - 1], p.number);
    forall k': nat, i: nat | Has(b', held, k', i) ensures Has(b, held, k', i) || (k' == k && i == p.number) {
      if k' >= |b.dispatched| {
        var j :| 0 <= j < |held| && held[j] == k' && Keeps(b'.queue[j], i);
        assert j != at - 1 ==> b'.queue[j] == b.queue[j];
        assert Keeps(b.queue[j], i) || (j == at - 1 && i == p.number);
      }
    }
  }

  lemma MirrorFill(ms: seq<Message>, b: Inbox, held: seq<nat>, at: nat, k: nat, i: nat) returns (held': seq<nat>)
    requires Mirrors(ms, b, held) && 0 < at <= |held| && held[at - 1] == k < |ms|
    requires ms[k].Pieces? && i < ms[k].Count()
    ensures var p := PieceFor(ms[k], Wire(First(ms, k)), i);
      && Matching(b.queue, at, p) && Fits(b.queue[at - 1], p)
      && Mirrors(ms, Fill(b, at, p), held') && Grows(b, held, Fill(b, at, p), held') && Has(Fill(b, at, p), held', k, i)
      && Only(ms, b, held, Fill(b, at, p), held', k, i)
  {
    hide Has, Dispatch;
    var p, e := PieceFor(ms[k], Wire(First(ms, k)), i), b.queue[at - 1];
    assert InQueue(ms, Base(ms, b), e, k);
    CountPositive(ms[k]);
    FilledFor(e, ms[k], p.start, i);
    FillGrows(b, held, at, p, k);
    var b' := b.(queue := b.queue[at - 1 := Filled(e, p)]);
    assert Mirrors(ms, b', held) by { FillMirrors(ms, b, held, at, p); }
    held' := held;
    if !e.have[i] && Filled(e, p).missing == 0 {
      held' := MirrorDispatch(ms, b', held);
      StaysOnly(ms, b, held, b', held, Fill(b, at, p), held', k, i);
    }
  }

  lemma FillMirrors(ms: seq<Message>, b: Inbox, held: seq<nat>, at: nat, p: Piece)
    requires Mirrors(ms, b, held) && 0 < at <= |held| && held[at - 1] < |ms| && Fits(b.queue[at - 1], p)
    requires EntryFor(Filled(b.queue[at - 1], p), ms[held[at - 1]])
    ensures Mirrors(ms, b.(queue := b.queue[at - 1 := Filled(b.queue[at - 1], p)]), held)
  {
    hide EntryFor, Wire, First;
    var b' := b.(queue := b.queue[at - 1 := Filled(b.queue[at - 1], p)]);
    forall j | 0 <= j < |held| ensures InQueue(ms, Base(ms, b'), b'.queue[j], held[j]) {
      assert InQueue(ms, Base(ms, b), b.queue[j], held[j]);
    }
  }

  /** A copy of a command that has been handed over long since, but not more than eight windows ago,
      changes nothing. */
  lemma ReceiveOld(ms: seq<Message>, b: Inbox, held: seq<nat>, k: nat, i: nat, room: bool, limit: nat)
    requires Mirrors(ms, b, held) && k < |b.dispatched| && i < ms[k].Count()
    requires Base(ms, b) / WINDOW <= (First(ms, k) + i) / WINDOW + FREE_WINDOWS
    ensures Receive(b, CommandFor(ms, k, i), false, room, limit).0 == b
    ensures |ms[k].data| <= limit ==>
      (Receive(b, CommandFor(ms, k, i), false, room, limit).1 <==> Acknowledges(b.incoming, Wire(First(ms, k) + i)))
  {
    hide EntryFor, Taken, Mirrors, WellFormed, Wire, Ahead, Fill, Insert, Blank, Message.Count, Message.Cut, First;
    MirrorsUse(ms, b, held);
    var base, first := Base(ms, b), First(ms, k);
    FirstMonotone(ms, k, |b.dispatched|);
    CountPositive(ms[k]);
    OldBehind(base, first, i);
    if ms[k].Pieces? {
      CutBounds(ms[k], i);
      PieceWellFormed(ms[k], Wire(first), i, limit);
      assert first < base;
    } else {
      WholeOne(ms[k]);
    }
  }

  lemma OldBehind(base: nat, first: nat, i: nat)
    requires first + i <= base && i < WINDOW && base / WINDOW <= (first + i) / WINDOW + FREE_WINDOWS
    ensures first < base ==> Ahead(Wire(base), Wire(first)) >= FREE_WINDOWS - 1
  {
    hide Wire, Ahead;
    if first < base { SeenBehind(base, first); }
  }

  /** The outcome of a delivery: the receiver still mirrors the sender, has lost nothing, has got nothing but the
      fragment delivered, and has what it acknowledges. */
  ghost predicate Sound(ms: seq<Message>, b: Inbox, held: seq<nat>, k: nat, i: nat, b': Inbox, ack: bool, held': seq<nat>) {
    && Mirrors(ms, b', held') && Grows(b, held, b', held') && Only(ms, b, held, b', held', k, i)
    && (ack ==> Has(b', held', k, i))
  }

  /** What is taken: messages that are not too long, for which there is room or an entry, and that start not more
      than six windows ahead.  What is there then is acknowledged, if its number is in the windows for that. */
  ghost predicate Exact(ms: seq<Message>, b: Inbox, held: seq<nat>, k: nat, i: nat, room: bool, limit: nat,
                        b': Inbox, ack: bool, held': seq<nat>)
    requires k < |ms|
  {
    && (Has(b', held', k, i) <==>
        Has(b, held, k, i)
        || (|ms[k].data| <= limit && (room || k in held) && First(ms, k) / 4096 <= Base(ms, b) / 4096 + 6))
    && (|ms[k].data| <= limit ==>
        (ack <==> Has(b', held', k, i) && Acknowledges(b'.incoming, Wire(First(ms, k) + i))))
  }

  lemma HeldNear(ms: seq<Message>, b: Inbox, held: seq<nat>, k: nat, i: nat)
    requires Mirrors(ms, b, held) && |b.dispatched| <= k < |ms|
    ensures k in held ==> First(ms, k) / WINDOW <= Base(ms, b) / WINDOW + (FREE_WINDOWS - 2)
    ensures Has(b, held, k, i) ==> k in held
  {
    hide Keeps, EntryFor;
    if k in held {
      var j :| 0 <= j < |held| && held[j] == k;
      assert InQueue(ms, Base(ms, b), b.queue[j], k);
    }
  }

  lemma ReceiveWhole(ms: seq<Message>, b: Inbox, held: seq<nat>, k: nat, room: bool, limit: nat) returns (held': seq<nat>)
    requires Mirrors(ms, b, held) && |b.dispatched| <= k < |ms| && ms[k].Whole?
    requires First(ms, k) / WINDOW <= Base(ms, b) / WINDOW + (FREE_WINDOWS - 1)
    ensures var (b', ack) := Receive(b, CommandFor(ms, k, 0), false, room, limit);
      Sound(ms, b, held, k, 0, b', ack, held') && Exact(ms, b, held, k, 0, room, limit, b', ack, held')
  {
    hide Dispatch, Place, Has, Mirrors, Wire, Taken, Ahead;
    var base, n, e := Base(ms, b), First(ms, k), Entry(Wire(First(ms, k)), 0, 0, [], ms[k].data);
    MirrorsUse(ms, b, held);
    NextNumber(ms, b, k);
    SeenAhead(base, n);
    MirrorTaken(ms, b, held, k);
    HeldNear(ms, b, held, k, 0);
    hide Only, Grows, First, Base;
    held' := held;
    if Discards(b, e.seqno, false) {
      if Taken(b.queue, b.incoming, e.seqno) {
        WholeTaken(ms, b, held, k);
      } else if e.seqno == b.incoming {
        WireUnique(base, n);
      }
    } else if room && |ms[k].data| <= limit {
      var h := MirrorInsert(ms, b, held, k, e);
      held' := MirrorDispatch(ms, Insert(b, e), h);
      assert Keeps(e, 0);
      InsertOnly(ms, b, held, Insert(b, e), h, k, e);
      StaysOnly(ms, b, held, Insert(b, e), h, Dispatch(Insert(b, e)), held', k, 0);
    }
  }

  lemma InsertOnly(ms: seq<Message>, b: Inbox, held: seq<nat>, b': Inbox, held': seq<nat>, k: nat, e: Entry)
    requires k < |ms| && ms[k].Whole?
    requires forall k': nat, i: nat :: Has(b', held', k', i) ==> Has(b, held, k', i) || (k' == k && Keeps(e, i))
    ensures Only(ms, b, held, b', held', k, 0)
  {
    hide Has, Keeps;
  }

  lemma WholeTaken(ms: seq<Message>, b: Inbox, held: seq<nat>, k: nat)
    requires Mirrors(ms, b, held) && k in held && k < |ms| && ms[k].Whole?
    ensures Has(b, held, k, 0)
  {
    var j :| 0 <= j < |held| && held[j] == k;
    assert InQueue(ms, Base(ms, b), b.queue[j], k);
  }

  lemma ReceivePiece(ms: seq<Message>, b: Inbox, held: seq<nat>, k: nat, i: nat, room: bool, limit: nat) returns (held': seq<nat>)
    requires Mirrors(ms, b, held) && !Ready(b) && |b.dispatched| <= k < |ms| && ms[k].Pieces? && i < ms[k].Count()
    requires (First(ms, k) + i) / WINDOW <= Base(ms, b) / WINDOW + (FREE_WINDOWS - 1)
    ensures var (b', ack) := Receive(b, CommandFor(ms, k, i), false, room, limit);
      Sound(ms, b, held, k, i, b', ack, held') && Exact(ms, b, held, k, i, room, limit, b', ack, held')
  {
    hide Dispatch, Place, Has, Mirrors, Wire, Taken, Ahead, Message.Count, Message.Cut, EntryFor, WellFormed, Fill;
    var base, first, p := Base(ms, b), First(ms, k), PieceFor(ms[k], Wire(First(ms, k)), i);
    MirrorsUse(ms, b, held);
    NextNumber(ms, b, k);
    WindowMonotone(first, first + i);
    SeenAhead(base, first);
    SeenAhead(base, first + i);
    MirrorTaken(ms, b, held, k);
    HeldNear(ms, b, held, k, i);
    PieceWellFormed(ms[k], p.start, i, limit);
    held' := held;
    if Ahead(b.incoming, p.start) < FREE_WINDOWS - 1 && WellFormed(p, limit) {
      var at := Place(b.queue, b.incoming, p.start);
      if Taken(b.queue, b.incoming, p.start) {
        held' := MirrorFill(ms, b, held, at, k, i);
      } else {
        if p.start == b.incoming { WireUnique(base, first); }
        if room {
          held' := ReceiveFirstPiece(ms, b, held, k, i);
        }
      }
    }
  }

  lemma ReceiveFirstPiece(ms: seq<Message>, b: Inbox, held: seq<nat>, k: nat, i: nat) returns (held': seq<nat>)
    requires Mirrors(ms, b, held) && |b.dispatched| <= k < |ms| && ms[k].Pieces? && i < ms[k].Count()
    requires First(ms, k) / WINDOW <= Base(ms, b) / WINDOW + (FREE_WINDOWS - 2)
    requires !Taken(b.queue, b.incoming, Wire(First(ms, k))) && !Ready(b)
    ensures var p := PieceFor(ms[k], Wire(First(ms, k)), i); var b1 := Dispatch(Insert(b, Blank(p)));
      var at := Shifted(Place(b.queue, b.incoming, p.start) + 1, |b.queue| + 1, |b1.queue|);
      && 0 < at <= |b1.queue| && Matching(b1.queue, at, p) && Fits(b1.queue[at - 1], p)
      && Sound(ms, b, held, k, i, Fill(b1, at, p), true, held')
  {
    hide Dispatch, Place, Has, Mirrors, Wire, Taken, Message.Count, Message.Cut, EntryFor, Fill;
    var p := PieceFor(ms[k], Wire(First(ms, k)), i);
    MirrorsUse(ms, b, held);
    NextNumber(ms, b, k);
    CountPositive(ms[k]);
    BlankFor(ms[k], p.start, i);
    assert InQueue(ms, Base(ms, b), Blank(p), k);
    var h1 := MirrorInsert(ms, b, held, k, Blank(p));
    InsertQuiet(b, Blank(p));
    InsertIncomplete(b, Blank(p));
    var b1 := Insert(b, Blank(p));
    var at := Shifted(Place(b.queue, b.incoming, p.start) + 1, |b.queue| + 1, |b1.queue|);
    MirrorsUse(ms, b1, h1);
    NameOf(ms, b1, h1, at - 1, k);
    held' := MirrorFill(ms, b1, h1, at, k, i);
    BlankStays(ms, b, held, b1, h1, k, p);
    StaysOnly(ms, b, held, b1, h1, Fill(b1, at, p), held', k, i);
  }

  lemma BlankStays(ms: seq<Message>, b: Inbox, held: seq<nat>, b': Inbox, held': seq<nat>, k: nat, p: Piece)
    requires p.count > 0
    requires forall k': nat, i: nat :: Has(b', held', k', i) ==> Has(b, held, k', i) || (k' == k && Keeps(Blank(p), i))
    ensures Stays(ms, b, held, b', held')
  {
    hide Has;
  }

  lemma InsertQuiet(b: Inbox, e: Entry)
    requires !Ready(b) && e.missing > 0
    ensures Dispatch(Insert(b, e)) == Insert(b, e)
  {
    var at, b' := Place(b.queue, b.incoming, e.seqno), Insert(b, e);
    assert b'.queue[0] == if at == 0 then e else b.queue[0];
  }

  /** An entry's number names its message. */
  lemma NameOf(ms: seq<Message>, b: Inbox, held: seq<nat>, j: nat, k: nat)
    requires Mirrors(ms, b, held) && j < |b.queue| && k < |ms| && b.queue[j].seqno == Wire(First(ms, k))
    requires First(ms, k) < Base(ms, b) + WRAP
    requires Base(ms, b) < First(ms, k)
    ensures held[j] == k
  {
    MirrorRank(ms, b, held, j);
    assert InQueue(ms, Base(ms, b), b.queue[j], held[j]);
    WireUnique(First(ms, held[j]), First(ms, k));
    if held[j] < k { FirstMonotone(ms, held[j], k); }
    if k < held[j] { FirstMonotone(ms, k, held[j]); }
  }
}
