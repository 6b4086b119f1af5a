/**
 What the receiver's queue keeps, whatever commands arrive.
 */
module ReliableOrder {
  import opened Words
  import opened SequenceWindows
  import opened ReliableReceivers

  // ---- Dispatch takes the longest run ----

  /** The sequence numbers that the first `k` entries take. */
  function Spans(queue: seq<Entry>, k: nat): nat
    requires k <= |queue|
  {
    if k == 0 then 0 else Spans(queue, k - 1) + queue[k - 1].Span()
  }

  /** Entry `j` is complete, and follows on `incoming` and the entries before it without a gap. */
  predicate Due(b: Inbox, j: nat)
    requires j < |b.queue|
  {
    b.queue[j].missing == 0 && b.queue[j].seqno == (b.incoming + Spans(b.queue, j) + 1) % WRAP
  }

  /** How many entries dispatch takes. */
  function Run(b: Inbox): (k: nat)
    ensures k <= |b.queue|
    decreases |b.queue|
  {
    if Ready(b) then 1 + Run(Pop(b)) else 0
  }

  lemma {:induction false} SpansTail(queue: seq<Entry>, k: nat)
    requires queue != [] && k < |queue|
    ensures Spans(queue, k + 1) == queue[0].Span() + Spans(queue[1..], k)
  {
    if k > 0 { SpansTail(queue, k - 1); }
  }

  lemma {:induction false} PayloadsTail(queue: seq<Entry>, k: nat)
    requires queue != [] && k < |queue|
    ensures Payloads(queue[..k + 1]) == [queue[0].data] + Payloads(queue[1..][..k])
  {
    assert queue[..k + 1][..k] == queue[..k];
    if k > 0 {
      PayloadsTail(queue, k - 1);
      assert queue[1..][..k][..k - 1] == queue[1..][..k - 1];
    }
  }

  lemma AddWrapped(a: nat, b: nat, c: nat)
    ensures ((a + b) % WRAP + c) % WRAP == (a + b + c) % WRAP
  {
  }

  lemma PopDue(b: Inbox, j: nat)
    requires Ready(b) && j + 1 < |b.queue|
    ensures Due(b, j + 1) <==> Due(Pop(b), j)
  {
    SpansTail(b.queue, j);
    AddWrapped(b.incoming, 1, b.queue[0].Span() - 1);
    AddWrapped(b.incoming, b.queue[0].Span(), Spans(b.queue[1..], j) + 1);
  }

  /** Dispatch hands over exactly the longest run of complete messages that follow each other from the
      next expected number on; a fragmented one counts for all its numbers. */
  lemma {:induction false} LongestRun(b: Inbox)
    ensures forall j :: 0 <= j < Run(b) ==> Due(b, j)
    ensures Run(b) < |b.queue| ==> !Due(b, Run(b))
    ensures Dispatch(b) == Inbox((b.incoming + Spans(b.queue, Run(b))) % WRAP, b.queue[Run(b)..],
                                 b.dispatched + Payloads(b.queue[..Run(b)]))
    decreases |b.queue|
  {
    if Ready(b) {
      var k := Run(Pop(b));
      LongestRun(Pop(b));
      forall j | 0 <= j < k + 1 ensures Due(b, j) {
        if j > 0 { PopDue(b, j - 1); }
      }
      if k + 1 < |b.queue| { PopDue(b, k); }
      RunOn(b, k);
    } else {
      assert b.queue[0..] == b.queue && b.dispatched + Payloads(b.queue[..0]) == b.dispatched;
    }
  }

  lemma RunOn(b: Inbox, k: nat)
    requires Ready(b) && k < |b.queue|
    ensures ((Pop(b).incoming + Spans(Pop(b).queue, k)) % WRAP) == (b.incoming + Spans(b.queue, k + 1)) % WRAP
    ensures Pop(b).queue[k..] == b.queue[k + 1..]
    ensures Pop(b).dispatched + Payloads(Pop(b).queue[..k]) == b.dispatched + Payloads(b.queue[..k + 1])
  {
    SpansTail(b.queue, k);
    PayloadsTail(b.queue, k);
    AddWrapped(b.incoming, 1, b.queue[0].Span() - 1);
    AddWrapped(b.incoming, b.queue[0].Span(), Spans(b.queue[1..], k));
  }

  lemma {:induction false} DispatchQuiet(b: Inbox)
    ensures !Ready(Dispatch(b))
    decreases |b.queue|
  {
    if Ready(b) { DispatchQuiet(Pop(b)); }
  }

  /** After every command, nothing that could be handed over is left in the queue. */
  lemma ReceiveQuiet(b: Inbox, c: Command, closing: bool, room: bool, limit: nat)
    requires !Ready(b)
    ensures !Ready(Receive(b, c, closing, room, limit).0)
  {
    match c {
      case Reliable(seqno, data) =>
        DispatchQuiet(Insert(b, Entry(seqno, 0, 0, [], data)));
      case Fragment(_, p) =>
        DispatchQuiet(Insert(b, Blank(p)));
        PieceQuiet(b, p, closing, room, limit);
    }
  }

  lemma PieceQuiet(b: Inbox, p: Piece, closing: bool, room: bool, limit: nat)
    requires !Ready(b) && !Ready(Dispatch(Insert(b, Blank(p))))
    ensures !Ready(TakePiece(b, p, closing, room, limit).0)
  {
    var at := Place(b.queue, b.incoming, p.start);
    if Matching(b.queue, at, p) && WellFormed(p, limit) {
      FillQuiet(b, at, p);
    }
    if WellFormed(p, limit) {
      var b' := Dispatch(Insert(b, Blank(p)));
      InsertIncomplete(b, Blank(p));
      FillQuiet(b', Shifted(at + 1, |b.queue| + 1, |b'.queue|), p);
    }
  }

  lemma FillQuiet(b: Inbox, at: nat, p: Piece)
    requires !Ready(b) && 0 < at <= |b.queue| && Fits(b.queue[at - 1], p)
    ensures !Ready(Fill(b, at, p))
  {
    DispatchQuiet(b.(queue := b.queue[at - 1 := Filled(b.queue[at - 1], p)]));
  }

  // ---- Fragment counters ----

  function Unset(have: seq<bool>): nat {
    if have == [] then 0 else (if have[0] then 0 else 1) + Unset(have[1..])
  }

  lemma {:induction false} UnsetSet(have: seq<bool>, i: nat)
    requires i < |have| && !have[i]
    ensures Unset(have) == Unset(have[i := true]) + 1
  {
    if i > 0 {
      UnsetSet(have[1..], i - 1);
      assert have[i := true][1..] == have[1..][i - 1 := true];
    } else {
      assert have[0 := true][1..] == have[1..];
    }
  }

  lemma {:induction false} UnsetAll(n: nat)
    ensures Unset(seq(n, _ => false)) == n
  {
    if n > 0 {
      UnsetAll(n - 1);
      assert seq(n, _ => false)[1..] == seq(n - 1, _ => false);
    }
  }

  lemma {:induction false} UnsetNone(have: seq<bool>)
    ensures Unset(have) == 0 <==> forall i :: 0 <= i < |have| ==> have[i]
  {
    if have != [] {
      UnsetNone(have[1..]);
      assert forall i :: 0 < i < |have| ==> have[i] == have[1..][i - 1];
      if forall i :: 0 <= i < |have[1..]| ==> have[1..][i] {
        assert forall i :: 0 < i < |have| ==> have[i];
      } else {
        var i :| 0 <= i < |have[1..]| && !have[1..][i];
        assert !have[i + 1];
      }
    }
  }

  /** `fragmentsRemaining` is the number of bits that are not set. */
  predicate Counted(e: Entry) {
    |e.have| == e.count && e.missing == Unset(e.have)
  }

  predicate AllCounted(queue: seq<Entry>) {
    forall i :: 0 <= i < |queue| ==> Counted(queue[i])
  }

  lemma {:induction false} DispatchCounted(b: Inbox)
    requires AllCounted(b.queue)
    ensures AllCounted(Dispatch(b).queue)
  {
    LongestRun(b);
  }

  lemma FillCounted(b: Inbox, at: nat, p: Piece)
    requires AllCounted(b.queue) && 0 < at <= |b.queue| && Fits(b.queue[at - 1], p)
    ensures AllCounted(Fill(b, at, p).queue)
  {
    var e := b.queue[at - 1];
    if !e.have[p.number] { UnsetSet(e.have, p.number); }
    assert Counted(Filled(e, p));
    DispatchCounted(b.(queue := b.queue[at - 1 := Filled(e, p)]));
  }

  /** Whatever fragments arrive, in whatever order and however often, the counters stay right. */
  lemma ReceiveCounted(b: Inbox, c: Command, closing: bool, room: bool, limit: nat)
    requires AllCounted(b.queue)
    ensures AllCounted(Receive(b, c, closing, room, limit).0.queue)
  {
    match c {
      case Reliable(seqno, data) =>
        DispatchCounted(Insert(b, Entry(seqno, 0, 0, [], data)));
      case Fragment(_, p) =>
        UnsetAll(p.count);
        DispatchCounted(Insert(b, Blank(p)));
        PieceCounted(b, p, closing, room, limit);
    }
  }

  lemma PieceCounted(b: Inbox, p: Piece, closing: bool, room: bool, limit: nat)
    requires AllCounted(b.queue) && AllCounted(Dispatch(Insert(b, Blank(p))).queue)
    ensures AllCounted(TakePiece(b, p, closing, room, limit).0.queue)
  {
    var at := Place(b.queue, b.incoming, p.start);
    if WellFormed(p, limit) {
      if Matching(b.queue, at, p) { FillCounted(b, at, p); }
      var b' := Dispatch(Insert(b, Blank(p)));
      InsertIncomplete(b, Blank(p));
      FillCounted(b', Shifted(at + 1, |b.queue| + 1, |b'.queue|), p);
    }
  }

  // ---- The queue is sorted ----

  predicate Accepted(base: u16, seqno: u16) {
    seqno != base && Ahead(base, seqno) < FREE_WINDOWS - 1
  }

  /** Every entry lies in the accepted windows, and they follow each other strictly, across the wrap. */
  predicate Sorted(b: Inbox) {
    && (forall i :: 0 <= i < |b.queue| ==> Accepted(b.incoming, b.queue[i].seqno))
    && (forall i, j :: 0 <= i < j < |b.queue| ==> Rank(b.incoming, b.queue[i].seqno) < Rank(b.incoming, b.queue[j].seqno))
  }

  /** The place found by the scan separates the smaller numbers from the larger ones. */
  lemma {:induction false} PlaceSeparates(queue: seq<Entry>, base: u16, seqno: u16)
    requires Sorted(Inbox(base, queue, [])) && !Taken(queue, base, seqno)
    ensures var at := Place(queue, base, seqno);
      && (forall i :: 0 <= i < at ==> Rank(base, queue[i].seqno) < Rank(base, seqno))
      && (forall i :: at <= i < |queue| ==> Rank(base, queue[i].seqno) > Rank(base, seqno))
    decreases |queue|
  {
    hide Ahead;
    if queue != [] {
      var n := |queue| - 1;
      if Rank(base, queue[n].seqno) > Rank(base, seqno) {
        PlaceSeparates(queue[..n], base, seqno);
        assert forall i :: 0 <= i < n ==> queue[i] == queue[..n][i];
      } else {
        assert queue[n].seqno != seqno;
      }
    }
  }

  lemma InsertSorted(b: Inbox, e: Entry, closing: bool)
    requires Sorted(b) && !Discards(b, e.seqno, closing)
    ensures Sorted(Insert(b, e))
  {
    hide Ahead, Rank, Place, Accepted, Taken, Insert;
    NotDiscarded(b, e.seqno, closing);
    PlaceSeparates(b.queue, b.incoming, e.seqno);
    InsertAround(b, e);
  }

  lemma NotDiscarded(b: Inbox, seqno: u16, closing: bool)
    requires !Discards(b, seqno, closing)
    ensures Accepted(b.incoming, seqno) && !Taken(b.queue, b.incoming, seqno)
  {
  }

  lemma InsertAround(b: Inbox, e: Entry)
    ensures var at, q := Place(b.queue, b.incoming, e.seqno), Insert(b, e).queue;
      && Insert(b, e).incoming == b.incoming && |q| == |b.queue| + 1 && q[at] == e
      && (forall i :: 0 <= i < at ==> q[i] == b.queue[i]) && (forall i :: at < i < |q| ==> q[i] == b.queue[i - 1])
  {
    hide Place;
  }

  // ---- The order after a dispatch ----

  /** Whether, once the receiver has moved on by `span` numbers, the commands `rest` lie in the accepted
      windows in their order: they lie wholly beyond those numbers, or, when the numbers have gone so far
      around that these are ahead again, wholly before them. */
  predicate Clear(base: u16, span: nat, rest: seq<Entry>) {
    var s := span % WRAP;
    || rest == [] || Rank(base, rest[0].seqno) > s
    || (Rank(base, rest[|rest| - 1].seqno) < s && Ahead((base + s) % WRAP, rest[|rest| - 1].seqno) < FREE_WINDOWS - 1)
  }

  /** Ranks as the receiver sees them after it has moved on. */
  lemma RankOfNext(base: u16, last: u16, s: nat, seqno: u16)
    requires last == (base + s) % WRAP && s < WRAP
    ensures Rank(base, seqno) >= s ==> Rank(last, seqno) == Rank(base, seqno) - s
    ensures Rank(base, seqno) < s ==> Rank(last, seqno) == Rank(base, seqno) + WRAP - s
  {
  }

  /** Moving on towards a command brings its window nearer. */
  lemma AheadLater(base: u16, last: u16, s: nat, seqno: u16)
    requires last == (base + s) % WRAP && s <= Rank(base, seqno)
    ensures Ahead(last, seqno) <= Ahead(base, seqno)
  {
    var n := base + Rank(base, seqno);
    RankWire(base, seqno);
    hide Ahead, Rank;
    SeenAhead(base, n);
    SeenAhead(base + s, n);
    WindowMonotone(base, base + s);
  }

  lemma RankWire(base: u16, seqno: u16)
    ensures Wire(base) == base && Wire(base + Rank(base, seqno)) == seqno && Rank(base, seqno) < WRAP
  {
  }

  /** A command of smaller rank is in no later window. */
  lemma AheadOrder(base: u16, a: u16, b: u16)
    requires Rank(base, a) <= Rank(base, b)
    ensures Ahead(base, a) <= Ahead(base, b)
  {
    SeenAhead(base, base + Rank(base, a));
    SeenAhead(base, base + Rank(base, b));
    WindowMonotone(base + Rank(base, a), base + Rank(base, b));
  }

  lemma SortedAt(b: Inbox, i: nat, j: nat)
    requires Sorted(b) && i < j < |b.queue|
    ensures Rank(b.incoming, b.queue[i].seqno) < Rank(b.incoming, b.queue[j].seqno)
  {
  }

  /** The commands from `k` on, as they stand once the receiver has moved on by `span` numbers, are sorted
      if and only if they are clear of these. */
  lemma RestSorted(b: Inbox, k: nat, span: nat, out: seq<seq<byte>>)
    requires Sorted(b) && k <= |b.queue|
    ensures Sorted(Inbox((b.incoming + span) % WRAP, b.queue[k..], out)) <==> Clear(b.incoming, span, b.queue[k..])
  {
    hide Sorted, Ahead, Rank;
    var s, last, rest := span % WRAP, (b.incoming + span) % WRAP, b.queue[k..];
    AddWrapped(span, 0, b.incoming);
    if rest == [] {
      NoneSorted(last, out);
    } else if Rank(b.incoming, rest[0].seqno) > s {
      BeyondSorted(b, k, s, last, out);
    } else if Rank(b.incoming, rest[|rest| - 1].seqno) < s && Ahead(last, rest[|rest| - 1].seqno) < FREE_WINDOWS - 1 {
      BeforeSorted(b, k, s, last, out);
    } else {
      NotSorted(b, k, s, last, out);
    }
  }

  lemma NoneSorted(last: u16, out: seq<seq<byte>>)
    ensures Sorted(Inbox(last, [], out))
  {
  }

  lemma NotSorted(b: Inbox, k: nat, s: nat, last: u16, out: seq<seq<byte>>)
    requires Sorted(b) && k < |b.queue| && s < WRAP && last == (b.incoming + s) % WRAP
    requires Rank(b.incoming, b.queue[k].seqno) <= s
    requires var e := b.queue[|b.queue| - 1]; Rank(b.incoming, e.seqno) >= s || Ahead(last, e.seqno) >= FREE_WINDOWS - 1
    ensures !Sorted(Inbox(last, b.queue[k..], out))
  {
    hide Ahead;
    var rest, n := b.queue[k..], |b.queue| - 1 - k;
    RankOfNext(b.incoming, last, s, rest[0].seqno);
    RankOfNext(b.incoming, last, s, rest[n].seqno);
    if n > 0 { SortedAt(b, k, k + n); }
  }

  lemma BeyondSorted(b: Inbox, k: nat, s: nat, last: u16, out: seq<seq<byte>>)
    requires Sorted(b) && k < |b.queue| && s < WRAP && last == (b.incoming + s) % WRAP
    requires Rank(b.incoming, b.queue[k].seqno) > s
    ensures Sorted(Inbox(last, b.queue[k..], out))
  {
    hide Ahead, Rank;
    forall i | k <= i < |b.queue|
      ensures Rank(last, b.queue[i].seqno) == Rank(b.incoming, b.queue[i].seqno) - s && Accepted(last, b.queue[i].seqno)
    {
      if k < i { SortedAt(b, k, i); }
      RankOfNext(b.incoming, last, s, b.queue[i].seqno);
      AheadLater(b.incoming, last, s, b.queue[i].seqno);
      RankSelf(last);
    }
  }

  lemma BeforeSorted(b: Inbox, k: nat, s: nat, last: u16, out: seq<seq<byte>>)
    requires Sorted(b) && k < |b.queue| && s < WRAP && last == (b.incoming + s) % WRAP
    requires var e := b.queue[|b.queue| - 1]; Rank(b.incoming, e.seqno) < s && Ahead(last, e.seqno) < FREE_WINDOWS - 1
    ensures Sorted(Inbox(last, b.queue[k..], out))
  {
    hide Ahead, Rank;
    var n := |b.queue| - 1;
    RankOfNext(b.incoming, last, s, b.queue[n].seqno);
    forall i | k <= i < |b.queue|
      ensures Rank(last, b.queue[i].seqno) == Rank(b.incoming, b.queue[i].seqno) + WRAP - s && Accepted(last, b.queue[i].seqno)
    {
      if i < n { SortedAt(b, i, n); }
      RankOfNext(b.incoming, last, s, b.queue[i].seqno);
      AheadOrder(last, b.queue[i].seqno, b.queue[n].seqno);
      RankSelf(last);
    }
  }

  lemma RankSelf(base: u16)
    ensures Rank(base, base) == 0
  {
  }

  /** When the message at the front is handed over, the rest stays sorted if and only if it is clear of the
      message's numbers. */
  lemma PopSorted(b: Inbox)
    requires Sorted(b) && Ready(b)
    ensures Sorted(Pop(b)) <==> Clear(b.incoming, b.queue[0].Span(), b.queue[1..])
  {
    hide Sorted, Clear;
    AddWrapped(b.incoming, 1, b.queue[0].Span() - 1);
    RestSorted(b, 1, b.queue[0].Span(), b.dispatched + [b.queue[0].data]);
  }

  /** Dispatch keeps the queue sorted if and only if what stays is clear of all the numbers handed over. */
  lemma DispatchSorted(b: Inbox)
    requires Sorted(b)
    ensures Sorted(Dispatch(b)) <==> Clear(b.incoming, Spans(b.queue, Run(b)), b.queue[Run(b)..])
  {
    hide Sorted, Clear, Dispatch, Run;
    LongestRun(b);
    RestSorted(b, Run(b), Spans(b.queue, Run(b)), b.dispatched + Payloads(b.queue[..Run(b)]));
  }

  /** For a block of at most half a turn, clear means beyond its numbers. */
  lemma ClearSmall(base: u16, span: nat, rest: seq<Entry>)
    requires span <= 0x8000 && rest != []
    ensures Clear(base, span, rest) <==> Rank(base, rest[0].seqno) > span
  {
    var n := |rest| - 1;
    RankOfNext(base, (base + span) % WRAP, span, rest[n].seqno);
    RankAhead((base + span) % WRAP, rest[n].seqno);
  }

  // ---- A queue that dispatch leaves unsorted ----

  /** The commands of a sender that lets the numbers of two messages overlap: message 2, and the three
      fragments of a message that takes the numbers 1 to 3. */
  function Overlapping(n: nat): Command {
    if n == 0 then Reliable(2, [7]) else Fragment(n % WRAP, Piece(1, 3, n - 1, 3, n - 1, [8]))
  }

  /** The receiver after the first `n` of them, from the start of the channel. */
  function AfterOverlap(n: nat): Inbox {
    if n == 0 then Inbox(0, [], []) else Receive(AfterOverlap(n - 1), Overlapping(n - 1), false, true, 3).0
  }

  lemma OverlapWhole(late: Entry)
    requires late == Entry(2, 0, 0, [], [7])
    ensures Receive(Inbox(0, [], []), Reliable(2, [7]), false, true, 3).0 == Inbox(0, [late], [])
  {
    var b := Inbox(0, [], []);
    assert Insert(b, late).queue == [late] && !Ready(Insert(b, late));
  }

  lemma OverlapFirst(late: Entry, p: Piece, e: Entry)
    requires late.seqno == 2 && p.start == 1 && p.count == 3 && p.total == 3 && p.number < 3 && p.offset < 3 && |p.data| == 1
    requires Fits(Blank(p), p) && e == Filled(Blank(p), p)
    ensures TakePiece(Inbox(0, [late], []), p, false, true, 3) == (Inbox(0, [e, late], []), true)
  {
    hide Copy;
    var b := Inbox(0, [late], []);
    assert Place([late][..0], 0, 1) == 0 && Place([late], 0, 1) == 0;
    assert Insert(b, Blank(p)).queue == [Blank(p), late] && !Ready(Insert(b, Blank(p)));
    assert [Blank(p), late][0 := e] == [e, late];
  }

  lemma OverlapNext(late: Entry, e: Entry, p: Piece, more: Entry)
    requires late.seqno == 2 && e.seqno == 1 && e.count == |e.have| == p.count == 3 && |e.data| == p.total == 3
    requires p.start == 1 && p.number < 3 && p.offset < 3 && |p.data| == 1 && !e.have[p.number] && more == Filled(e, p)
    ensures TakePiece(Inbox(0, [e, late], []), p, false, true, 3) ==
      (if more.missing == 0 then Dispatch(Inbox(0, [more, late], [])) else Inbox(0, [more, late], []), true)
  {
    hide Copy, Dispatch;
    var b := Inbox(0, [e, late], []);
    assert b.queue[..1] == [e] && Place([e], 0, 1) == 1 && Place(b.queue, 0, 1) == 1;
    assert b.queue[0 := more] == [more, late];
  }

  lemma OverlapLeaves(late: Entry, e: Entry)
    requires late.seqno == 2 && e.seqno == 1 && e.count == 3
    ensures Sorted(Inbox(0, [e, late], []))
    ensures e.missing == 0 ==> Dispatch(Inbox(0, [e, late], [])) == Inbox(3, [late], [e.data])
    ensures !Sorted(Inbox(3, [late], [e.data]))
  {
    var b := Inbox(0, [e, late], []);
    if e.missing == 0 {
      assert Pop(b) == Inbox(3, [late], [e.data]) && !Ready(Pop(b));
    }
  }

  lemma Copies()
    ensures Copy([0, 0, 0], 0, [8]) == [8, 0, 0] && Copy([8, 0, 0], 1, [8]) == [8, 8, 0] && Copy([8, 8, 0], 2, [8]) == [8, 8, 8]
  {
  }

  /** They leave message 2 behind, with a number that no test accepts any more. */
  lemma OverlapUnsorted()
    ensures Sorted(AfterOverlap(3)) && !Sorted(AfterOverlap(4))
    ensures AfterOverlap(4) == Inbox(3, [Entry(2, 0, 0, [], [7])], [[8, 8, 8]])
  {
    hide TakePiece, TakeReliable, Sorted, Dispatch, Copy, Acknowledges;
    var late := Entry(2, 0, 0, [], [7]);
    var p0, p1, p2 := Piece(1, 3, 0, 3, 0, [8]), Piece(1, 3, 1, 3, 1, [8]), Piece(1, 3, 2, 3, 2, [8]);
    var e0 := Entry(1, 3, 3, [false, false, false], [0, 0, 0]);
    var e1, e2, e3 := Entry(1, 3, 2, [true, false, false], [8, 0, 0]), Entry(1, 3, 1, [true, true, false], [8, 8, 0]),
                      Entry(1, 3, 0, [true, true, true], [8, 8, 8]);
    assert Blank(p0) == e0;
    Copies();
    OverlapWhole(late);
    OverlapFirst(late, p0, e1);
    OverlapNext(late, e1, p1, e2);
    OverlapNext(late, e2, p2, e3);
    OverlapLeaves(late, e2);
    OverlapLeaves(late, e3);
    assert AfterOverlap(1) == Inbox(0, [late], []);
    assert AfterOverlap(2) == Inbox(0, [e1, late], []);
    assert AfterOverlap(3) == Inbox(0, [e2, late], []);
  }

  // ---- Messages that do not overlap ----

  /** No queued command has a number that a queued message before it takes. */
  predicate Apart(b: Inbox) {
    forall i, j :: 0 <= i < j < |b.queue| ==>
      Rank(b.incoming, b.queue[j].seqno) >= Rank(b.incoming, b.queue[i].seqno) + b.queue[i].Span()
  }

  lemma ReadyRank(b: Inbox)
    requires Ready(b)
    ensures Rank(b.incoming, b.queue[0].seqno) == 1
  {
  }

  lemma PopApart(b: Inbox)
    requires Sorted(b) && Apart(b) && Ready(b)
    ensures Sorted(Pop(b)) && Apart(Pop(b))
  {
    hide Accepted, Ahead;
    var span, last, q := b.queue[0].Span(), b.queue[0].Last(), Pop(b).queue;
    ReadyRank(b);
    PopSorted(b);
    AddWrapped(b.incoming, 1, span - 1);
    forall i | 0 <= i < |q|
      ensures q[i] == b.queue[i + 1] && span < WRAP && Rank(last, q[i].seqno) == Rank(b.incoming, q[i].seqno) - span
    {
      assert Rank(b.incoming, b.queue[i + 1].seqno) >= 1 + span;
      RankOfNext(b.incoming, last, span, q[i].seqno);
    }
  }

  lemma {:induction false} DispatchApart(b: Inbox)
    requires Sorted(b) && Apart(b)
    ensures Sorted(Dispatch(b)) && Apart(Dispatch(b))
    decreases |b.queue|
  {
    if Ready(b) {
      PopApart(b);
      DispatchApart(Pop(b));
    }
  }

  lemma FillApart(b: Inbox, at: nat, p: Piece)
    requires Sorted(b) && Apart(b) && 0 < at <= |b.queue| && Fits(b.queue[at - 1], p)
    ensures var r := Fill(b, at, p); Sorted(r) && Apart(r)
  {
    hide Accepted, Rank;
    var b' := b.(queue := b.queue[at - 1 := Filled(b.queue[at - 1], p)]);
    assert forall i :: 0 <= i < |b.queue| ==> b'.queue[i].seqno == b.queue[i].seqno && b'.queue[i].Span() == b.queue[i].Span();
    DispatchApart(b');
  }

  /** The entry that a command would make. */
  function EntryOf(c: Command): Entry {
    match c
    case Reliable(seqno, data) => Entry(seqno, 0, 0, [], data)
    case Fragment(_, p) => Blank(p)
  }

  /** The queue stays sorted and free of duplicates over every command that claims numbers of its own. */
  lemma ReceiveSorted(b: Inbox, c: Command, closing: bool, room: bool, limit: nat)
    requires Sorted(b) && Apart(b)
    requires !Discards(b, EntryOf(c).seqno, closing) ==> Apart(Insert(b, EntryOf(c)))
    ensures var r := Receive(b, c, closing, room, limit).0; Sorted(r) && Apart(r)
  {
    hide Accepted, Rank, Dispatch;
    var e := EntryOf(c);
    if !Discards(b, e.seqno, closing) {
      InsertSorted(b, e, closing);
      DispatchApart(Insert(b, e));
    }
    match c {
      case Reliable(_, _) =>
      case Fragment(_, p) => PieceSorted(b, p, closing, room, limit);
    }
  }

  lemma PieceSorted(b: Inbox, p: Piece, closing: bool, room: bool, limit: nat)
    requires Sorted(b) && Apart(b)
    requires !Discards(b, p.start, closing) ==>
      var r := Dispatch(Insert(b, Blank(p))); Sorted(r) && Apart(r)
    ensures var r := TakePiece(b, p, closing, room, limit).0; Sorted(r) && Apart(r)
  {
    hide Sorted, Apart, Dispatch, Place, Ahead;
    var at := Place(b.queue, b.incoming, p.start);
    if WellFormed(p, limit) {
      if Matching(b.queue, at, p) { FillApart(b, at, p); }
      if !Discards(b, p.start, closing) {
        var b' := Dispatch(Insert(b, Blank(p)));
        InsertIncomplete(b, Blank(p));
        FillApart(b', Shifted(at + 1, |b.queue| + 1, |b'.queue|), p);
      }
    }
  }
}
