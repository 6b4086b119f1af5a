/**
 A reliable channel over a network that drops, duplicates and reorders: every run of sender, network
 and receiver.

 The network is the set of what was ever put on it: a command that has been transmitted may arrive at
 any later time, any number of times, or never, and so may an acknowledgement.  Two bounds on the life
 of a datagram are assumed, as 16-bit numbers require: no copy of a command arrives from more than
 eight windows behind the receiver, and no copy of an acknowledgement after the sender has gone a full
 wrap beyond it.
 */
module ReliableRuns {
  import opened Words
  import opened SequenceWindows
  import opened ReliableReceivers
  import opened ReliableOrder
  import opened ReliableMessages
  import opened ReliableMirror

  /** `frontier` is the last number transmitted, `open` those of them that the sender still keeps, and
      `acked` those the receiver has acknowledged. */
  datatype World = World(messages: seq<Message>, frontier: nat, open: set<nat>, inbox: Inbox, acked: set<nat>)

  datatype Event =
    | Send(m: Message)
    | Transmit
    | Deliver(k: nat, i: nat, room: bool, limit: nat)
    | Acknowledge(n: nat)

  function Start(): World {
    World([], 0, {}, Inbox(0, [], []), {})
  }

  /** The sender's limit: a window is entered only when that window and the nine after it, counted
      modulo sixteen, hold no number that is still open. */
  predicate WindowFree(open: set<nat>, w: nat) {
    forall n :: n in open ==> (n / WINDOW - w) % WINDOWS >= FREE_WINDOWS + 2
  }

  predicate Enabled(w: World, e: Event) {
    match e
    case Send(m) => m.Valid()
    case Transmit =>
      var n := w.frontier + 1;
      n < First(w.messages, |w.messages|) && (n % WINDOW == 0 ==> WindowFree(w.open, n / WINDOW))
    case Deliver(k, i, _, _) =>
      && k < |w.messages| && i < w.messages[k].Count() && First(w.messages, k) + i <= w.frontier
      && Base(w.messages, w.inbox) / WINDOW <= (First(w.messages, k) + i) / WINDOW + FREE_WINDOWS
    case Acknowledge(n) => n in w.acked && w.frontier < n + WRAP
  }

  function Next(w: World, e: Event): World
    requires Enabled(w, e)
  {
    match e
    case Send(m) => w.(messages := w.messages + [m])
    case Transmit => w.(frontier := w.frontier + 1, open := w.open + {w.frontier + 1})
    case Deliver(k, i, room, limit) =>
      var (b, ack) := Receive(w.inbox, CommandFor(w.messages, k, i), false, room, limit);
      w.(inbox := b, acked := w.acked + if ack then {First(w.messages, k) + i} else {})
    case Acknowledge(n) => w.(open := set m | m in w.open && Wire(m) != Wire(n))
  }

  // ---- What every step keeps ----

  ghost predicate SenderOk(w: World) {
    && w.frontier < First(w.messages, |w.messages|)
    && (forall n :: n in w.open ==> 0 < n <= w.frontier && w.frontier / WINDOW <= n / WINDOW + (FREE_WINDOWS - 2))
    && (forall n :: 0 < n <= w.frontier ==> n in w.open || n in w.acked)
    && (forall n :: n in w.acked ==> 0 < n <= w.frontier)
  }

  /** The receiver has all it has acknowledged. */
  ghost predicate AcksOk(w: World, held: seq<nat>) {
    forall k, i :: 0 <= k < |w.messages| && 0 <= i < w.messages[k].Count() && First(w.messages, k) + i in w.acked ==>
      Has(w.inbox, held, k, i)
  }

  /** The receiver has nothing that was not transmitted. */
  ghost predicate Transmitted(w: World, held: seq<nat>) {
    forall k, i :: 0 <= k < |w.messages| && 0 <= i < w.messages[k].Count() && Has(w.inbox, held, k, i) ==>
      First(w.messages, k) + i <= w.frontier
  }

  ghost predicate Inv(w: World, held: seq<nat>) {
    && Mirrors(w.messages, w.inbox, held) && !Ready(w.inbox) && SenderOk(w)
    && AcksOk(w, held) && Transmitted(w, held)
  }

  lemma StartOk()
    ensures Inv(Start(), [])
  {
  }

  lemma SendOk(w: World, held: seq<nat>, m: Message)
    requires Inv(w, held) && m.Valid()
    ensures Inv(w.(messages := w.messages + [m]), held)
  {
    hide EntryFor, Has, Wire;
    var ms, ms' := w.messages, w.messages + [m];
    CountPositive(m);
    forall k | 0 <= k <= |ms| ensures First(ms', k) == First(ms, k) {
      FirstAppend(ms, m, k);
    }
    assert Base(ms', w.inbox) == Base(ms, w.inbox);
    forall j | 0 <= j < |held| ensures InQueue(ms', Base(ms', w.inbox), w.inbox.queue[j], held[j]) {
      assert InQueue(ms, Base(ms, w.inbox), w.inbox.queue[j], held[j]);
    }
    SendTransmitted(w, held, m);
  }

  lemma SendTransmitted(w: World, held: seq<nat>, m: Message)
    requires Mirrors(w.messages, w.inbox, held) && Transmitted(w, held)
    ensures Transmitted(w.(messages := w.messages + [m]), held)
  {
    hide Message.Count;
    var ms, ms' := w.messages, w.messages + [m];
    MirrorsUse(ms, w.inbox, held);
    forall k, i | 0 <= k < |ms'| && 0 <= i < ms'[k].Count() && Has(w.inbox, held, k, i) ensures First(ms', k) + i <= w.frontier {
      FirstAppend(ms, m, k);
    }
  }

  /** Entering a window as the limit allows keeps the open numbers within seven windows. */
  lemma TransmitOk(w: World, held: seq<nat>)
    requires Inv(w, held) && Enabled(w, Transmit)
    ensures Inv(Next(w, Transmit), held)
  {
    hide Mirrors, AcksOk, Has, Message.Count;
    var n := w.frontier + 1;
    forall m | m in w.open ensures n / WINDOW <= m / WINDOW + (FREE_WINDOWS - 2) {
      WindowStep(w.frontier, m);
    }
    AcksSame(w, Next(w, Transmit), held);
  }

  lemma WindowStep(f: nat, m: nat)
    requires m <= f && f / WINDOW <= m / WINDOW + (FREE_WINDOWS - 2)
    requires (f + 1) % WINDOW == 0 ==> (m / WINDOW - (f + 1) / WINDOW) % WINDOWS >= FREE_WINDOWS + 2
    ensures (f + 1) / WINDOW <= m / WINDOW + (FREE_WINDOWS - 2)
  {
    WindowMonotone(m, f);
  }

  lemma AcksSame(w: World, w': World, held: seq<nat>)
    requires AcksOk(w, held) && w'.messages == w.messages && w'.inbox == w.inbox && w'.acked == w.acked
    ensures AcksOk(w', held)
  {
  }

  /** An acknowledgement within its life only ever removes the command it is for. */
  lemma AcknowledgeOk(w: World, held: seq<nat>, n: nat)
    requires Inv(w, held) && Enabled(w, Acknowledge(n))
    ensures Inv(Next(w, Acknowledge(n)), held)
    ensures forall m :: m in w.open && Wire(m) == Wire(n) ==> m == n
  {
    hide Mirrors, AcksOk, Wire, Has, Message.Count;
    forall m | m in w.open && Wire(m) == Wire(n) ensures m == n {
      WindowMonotone(m, w.frontier);
      WireUnique(m, n);
    }
    AcksSame(w, Next(w, Acknowledge(n)), held);
  }

  /** While a message is not complete, some number of it is not acknowledged. */
  lemma Missing(w: World, held: seq<nat>) returns (i: nat)
    requires Inv(w, held) && |w.inbox.dispatched| < |w.messages|
    ensures var k := |w.inbox.dispatched|; i < w.messages[k].Count() <= WINDOW && First(w.messages, k) + i !in w.acked
    ensures !Has(w.inbox, held, |w.inbox.dispatched|, i)
  {
    hide Wire;
    var k := |w.inbox.dispatched|;
    CountPositive(w.messages[k]);
    i := 0;
    if k in held {
      var j :| 0 <= j < |held| && held[j] == k;
      assert held[0] <= held[j];
      var e := w.inbox.queue[0];
      assert InQueue(w.messages, Base(w.messages, w.inbox), e, k);
      NextWire(Base(w.messages, w.inbox));
      if e.count > 0 {
        UnsetNone(e.have);
        i :| 0 <= i < |e.have| && !e.have[i];
      }
      assert !Keeps(e, i);
      assert forall j' :: 0 < j' < |held| ==> held[0] < held[j'];
    }
    assert !Has(w.inbox, held, k, i);
  }

  /** Nothing is ever in flight further ahead than the receiver's tests can tell from old copies. */
  lemma Flight(w: World, held: seq<nat>, n: nat)
    requires Inv(w, held) && Base(w.messages, w.inbox) < n <= w.frontier
    ensures n / WINDOW <= Base(w.messages, w.inbox) / WINDOW + (FREE_WINDOWS - 1)
  {
    hide Has, EntryFor, Wire;
    var base, k := Base(w.messages, w.inbox), |w.inbox.dispatched|;
    var i := Missing(w, held);
    var u := First(w.messages, k) + i;
    if u <= w.frontier {
      assert u in w.open;
      WindowMonotone(n, w.frontier);
      WindowMonotone(u, base + WINDOW);
    } else {
      WindowMonotone(n, base + WINDOW);
    }
  }

  lemma DeliverOk(w: World, held: seq<nat>, k: nat, i: nat, room: bool, limit: nat) returns (held': seq<nat>)
    requires Inv(w, held) && Enabled(w, Deliver(k, i, room, limit))
    ensures Inv(Next(w, Deliver(k, i, room, limit)), held')
    ensures var (b', ack) := Receive(w.inbox, CommandFor(w.messages, k, i), false, room, limit);
      && Grows(w.inbox, held, b', held') && Exact(w.messages, w.inbox, held, k, i, room, limit, b', ack, held')
  {
    hide Mirrors, Has, SenderOk, Receive, Message.Count, First, Transmitted;
    var ms, b, n := w.messages, w.inbox, First(w.messages, k) + i;
    var c := CommandFor(ms, k, i);
    var (b', ack) := Receive(b, c, false, room, limit);
    MirrorsUse(ms, b, held);
    ReceiveQuiet(b, c, false, room, limit);
    if k < |b.dispatched| {
      ReceiveOld(ms, b, held, k, i, room, limit);
      held' := held;
      assert Has(b, held, k, i) by { OldHas(b, held, k, i); }
    } else {
      NextNumber(ms, b, k);
      Flight(w, held, n);
      if ms[k].Whole? {
        WholeOne(ms[k]);
        held' := ReceiveWhole(ms, b, held, k, room, limit);
      } else {
        held' := ReceivePiece(ms, b, held, k, i, room, limit);
      }
    }
    DeliverAcks(w, held, k, i, b', ack, held');
    DeliverTransmitted(w, held, k, i, Next(w, Deliver(k, i, room, limit)), held');
    DeliverSender(w, k, i, Next(w, Deliver(k, i, room, limit)));
  }

  lemma DeliverTransmitted(w: World, held: seq<nat>, k: nat, i: nat, w': World, held': seq<nat>)
    requires Transmitted(w, held) && w' == w.(inbox := w'.inbox, acked := w'.acked)
    requires k < |w.messages| && First(w.messages, k) + i <= w.frontier
    requires Only(w.messages, w.inbox, held, w'.inbox, held', k, i)
    ensures Transmitted(w', held')
  {
    hide Has, Message.Count, First;
  }

  lemma OldHas(b: Inbox, held: seq<nat>, k: nat, i: nat)
    requires k < |b.dispatched|
    ensures Has(b, held, k, i)
  {
  }

  lemma DeliverSender(w: World, k: nat, i: nat, w': World)
    requires SenderOk(w) && w' == w.(inbox := w'.inbox, acked := w'.acked)
    requires k < |w.messages| && First(w.messages, k) + i <= w.frontier
    requires w'.acked == w.acked || w'.acked == w.acked + {First(w.messages, k) + i}
    ensures SenderOk(w')
  {
  }

  lemma DeliverAcks(w: World, held: seq<nat>, k: nat, i: nat, b': Inbox, ack: bool, held': seq<nat>)
    requires AllValid(w.messages) && AcksOk(w, held) && k < |w.messages| && i < w.messages[k].Count()
    requires Grows(w.inbox, held, b', held') && (ack ==> Has(b', held', k, i))
    ensures AcksOk(w.(inbox := b', acked := w.acked + if ack then {First(w.messages, k) + i} else {}), held')
  {
    hide Has, First, Message.Count;
    var w' := w.(inbox := b', acked := w.acked + if ack then {First(w.messages, k) + i} else {});
    forall k': nat, i': nat | k' < |w.messages| && i' < w.messages[k'].Count() && First(w.messages, k') + i' in w'.acked
      ensures Has(b', held', k', i')
    {
      if First(w.messages, k') + i' in w.acked {
        assert Has(w.inbox, held, k', i');
      } else {
        NumberUnique(w.messages, k, i, k', i');
      }
    }
  }

  // ---- Runs ----

  ghost predicate Legal(w: World, run: seq<Event>)
    decreases |run|
  {
    run == [] || (Enabled(w, run[0]) && Legal(Next(w, run[0]), run[1..]))
  }

  function After(w: World, run: seq<Event>): World
    requires Legal(w, run)
    decreases |run|
  {
    if run == [] then w else After(Next(w, run[0]), run[1..])
  }

  lemma {:induction false} RunOn(w: World, run: seq<Event>, e: Event)
    requires Legal(w, run) && Enabled(After(w, run), e)
    ensures Legal(w, run + [e]) && After(w, run + [e]) == Next(After(w, run), e)
    decreases |run|
  {
    hide Enabled, Next;
    if run == [] {
      assert [e][1..] == [] && [] + [e] == [e];
      assert Legal(Next(w, e), []);
    } else {
      RunOn(Next(w, run[0]), run[1..], e);
      assert (run + [e])[1..] == run[1..] + [e];
    }
  }

  lemma {:induction false} RunJoin(w: World, run: seq<Event>, more: seq<Event>)
    requires Legal(w, run) && Legal(After(w, run), more)
    ensures Legal(w, run + more) && After(w, run + more) == After(After(w, run), more)
    decreases |run|
  {
    hide Enabled, Next;
    if run == [] {
      assert run + more == more;
    } else {
      RunJoin(Next(w, run[0]), run[1..], more);
      assert (run + more)[1..] == run[1..] + more;
    }
  }

  lemma {:induction false} RunOk(w: World, held: seq<nat>, run: seq<Event>) returns (held': seq<nat>)
    requires Inv(w, held) && Legal(w, run)
    ensures Inv(After(w, run), held')
    decreases |run|
  {
    hide Inv, Enabled, Next;
    if run == [] {
      held' := held;
    } else {
      var h := StepOk(w, held, run[0]);
      held' := RunOk(Next(w, run[0]), h, run[1..]);
    }
  }

  lemma StepOk(w: World, held: seq<nat>, e: Event) returns (held': seq<nat>)
    requires Inv(w, held) && Enabled(w, e)
    ensures Inv(Next(w, e), held')
  {
    hide Inv;
    held' := held;
    match e {
      case Send(m) => SendOk(w, held, m);
      case Transmit => TransmitOk(w, held);
      case Deliver(k, i, room, limit) => held' := DeliverOk(w, held, k, i, room, limit);
      case Acknowledge(n) => AcknowledgeOk(w, held, n);
    }
  }

  /** The receiver has fragment `i` of message `k`: handed over, or in the queue. */
  predicate Received(ms: seq<Message>, b: Inbox, k: nat, i: nat)
    requires k < |ms|
  {
    k < |b.dispatched| || exists e :: e in b.queue && e.seqno == Wire(First(ms, k)) && Keeps(e, i)
  }

  /** Over every run, the messages handed over are the first ones sent, each once and in order; the
      receiver has every command it has acknowledged; and it has every command that the sender no
      longer keeps. */
  lemma ReliableDelivery(run: seq<Event>)
    requires Legal(Start(), run)
    ensures var w := After(Start(), run);
      && Delivered(w.messages, w.inbox.dispatched)
      && forall k, i :: 0 <= k < |w.messages| && 0 <= i < w.messages[k].Count() ==>
           var n := First(w.messages, k) + i;
           (n in w.acked || (n <= w.frontier && n !in w.open)) ==> Received(w.messages, w.inbox, k, i)
  {
    hide Legal, After;
    StartOk();
    var held := RunOk(Start(), [], run);
    var w := After(Start(), run);
    forall k: nat, i: nat | k < |w.messages| && i < w.messages[k].Count() && First(w.messages, k) + i in w.acked
      ensures Received(w.messages, w.inbox, k, i)
    {
      HasReceived(w.messages, w.inbox, held, k, i);
    }
  }

  lemma HasReceived(ms: seq<Message>, b: Inbox, held: seq<nat>, k: nat, i: nat)
    requires Mirrors(ms, b, held) && k < |ms| && Has(b, held, k, i)
    ensures Received(ms, b, k, i)
  {
    if k >= |b.dispatched| {
      var j :| 0 <= j < |held| && held[j] == k && Keeps(b.queue[j], i);
      assert InQueue(ms, Base(ms, b), b.queue[j], k) && b.queue[j] in b.queue;
    }
  }

  // ---- The queue in every run ----

  /** What the receiver queues of messages with numbers of their own is sorted, apart and in the accepted
      windows. */
  lemma MirrorSorted(ms: seq<Message>, b: Inbox, held: seq<nat>)
    requires Mirrors(ms, b, held)
    ensures Sorted(b) && Apart(b)
  {
    hide First, Ahead, Rank, Message.Count, EntryFor;
    forall j | 0 <= j < |held|
      ensures Accepted(b.incoming, b.queue[j].seqno) && b.queue[j].Span() == ms[held[j]].Count()
      ensures Rank(b.incoming, b.queue[j].seqno) == First(ms, held[j]) - Base(ms, b)
    {
      MirrorRank(ms, b, held, j);
      assert InQueue(ms, Base(ms, b), b.queue[j], held[j]);
      SeenAhead(Base(ms, b), First(ms, held[j]));
      SpanFor(b.queue[j], ms[held[j]]);
      RankSelf(b.incoming);
    }
    forall i, j | 0 <= i < j < |held|
      ensures First(ms, held[i]) + ms[held[i]].Count() <= First(ms, held[j])
    {
      FirstMonotone(ms, held[i], held[j]);
    }
    forall j | 0 <= j < |held| ensures ms[held[j]].Count() >= 1 {
      CountPositive(ms[held[j]]);
    }
  }

  /** So the queue is strictly sorted across the wrap, free of duplicates and overlaps, and inside the
      accepted windows, after every run. */
  lemma QueueSorted(run: seq<Event>)
    requires Legal(Start(), run)
    ensures Sorted(After(Start(), run).inbox) && Apart(After(Start(), run).inbox)
  {
    hide Legal, After;
    StartOk();
    var held := RunOk(Start(), [], run);
    MirrorSorted(After(Start(), run).messages, After(Start(), run).inbox, held);
  }

  // ---- Closing ----

  /** A peer in state DISCONNECT_LATER acknowledges a command that it does not have exactly when the
      command is unfragmented, was not there before, and is within the host's packet size and the windows
      it would accept. */
  lemma ClosingAcknowledges(w: World, held: seq<nat>, k: nat, i: nat, room: bool, limit: nat)
    requires Inv(w, held) && Enabled(w, Deliver(k, i, room, limit))
    ensures var (b', ack) := Receive(w.inbox, CommandFor(w.messages, k, i), true, room, limit);
      ack && !Received(w.messages, b', k, i) <==>
        && w.messages[k].Whole? && !Received(w.messages, w.inbox, k, i) && |w.messages[k].data| <= limit
        && First(w.messages, k) / WINDOW <= Base(w.messages, w.inbox) / WINDOW + (FREE_WINDOWS - 2)
  {
    hide Mirrors, Received, SenderOk, AcksOk, Message.Count, First, Dispatch, Wire, Ahead, Place, Taken, Fill, WellFormed;
    var ms, b := w.messages, w.inbox;
    var base, first := Base(ms, b), First(ms, k);
    MirrorsUse(ms, b, held);
    if k < |b.dispatched| {
      ReceiveKeeps(b, CommandFor(ms, k, i), true, room, limit);
      OldReceived(ms, b, k, i);
      OldReceived(ms, Receive(b, CommandFor(ms, k, i), true, room, limit).0, k, i);
    } else {
      NextNumber(ms, b, k);
      Flight(w, held, first + i);
      WindowMonotone(first, first + i);
      SeenAhead(base, first);
      SeenAhead(base, first + i);
      if ms[k].Whole? {
        WholeOne(ms[k]);
      } else {
        PieceWellFormed(ms[k], Wire(first), i, limit);
        if Taken(b.queue, b.incoming, Wire(first)) {
          MirrorTaken(ms, b, held, k);
          var held' := MirrorFill(ms, b, held, Place(b.queue, b.incoming, Wire(first)), k, i);
          HasReceived(ms, Fill(b, Place(b.queue, b.incoming, Wire(first)), PieceFor(ms[k], Wire(first), i)), held', k, i);
        }
      }
    }
  }

  lemma OldReceived(ms: seq<Message>, b: Inbox, k: nat, i: nat)
    requires k < |b.dispatched| && k < |ms|
    ensures Received(ms, b, k, i)
  {
  }

  /** What has been handed over stays so. */
  lemma ReceiveKeeps(b: Inbox, c: Command, closing: bool, room: bool, limit: nat)
    ensures |b.dispatched| <= |Receive(b, c, closing, room, limit).0.dispatched|
  {
    hide Dispatch, Place, Taken;
    match c {
      case Reliable(seqno, data) =>
        DispatchKeeps(Insert(b, Entry(seqno, 0, 0, [], data)));
      case Fragment(_, p) =>
        var at := Place(b.queue, b.incoming, p.start);
        FillKeeps(b, at, p);
        if p.count > 0 { InsertIncomplete(b, Blank(p)); }
        var b1 := Dispatch(Insert(b, Blank(p)));
        DispatchKeeps(Insert(b, Blank(p)));
        FillKeeps(b1, Shifted(at + 1, |b.queue| + 1, |b1.queue|), p);
    }
  }

  lemma {:induction false} DispatchKeeps(b: Inbox)
    ensures |b.dispatched| <= |Dispatch(b).dispatched|
    decreases |b.queue|
  {
    if Ready(b) { DispatchKeeps(Pop(b)); }
  }

  lemma FillKeeps(b: Inbox, at: nat, p: Piece)
    ensures 0 < at <= |b.queue| && Fits(b.queue[at - 1], p) ==> |b.dispatched| <= |Fill(b, at, p).dispatched|
  {
    hide Dispatch;
    if 0 < at <= |b.queue| && Fits(b.queue[at - 1], p) {
      DispatchKeeps(b.(queue := b.queue[at - 1 := Filled(b.queue[at - 1], p)]));
    }
  }

  /** So it can acknowledge a message that is then never handed over. */
  lemma ClosingLoses() returns (w: World)
    ensures w == After(Start(), [Send(Whole([7])), Transmit])
    ensures Receive(w.inbox, CommandFor(w.messages, 0, 0), true, true, 1) == (w.inbox, true)
    ensures !Received(w.messages, w.inbox, 0, 0)
  {
    var m := Whole([7]);
    var w1 := Next(Start(), Send(m));
    assert w1.messages == [m] && First([m], 1) == First([m], 0) + 1;
    w := Next(w1, Transmit);
    assert Legal(w, []) && [Transmit][1..] == [];
    assert Legal(w1, [Transmit]) && After(w1, [Transmit]) == w;
    assert [Send(m), Transmit][1..] == [Transmit];
  }
}
