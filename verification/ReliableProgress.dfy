/**
 What the receiver takes and acknowledges, exactly, and that no run of a reliable channel is a dead end.
 */
module ReliableProgress {
  import opened Basics
  import opened Words
  import opened SequenceWindows
  import opened ReliableReceivers
  import opened ReliableOrder
  import opened ReliableMessages
  import opened ReliableMirror
  import opened ReliableRuns

  // ---- One delivery ----

  /** The receiver has an entry for message `k`. */
  predicate Started(ms: seq<Message>, b: Inbox, k: nat)
    requires k < |ms|
  {
    exists e :: e in b.queue && e.seqno == Wire(First(ms, k))
  }

  lemma ReceivedHas(ms: seq<Message>, b: Inbox, held: seq<nat>, k: nat, i: nat)
    requires Mirrors(ms, b, held) && k < |ms| && First(ms, k) < Base(ms, b) + WRAP
    ensures Received(ms, b, k, i) <==> Has(b, held, k, i)
    ensures k >= |b.dispatched| ==> (Started(ms, b, k) <==> k in held)
  {
    hide Wire, EntryFor, First, Keeps;
    if k >= |b.dispatched| {
      NextNumber(ms, b, k);
      forall j | 0 <= j < |b.queue| ensures b.queue[j].seqno == Wire(First(ms, k)) <==> held[j] == k {
        if b.queue[j].seqno == Wire(First(ms, k)) { NameOf(ms, b, held, j, k); }
        assert InQueue(ms, Base(ms, b), b.queue[j], held[j]);
      }
      if Has(b, held, k, i) { HasReceived(ms, b, held, k, i); }
      if k in held {
        var j :| 0 <= j < |held| && held[j] == k;
        assert b.queue[j] in b.queue;
      }
    }
  }

  /** A number is in the windows for an acknowledgement if it is less than seven windows ahead and less than eight
      behind. */
  lemma AckWindows(base: nat, n: nat)
    requires n / WINDOW <= base / WINDOW + 7 && base / WINDOW <= n / WINDOW + 8
    ensures Acknowledges(Wire(base), Wire(n)) <==> base / 4096 - 8 < n / 4096 < base / 4096 + 7
  {
    hide Wire, Ahead;
    if base <= n { SeenAhead(base, n); } else { SeenBehind(base, n); }
  }

  /** The receiver has handed over nothing that was not transmitted. */
  lemma BaseSent(w: World, held: seq<nat>)
    requires Inv(w, held)
    ensures Base(w.messages, w.inbox) <= w.frontier
  {
    hide EntryFor, Wire, Message.Count;
    var k := |w.inbox.dispatched|;
    if k > 0 {
      CountPositive(w.messages[k - 1]);
      assert Has(w.inbox, held, k - 1, w.messages[k - 1].Count() - 1);
    }
  }

  lemma BaseGrows(ms: seq<Message>, b: Inbox, b': Inbox)
    requires AllValid(ms) && |b.dispatched| <= |b'.dispatched| <= |ms|
    ensures Base(ms, b) <= Base(ms, b') && Base(ms, b) / WINDOW <= Base(ms, b') / WINDOW
  {
    FirstMonotone(ms, |b.dispatched|, |b'.dispatched|);
    WindowMonotone(Base(ms, b), Base(ms, b'));
  }

  /** Where a delivered number lies, before and after. */
  lemma DeliverNear(w: World, held: seq<nat>, k: nat, i: nat, w': World, held': seq<nat>)
    requires Inv(w, held) && Inv(w', held') && k < |w.messages| && i < w.messages[k].Count()
    requires w'.messages == w.messages && w'.frontier == w.frontier && |w.inbox.dispatched| <= |w'.inbox.dispatched|
    requires First(w.messages, k) + i <= w.frontier && (k < |w.inbox.dispatched| ==> w'.inbox == w.inbox)
    requires Base(w.messages, w.inbox) / WINDOW <= (First(w.messages, k) + i) / WINDOW + FREE_WINDOWS
    ensures var n, base' := First(w.messages, k) + i, Base(w'.messages, w'.inbox);
      && n / WINDOW <= base' / WINDOW + 7 && base' / WINDOW <= n / WINDOW + 8
      && First(w.messages, k) < Base(w.messages, w.inbox) + WRAP && First(w.messages, k) < base' + WRAP
  {
    hide SenderOk, AcksOk, Transmitted, Wire, Message.Count, First, InQueue, Increasing;
    var ms, base, base', n := w.messages, Base(w.messages, w.inbox), Base(w.messages, w'.inbox), First(w.messages, k) + i;
    MirrorsUse(ms, w.inbox, held);
    MirrorsUse(ms, w'.inbox, held');
    BaseGrows(ms, w.inbox, w'.inbox);
    BaseSent(w', held');
    if k < |w.inbox.dispatched| {
      FirstMonotone(ms, k, |w.inbox.dispatched|);
      WindowMonotone(n, base);
    } else {
      NextNumber(ms, w.inbox, k);
      Flight(w, held, n);
      Flight(w, held, w.frontier);
      WindowMonotone(base, n);
      WindowMonotone(base', w.frontier);
    }
  }

  /** A delivered fragment is there afterwards if and only if it was before, or the message is not too long, starts
      not more than six windows ahead, and there is room for it or an entry already.  What is there is acknowledged,
      again and again, if and only if its number is less than seven windows ahead and less than eight behind. */
  predicate Takes(ms: seq<Message>, b: Inbox, k: nat, i: nat, room: bool, limit: nat, b': Inbox, ack: bool)
    requires k < |ms|
  {
    && (Received(ms, b', k, i) <==>
        Received(ms, b, k, i)
        || (|ms[k].data| <= limit && (room || Started(ms, b, k)) && First(ms, k) / 4096 <= Base(ms, b) / 4096 + 6))
    && (|ms[k].data| <= limit ==>
        (ack <==> Received(ms, b', k, i) && Base(ms, b') / 4096 - 8 < (First(ms, k) + i) / 4096 < Base(ms, b') / 4096 + 7))
  }

  lemma DeliverExactly(w: World, held: seq<nat>, k: nat, i: nat, room: bool, limit: nat)
    requires Inv(w, held) && Enabled(w, Deliver(k, i, room, limit))
    ensures var (b', ack) := Receive(w.inbox, CommandFor(w.messages, k, i), false, room, limit);
      Takes(w.messages, w.inbox, k, i, room, limit, b', ack)
  {
    hide Receive, Received, Has, Started, Mirrors, SenderOk, AcksOk, Transmitted, Message.Count, First, Wire, Acknowledges;
    var ms, b, e := w.messages, w.inbox, Deliver(k, i, room, limit);
    var held' := DeliverOk(w, held, k, i, room, limit);
    var w' := Next(w, e);
    ReceiveKeeps(b, CommandFor(ms, k, i), false, room, limit);
    MirrorsUse(ms, b, held);
    MirrorsUse(ms, w'.inbox, held');
    if k < |b.dispatched| { ReceiveOld(ms, b, held, k, i, room, limit); }
    DeliverNear(w, held, k, i, w', held');
    ReceivedHas(ms, b, held, k, i);
    ReceivedHas(ms, w'.inbox, held', k, i);
    AckWindows(Base(ms, w'.inbox), First(ms, k) + i);
    if k < |b.dispatched| { OldReceived(ms, b, k, i); }
  }

  /** The first fragment of a message, for an empty queue and with room: it is taken if and only if there are between
      one and 1048576 fragments, of which it is one, no more of them than bytes, and it lies in a message that is not
      too long. */
  lemma FirstPiece(b: Inbox, p: Piece, limit: nat)
    requires b.queue == [] && Ahead(b.incoming, p.start) < 7 && p.start != b.incoming
    ensures TakePiece(b, p, false, true, limit).1 <==>
      && 0 < |p.data| <= limit && p.number < p.count <= 1048576 && p.count <= p.total <= limit
      && p.offset < p.total && p.offset + |p.data| <= p.total
  {
    hide Fill, Dispatch;
  }

  // ---- No dead ends ----

  /** From world `w`, the run leads to `w'` without new messages, and the receiver loses nothing. */
  ghost predicate Leads(w: World, run: seq<Event>, w': World) {
    && Legal(w, run) && After(w, run) == w' && w'.messages == w.messages
    && |w.inbox.dispatched| <= |w'.inbox.dispatched| && (forall e :: e in run ==> !e.Send?)
  }

  lemma LeadsOn(w: World, run: seq<Event>, w1: World, more: seq<Event>, w2: World)
    requires Leads(w, run, w1) && Leads(w1, more, w2)
    ensures Leads(w, run + more, w2)
  {
    hide Legal, After;
    RunJoin(w, run, more);
  }

  lemma LeadsOne(w: World, e: Event, w': World)
    requires Enabled(w, e) && Next(w, e) == w' && w'.messages == w.messages && !e.Send?
    requires |w.inbox.dispatched| <= |w'.inbox.dispatched|
    ensures Leads(w, [e], w')
  {
    hide Enabled, Next;
    assert [e][1..] == [] && Legal(w', []) && After(w', []) == w';
  }

  lemma LeadsNone(w: World)
    ensures Leads(w, [], w)
  {
  }

  /** The host takes packets as long as all of these. */
  predicate Short(ms: seq<Message>, limit: nat) {
    forall k :: 0 <= k < |ms| ==> |ms[k].data| <= limit
  }

  lemma {:induction false} Locate(ms: seq<Message>, m: nat, n: nat) returns (k: nat, i: nat)
    requires m <= |ms| && 0 < n < First(ms, m)
    ensures k < m && i < ms[k].Count() && First(ms, k) + i == n
    decreases m
  {
    if n >= First(ms, m - 1) {
      k, i := m - 1, n - First(ms, m - 1);
    } else {
      k, i := Locate(ms, m - 1, n);
    }
  }

  /** A fragment delivered near enough is there, and is acknowledged; what was there still is. */
  lemma Brings(w: World, held: seq<nat>, k: nat, i: nat, limit: nat) returns (w': World, held': seq<nat>)
    requires Inv(w, held) && Short(w.messages, limit) && Enabled(w, Deliver(k, i, true, limit))
    requires First(w.messages, k) / WINDOW <= Base(w.messages, w.inbox) / WINDOW + 6
    ensures Inv(w', held') && Leads(w, [Deliver(k, i, true, limit)], w') && w' == w.(inbox := w'.inbox, acked := w'.acked)
    ensures Grows(w.inbox, held, w'.inbox, held') && Has(w'.inbox, held', k, i)
    ensures var n, base' := First(w.messages, k) + i, Base(w.messages, w'.inbox);
      base' / WINDOW < n / WINDOW + 8 && n / WINDOW < base' / WINDOW + 7 ==> n in w'.acked
  {
    hide Receive, Has, Mirrors, SenderOk, AcksOk, Transmitted, Message.Count, First, Wire, Grows, Acknowledges;
    held' := DeliverOk(w, held, k, i, true, limit);
    w' := Next(w, Deliver(k, i, true, limit));
    var ms, b := w.messages, w.inbox;
    ReceiveKeeps(b, CommandFor(ms, k, i), false, true, limit);
    LeadsOne(w, Deliver(k, i, true, limit), w');
    MirrorsUse(ms, b, held);
    MirrorsUse(ms, w'.inbox, held');
    if k < |b.dispatched| { ReceiveOld(ms, b, held, k, i, true, limit); }
    DeliverNear(w, held, k, i, w', held');
    AckWindows(Base(ms, w'.inbox), First(ms, k) + i);
  }

  /** An open number can be delivered and acknowledged when nothing is more than six windows ahead. */
  lemma CloseOne(w: World, held: seq<nat>, n: nat, limit: nat) returns (run: seq<Event>, w': World, held': seq<nat>)
    requires Inv(w, held) && Short(w.messages, limit) && n in w.open
    requires w.frontier / WINDOW <= Base(w.messages, w.inbox) / WINDOW + 6
    ensures Inv(w', held') && Leads(w, run, w') && w'.frontier == w.frontier && w'.open == w.open - {n}
  {
    hide Mirrors, Has, AcksOk, Transmitted, Message.Count, First, Wire, Leads, Grows;
    var ms := w.messages;
    var k, i := Locate(ms, |ms|, n);
    BaseSent(w, held);
    WindowMonotone(Base(ms, w.inbox), w.frontier);
    WindowMonotone(First(ms, k), n);
    WindowMonotone(n, w.frontier);
    var w1, h1 := Brings(w, held, k, i, limit);
    BaseSent(w1, h1);
    LeadsGrow(w, held, [Deliver(k, i, true, limit)], w1, h1);
    WindowMonotone(Base(ms, w1.inbox), w.frontier);
    assert n in w1.acked;
    AcknowledgeOk(w1, h1, n);
    w', held' := Next(w1, Acknowledge(n)), h1;
    LeadsOne(w1, Acknowledge(n), w');
    LeadsOn(w, [Deliver(k, i, true, limit)], w1, [Acknowledge(n)], w');
    run := [Deliver(k, i, true, limit)] + [Acknowledge(n)];
  }

  lemma LeadsGrow(w: World, held: seq<nat>, run: seq<Event>, w': World, held': seq<nat>)
    requires Leads(w, run, w') && Inv(w, held) && Inv(w', held')
    ensures w'.messages == w.messages && |w.inbox.dispatched| <= |w'.inbox.dispatched| <= |w.messages|
    ensures Base(w.messages, w.inbox) / WINDOW <= Base(w'.messages, w'.inbox) / WINDOW
  {
    hide SenderOk, AcksOk, Transmitted, InQueue;
    BaseGrows(w.messages, w.inbox, w'.inbox);
  }

  lemma {:induction false} CloseAll(w: World, held: seq<nat>, limit: nat) returns (run: seq<Event>, w': World, held': seq<nat>)
    requires Inv(w, held) && Short(w.messages, limit)
    requires w.frontier / WINDOW <= Base(w.messages, w.inbox) / WINDOW + 6
    ensures Inv(w', held') && Leads(w, run, w') && w'.frontier == w.frontier && w'.open == {}
    decreases |w.open|
  {
    hide Inv, Leads, Base;
    if w.open == {} {
      LeadsNone(w);
      run, w', held' := [], w, held;
    } else {
      var n :| n in w.open;
      var r1, w1, h1 := CloseOne(w, held, n, limit);
      LeadsGrow(w, held, r1, w1, h1);
      var r2;
      r2, w', held' := CloseAll(w1, h1, limit);
      LeadsOn(w, r1, w1, r2, w');
      run := r1 + r2;
    }
  }

  /** Once all fragments of the next message have been transmitted, it can be handed over. */
  lemma {:induction false} HandOver(w: World, held: seq<nat>, k: nat, i: nat, limit: nat) returns (run: seq<Event>, w': World, held': seq<nat>)
    requires Inv(w, held) && Short(w.messages, limit) && |w.inbox.dispatched| == k < |w.messages|
    requires i <= w.messages[k].Count() && First(w.messages, k) + w.messages[k].Count() - 1 <= w.frontier
    requires forall j: nat :: j < i ==> Has(w.inbox, held, k, j)
    ensures Inv(w', held') && Leads(w, run, w') && w'.frontier == w.frontier && |w'.inbox.dispatched| > k
    decreases w.messages[k].Count() - i
  {
    hide Mirrors, Has, SenderOk, AcksOk, Transmitted, Message.Count, First, Wire, Leads;
    var ms := w.messages;
    MirrorsUse(ms, w.inbox, held);
    CountPositive(ms[k]);
    if i == ms[k].Count() {
      var j := Missing(w, held);
      assert false;
    } else {
      NextNumber(ms, w.inbox, k);
      var base := Base(ms, w.inbox);
      WindowMonotone(base, First(ms, k) + i);
      WindowMonotone(First(ms, k), base + WINDOW);
      var w1, h1 := Brings(w, held, k, i, limit);
      LeadsGrow(w, held, [Deliver(k, i, true, limit)], w1, h1);
      if |w1.inbox.dispatched| > k {
        run, w', held' := [Deliver(k, i, true, limit)], w1, h1;
      } else {
        var r2;
        r2, w', held' := HandOver(w1, h1, k, i + 1, limit);
        LeadsOn(w, [Deliver(k, i, true, limit)], w1, r2, w');
        run := [Deliver(k, i, true, limit)] + r2;
      }
    }
  }

  /** With nothing open, the next number can be transmitted. */
  lemma SendNext(w: World, held: seq<nat>) returns (w': World)
    requires Inv(w, held) && w.open == {} && w.frontier + 1 < First(w.messages, |w.messages|)
    ensures Inv(w', held) && Leads(w, [Transmit], w') && w'.frontier == w.frontier + 1
  {
    hide Inv, Leads, First;
    TransmitOk(w, held);
    w' := Next(w, Transmit);
    LeadsOne(w, Transmit, w');
  }

  /** Everything sent can be handed over and acknowledged. */
  lemma {:induction false} Completes(w: World, held: seq<nat>, limit: nat) returns (run: seq<Event>, w': World, held': seq<nat>)
    requires Inv(w, held) && Short(w.messages, limit)
    ensures Inv(w', held') && Leads(w, run, w') && |w'.inbox.dispatched| == |w.messages| && w'.open == {}
    decreases First(w.messages, |w.messages|) - w.frontier, |w.messages| - |w.inbox.dispatched|
  {
    hide Mirrors, Has, AcksOk, Transmitted, Message.Count, First, Wire, Leads;
    var ms, k := w.messages, |w.inbox.dispatched|;
    MirrorsUse(ms, w.inbox, held);
    var r1, w1, h1;
    if k == |ms| {
      WindowMonotone(w.frontier, Base(ms, w.inbox));
      run, w', held' := CloseAll(w, held, limit);
      LeadsGrow(w, held, run, w', held');
      return;
    }
    if First(ms, k) + ms[k].Count() - 1 <= w.frontier {
      r1, w1, h1 := HandOver(w, held, k, 0, limit);
    } else {
      CountPositive(ms[k]);
      WindowMonotone(w.frontier, Base(ms, w.inbox) + WINDOW);
      FirstMonotone(ms, k, |ms|);
      var r0, w0, h0 := CloseAll(w, held, limit);
      LeadsGrow(w, held, r0, w0, h0);
      w1 := SendNext(w0, h0);
      r1, h1 := r0 + [Transmit], h0;
      LeadsOn(w, r0, w0, [Transmit], w1);
    }
    LeadsGrow(w, held, r1, w1, h1);
    assert w1.frontier < First(ms, |ms|);
    var r2;
    r2, w', held' := Completes(w1, h1, limit);
    LeadsOn(w, r1, w1, r2, w');
    run := r1 + r2;
  }

  /** Whatever has happened, a run can be continued, without new messages, until all messages sent have been handed
      over, each once and in order, and the sender waits for nothing. */
  lemma NoDeadEnd(run: seq<Event>) returns (more: seq<Event>)
    requires Legal(Start(), run)
    ensures Legal(Start(), run + more) && forall e :: e in more ==> !e.Send?
    ensures var w := After(Start(), run + more);
      && w.messages == After(Start(), run).messages && w.open == {}
      && |w.inbox.dispatched| == |w.messages| && Delivered(w.messages, w.inbox.dispatched)
  {
    hide Legal, After, Inv, Enabled, Next;
    StartOk();
    var w := After(Start(), run);
    var held := RunOk(Start(), [], run);
    var limit := Longest(w.messages, |w.messages|);
    var w', held';
    more, w', held' := Completes(w, held, limit);
    RunJoin(Start(), run, more);
    DeliveredNow(w', held');
  }

  lemma DeliveredNow(w: World, held: seq<nat>)
    requires Inv(w, held)
    ensures Delivered(w.messages, w.inbox.dispatched)
  {
  }

  lemma {:induction false} Longest(ms: seq<Message>, m: nat) returns (limit: nat)
    requires m <= |ms|
    ensures forall k :: 0 <= k < m ==> |ms[k].data| <= limit
  {
    limit := 0;
    if m > 0 {
      limit := Longest(ms, m - 1);
      if |ms[m - 1].data| > limit { limit := |ms[m - 1].data|; }
    }
  }
}
