/**
 The sender's loops over its queues.
 */
module ReliableSenders {
  import opened Basics
  import opened Words
  import opened SequenceWindows
  import opened WindowBits
  import opened ReliableOutboxes
  import opened ReliableAccounts
  import opened ReliableLimits
  import opened ReliableMessages
  import opened ReliableRuns

  const TIME_OVERFLOW := 86400000
  const THROTTLE_SCALE := 32
  const CONNECTION_CHANNEL := 0xFF

  predicate TimeLess(a: u32, b: u32) { (a - b) % 0x1_0000_0000 >= TIME_OVERFLOW }

  function TimeDifference(a: u32, b: u32): nat {
    if (a - b) % 0x1_0000_0000 >= TIME_OVERFLOW then (b - a) % 0x1_0000_0000 else (a - b) % 0x1_0000_0000
  }

  // ---- Chains of sending steps ----

  /** What a call of the sending loop works with: the limit on the data in transit, the time, and the time until a
      command is sent again. */
  datatype Terms = Terms(limit: nat, now: u32, rto: nat)

  /** The first command of the reliable list was queued before that of the other list. */
  predicate HeadFirst(o: Outbox) {
    o.reliable != [] && (o.outgoing == [] || TimeLess(o.reliable[0].queued, o.outgoing[0].queued))
  }

  /** One command has left its queue: of the two that are first in their lists the one that was queued first, but a
      reliable one only if it may be sent. */
  ghost predicate Sends(o: Outbox, o': Outbox, t: Terms) {
    if HeadFirst(o) && CanSend(o, t.limit) then o' == SendHead(o, t.now, t.rto)
    else o.outgoing != [] && o' == SendFirst(o, t)
  }

  /** A command of the other list is kept if it asks for an acknowledgement. */
  function SendFirst(o: Outbox, t: Terms): Outbox
    requires o.outgoing != []
  {
    if o.outgoing[0].flagged then SendControl(o, 0, t.now, t.rto) else o.(outgoing := Without(o.outgoing, 0))
  }

  ghost predicate Chain(trace: seq<Outbox>, t: Terms) {
    trace != [] && forall i :: 0 <= i < |trace| - 1 ==> Sends(trace[i], trace[i + 1], t)
  }

  lemma SendsGood(o: Outbox, o': Outbox, t: Terms, ceiling: nat)
    requires Good(o, ceiling) && Sends(o, o', t) && t.limit <= ceiling
    ensures Good(o', ceiling) && |o'.channels| == |o.channels|
  {
    hide Good, Blocked;
    if HeadFirst(o) && CanSend(o, t.limit) {
      SendHeadGood(o, t.now, t.rto, t.limit, ceiling);
    } else if o.outgoing[0].flagged {
      SendControlGood(o, 0, t.now, t.rto, ceiling);
    } else {
      DropUnflagged(o, 0, ceiling);
    }
  }

  /** A channel as the runs of a reliable channel see it moves by transmitting its next number, within
      the window limit, or not at all. */
  ghost predicate Transmits(f: int, open: set<nat>, f': int, open': set<nat>) {
    || (f' == f && open' == open)
    || (f' == f + 1 > 0 && open' == open + {f'} && (f' % WINDOW == 0 ==> WindowFree(open, f' / WINDOW)))
  }

  lemma SendsView(o: Outbox, o': Outbox, t: Terms, ceiling: nat, c: nat)
    requires Good(o, ceiling) && Sends(o, o', t) && c < |o.channels|
    ensures |o'.channels| == |o.channels| && o'.channels[c].last == o.channels[c].last
    ensures Transmits(Frontier(o, c), Open(o.All(), c), Frontier(o', c), Open(o'.All(), c))
  {
    hide Good, Blocked, Open, WindowFree, Frontier, InTurn;
    if HeadFirst(o) && CanSend(o, t.limit) {
      SendHeadView(o, t.now, t.rto, t.limit, ceiling, c);
      SendHeadLast(o, t.now, t.rto, c);
      FrontierPositive(o, ceiling, c);
    } else if o.outgoing[0].flagged {
      SendControlGood(o, 0, t.now, t.rto, ceiling);
    } else {
      DropUnflagged(o, 0, ceiling);
    }
  }

  lemma FrontierPositive(o: Outbox, ceiling: nat, c: nat)
    requires Good(o, ceiling) && c < |o.channels|
    ensures Frontier(o, c) >= 0
  {
    assert InTurn(o, c);
  }

  lemma DropUnflagged(o: Outbox, i: nat, ceiling: nat)
    requires Good(o, ceiling) && i < |o.outgoing| && !o.outgoing[i].flagged
    ensures Good(o.(outgoing := Without(o.outgoing, i)), ceiling) && SameView(o, o.(outgoing := Without(o.outgoing, i)))
  {
    hide Accounts, Unique, Near, Lengths, Fresh;
    WithoutAt(o.outgoing, i);
    AgainDrop(o.outgoing, i);
    OutgoingGood(o, o.(outgoing := Without(o.outgoing, i)), ceiling);
  }

  lemma ChainOn(trace: seq<Outbox>, o: Outbox, t: Terms)
    requires Chain(trace, t) && Sends(trace[|trace| - 1], o, t)
    ensures Chain(trace + [o], t)
  {
    hide Sends;
    var more := trace + [o];
    forall i | 0 <= i < |more| - 1 ensures Sends(more[i], more[i + 1], t) {
      if i < |trace| - 1 { assert more[i] == trace[i] && more[i + 1] == trace[i + 1]; }
    }
  }

  // ---- The sender of the runs ----

  /** Channel `c` is the sender of the world `w`: it has given out the numbers of `w`'s messages, and `j` more,
      and sent and kept the same of them. */
  ghost predicate Queueing(o: Outbox, c: nat, w: World, j: nat) {
    && c < |o.channels| && First(w.messages, |w.messages|) + j == o.channels[c].last + 1
    && w.frontier == Frontier(o, c) && w.open == Open(o.All(), c)
  }

  ghost predicate Plays(o: Outbox, c: nat, w: World) { Queueing(o, c, w, 0) }

  lemma SendsPlays(o: Outbox, o': Outbox, t: Terms, ceiling: nat, c: nat, w: World) returns (moved: bool)
    requires Good(o, ceiling) && Sends(o, o', t) && Plays(o, c, w)
    ensures moved ==> Enabled(w, Transmit)
    ensures Plays(o', c, if moved then Next(w, Transmit) else w)
  {
    hide Good, Sends, Open, WindowFree, First;
    SendsView(o, o', t, ceiling, c);
    moved := Frontier(o', c) != Frontier(o, c);
  }

  /** What the sending loop does to a channel is a run of the reliable channel: it transmits numbers in
      turn, each within the window limit. */
  lemma {:induction false} ChainPlays(trace: seq<Outbox>, t: Terms, ceiling: nat, c: nat, w: World) returns (run: seq<Event>)
    requires Chain(trace, t) && t.limit <= ceiling && Good(trace[0], ceiling) && Plays(trace[0], c, w)
    ensures forall e :: e in run ==> e == Transmit
    ensures Legal(w, run) && Plays(trace[|trace| - 1], c, After(w, run)) && Good(trace[|trace| - 1], ceiling)
    ensures |trace[|trace| - 1].channels| == |trace[0].channels|
    decreases |trace|
  {
    hide Good, Sends, Plays, Enabled, Next;
    var n := |trace| - 1;
    if n == 0 {
      run := [];
    } else {
      assert trace[..n][n - 1] == trace[n - 1] && Chain(trace[..n], t);
      run := ChainPlays(trace[..n], t, ceiling, c, w);
      assert Sends(trace[n - 1], trace[n], t);
      SendsGood(trace[n - 1], trace[n], t, ceiling);
      var moved := SendsPlays(trace[n - 1], trace[n], t, ceiling, c, After(w, run));
      if moved {
        RunOn(w, run, Transmit);
        run := run + [Transmit];
      }
    }
  }

  /** Every command that is queued takes the next number of its channel, and is nothing to the others. */
  lemma QueueOn(o: Outbox, d: nat, length: nat, queued: u32, ceiling: nat, c: nat, w: World, j: nat)
    requires Good(o, ceiling) && Queueing(o, c, w, j) && d < |o.channels|
    ensures Queueing(Queue(o, d, length, queued), c, w, if d == c then j + 1 else j)
  {
    hide Good, Open, Frontier, First;
    QueueGood(o, d, length, queued, ceiling);
  }

  /** Queueing as many commands as a message has is sending it. */
  lemma QueuePlays(o: Outbox, c: nat, w: World, m: Message)
    requires m.Valid() && Queueing(o, c, w, m.Count())
    ensures Enabled(w, Send(m)) && Plays(o, c, Next(w, Send(m)))
  {
    hide Open, Frontier, Message.Count;
    FirstAppend(w.messages, m, |w.messages|);
  }

  /** What changes nothing for the channels is no event. */
  lemma SamePlays(o: Outbox, o': Outbox, c: nat, w: World)
    requires SameView(o, o') && Plays(o, c, w)
    ensures Plays(o', c, w)
  {
  }

  /** Channel `c` has lost the numbers that look like `n`, if it is channel `d`, and nothing else. */
  ghost predicate Answered(o: Outbox, o': Outbox, c: nat, d: nat, seqno: u16) {
    && c < |o.channels| == |o'.channels| && Frontier(o', c) == Frontier(o, c) && o'.channels[c].last == o.channels[c].last
    && Open(o'.All(), c) == set n | n in Open(o.All(), c) && !(c == d && Wire(n) == seqno)
  }

  /** Taking in an acknowledgement is the event of that, for its channel, and none for the others. */
  lemma AnswerPlays(o: Outbox, o': Outbox, c: nat, d: nat, n: nat, w: World)
    requires Answered(o, o', c, d, Wire(n)) && Plays(o, c, w)
    ensures c != d ==> Plays(o', c, w)
    ensures c == d && Enabled(w, Acknowledge(n)) ==> Plays(o', c, Next(w, Acknowledge(n)))
  {
    hide Open, Frontier, First, Wire;
  }

  class Sender {
    var outgoing: seq<Outgoing>
    var reliable: seq<Outgoing>
    var sent: seq<Outgoing>
    var channels: seq<Channel>
    var transit: nat
    const mtu: nat
    const timeoutLimit: nat
    const timeoutMinimum: nat
    const timeoutMaximum: nat
    var earliest: u32
    /** The last number given to a command of the connection itself. */
    var controls: nat
    var windowSize: nat
    var throttle: nat

    function Box(): Outbox
      reads this
    {
      Outbox(outgoing, reliable, sent, channels, transit)
    }

    ghost predicate Valid()
      reads this
    {
      Good(Box(), Ceiling(mtu)) && windowSize <= 0x1_0000 && throttle <= THROTTLE_SCALE
    }

    /** A peer that has just connected. */
    constructor (channelCount: nat, mtu: nat, windowSize: nat, timeoutLimit: nat, timeoutMinimum: nat, timeoutMaximum: nat)
      requires windowSize <= 0x1_0000
      ensures Valid() && |channels| == channelCount && forall c :: 0 <= c < channelCount ==> Plays(Box(), c, Start())
    {
      hide Good;
      outgoing, reliable, sent, transit, earliest, controls := [], [], [], 0, 0, 0;
      channels := seq(channelCount, _ => Channel(seq(WINDOWS, _ => 0), {}, 0));
      this.mtu, this.windowSize, throttle := mtu, windowSize, THROTTLE_SCALE;
      this.timeoutLimit, this.timeoutMinimum, this.timeoutMaximum := timeoutLimit, timeoutMinimum, timeoutMaximum;
      new;
      EmptyGood(channels, Ceiling(mtu));
    }

    /** `enet_peer_setup_outgoing_command` for a packet on channel `c`. */
    method QueuePacket(c: nat, length: nat, queued: u32)
      requires Valid() && c < |channels|
      modifies this
      ensures Valid() && Box() == Queue(old(Box()), c, length, queued)
    {
      QueueGood(Box(), c, length, queued, Ceiling(mtu));
      hide Good;
      var n := channels[c].last + 1;
      channels := channels[c := channels[c].(last := n)];
      reliable := reliable + [Outgoing(c, n, 0, length, true, true, queued, 0, 0)];
    }

    /** The same for a command of the connection itself, which asks for an acknowledgement and carries no
        packet: a ping, a disconnect, a change of limits. */
    method QueueControl(queued: u32)
      requires Valid() && |channels| <= CONNECTION_CHANNEL
      modifies this
      ensures Valid() && SameView(old(Box()), Box()) && controls == old(controls) + 1
      ensures Box() == old(Box()).(outgoing :=
        old(outgoing) + [Outgoing(CONNECTION_CHANNEL, controls, 0, 0, false, true, queued, 0, 0)])
    {
      hide Good;
      ghost var o := Box();
      controls := controls + 1;
      outgoing := outgoing + [Outgoing(CONNECTION_CHANNEL, controls, 0, 0, false, true, queued, 0, 0)];
      AddOutgoing(o, outgoing[|outgoing| - 1], Ceiling(mtu));
    }

    /** The same for an unreliable packet on channel `c`: it has the number of the last reliable command. */
    method QueueUnreliable(c: nat, length: nat, queued: u32)
      requires Valid() && c < |channels|
      modifies this
      ensures Valid() && SameView(old(Box()), Box()) && controls == old(controls)
      ensures Box() == old(Box()).(outgoing :=
        old(outgoing) + [Outgoing(c, channels[c].last, 0, length, true, false, queued, 0, 0)])
    {
      hide Good;
      ghost var o := Box();
      outgoing := outgoing + [Outgoing(c, channels[c].last, 0, length, true, false, queued, 0, 0)];
      AddOutgoing(o, outgoing[|outgoing| - 1], Ceiling(mtu));
    }

    /** What may be in transit now. */
    function Limit(): (n: nat)
      reads this
      ensures throttle <= THROTTLE_SCALE && windowSize <= 0x1_0000 ==> n <= Ceiling(mtu)
    {
      Throttled(throttle, windowSize);
      var n := throttle * windowSize / THROTTLE_SCALE;
      if n > mtu then n else mtu
    }

    /** The first command of the reliable list must wait: for numbers of its channel to be acknowledged, or for data
        in transit to be. */
    ghost predicate HeadWaits()
      reads this
    {
      && reliable != []
      && var x := reliable[0];
         || (x.attempts == 0 && HeldBack(Open(Box().All(), x.channel), x.number))
         || (transit + x.length > mtu && transit + x.length > throttle * windowSize / 32)
    }

    /** The same, as the code tests it. */
    ghost predicate HeadStays()
      reads this
    {
      reliable != [] && !CanSend(Box(), Limit())
    }

    lemma StaysWaits()
      requires Valid()
      ensures HeadStays() <==> HeadWaits()
    {
      hide Good, Blocked, HeldBack, Open;
      if reliable != [] { BlockedWhen(Box(), Ceiling(mtu)); }
    }

    /** The reliable part of `enet_protocol_check_outgoing_commands`.  `space` is how many commands still
        fit into the datagram, and `left` what is left of it: if anything is, then all that may be sent
        has been sent. */
    method CheckOutgoing(now: u32, rto: nat, space: nat) returns (left: nat, ghost trace: seq<Outbox>)
      requires Valid()
      modifies this
      ensures Valid() && windowSize == old(windowSize) && throttle == old(throttle)
      ensures Chain(trace, Terms(Limit(), now, rto)) && trace[0] == old(Box()) && trace[|trace| - 1] == Box()
      ensures |trace| - 1 + left == space
      ensures left > 0 ==> outgoing == [] && (reliable == [] || HeadWaits())
    {
      hide Good, Sends, Chain, CanSend;
      var more := true;
      ghost var t := Terms(Limit(), now, rto);
      left := space;
      trace := [Box()];
      ChainOne(Box(), t);
      while true
        invariant Valid() && windowSize == old(windowSize) && throttle == old(throttle)
        invariant |trace| > 0 && Chain(trace, t) && trace[0] == old(Box()) && trace[|trace| - 1] == Box()
        invariant |trace| - 1 + left == space && (!more ==> HeadStays())
        decreases |outgoing| + |reliable|, more
      {
        if more && reliable != [] && (outgoing == [] || TimeLess(reliable[0].queued, outgoing[0].queued)) {
          HeadFits(Box(), Ceiling(mtu));
          CanSendWhen(Box(), Limit());
          if Blocked(Box(), reliable[0]) || transit + reliable[0].length > Limit() {
            more := false;
          } else if left == 0 {
            break;
          } else {
            trace := TransmitHead(now, rto, trace);
            left := left - 1;
          }
        } else if outgoing != [] {
          if left == 0 {
            break;
          }
          ghost var before := Box();
          trace := TransmitFirst(now, rto, trace);
          if !more {
            CanSendSame(before, Box(), Limit());
          }
          left := left - 1;
        } else {
          break;
        }
      }
      StaysWaits();
    }

    method TransmitHead(now: u32, rto: nat, ghost trace: seq<Outbox>) returns (ghost trace': seq<Outbox>)
      requires Valid() && HeadFirst(Box()) && CanSend(Box(), Limit())
      requires Chain(trace, Terms(Limit(), now, rto)) && trace[|trace| - 1] == Box()
      modifies this
      ensures Valid() && windowSize == old(windowSize) && throttle == old(throttle)
      ensures Box() == SendHead(old(Box()), now, rto)
      ensures trace' == trace + [Box()] && Chain(trace', Terms(Limit(), now, rto))
    {
      hide Good, Chain, Blocked;
      SendHeadGood(Box(), now, rto, Limit(), Ceiling(mtu));
      ghost var o := Box();
      var x := reliable[0];
      if x.attempts < 1 {
        channels := channels[x.channel := Enter(channels[x.channel], x.Window())];
      }
      reliable, sent, transit := reliable[1..], sent + [Stamped(x, now, rto)], transit + x.length;
      trace' := trace + [Box()];
      assert Sends(o, Box(), Terms(Limit(), now, rto));
      ChainOn(trace, Box(), Terms(Limit(), now, rto));
    }

    /** A command of the other list: sent and kept if it asks for an acknowledgement, and dropped if not. */
    method TransmitFirst(now: u32, rto: nat, ghost trace: seq<Outbox>) returns (ghost trace': seq<Outbox>)
      requires Valid() && outgoing != [] && !(HeadFirst(Box()) && CanSend(Box(), Limit()))
      requires Chain(trace, Terms(Limit(), now, rto)) && trace[|trace| - 1] == Box()
      modifies this
      ensures Valid() && windowSize == old(windowSize) && throttle == old(throttle)
      ensures outgoing == old(outgoing)[1..] && reliable == old(reliable)
      ensures channels == old(channels) && transit == old(transit)
      ensures Box() == SendFirst(old(Box()), Terms(Limit(), now, rto))
      ensures trace' == trace + [Box()] && Chain(trace', Terms(Limit(), now, rto))
    {
      hide Good, Chain, CanSend;
      ghost var o := Box();
      assert Without(outgoing, 0) == outgoing[1..];
      if outgoing[0].flagged {
        SendControlGood(o, 0, now, rto, Ceiling(mtu));
        ControlLength(o, 0, Ceiling(mtu));
        sent, transit := sent + [Stamped(outgoing[0], now, rto)], transit + outgoing[0].length;
      } else {
        DropUnflagged(o, 0, Ceiling(mtu));
      }
      outgoing := outgoing[1..];
      trace' := trace + [Box()];
      ChainOn(trace, Box(), Terms(Limit(), now, rto));
    }

    method PutBack(i: nat, p: nat)
      requires i < |sent| && p <= |if sent[i].packet then reliable else outgoing|
      requires sent[i].packet ==> sent[i].length <= transit
      modifies this
      ensures Box() == Requeue(old(Box()), i, p)
      ensures windowSize == old(windowSize) && throttle == old(throttle) && earliest == old(earliest)
    {
      var x := sent[i].(timeout := 2 * sent[i].timeout);
      sent := sent[..i] + sent[i + 1..];
      if x.packet {
        transit := transit - x.length;
        reliable := reliable[..p] + [x] + reliable[p..];
      } else {
        outgoing := outgoing[..p] + [x] + outgoing[p..];
      }
    }

    /** The `i`th sent command, whose time is up, goes back behind those that went before it. */
    method Retry(i: nat, p: nat, q: nat, now: u32, ghost o: Outbox, ghost k: nat) returns (p': nat, q': nat)
      requires Valid() && SameView(o, Box()) && k < |o.sent| && Expiring(o, Box(), now, k, i, p, q)
      requires i < |sent| && sent[i] == o.sent[k] && Due(sent[i], now)
      modifies this
      ensures Valid() && SameView(o, Box()) && Expiring(o, Box(), now, k + 1, i, p', q')
      ensures windowSize == old(windowSize) && throttle == old(throttle) && earliest == old(earliest)
    {
      hide Good, SameView, Due, Expiring, AllAgain, Requeue, Lengths;
      ghost var b := Box();
      var x := sent[i];
      ExpiringHere(o, b, now, k, i, p, q);
      RequeueGood(b, i, if x.packet then p else q, Ceiling(mtu));
      ExpiringAgain(o, b, now, k, i, p, q);
      SameViewOn(o, b, Requeue(b, i, if x.packet then p else q));
      PutBack(i, if x.packet then p else q);
      p', q' := if x.packet then p + 1 else p, if x.packet then q else q + 1;
    }

    /** The time of the `k`th command is up, and the earliest command whose time has been up is so old that
        the peer is given up. */
    predicate Hopeless(s: seq<Outgoing>, k: nat, now: u32, since: u32) {
      && k < |s| && Due(s[k], now)
      && GivesUp(now, Earliest(s[..k + 1], now, since), s[k].attempts, timeoutLimit, timeoutMinimum, timeoutMaximum)
    }

    lemma HopelessWhen(s: seq<Outgoing>, k: nat, now: u32, since: u32)
      requires k < |s|
      ensures Hopeless(s, k, now, since) <==>
        Due(s[k], now)
        && GivesUp(now, Earliest(s[..k + 1], now, since), s[k].attempts, timeoutLimit, timeoutMinimum, timeoutMaximum)
    {
    }

    /** `enet_protocol_check_timeouts`: the commands whose time is up go back to the heads of their queues,
        in order, unless at one of them the peer has been silent for so long that it is given up. */
    method CheckTimeouts(now: u32) returns (gaveUp: bool)
      requires Valid()
      modifies this
      ensures Valid() && SameView(old(Box()), Box()) && windowSize == old(windowSize) && throttle == old(throttle)
      ensures gaveUp <==> exists k :: 0 <= k < |old(sent)| && Hopeless(old(sent), k, now, old(earliest))
      ensures !gaveUp ==> Box() == Expired(old(Box()), now) && earliest == Earliest(old(sent), now, old(earliest))
    {
      hide Good, SameView, Due, Expiring, AllAgain, GivesUp, Requeue, Earliest, TimeLess, Waiting, Again, Expired, Lengths, Hopeless;
      ghost var o, k: nat := Box(), 0;
      var i, p, q := 0, 0, 0;
      ExpiredStarts(o, now);
      EarliestNone(o.sent, now, earliest);
      while i < |sent|
        invariant Valid() && SameView(o, Box()) && windowSize == old(windowSize) && throttle == old(throttle)
        invariant k <= |o.sent| && Expiring(o, Box(), now, k, i, p, q)
        invariant earliest == Earliest(o.sent[..k], now, old(earliest))
        invariant forall j :: 0 <= j < k ==> !Hopeless(o.sent, j, now, old(earliest))
        decreases |o.sent| - k
      {
        var x := sent[i];
        ghost var b := Box();
        ExpiringHere(o, b, now, k, i, p, q);
        EarliestOn(o.sent, k, now, old(earliest));
        HopelessWhen(o.sent, k, now, old(earliest));
        if !Due(x, now) {
          ExpiringWaits(o, b, now, k, i, p, q);
          i := i + 1;
        } else {
          if earliest == 0 || TimeLess(x.sentAt, earliest) {
            earliest := x.sentAt;
          }
          if GivesUp(now, earliest, x.attempts, timeoutLimit, timeoutMinimum, timeoutMaximum) {
            assert Hopeless(o.sent, k, now, old(earliest));
            return true;
          }
          p, q := Retry(i, p, q, now, o, k);
        }
        k := k + 1;
      }
      ExpiringEnds(o, Box(), now, k, i, p, q, Ceiling(mtu));
      assert o.sent[..k] == o.sent;
      gaveUp := false;
    }

    /** The search for an acknowledged command in a queue.  It stops at the first command that has not
        been sent; none that has been sent is behind that. */
    method FindSent(list: seq<Outgoing>, seqno: u16, channel: nat) returns (i: nat)
      requires AgainFirst(list)
      ensures i == FirstAnswer(list, seqno, channel)
    {
      i := 0;
      while i < |list|
        invariant i <= |list| && forall j :: 0 <= j < i ==> !Answers(list[j], seqno, channel)
      {
        if list[i].flagged {
          if list[i].attempts < 1 {
            FirstAnswerIs(list, seqno, channel, |list|);
            return |list|;
          }
          if Wire(list[i].number) == seqno && list[i].channel == channel {
            FirstAnswerIs(list, seqno, channel, i);
            return;
          }
        }
        i := i + 1;
      }
      FirstAnswerIs(list, seqno, channel, i);
    }

    /** `enet_protocol_remove_sent_reliable_command`. */
    method RemoveAcknowledged(seqno: u16, channel: nat) returns (found: bool)
      requires Valid()
      modifies this
      ensures Valid() && |channels| == |old(channels)|
      ensures Removes(old(Box()), Box(), found, seqno, channel)
      ensures channel < |channels| ==> (found <==> exists n :: n in Open(old(Box()).All(), channel) && Wire(n) == seqno)
      ensures forall c :: 0 <= c < |channels| ==> Answered(old(Box()), Box(), c, channel, seqno)
    {
      hide Good, Open, Frontier, Left, Answered, SameView, Forgets;
      ghost var o := Box();
      GoodQueues(o, Ceiling(mtu));
      var i := 0;
      while i < |sent| && !(Wire(sent[i].number) == seqno && sent[i].channel == channel)
        invariant i <= |sent| && forall j :: 0 <= j < i ==> !(Wire(sent[j].number) == seqno && sent[j].channel == channel)
      {
        i := i + 1;
      }
      FirstAnswerIs(sent, seqno, channel, i);
      found := true;
      if i < |sent| {
        RemoveSentGood(o, i, Ceiling(mtu));
        ForgetsWire(o, RemoveSent(o, i), Ceiling(mtu), channel, sent[i].number, i);
        var x := sent[i];
        sent, channels := sent[..i] + sent[i + 1..], Left(Box(), channel, seqno);
        if x.packet {
          transit := transit - x.length;
        }
        return;
      }
      i := FindSent(outgoing, seqno, channel);
      FirstAnswerHolds(outgoing, seqno, channel);
      if i < |outgoing| {
        ControlAnswers(o, Ceiling(mtu), i, seqno, channel);
        RemoveControlGood(o, i, Ceiling(mtu));
        SameAnswered(o, RemoveControl(o, i), seqno, channel);
        outgoing, channels := outgoing[..i] + outgoing[i + 1..], Left(Box(), channel, seqno);
        return;
      }
      i := FindSent(reliable, seqno, channel);
      FirstAnswerHolds(reliable, seqno, channel);
      if i < |reliable| {
        RemoveQueuedGood(o, i, Ceiling(mtu));
        ForgetsWire(o, RemoveQueued(o, i), Ceiling(mtu), channel, reliable[i].number, |o.sent| + i);
        reliable, channels := reliable[..i] + reliable[i + 1..], Left(Box(), channel, seqno);
        return;
      }
      found := false;
      NoneOpen(o, Ceiling(mtu), seqno, channel);
      SameAnswered(o, o, seqno, channel);
    }
  }

  // ---- Timeouts ----

  predicate Due(x: Outgoing, now: u32) { TimeDifference(now, x.sentAt) >= x.timeout }

  predicate GivesUp(now: u32, earliest: u32, attempts: nat, limit: nat, minimum: nat, maximum: nat) {
    && earliest != 0
    && (|| TimeDifference(now, earliest) >= maximum
        || (Power(if attempts > 0 then attempts - 1 else 0) >= limit && TimeDifference(now, earliest) >= minimum))
  }

  lemma {:induction false} PowerGrows(n: nat)
    ensures Power(n) >= 32 <==> n >= 5
    ensures Power(n) >= 1
  {
    if n <= 5 {
      assert Power(1) == 2 && Power(2) == 4 && Power(3) == 8 && Power(4) == 16 && Power(5) == 32;
    } else {
      PowerGrows(n - 1);
    }
  }

  /** With the default limit of 32, a peer is given up when the earliest timeout is as old as the maximum, or as the
      minimum if the command has been sent six times. */
  lemma GivenUpWhen(now: u32, earliest: u32, attempts: nat, minimum: nat, maximum: nat)
    ensures GivesUp(now, earliest, attempts, 32, minimum, maximum) <==>
      earliest != 0 && (TimeDifference(now, earliest) >= maximum || (attempts >= 6 && TimeDifference(now, earliest) >= minimum))
  {
    PowerGrows(if attempts > 0 then attempts - 1 else 0);
  }

  /** The time stamp is not 0, which stands for none, and lies in the twelve hours before `now`. */
  predicate Recent(t: u32, now: u32) { t != 0 && (now - t) % 0x1_0000_0000 < 43200000 }

  lemma RecentLess(a: u32, b: u32, now: u32)
    requires Recent(a, now) && Recent(b, now)
    ensures TimeLess(a, b) <==> TimeDifference(now, a) > TimeDifference(now, b)
    ensures TimeDifference(now, a) == (now - a) % 0x1_0000_0000
  {
    var x, y := (now - a) % 0x1_0000_0000, (now - b) % 0x1_0000_0000;
    assert (a - b) % 0x1_0000_0000 == (y - x) % 0x1_0000_0000;
  }

  /** With recent times, the earliest is one of the commands whose time is up, or the one known before; none of them is
      earlier. */
  lemma {:induction false} EarliestIs(s: seq<Outgoing>, now: u32, since: u32)
    requires (since != 0 ==> Recent(since, now)) && forall x :: x in s && Due(x, now) ==> Recent(x.sentAt, now)
    ensures var e := Earliest(s, now, since);
      && (e == 0 <==> since == 0 && forall x :: x in s ==> !Due(x, now))
      && (e != 0 ==> Recent(e, now) && (e == since || exists x :: x in s && Due(x, now) && x.sentAt == e))
      && (since != 0 ==> TimeDifference(now, since) <= TimeDifference(now, e))
      && (forall x :: x in s && Due(x, now) ==> TimeDifference(now, x.sentAt) <= TimeDifference(now, e))
  {
    hide Due, Recent, TimeLess, TimeDifference;
    if s != [] {
      var r, x := s[..|s| - 1], s[|s| - 1];
      assert s == r + [x];
      EarliestIs(r, now, since);
      var e := Earliest(r, now, since);
      if Due(x, now) && e != 0 {
        RecentLess(x.sentAt, e, now);
      }
      if Due(x, now) { RecentNotNone(x.sentAt, now); }
    }
  }

  lemma RecentNotNone(t: u32, now: u32)
    requires Recent(t, now)
    ensures t != 0
  {
  }

  /** The commands whose time is not up. */
  function Waiting(s: seq<Outgoing>, now: u32): seq<Outgoing> {
    if s == [] then []
    else Waiting(s[..|s| - 1], now) + if Due(s[|s| - 1], now) then [] else [s[|s| - 1]]
  }

  /** The commands, with or without a packet, whose time is up, with twice the time. */
  function Again(s: seq<Outgoing>, now: u32, packet: bool): seq<Outgoing> {
    if s == [] then []
    else
      var x := s[|s| - 1];
      Again(s[..|s| - 1], now, packet) + if Due(x, now) && x.packet == packet then [x.(timeout := 2 * x.timeout)] else []
  }

  /** When the earliest command was sent whose time is or was up: the one known before, or one of these. */
  function Earliest(s: seq<Outgoing>, now: u32, since: u32): u32 {
    if s == [] then since
    else
      var e, x := Earliest(s[..|s| - 1], now, since), s[|s| - 1];
      if Due(x, now) && (e == 0 || TimeLess(x.sentAt, e)) then x.sentAt else e
  }

  lemma EarliestNone(s: seq<Outgoing>, now: u32, since: u32)
    ensures Earliest(s[..0], now, since) == since
  {
  }

  lemma EarliestOn(s: seq<Outgoing>, k: nat, now: u32, since: u32)
    requires k < |s|
    ensures var e, x := Earliest(s[..k], now, since), s[k];
            Earliest(s[..k + 1], now, since) == if Due(x, now) && (e == 0 || TimeLess(x.sentAt, e)) then x.sentAt else e
  {
    assert s[..k + 1][..k] == s[..k];
  }

  function Expired(o: Outbox, now: u32): Outbox {
    Outbox(Again(o.sent, now, false) + o.outgoing, Again(o.sent, now, true) + o.reliable, Waiting(o.sent, now),
           o.channels, Lengths(Waiting(o.sent, now)))
  }

  /** A command whose time is up is in its queue again, with twice the time; the others are waited for as before. */
  lemma {:induction false} ExpiredHas(s: seq<Outgoing>, now: u32, i: nat)
    requires i < |s|
    ensures Due(s[i], now) ==> s[i].(timeout := 2 * s[i].timeout) in Again(s, now, s[i].packet)
    ensures !Due(s[i], now) ==> s[i] in Waiting(s, now)
  {
    hide Due;
    if i < |s| - 1 {
      ExpiredHas(s[..|s| - 1], now, i);
    }
  }

  /** The first `k` sent commands have been looked at. */
  ghost predicate Expiring(o: Outbox, b: Outbox, now: u32, k: nat, i: nat, p: nat, q: nat)
    requires k <= |o.sent|
  {
    && i == |Waiting(o.sent[..k], now)| && p == |Again(o.sent[..k], now, true)| && q == |Again(o.sent[..k], now, false)|
    && b.sent == Waiting(o.sent[..k], now) + o.sent[k..] && b.channels == o.channels
    && b.reliable == Again(o.sent[..k], now, true) + o.reliable && b.outgoing == Again(o.sent[..k], now, false) + o.outgoing
    && AllAgain(b.reliable, p) && AllAgain(b.outgoing, q)
  }

  lemma ExpiredStarts(o: Outbox, now: u32)
    ensures Expiring(o, o, now, 0, 0, 0, 0) && SameView(o, o)
  {
    assert o.sent[..0] == [] && [] + o.sent[0..] == o.sent && [] + o.reliable == o.reliable && [] + o.outgoing == o.outgoing;
  }

  lemma ExpiringHere(o: Outbox, b: Outbox, now: u32, k: nat, i: nat, p: nat, q: nat)
    requires k <= |o.sent| && Expiring(o, b, now, k, i, p, q) && i < |b.sent|
    ensures k < |o.sent| && b.sent[i] == o.sent[k] && p <= |b.reliable| && q <= |b.outgoing|
    ensures AllAgain(b.reliable, p) && AllAgain(b.outgoing, q)
  {
  }

  lemma TakeOne(s: seq<Outgoing>, k: nat, now: u32)
    requires k < |s|
    ensures var x := s[k];
      && Waiting(s[..k + 1], now) == Waiting(s[..k], now) + (if Due(x, now) then [] else [x])
      && (forall packet :: Again(s[..k + 1], now, packet) ==
            Again(s[..k], now, packet) + if Due(x, now) && x.packet == packet then [x.(timeout := 2 * x.timeout)] else [])
  {
    assert s[..k + 1][..k] == s[..k];
  }

  lemma ExpiringWaits(o: Outbox, b: Outbox, now: u32, k: nat, i: nat, p: nat, q: nat)
    requires k < |o.sent| && Expiring(o, b, now, k, i, p, q) && !Due(o.sent[k], now)
    ensures Expiring(o, b, now, k + 1, i + 1, p, q)
  {
    hide Waiting, Again, Due;
    TakeOne(o.sent, k, now);
    var x := o.sent[k];
    assert o.sent[k..] == [x] + o.sent[k + 1..];
    assert Waiting(o.sent[..k], now) + ([x] + o.sent[k + 1..]) == Waiting(o.sent[..k], now) + [x] + o.sent[k + 1..];
  }

  lemma ExpiringAgain(o: Outbox, b: Outbox, now: u32, k: nat, i: nat, p: nat, q: nat)
    requires k < |o.sent| && Expiring(o, b, now, k, i, p, q) && Due(o.sent[k], now) && i < |b.sent| && b.sent[i] == o.sent[k]
    requires b.sent[i].packet ==> b.sent[i].length <= b.transit
    requires var x := o.sent[k]; var b' := Requeue(b, i, if x.packet then p else q);
      AllAgain(if x.packet then b'.reliable else b'.outgoing, (if x.packet then p else q) + 1)
    ensures var x := o.sent[k];
      Expiring(o, Requeue(b, i, if x.packet then p else q), now, k + 1, i, if x.packet then p + 1 else p, if x.packet then q else q + 1)
  {
    hide Waiting, Again, Due, AllAgain, With, Without;
    TakeOne(o.sent, k, now);
    var x := o.sent[k];
    var y := x.(timeout := 2 * x.timeout);
    Skipped(Waiting(o.sent[..k], now), o.sent, k);
    Joined(Again(o.sent[..k], now, true), o.reliable, y);
    Joined(Again(o.sent[..k], now, false), o.outgoing, y);
    assert Again(o.sent[..k], now, true) + [] == Again(o.sent[..k], now, true);
    assert Again(o.sent[..k], now, false) + [] == Again(o.sent[..k], now, false);
    assert Waiting(o.sent[..k], now) + [] == Waiting(o.sent[..k], now);
  }

  lemma Skipped(w: seq<Outgoing>, s: seq<Outgoing>, k: nat)
    requires k < |s|
    ensures |w| < |w + s[k..]| && Without(w + s[k..], |w|) == w + s[k + 1..]
  {
  }

  lemma Joined(a: seq<Outgoing>, s: seq<Outgoing>, y: Outgoing)
    ensures |a| <= |a + s| && With(a + s, |a|, y) == a + [y] + s
  {
  }

  lemma ExpiringEnds(o: Outbox, b: Outbox, now: u32, k: nat, i: nat, p: nat, q: nat, ceiling: nat)
    requires k <= |o.sent| && Expiring(o, b, now, k, i, p, q) && i >= |b.sent| && Good(b, ceiling)
    ensures k == |o.sent| && b == Expired(o, now)
  {
    hide Waiting, Again, Kinds, Accounts, Unique, InTurn, Near, AgainFirst, Lengths;
    assert k == |o.sent| && o.sent[..k] == o.sent;
    assert Waiting(o.sent, now) + o.sent[k..] == Waiting(o.sent, now);
  }

  lemma SameViewOn(o: Outbox, b: Outbox, b': Outbox)
    requires SameView(o, b) && SameView(b, b')
    ensures SameView(o, b')
  {
    hide Frontier, Open;
  }

  /** The command that an acknowledgement is for. */
  predicate Answers(x: Outgoing, seqno: u16, channel: nat) {
    x.flagged && x.attempts >= 1 && Wire(x.number) == seqno && x.channel == channel
  }

  /** Where the first command of a list is that the acknowledgement is for, or the end. */
  function FirstAnswer(s: seq<Outgoing>, seqno: u16, channel: nat): (i: nat)
    ensures i <= |s|
  {
    if s == [] || Answers(s[0], seqno, channel) then 0 else 1 + FirstAnswer(s[1..], seqno, channel)
  }

  lemma {:induction false} FirstAnswerIs(s: seq<Outgoing>, seqno: u16, channel: nat, i: nat)
    requires i <= |s| && (i < |s| ==> Answers(s[i], seqno, channel))
    requires forall j :: 0 <= j < i ==> !Answers(s[j], seqno, channel)
    ensures FirstAnswer(s, seqno, channel) == i
    decreases |s|
  {
    hide Answers;
    if i > 0 { FirstAnswerIs(s[1..], seqno, channel, i - 1); }
  }

  lemma {:induction false} FirstAnswerHolds(s: seq<Outgoing>, seqno: u16, channel: nat)
    ensures var i := FirstAnswer(s, seqno, channel);
      && (i < |s| ==> Answers(s[i], seqno, channel)) && forall j :: 0 <= j < i ==> !Answers(s[j], seqno, channel)
    decreases |s|
  {
    hide Answers;
    if s != [] && !Answers(s[0], seqno, channel) {
      FirstAnswerHolds(s[1..], seqno, channel);
      assert forall j :: 0 < j < |s| ==> s[j] == s[1..][j - 1];
    }
  }

  /** The acknowledgement takes out the first command it is for: of those sent, else of the control
      commands to be sent again, else of the packets to be sent again. */
  ghost predicate Removes(o: Outbox, o': Outbox, found: bool, seqno: u16, channel: nat) {
    var i, j, k := FirstAnswer(o.sent, seqno, channel), FirstAnswer(o.outgoing, seqno, channel),
                   FirstAnswer(o.reliable, seqno, channel);
    if i < |o.sent| then found && o.sent[i].length <= o.transit && o' == RemoveSent(o, i)
    else if j < |o.outgoing| then found && o' == RemoveControl(o, j)
    else if k < |o.reliable| then found && o' == RemoveQueued(o, k)
    else !found && o' == o
  }

  lemma AddOutgoing(o: Outbox, x: Outgoing, ceiling: nat)
    requires Good(o, ceiling) && x.attempts == 0 && (x.flagged ==> Control(x, |o.channels|))
    ensures Good(o.(outgoing := o.outgoing + [x]), ceiling) && SameView(o, o.(outgoing := o.outgoing + [x]))
  {
    hide Accounts, Unique, Near, Lengths, Fresh, Control;
    OutgoingGood(o, o.(outgoing := o.outgoing + [x]), ceiling);
  }

  lemma SameAnswered(o: Outbox, o': Outbox, seqno: u16, channel: nat)
    requires o' == o || SameView(o, o')
    requires channel < |o.channels| ==> forall n :: n in Open(o.All(), channel) ==> Wire(n) != seqno
    ensures |o'.channels| == |o.channels| && forall c :: 0 <= c < |o.channels| ==> Answered(o, o', c, channel, seqno)
  {
    hide Open, Frontier, Wire;
  }

  lemma GoodQueues(o: Outbox, ceiling: nat)
    requires Good(o, ceiling)
    ensures AgainFirst(o.reliable) && AgainFirst(o.outgoing)
    ensures forall i :: 0 <= i < |o.sent| ==> o.sent[i].flagged && o.sent[i].attempts >= 1
  {
  }

  /** Open numbers of a channel differ in their 16 bits, so forgetting one is forgetting all that look
      like it. */
  lemma ForgetsWire(o: Outbox, o': Outbox, ceiling: nat, d: nat, n: nat, k: nat)
    requires Good(o, ceiling) && Forgets(o, o', d, n)
    requires k < |o.All()| && o.All()[k].channel == d && o.All()[k].number == n && o.All()[k].attempts >= 1
    ensures |o'.channels| == |o.channels| && forall c :: 0 <= c < |o.channels| ==> Answered(o, o', c, d, Wire(n))
    ensures d < |o.channels| ==> n in Open(o.All(), d)
  {
    hide Kinds, Accounts, Unique, InTurn, AgainFirst, Lengths, Frontier, Wire;
    forall c | 0 <= c < |o.channels|
      ensures Open(o'.All(), c) == set m | m in Open(o.All(), c) && !(c == d && Wire(m) == Wire(n))
    {
      assert Near(o.All(), c, Frontier(o, c));
      if c == d {
        assert o.All()[k].Live(c) && n in Open(o.All(), c);
        forall m | m in Open(o.All(), c) && Wire(m) == Wire(n) ensures m == n {
          NearWire(o.All(), c, Frontier(o, c), m, n);
        }
      }
    }
  }

  lemma NearWire(all: seq<Outgoing>, c: nat, f: int, m: nat, n: nat)
    requires Near(all, c, f) && m in Open(all, c) && n in Open(all, c) && Wire(m) == Wire(n)
    ensures m == n
  {
    hide Wire;
    var i :| 0 <= i < |all| && all[i].Live(c) && all[i].number == m;
    var j :| 0 <= j < |all| && all[j].Live(c) && all[j].number == n;
    WireUnique(m, n);
  }

  lemma CanSendWhen(o: Outbox, limit: nat)
    requires o.reliable != [] && o.reliable[0].channel < |o.channels| && |o.channels[o.reliable[0].channel].windows| == WINDOWS
    ensures CanSend(o, limit) <==> !Blocked(o, o.reliable[0]) && o.transit + o.reliable[0].length <= limit
  {
    hide Blocked;
  }

  lemma CanSendSame(o: Outbox, o': Outbox, limit: nat)
    requires o'.channels == o.channels && o'.reliable == o.reliable && o'.transit == o.transit
    ensures CanSend(o, limit) <==> CanSend(o', limit)
  {
  }

  lemma ControlLength(o: Outbox, i: nat, ceiling: nat)
    requires Good(o, ceiling) && i < |o.outgoing| && o.outgoing[i].flagged
    ensures o.outgoing[i].length == 0
  {
  }

  lemma ControlAnswers(o: Outbox, ceiling: nat, i: nat, seqno: u16, channel: nat)
    requires Good(o, ceiling) && i < |o.outgoing| && Answers(o.outgoing[i], seqno, channel)
    ensures channel >= |o.channels|
  {
  }

  lemma NoneOpen(o: Outbox, ceiling: nat, seqno: u16, channel: nat)
    requires Good(o, ceiling)
    requires forall j :: 0 <= j < |o.sent| ==> !(Wire(o.sent[j].number) == seqno && o.sent[j].channel == channel)
    requires forall j :: 0 <= j < |o.reliable| ==> !Answers(o.reliable[j], seqno, channel)
    ensures forall n :: n in Open(o.All(), channel) ==> Wire(n) != seqno
  {
    hide Wire, Accounts, Unique, InTurn, Near, AgainFirst, Lengths;
    forall n | n in Open(o.All(), channel) ensures Wire(n) != seqno {
      var j :| 0 <= j < |o.All()| && o.All()[j].Live(channel) && o.All()[j].number == n;
      if j >= |o.sent| { assert o.All()[j] == o.reliable[j - |o.sent|]; }
    }
  }

  lemma Throttled(throttle: nat, size: nat)
    ensures throttle <= THROTTLE_SCALE && size <= 0x1_0000 ==> throttle * size / THROTTLE_SCALE <= 0x1_0000
  {
    if throttle <= THROTTLE_SCALE && size <= 0x1_0000 {
      assert throttle * size <= THROTTLE_SCALE * 0x1_0000;
    }
  }

  lemma EmptyGood(channels: seq<Channel>, ceiling: nat)
    requires forall c :: 0 <= c < |channels| ==> channels[c] == Channel(seq(WINDOWS, _ => 0), {}, 0)
    ensures Good(Outbox([], [], [], channels, 0), ceiling)
  {
    var o := Outbox([], [], [], channels, 0);
    forall c | 0 <= c < |channels| ensures Accounted(channels[c], o.All(), c) && InTurn(o, c) && Near(o.All(), c, Frontier(o, c)) {
    }
  }

  lemma ChainOne(o: Outbox, t: Terms)
    ensures Chain([o], t)
  {
  }

  lemma HeadFits(o: Outbox, ceiling: nat)
    requires Good(o, ceiling) && o.reliable != []
    ensures o.reliable[0].channel < |o.channels| && |o.channels[o.reliable[0].channel].windows| == WINDOWS
  {
    assert Accounted(o.channels[o.reliable[0].channel], o.All(), o.reliable[0].channel);
  }

  /** The numbers a channel has open never span more than seven windows. */
  lemma SevenWindows(o: Outbox, ceiling: nat, c: nat, m: nat, n: nat)
    requires Good(o, ceiling) && c < |o.channels| && m in Open(o.All(), c) && n in Open(o.All(), c)
    ensures m / WINDOW <= n / WINDOW + 6
  {
    hide Kinds, Accounts, Unique, InTurn, AgainFirst, Lengths, Frontier;
    assert Near(o.All(), c, Frontier(o, c));
    var i :| 0 <= i < |o.All()| && o.All()[i].Live(c) && o.All()[i].number == m;
    var j :| 0 <= j < |o.All()| && o.All()[j].Live(c) && o.All()[j].number == n;
    WindowMonotone(m, if Frontier(o, c) >= 0 then Frontier(o, c) else m);
  }
}
