/**
 A reliable channel between the two classes: one channel of a sender, and the receiver at its other end.
 */
module ReliableLinks {
  import opened Basics
  import opened Words
  import opened SequenceWindows
  import opened ReliableReceivers
  import opened ReliableMessages
  import opened ReliableMirror
  import opened ReliableRuns
  import opened ReliableOutboxes
  import opened ReliableAccounts
  import opened ReliableSenders
  import opened ReliableProgress

  class ReliableLink {
    const sender: Sender
    const receiver: Receiver
    const c: nat
    /** The run of the channel so far. */
    ghost var run: seq<Event>

    /** The run is a legal one, and has led to where the two sides are. */
    ghost predicate Valid()
      reads this, sender, receiver
    {
      && sender.Valid() && Legal(Start(), run) && Plays(sender.Box(), c, After(Start(), run))
      && After(Start(), run).inbox == receiver.State() && |sender.channels| <= CONNECTION_CHANNEL
    }

    ghost function World(): World
      requires Legal(Start(), run)
      reads this
    {
      After(Start(), run)
    }

    constructor (c: nat, channelCount: nat, mtu: nat, windowSize: nat, timeoutLimit: nat, timeoutMinimum: nat, timeoutMaximum: nat)
      requires windowSize <= 0x1_0000 && c < channelCount <= CONNECTION_CHANNEL
      ensures Valid() && run == [] && fresh(sender) && fresh(receiver)
    {
      this.c, run := c, [];
      sender := new Sender(channelCount, mtu, windowSize, timeoutLimit, timeoutMinimum, timeoutMaximum);
      receiver := new Receiver();
    }

    /** `enet_peer_send` for a reliable packet: a command for each of its fragments, or one for the whole. */
    method Send(m: Message, queued: u32)
      requires Valid() && m.Valid()
      modifies this, sender
      ensures Valid() && run == old(run) + [Event.Send(m)]
    {
      hide Good, Open, Frontier, First, Message.Count, Message.Cut;
      ghost var w := World();
      if m.Whole? {
        WholeOne(m);
        QueueOn(sender.Box(), c, |m.data|, queued, Ceiling(sender.mtu), c, w, 0);
        sender.QueuePacket(c, |m.data|, queued);
      } else {
        var i := 0;
        while i < m.Count()
          invariant i <= m.Count() && sender.Valid() && Queueing(sender.Box(), c, w, i)
          invariant run == old(run) && receiver.State() == old(receiver.State()) && |sender.channels| <= CONNECTION_CHANNEL
        {
          CutBounds(m, i);
          var length := m.Cut(i + 1) - m.Cut(i);
          QueueOn(sender.Box(), c, length, queued, Ceiling(sender.mtu), c, w, i);
          sender.QueuePacket(c, length, queued);
          i := i + 1;
        }
      }
      QueuePlays(sender.Box(), c, w, m);
      Happens(Event.Send(m));
    }

    /** The event has happened. */
    ghost method Happens(e: Event)
      requires Legal(Start(), run) && Enabled(World(), e)
      modifies this
      ensures Legal(Start(), run) && run == old(run) + [e] && World() == Next(old(World()), e)
    {
      hide Enabled, Next;
      RunOn(Start(), run, e);
      run := run + [e];
    }

    /** What the sender queues besides: packets of other channels, unreliable ones, and control commands. */
    method SendOther(d: nat, length: nat, reliable: bool, queued: u32)
      requires Valid() && (d < |sender.channels| && reliable ==> d != c)
      modifies sender
      ensures Valid()
    {
      hide Good, Open, Frontier, First;
      ghost var o := sender.Box();
      if d >= |sender.channels| {
        sender.QueueControl(queued);
        SamePlays(o, sender.Box(), c, World());
      } else if reliable {
        QueueOn(o, d, length, queued, Ceiling(sender.mtu), c, World(), 0);
        sender.QueuePacket(d, length, queued);
      } else {
        sender.QueueUnreliable(d, length, queued);
        SamePlays(o, sender.Box(), c, World());
      }
    }

    /** The sending loop puts numbers of the channel on the network, in turn. */
    method Flush(now: u32, rto: nat, space: nat)
      requires Valid()
      modifies this, sender
      ensures Valid() && old(run) <= run && forall e :: e in run[|old(run)|..] ==> e == Transmit
    {
      hide Good, Chain, Plays;
      ghost var w := World();
      var left;
      ghost var trace;
      left, trace := sender.CheckOutgoing(now, rto, space);
      ghost var more := ChainPlays(trace, Terms(sender.Limit(), now, rto), Ceiling(sender.mtu), c, w);
      RunJoin(Start(), run, more);
      AfterInbox(w, more);
      run := run + more;
    }

    /** Commands whose time is up are to be sent again; for the channel this is no event. */
    method CheckTimeouts(now: u32) returns (gaveUp: bool)
      requires Valid()
      modifies sender
      ensures Valid()
    {
      hide Good;
      ghost var o := sender.Box();
      gaveUp := sender.CheckTimeouts(now);
      SamePlays(o, sender.Box(), c, World());
    }

    /** A copy of a command that has been transmitted arrives; the receiver may acknowledge it. */
    method Deliver(command: Command, room: bool, limit: nat, ghost k: nat, ghost i: nat) returns (ack: bool)
      requires Valid() && Enabled(World(), Event.Deliver(k, i, room, limit)) && command == CommandFor(World().messages, k, i)
      modifies this, receiver
      ensures Valid() && run == old(run) + [Event.Deliver(k, i, room, limit)]
      ensures Takes(old(World()).messages, old(receiver.State()), k, i, room, limit, receiver.State(), ack)
      ensures World().acked == old(World()).acked + if ack then {First(old(World()).messages, k) + i} else {}
    {
      hide Good, TakeReliable, TakePiece, Open, Frontier, First, Acknowledges;
      hide Takes, Inv;
      ghost var held := LegalOk(run);
      DeliverExactly(World(), held, k, i, room, limit);
      var ok;
      match command {
        case Reliable(seqno, data) => ok := receiver.HandleReliable(seqno, data, false, room, limit);
        case Fragment(seqno, piece) => ok := receiver.HandleFragment(piece, false, room, limit);
      }
      ack := ok && Acknowledges(receiver.incoming, command.seqno);
      Happens(Event.Deliver(k, i, room, limit));
    }

    /** A copy of an acknowledgement comes back, of number `n` of the channel. */
    method Acknowledge(seqno: u16, ghost n: nat) returns (found: bool)
      requires Valid() && Enabled(World(), Event.Acknowledge(n)) && seqno == Wire(n)
      modifies this, sender
      ensures Valid() && run == old(run) + [Event.Acknowledge(n)]
      ensures found <==> n in old(World()).open
    {
      hide Good, Open, Frontier, First, Wire;
      ghost var o, w := sender.Box(), World();
      found := sender.RemoveAcknowledged(seqno, c);
      AnswerPlays(o, sender.Box(), c, c, n, w);
      ghost var held := LegalOk(run);
      AcknowledgeOk(w, held, n);
      Happens(Event.Acknowledge(n));
    }

    /** An acknowledgement for something else: of another channel or of the connection. */
    method AcknowledgeOther(seqno: u16, d: nat)
      requires Valid() && d != c
      modifies sender
      ensures Valid()
    {
      hide Good, Open, Frontier, First, Wire;
      ghost var o := sender.Box();
      var found := sender.RemoveAcknowledged(seqno, d);
      assert Answered(o, sender.Box(), c, d, seqno);
    }

    /** So at any time the receiver has handed over the first messages sent, each once and in order, and
        has every command that the sender has sent and no longer keeps. */
    lemma Delivers()
      requires Valid()
      ensures Delivered(World().messages, receiver.dispatched)
      ensures forall k, i :: 0 <= k < |World().messages| && 0 <= i < World().messages[k].Count() ==>
        (var n := First(World().messages, k) + i;
         n <= Frontier(sender.Box(), c) && n !in Open(sender.Box().All(), c) ==> Received(World().messages, receiver.State(), k, i))
    {
      hide Good, Legal, After, Received, Frontier, Open;
      ReliableDelivery(run);
    }
  }

  lemma LegalOk(run: seq<Event>) returns (held: seq<nat>)
    requires Legal(Start(), run)
    ensures Inv(After(Start(), run), held)
  {
    hide Inv;
    StartOk();
    held := RunOk(Start(), [], run);
  }

  /** Transmitting is nothing to the receiver. */
  lemma {:induction false} AfterInbox(w: World, run: seq<Event>)
    requires Legal(w, run) && forall e :: e in run ==> e == Transmit
    ensures After(w, run).inbox == w.inbox
    decreases |run|
  {
    hide Enabled, Receive;
    if run != [] {
      assert run[0] in run && forall e :: e in run[1..] ==> e in run;
      AfterInbox(Next(w, run[0]), run[1..]);
    }
  }
}
