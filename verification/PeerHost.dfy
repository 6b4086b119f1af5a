/**
 The host's peers and counters as the C code updates them in place.
 */
module PeerHosts {
  import opened PeerLifecycle

  /** Whether the first peer of the queue has an event to tell. */
  predicate Telling(h: Host)
    requires h.queue != [] && h.Has(h.queue[0])
  {
    var x := h.peers[h.queue[0]];
    x.state == ConnectionPending || x.state == ConnectionSucceeded || x.state == Zombie || (x.state == Connected && x.waiting > 0)
  }

  predicate Queued(h: Host) {
    |h.life| == |h.peers| && forall i :: 0 <= i < |h.queue| ==> h.queue[i] < |h.peers|
  }

  /** The queue is worked off up to the first event. */
  function DispatchUntil(h: Host): Host
    requires Queued(h)
    decreases |h.queue|
  {
    if h.queue == [] then h
    else if Telling(h) then DispatchOne(h)
    else DispatchUntil(DispatchOne(h))
  }

  function EventOf(s: State): Event {
    match s
    case Zombie => Disconnect
    case Connected => Receive
    case _ => Connect
  }

  /** The first event of the queue's peers, if there is one. */
  function FirstEvent(h: Host): seq<Event>
    requires Queued(h)
    decreases |h.queue|
  {
    if h.queue == [] then []
    else if Telling(h) then [EventOf(h.peers[h.queue[0]].state)]
    else FirstEvent(DispatchOne(h))
  }

  lemma {:induction false} DispatchUntilGood(h: Host)
    requires Queued(h) && Good(h)
    ensures Good(DispatchUntil(h))
    decreases |h.queue|
  {
    hide Good, Telling;
    if h.queue != [] {
      DispatchGood(h);
      if !Telling(h) { DispatchUntilGood(QuietStep(h)); }
    }
  }

  function QuietStep(h: Host): (r: Host)
    requires Queued(h) && h.queue != [] && !Telling(h)
    ensures r == DispatchOne(h) && Queued(r) && |r.queue| < |h.queue|
  {
    DispatchOne(h)
  }

  class PeerHost {
    const peers: array<Peer>
    var connected: nat
    var limited: nat
    var queue: seq<nat>
    ghost var life: seq<Life>
    ghost var lives: seq<Life>

    ghost function Model(): Host
      reads this, peers
    {
      Host(peers[..], connected, limited, queue, life, lives)
    }

    constructor (n: nat)
      ensures Good(Model()) && Model() == NewHost(n) && fresh(peers)
    {
      peers := new Peer[n](_ => Peer(Disconnected, 0, 0, false));
      connected, limited, queue := 0, 0, [];
      life, lives := seq(n, _ => Life(false, [])), [];
      new;
      assert peers[..] == NewHost(n).peers && life == NewHost(n).life;
      NewHostGood(n);
    }

    /** `enet_protocol_change_state`: the decrements never go below zero. */
    method ChangeState(p: nat, s: State)
      requires Model().Has(p) && Counts(Model())
      modifies this, peers
      ensures Model() == Turn(old(Model()), p, s)
    {
      TurnCounts(Model(), p, s);
      var x := peers[p];
      if s.Up() {
        if !x.state.Up() {
          if x.bandwidth != 0 {
            limited := limited + 1;
          }
          connected := connected + 1;
        }
      } else if x.state.Up() {
        if x.bandwidth != 0 {
          limited := limited - 1;
        }
        connected := connected - 1;
      }
      peers[p] := x.(state := s);
    }

    method Insert(p: nat)
      requires Model().Has(p)
      modifies this, peers
      ensures Model() == Enqueue(old(Model()), p)
    {
      if !peers[p].flagged {
        queue := queue + [p];
        peers[p] := peers[p].(flagged := true);
      }
    }

    /** `enet_protocol_dispatch_state`. */
    method Schedule(p: nat, s: State)
      requires Model().Has(p) && Counts(Model())
      modifies this, peers
      ensures Model() == DispatchState(old(Model()), p, s)
    {
      ChangeState(p, s);
      Insert(p);
    }

    /** `enet_peer_reset`. */
    method ResetPeer(p: nat)
      requires Model().Has(p) && Counts(Model())
      modifies this, peers
      ensures Model() == Reset(old(Model()), p)
    {
      ChangeState(p, Disconnected);
      peers[p] := Peer(Disconnected, 0, 0, false);
      lives := lives + [life[p]];
      life := life[p := Life(false, [])];
    }

    /** `enet_peer_reset_queues`. */
    method ClearQueues(p: nat)
      requires Model().Has(p)
      modifies this, peers
      ensures Model() == ResetQueues(old(Model()), p)
    {
      if peers[p].flagged {
        queue := Unlink(queue, p);
      }
      peers[p] := peers[p].(waiting := 0, flagged := false);
    }

    /** `enet_protocol_notify_connect`. */
    method TellConnect(p: nat, deliver: bool)
      requires Model().Has(p) && Counts(Model())
      modifies this, peers
      ensures Model() == NotifyConnect(old(Model()), p, deliver)
    {
      if deliver {
        ChangeState(p, Connected);
        life := life[p := life[p].(events := life[p].events + [Connect])];
      } else {
        Schedule(p, if peers[p].state == Connecting then ConnectionSucceeded else ConnectionPending);
      }
    }

    /** `enet_protocol_notify_disconnect`. */
    method TellDisconnect(p: nat, deliver: bool)
      requires Model().Has(p) && Counts(Model())
      modifies this, peers
      ensures Model() == NotifyDisconnect(old(Model()), p, deliver)
    {
      var s := peers[p].state;
      if s == Disconnected || s == AcknowledgingConnect || s == ConnectionPending {
        ResetPeer(p);
      } else if deliver {
        life := life[p := life[p].(events := life[p].events + [Disconnect])];
        ResetPeer(p);
      } else {
        Schedule(p, Zombie);
      }
    }

    // ---- The actions ----

    /** `enet_peer_disconnect`. */
    method Leave(p: nat)
      requires p < peers.Length && Good(Model())
      modifies this, peers
      ensures Model() == AskDisconnect(old(Model()), p) == Step(old(Model()), UserDisconnect(p)) && Good(Model())
    {
      StepGood(Model(), UserDisconnect(p));
      hide Good;
      var s := peers[p].state;
      if s == Disconnecting || s == Disconnected || s == AcknowledgingDisconnect || s == Zombie {
        return;
      }
      ResetQueuesGood(Model(), p);
      ClearQueues(p);
      if s.Up() {
        ChangeState(p, Disconnecting);
      } else {
        ResetPeer(p);
      }
    }

    /** The slot search and set-up of `enet_host_connect` and `enet_protocol_handle_connect`. */
    method TakeSlot(s: State, bandwidth: nat, remote: bool) returns (p: nat)
      requires Good(Model()) && (s == if remote then AcknowledgingConnect else Connecting) && (remote || bandwidth == 0)
      modifies this, peers
      ensures p == FreeSlot(old(peers[..])) && Good(Model())
      ensures Model() == Step(old(Model()), if remote then RemoteConnect(bandwidth) else LocalConnect)
    {
      StepGood(Model(), if remote then RemoteConnect(bandwidth) else LocalConnect);
      hide Good;
      p := 0;
      assert peers[..][0..] == peers[..];
      while p < peers.Length && peers[p].state != Disconnected
        invariant p <= peers.Length && FreeSlot(peers[..]) == p + FreeSlot(peers[..][p..])
      {
        assert peers[..][p..][1..] == peers[..][p + 1..];
        p := p + 1;
      }
      if p < peers.Length {
        peers[p] := peers[p].(state := s, bandwidth := bandwidth);
        life := life[p := Life(remote, [])];
      }
    }

    /** The part of `enet_protocol_handle_disconnect` that is about states. */
    method RemoteLeaves(p: nat, acknowledge: bool)
      requires p < peers.Length && Good(Model())
      modifies this, peers
      ensures Model() == Step(old(Model()), RemoteDisconnect(p, acknowledge)) && Good(Model())
    {
      StepGood(Model(), RemoteDisconnect(p, acknowledge));
      hide Good;
      var s := peers[p].state;
      if s == Disconnected || s == Zombie || s == AcknowledgingDisconnect {
        return;
      }
      ResetQueuesGood(Model(), p);
      ClearQueues(p);
      if s == ConnectionSucceeded || s == Disconnecting || s == Connecting {
        Schedule(p, Zombie);
      } else if !s.Up() {
        ResetPeer(p);
      } else if acknowledge {
        ChangeState(p, AcknowledgingDisconnect);
      } else {
        Schedule(p, Zombie);
      }
    }

    /** The counter's part of `enet_protocol_handle_bandwidth_limit`. */
    method LimitBandwidth(p: nat, bandwidth: nat)
      requires p < peers.Length && Good(Model())
      modifies this, peers
      ensures Model() == Step(old(Model()), BandwidthLimit(p, bandwidth)) && Good(Model())
    {
      StepGood(Model(), BandwidthLimit(p, bandwidth));
      GoodUse(Model(), p);
      hide Good;
      if !peers[p].state.Up() {
        return;
      }
      TurnCounts(Model(), p, Disconnected);
      if peers[p].bandwidth != 0 {
        limited := limited - 1;
      }
      peers[p] := peers[p].(bandwidth := bandwidth);
      if bandwidth != 0 {
        limited := limited + 1;
      }
    }

    /** The part of `enet_protocol_handle_verify_connect` that is about states; `agrees` says whether the answer
        fits the request. */
    method Verified(p: nat, agrees: bool, bandwidth: nat, deliver: bool)
      requires p < peers.Length && Good(Model())
      modifies this, peers
      ensures Model() == Step(old(Model()), VerifyConnect(p, agrees, bandwidth, deliver)) && Good(Model())
    {
      StepGood(Model(), VerifyConnect(p, agrees, bandwidth, deliver));
      GoodUse(Model(), p);
      BandwidthGood(Model(), p, bandwidth);
      hide Good;
      if peers[p].state != Connecting {
        return;
      }
      if !agrees {
        Schedule(p, Zombie);
        return;
      }
      SameCounts(peers[..], p, peers[p].(bandwidth := bandwidth));
      peers[p] := peers[p].(bandwidth := bandwidth);
      TellConnect(p, deliver);
    }

    /** The part of `enet_protocol_handle_acknowledge` that is about states; `pending` says whether commands are
        still to be sent or acknowledged. */
    method Acknowledged(p: nat, command: Command, pending: bool, deliver: bool)
      requires p < peers.Length && Good(Model())
      modifies this, peers
      ensures Model() == Step(old(Model()), Acknowledge(p, command, pending, deliver)) && Good(Model())
    {
      StepGood(Model(), Acknowledge(p, command, pending, deliver));
      GoodUse(Model(), p);
      hide Good, Counts, Others, Reset, ResetQueues, Turn;
      match peers[p].state {
        case AcknowledgingConnect =>
          if command == VerifyConnectCommand {
            TellConnect(p, deliver);
          }
        case Disconnecting =>
          if command == DisconnectCommand {
            TellDisconnect(p, deliver);
          }
        case DisconnectLater =>
          if !pending {
            Leave(p);
          }
        case _ =>
      }
    }

    /** A peer that `enet_protocol_check_timeouts` gives up. */
    method TimedOut(p: nat, deliver: bool)
      requires p < peers.Length && Good(Model())
      modifies this, peers
      ensures Model() == Step(old(Model()), Timeout(p, deliver)) && Good(Model())
    {
      StepGood(Model(), Timeout(p, deliver));
      GoodUse(Model(), p);
      hide Good, Counts, Others, Reset, Turn;
      if peers[p].state != Disconnected {
        TellDisconnect(p, deliver);
      }
    }

    /** `enet_peer_disconnect_now`. */
    method LeaveNow(p: nat)
      requires p < peers.Length && Good(Model())
      modifies this, peers
      ensures Model() == Step(old(Model()), UserDisconnectNow(p)) && Good(Model())
    {
      StepGood(Model(), UserDisconnectNow(p));
      GoodUse(Model(), p);
      ResetQueuesGood(Model(), p);
      GoodUse(ResetQueues(Model(), p), p);
      hide Good, Counts, Others, Reset, ResetQueues, Turn;
      var s := peers[p].state;
      if s == Disconnected {
        return;
      }
      if s != Zombie && s != Disconnecting {
        ClearQueues(p);
      }
      ResetPeer(p);
    }

    /** `enet_peer_disconnect_later`. */
    method LeaveLater(p: nat, pending: bool)
      requires p < peers.Length && Good(Model())
      modifies this, peers
      ensures Model() == Step(old(Model()), UserDisconnectLater(p, pending)) && Good(Model())
    {
      StepGood(Model(), UserDisconnectLater(p, pending));
      GoodUse(Model(), p);
      hide Good, Counts, Others, Reset, ResetQueues, Turn;
      if peers[p].state.Up() && pending {
        ChangeState(p, DisconnectLater);
      } else {
        Leave(p);
      }
    }

    /** The acknowledgement of a disconnect has been put into a datagram. */
    method SentDisconnectAck(p: nat)
      requires p < peers.Length && Good(Model())
      modifies this, peers
      ensures Model() == Step(old(Model()), SendDisconnectAck(p)) && Good(Model())
    {
      StepGood(Model(), SendDisconnectAck(p));
      GoodUse(Model(), p);
      hide Good, Counts, Others, Turn;
      if peers[p].state == AcknowledgingDisconnect {
        Schedule(p, Zombie);
      }
    }

    /** The first peer of the queue: `told` is the event, if there is one. */
    method DispatchFirst() returns (told: bool, event: Event)
      requires queue != [] && Model().Has(queue[0]) && Counts(Model())
      modifies this, peers
      ensures Model() == DispatchOne(old(Model())) && told == Telling(old(Model()))
      ensures told ==> event == EventOf(old(peers[queue[0]].state))
    {
      hide CountUp, CountLimited;
      var p := queue[0];
      SameCounts(peers[..], p, peers[p].(flagged := false));
      queue := queue[1..];
      peers[p] := peers[p].(flagged := false);
      var x := peers[p];
      told, event := true, Connect;
      if x.state == ConnectionPending || x.state == ConnectionSucceeded {
        ChangeState(p, Connected);
        life := life[p := life[p].(events := life[p].events + [Connect])];
      } else if x.state == Zombie {
        event := Disconnect;
        life := life[p := life[p].(events := life[p].events + [Disconnect])];
        ResetPeer(p);
      } else if x.state == Connected && x.waiting > 0 {
        event := Receive;
        peers[p] := x.(waiting := x.waiting - 1);
        life := life[p := life[p].(events := life[p].events + [Receive])];
        if peers[p].waiting > 0 {
          Insert(p);
        }
      } else {
        told := false;
      }
    }

    /** `enet_protocol_dispatch_incoming_commands`. */
    method DispatchIncoming() returns (told: bool, event: Event)
      requires Queued(Model()) && Good(Model())
      modifies this, peers
      ensures Model() == DispatchUntil(old(Model())) && Good(Model())
      ensures FirstEvent(old(Model())) == if told then [event] else []
    {
      hide Good, Telling, DispatchOne;
      ghost var h := Model();
      told, event := false, Connect;
      while queue != [] && !told
        invariant Good(Model())
        invariant told ==> Model() == DispatchUntil(h) && FirstEvent(h) == [event]
        invariant !told ==> Queued(Model()) && DispatchUntil(Model()) == DispatchUntil(h)
        invariant !told ==> FirstEvent(Model()) == FirstEvent(h)
        decreases if told then 0 else 1, |queue|
      {
        DispatchGood(Model());
        GoodUse(Model(), 0);
        ghost var before := Model();
        if !Telling(before) { QuietQueue(before); }
        told, event := DispatchFirst();
      }
    }
  }

  lemma QuietQueue(h: Host)
    requires Queued(h) && h.queue != [] && !Telling(h)
    ensures Queued(DispatchOne(h)) && |DispatchOne(h).queue| < |h.queue|
  {
    var r := QuietStep(h);
  }
}
