/**
 The life of a peer slot: its ten states, the events the application is told, and the host's counters.

 A life begins when a free slot is taken, by a local `enet_host_connect` or for a remote CONNECT, and
 ends when the slot is free again.
 */
module PeerLifecycle {
  datatype State =
    | Disconnected | Connecting | AcknowledgingConnect | ConnectionPending | ConnectionSucceeded
    | Connected | DisconnectLater | Disconnecting | AcknowledgingDisconnect | Zombie
  {
    /** The states in which a peer counts as connected. */
    predicate Up() { this == Connected || this == DisconnectLater }
  }

  /** `bandwidth` is `incomingBandwidth`, `waiting` the number of dispatched packets, and `flagged` the
      flag NEEDS_DISPATCH. */
  datatype Peer = Peer(state: State, bandwidth: nat, waiting: nat, flagged: bool) {
    predicate Limited() { state.Up() && bandwidth != 0 }
  }

  datatype Event = Connect | Receive | Disconnect

  /** The events of a slot since it was taken. */
  datatype Life = Life(remote: bool, events: seq<Event>)

  datatype Host = Host(peers: seq<Peer>, connected: nat, limited: nat, queue: seq<nat>, life: seq<Life>, lives: seq<Life>) {
    predicate Has(p: nat) { p < |peers| && |life| == |peers| }
  }

  // ---- The counters ----

  function CountUp(peers: seq<Peer>): nat {
    if peers == [] then 0 else (if peers[0].state.Up() then 1 else 0) + CountUp(peers[1..])
  }

  function CountLimited(peers: seq<Peer>): nat {
    if peers == [] then 0 else (if peers[0].Limited() then 1 else 0) + CountLimited(peers[1..])
  }

  lemma {:induction false} CountUpdate(peers: seq<Peer>, p: nat, x: Peer)
    requires p < |peers|
    ensures CountUp(peers[p := x]) + (if peers[p].state.Up() then 1 else 0) == CountUp(peers) + if x.state.Up() then 1 else 0
    ensures CountLimited(peers[p := x]) + (if peers[p].Limited() then 1 else 0) == CountLimited(peers) + if x.Limited() then 1 else 0
  {
    if p > 0 {
      CountUpdate(peers[1..], p - 1, x);
      assert peers[p := x][1..] == peers[1..][p - 1 := x];
    } else {
      assert peers[0 := x][1..] == peers[1..];
    }
  }

  predicate Counts(h: Host) {
    h.connected == CountUp(h.peers) && h.limited == CountLimited(h.peers)
  }

  // ---- The grammar of events ----

  /** CONNECT, and then nothing but RECEIVE. */
  predicate Lively(events: seq<Event>) {
    events != [] && events[0] == Connect && forall i :: 0 < i < |events| ==> events[i] == Receive
  }

  /** A whole life: nothing; CONNECT, packets, and possibly DISCONNECT; or just DISCONNECT, when a local
      connection attempt failed. */
  predicate Proper(l: Life) {
    var n := |l.events|;
    || l.events == [] || Lively(l.events)
    || (n > 1 && l.events[n - 1] == Disconnect && Lively(l.events[..n - 1]))
    || (l.events == [Disconnect] && !l.remote)
  }

  /** What has happened in a life so far, by the state the peer is in. */
  predicate Fits(s: State, l: Life) {
    match s
    case Disconnected => l.events == []
    case Connecting => l.events == [] && !l.remote
    case ConnectionSucceeded => l.events == [] && !l.remote
    case AcknowledgingConnect => l.events == [] && l.remote
    case ConnectionPending => l.events == [] && l.remote
    case Zombie => Lively(l.events) || (l.events == [] && !l.remote)
    case _ => Lively(l.events)
  }

  ghost predicate Good(h: Host) {
    && |h.life| == |h.peers| && Counts(h)
    && (forall p :: 0 <= p < |h.peers| ==> Fits(h.peers[p].state, h.life[p]))
    && (forall i :: 0 <= i < |h.lives| ==> Proper(h.lives[i]))
  }

  // ---- The building blocks ----

  /** A peer changes; the counters follow if it comes up or goes down: `on_connect` and `on_disconnect`. */
  function Turn(h: Host, p: nat, s: State): Host
    requires h.Has(p)
  {
    var x := h.peers[p];
    var up, limited := x.state.Up(), x.bandwidth != 0;
    h.(peers := h.peers[p := x.(state := s)],
       connected := if s.Up() && !up then h.connected + 1 else if !s.Up() && up && h.connected > 0 then h.connected - 1 else h.connected,
       limited := if s.Up() && !up && limited then h.limited + 1
                  else if !s.Up() && up && limited && h.limited > 0 then h.limited - 1 else h.limited)
  }

  function Enqueue(h: Host, p: nat): Host
    requires h.Has(p)
  {
    if h.peers[p].flagged then h
    else h.(queue := h.queue + [p], peers := h.peers[p := h.peers[p].(flagged := true)])
  }

  /** `enet_protocol_dispatch_state`. */
  function DispatchState(h: Host, p: nat, s: State): Host
    requires h.Has(p)
  {
    Enqueue(Turn(h, p, s), p)
  }

  function Tell(h: Host, p: nat, e: Event): Host
    requires h.Has(p)
  {
    h.(life := h.life[p := h.life[p].(events := h.life[p].events + [e])])
  }

  /** `enet_peer_reset`: the slot is free, and its life is over. */
  function Reset(h: Host, p: nat): Host
    requires h.Has(p)
  {
    var h' := Turn(h, p, Disconnected);
    h'.(peers := h'.peers[p := Peer(Disconnected, 0, 0, false)],
        life := h'.life[p := Life(false, [])], lives := h'.lives + [h'.life[p]])
  }

  function Unlink(queue: seq<nat>, p: nat): seq<nat> {
    if queue == [] then [] else if queue[0] == p then queue[1..] else [queue[0]] + Unlink(queue[1..], p)
  }

  /** `enet_peer_reset_queues`. */
  function ResetQueues(h: Host, p: nat): Host
    requires h.Has(p)
  {
    h.(queue := if h.peers[p].flagged then Unlink(h.queue, p) else h.queue,
       peers := h.peers[p := h.peers[p].(waiting := 0, flagged := false)])
  }

  /** `enet_protocol_notify_connect`; `deliver` says whether the caller can take an event. */
  function NotifyConnect(h: Host, p: nat, deliver: bool): Host
    requires h.Has(p)
  {
    if deliver then Tell(Turn(h, p, Connected), p, Connect)
    else DispatchState(h, p, if h.peers[p].state == Connecting then ConnectionSucceeded else ConnectionPending)
  }

  /** `enet_protocol_notify_disconnect`. */
  function NotifyDisconnect(h: Host, p: nat, deliver: bool): Host
    requires h.Has(p)
  {
    var s := h.peers[p].state;
    if s == Disconnected || s == AcknowledgingConnect || s == ConnectionPending then Reset(h, p)
    else if deliver then Reset(Tell(h, p, Disconnect), p)
    else DispatchState(h, p, Zombie)
  }

  /** `enet_peer_disconnect`. */
  function AskDisconnect(h: Host, p: nat): Host
    requires h.Has(p)
  {
    var s := h.peers[p].state;
    if s == Disconnecting || s == Disconnected || s == AcknowledgingDisconnect || s == Zombie then h
    else if s.Up() then Turn(ResetQueues(h, p), p, Disconnecting)
    else Reset(ResetQueues(h, p), p)
  }

  /** `enet_peer_disconnect_now`. */
  function CutOff(h: Host, p: nat): Host
    requires h.Has(p)
  {
    var s := h.peers[p].state;
    if s == Disconnected then h
    else if s == Zombie || s == Disconnecting then Reset(h, p)
    else Reset(ResetQueues(h, p), p)
  }

  /** One turn of `enet_protocol_dispatch_incoming_commands`: the first peer of the queue. */
  function DispatchOne(h: Host): Host
    requires h.queue != [] && h.Has(h.queue[0])
  {
    var p := h.queue[0];
    var h1 := h.(queue := h.queue[1..], peers := h.peers[p := h.peers[p].(flagged := false)]);
    match h.peers[p].state
    case ConnectionPending => Tell(Turn(h1, p, Connected), p, Connect)
    case ConnectionSucceeded => Tell(Turn(h1, p, Connected), p, Connect)
    case Zombie => Reset(Tell(h1, p, Disconnect), p)
    case Connected =>
      if h.peers[p].waiting == 0 then h1
      else
        var h2 := Tell(h1.(peers := h1.peers[p := h1.peers[p].(waiting := h1.peers[p].waiting - 1)]), p, Receive);
        if h2.peers[p].waiting > 0 then Enqueue(h2, p) else h2
    case _ => h1
  }

  // ---- Everything that can happen ----

  /** Which command an acknowledgement was for. */
  datatype Command = VerifyConnectCommand | DisconnectCommand | OtherCommand

  datatype Action =
    | LocalConnect
    | RemoteConnect(bandwidth: nat)
    | VerifyConnect(p: nat, agrees: bool, bandwidth: nat, deliver: bool)
    | Acknowledge(p: nat, command: Command, pending: bool, deliver: bool)
    | RemoteDisconnect(p: nat, acknowledge: bool)
    | BandwidthLimit(p: nat, bandwidth: nat)
    | SendDisconnectAck(p: nat)
    | SentUnreliable(p: nat, pending: bool)
    | Timeout(p: nat, deliver: bool)
    | Arrive(p: nat)
    | UserReceive(p: nat)
    | UserDisconnect(p: nat)
    | UserDisconnectNow(p: nat)
    | UserDisconnectLater(p: nat, pending: bool)
    | UserReset(p: nat)
    | DispatchEvent

  function FreeSlot(peers: seq<Peer>): (p: nat)
    ensures p <= |peers| && (p < |peers| ==> peers[p].state == Disconnected)
    ensures forall q :: 0 <= q < p ==> peers[q].state != Disconnected
  {
    if peers == [] || peers[0].state == Disconnected then 0 else 1 + FreeSlot(peers[1..])
  }

  /** A free slot is taken: a new life begins. */
  function Take(h: Host, s: State, bandwidth: nat, remote: bool): Host
    requires |h.life| == |h.peers|
  {
    var p := FreeSlot(h.peers);
    if p == |h.peers| then h
    else h.(peers := h.peers[p := h.peers[p].(state := s, bandwidth := bandwidth)], life := h.life[p := Life(remote, [])])
  }

  function WithBandwidth(h: Host, p: nat, bandwidth: nat): Host
    requires h.Has(p)
  {
    h.(peers := h.peers[p := h.peers[p].(bandwidth := bandwidth)])
  }

  function HandleVerify(h: Host, p: nat, agrees: bool, bandwidth: nat, deliver: bool): Host
    requires h.Has(p)
  {
    if h.peers[p].state != Connecting then h
    else if !agrees then DispatchState(h, p, Zombie)
    else NotifyConnect(WithBandwidth(h, p, bandwidth), p, deliver)
  }

  function HandleAcknowledge(h: Host, p: nat, command: Command, pending: bool, deliver: bool): Host
    requires h.Has(p)
  {
    match h.peers[p].state
    case AcknowledgingConnect => if command == VerifyConnectCommand then NotifyConnect(h, p, deliver) else h
    case Disconnecting => if command == DisconnectCommand then NotifyDisconnect(h, p, deliver) else h
    case DisconnectLater => if pending then h else AskDisconnect(h, p)
    case _ => h
  }

  function HandleDisconnect(h: Host, p: nat, acknowledge: bool): Host
    requires h.Has(p)
  {
    var s, h1 := h.peers[p].state, ResetQueues(h, p);
    if s == Disconnected || s == Zombie || s == AcknowledgingDisconnect then h
    else if s == ConnectionSucceeded || s == Disconnecting || s == Connecting then DispatchState(h1, p, Zombie)
    else if !s.Up() then Reset(h1, p)
    else if acknowledge then Turn(h1, p, AcknowledgingDisconnect)
    else DispatchState(h1, p, Zombie)
  }

  function HandleBandwidth(h: Host, p: nat, bandwidth: nat): Host
    requires h.Has(p)
  {
    if !h.peers[p].state.Up() then h
    else
      var less := if h.peers[p].bandwidth != 0 && h.limited > 0 then h.limited - 1 else h.limited;
      WithBandwidth(h, p, bandwidth).(limited := if bandwidth != 0 then less + 1 else less)
  }

  function Step(h: Host, a: Action): Host
    requires |h.life| == |h.peers|
  {
    match a
    case LocalConnect => Take(h, Connecting, 0, false)
    case RemoteConnect(bandwidth) => Take(h, AcknowledgingConnect, bandwidth, true)
    case DispatchEvent => if h.queue != [] && h.queue[0] < |h.peers| then DispatchOne(h) else h
    case _ => if a.p < |h.peers| then StepPeer(h, a) else h
  }

  function StepPeer(h: Host, a: Action): Host
    requires !a.LocalConnect? && !a.RemoteConnect? && !a.DispatchEvent? && h.Has(a.p)
  {
    var s := h.peers[a.p].state;
    match a
    case VerifyConnect(p, agrees, bandwidth, deliver) => HandleVerify(h, p, agrees, bandwidth, deliver)
    case Acknowledge(p, command, pending, deliver) => HandleAcknowledge(h, p, command, pending, deliver)
    case RemoteDisconnect(p, acknowledge) => HandleDisconnect(h, p, acknowledge)
    case BandwidthLimit(p, bandwidth) => HandleBandwidth(h, p, bandwidth)
    case SendDisconnectAck(p) => if s == AcknowledgingDisconnect then DispatchState(h, p, Zombie) else h
    case SentUnreliable(p, pending) => if s == DisconnectLater && !pending then AskDisconnect(h, p) else h
    case Timeout(p, deliver) => if s == Disconnected then h else NotifyDisconnect(h, p, deliver)
    case Arrive(p) =>
      if !s.Up() then h else Enqueue(h.(peers := h.peers[p := h.peers[p].(waiting := h.peers[p].waiting + 1)]), p)
    case UserReceive(p) =>
      if h.peers[p].waiting == 0 then h else h.(peers := h.peers[p := h.peers[p].(waiting := h.peers[p].waiting - 1)])
    case UserDisconnect(p) => AskDisconnect(h, p)
    case UserDisconnectNow(p) => CutOff(h, p)
    case UserDisconnectLater(p, pending) => if s.Up() && pending then Turn(h, p, DisconnectLater) else AskDisconnect(h, p)
    case UserReset(p) => Reset(h, p)
  }

  // ---- Every step keeps the counters and the grammar ----

  lemma TurnCounts(h: Host, p: nat, s: State)
    requires h.Has(p) && Counts(h)
    ensures Counts(Turn(h, p, s))
    ensures h.peers[p].state.Up() ==> h.connected > 0 && (h.peers[p].bandwidth != 0 ==> h.limited > 0)
  {
    CountUpdate(h.peers, p, h.peers[p].(state := s));
    CountUpdate(h.peers, p, h.peers[p].(state := Disconnected));
  }

  /** A change of a peer that does not concern the counters. */
  lemma SameCounts(peers: seq<Peer>, p: nat, x: Peer)
    requires p < |peers| && x.state.Up() == peers[p].state.Up() && x.Limited() == peers[p].Limited()
    ensures CountUp(peers[p := x]) == CountUp(peers) && CountLimited(peers[p := x]) == CountLimited(peers)
  {
    CountUpdate(peers, p, x);
  }

  /** All but the counters and the slot `p` is in order. */
  ghost predicate Others(h: Host, p: nat) {
    && |h.life| == |h.peers|
    && (forall q :: 0 <= q < |h.peers| && q != p ==> Fits(h.peers[q].state, h.life[q]))
    && (forall i :: 0 <= i < |h.lives| ==> Proper(h.lives[i]))
  }

  lemma GoodFrom(h: Host, p: nat)
    requires Others(h, p) && Counts(h) && (p < |h.peers| ==> Fits(h.peers[p].state, h.life[p]))
    ensures Good(h)
  {
  }

  lemma ResetGood(h: Host, p: nat)
    requires h.Has(p) && Counts(h) && Others(h, p) && Proper(h.life[p])
    ensures Good(Reset(h, p))
  {
    TurnCounts(h, p, Disconnected);
    SameCounts(Turn(h, p, Disconnected).peers, p, Peer(Disconnected, 0, 0, false));
    GoodFrom(Reset(h, p), p);
  }

  lemma LivelyProper(l: Life)
    requires Lively(l.events)
    ensures Proper(l) && Proper(Life(l.remote, l.events + [Disconnect])) && Lively(l.events + [Receive])
  {
    assert (l.events + [Disconnect])[..|l.events|] == l.events;
  }

  lemma FitsProper(s: State, l: Life)
    requires Fits(s, l)
    ensures Proper(l)
    ensures s != Disconnected && s != AcknowledgingConnect && s != ConnectionPending ==> Proper(Life(l.remote, l.events + [Disconnect]))
  {
    if l.events == [] {
      assert l.events + [Disconnect] == [Disconnect];
    } else {
      LivelyProper(l);
    }
  }

  lemma EnqueueGood(h: Host, p: nat)
    requires h.Has(p) && Good(h)
    ensures Good(Enqueue(h, p))
  {
    SameCounts(h.peers, p, h.peers[p].(flagged := true));
  }

  lemma ResetQueuesGood(h: Host, p: nat)
    requires h.Has(p) && Good(h)
    ensures Good(ResetQueues(h, p)) && ResetQueues(h, p).peers[p].state == h.peers[p].state && ResetQueues(h, p).life == h.life
  {
    SameCounts(h.peers, p, h.peers[p].(waiting := 0, flagged := false));
  }

  lemma TurnGood(h: Host, p: nat, s: State)
    requires h.Has(p) && Counts(h) && Others(h, p) && Fits(s, h.life[p])
    ensures Good(Turn(h, p, s))
  {
    TurnCounts(h, p, s);
    GoodFrom(Turn(h, p, s), p);
  }

  lemma ConnectGood(h: Host, p: nat)
    requires h.Has(p) && Good(h) && h.life[p].events == []
    ensures Good(Tell(Turn(h, p, Connected), p, Connect))
  {
    TurnCounts(h, p, Connected);
    var h' := Tell(Turn(h, p, Connected), p, Connect);
    assert h'.life[p].events == [Connect];
    GoodFrom(h', p);
  }

  lemma NotifyDisconnectGood(h: Host, p: nat, deliver: bool)
    requires h.Has(p) && Good(h)
    ensures Good(NotifyDisconnect(h, p, deliver))
  {
    var s := h.peers[p].state;
    FitsProper(s, h.life[p]);
    if s == Disconnected || s == AcknowledgingConnect || s == ConnectionPending {
      ResetGood(h, p);
    } else if deliver {
      ResetGood(Tell(h, p, Disconnect), p);
    } else {
      TurnGood(h, p, Zombie);
      EnqueueGood(Turn(h, p, Zombie), p);
    }
  }

  lemma AskDisconnectGood(h: Host, p: nat)
    requires h.Has(p) && Good(h)
    ensures Good(AskDisconnect(h, p))
  {
    ResetQueuesGood(h, p);
    FitsProper(h.peers[p].state, h.life[p]);
    var h1 := ResetQueues(h, p);
    if h.peers[p].state.Up() {
      TurnGood(h1, p, Disconnecting);
    } else {
      ResetGood(h1, p);
    }
  }

  lemma HandleDisconnectGood(h: Host, p: nat, acknowledge: bool)
    requires h.Has(p) && Good(h)
    ensures Good(HandleDisconnect(h, p, acknowledge))
  {
    var s, h1 := h.peers[p].state, ResetQueues(h, p);
    ResetQueuesGood(h, p);
    FitsProper(s, h.life[p]);
    if s == ConnectionSucceeded || s == Disconnecting || s == Connecting || (s.Up() && !acknowledge) {
      TurnGood(h1, p, Zombie);
      EnqueueGood(Turn(h1, p, Zombie), p);
    } else if s.Up() {
      TurnGood(h1, p, AcknowledgingDisconnect);
    } else {
      ResetGood(h1, p);
    }
  }

  lemma BandwidthGood(h: Host, p: nat, bandwidth: nat)
    requires h.Has(p) && Good(h)
    ensures Good(HandleBandwidth(h, p, bandwidth))
    ensures !h.peers[p].state.Up() ==> Good(WithBandwidth(h, p, bandwidth))
  {
    CountUpdate(h.peers, p, h.peers[p].(bandwidth := bandwidth));
    TurnCounts(h, p, Disconnected);
  }

  lemma DispatchGood(h: Host)
    requires h.queue != [] && h.Has(h.queue[0]) && Good(h)
    ensures Good(DispatchOne(h))
  {
    var p := h.queue[0];
    var x := h.peers[p].(flagged := false);
    var h1 := h.(queue := h.queue[1..], peers := h.peers[p := x]);
    SameCounts(h.peers, p, x);
    assert Good(h1);
    FitsProper(x.state, h.life[p]);
    if x.state == ConnectionPending || x.state == ConnectionSucceeded {
      ConnectGood(h1, p);
    } else if x.state == Zombie {
      ResetGood(Tell(h1, p, Disconnect), p);
    } else if x.state == Connected && x.waiting > 0 {
      ReceiveGood(h1, p);
    }
  }

  lemma ReceiveGood(h: Host, p: nat)
    requires h.Has(p) && Good(h) && h.peers[p].state == Connected && h.peers[p].waiting > 0
    ensures var h' := Tell(h.(peers := h.peers[p := h.peers[p].(waiting := h.peers[p].waiting - 1)]), p, Receive);
      Good(h') && Good(Enqueue(h', p))
  {
    SameCounts(h.peers, p, h.peers[p].(waiting := h.peers[p].waiting - 1));
    LivelyProper(h.life[p]);
    var h' := Tell(h.(peers := h.peers[p := h.peers[p].(waiting := h.peers[p].waiting - 1)]), p, Receive);
    GoodFrom(h', p);
    EnqueueGood(h', p);
  }

  lemma TakeGood(h: Host, s: State, bandwidth: nat, remote: bool)
    requires Good(h) && (s == if remote then AcknowledgingConnect else Connecting)
    ensures Good(Take(h, s, bandwidth, remote))
  {
    var p := FreeSlot(h.peers);
    if p < |h.peers| {
      SameCounts(h.peers, p, h.peers[p].(state := s, bandwidth := bandwidth));
      GoodFrom(Take(h, s, bandwidth, remote), p);
    }
  }

  lemma StepPeerGood(h: Host, a: Action)
    requires Good(h) && !a.LocalConnect? && !a.RemoteConnect? && !a.DispatchEvent? && a.p < |h.peers|
    ensures Good(StepPeer(h, a))
  {
    hide Good, Others, Counts;
    assert |h.life| == |h.peers| by { GoodUse(h, a.p); }
    GoodUse(h, a.p);
    var p := a.p;
    match a {
      case VerifyConnect(_, agrees, bandwidth, deliver) => VerifyGood(h, p, agrees, bandwidth, deliver);
      case Acknowledge(_, command, pending, deliver) => AcknowledgeGood(h, p, command, pending, deliver);
      case RemoteDisconnect(_, acknowledge) => HandleDisconnectGood(h, p, acknowledge);
      case BandwidthLimit(_, bandwidth) => BandwidthGood(h, p, bandwidth);
      case SendDisconnectAck(_) =>
        if h.peers[p].state == AcknowledgingDisconnect {
          TurnGood(h, p, Zombie);
          EnqueueGood(Turn(h, p, Zombie), p);
        }
      case SentUnreliable(_, _) => AskDisconnectGood(h, p);
      case Timeout(_, deliver) => NotifyDisconnectGood(h, p, deliver);
      case Arrive(_) => WaitingGood(h, p, h.peers[p].waiting + 1);
      case UserReceive(_) => WaitingGood(h, p, if h.peers[p].waiting > 0 then h.peers[p].waiting - 1 else 0);
      case UserDisconnect(_) => AskDisconnectGood(h, p);
      case UserDisconnectNow(_) => CutOffGood(h, p);
      case UserDisconnectLater(_, pending) =>
        AskDisconnectGood(h, p);
        if h.peers[p].state.Up() { TurnGood(h, p, DisconnectLater); }
      case UserReset(_) => ResetGood(h, p);
    }
  }

  lemma CutOffGood(h: Host, p: nat)
    requires h.Has(p) && Good(h)
    ensures Good(CutOff(h, p))
  {
    hide Good, Others, Counts, Reset, ResetQueues;
    GoodUse(h, p);
    ResetGood(h, p);
    ResetQueuesGood(h, p);
    GoodUse(ResetQueues(h, p), p);
    ResetGood(ResetQueues(h, p), p);
  }

  lemma GoodUse(h: Host, p: nat)
    requires Good(h)
    ensures |h.life| == |h.peers| && Counts(h) && Others(h, p)
    ensures p < |h.peers| ==> Fits(h.peers[p].state, h.life[p]) && Proper(h.life[p])
  {
    if p < |h.peers| { FitsProper(h.peers[p].state, h.life[p]); }
  }

  lemma WaitingGood(h: Host, p: nat, waiting: nat)
    requires h.Has(p) && Good(h)
    ensures var h' := h.(peers := h.peers[p := h.peers[p].(waiting := waiting)]); Good(h') && Good(Enqueue(h', p))
  {
    SameCounts(h.peers, p, h.peers[p].(waiting := waiting));
    EnqueueGood(h.(peers := h.peers[p := h.peers[p].(waiting := waiting)]), p);
  }

  lemma NotifyConnectGood(h: Host, p: nat, deliver: bool)
    requires h.Has(p) && Good(h) && (h.peers[p].state == Connecting || h.peers[p].state == AcknowledgingConnect)
    ensures Good(NotifyConnect(h, p, deliver))
  {
    if deliver {
      ConnectGood(h, p);
    } else {
      var s := if h.peers[p].state == Connecting then ConnectionSucceeded else ConnectionPending;
      TurnGood(h, p, s);
      EnqueueGood(Turn(h, p, s), p);
    }
  }

  lemma VerifyGood(h: Host, p: nat, agrees: bool, bandwidth: nat, deliver: bool)
    requires h.Has(p) && Good(h)
    ensures Good(HandleVerify(h, p, agrees, bandwidth, deliver))
  {
    if h.peers[p].state == Connecting {
      TurnGood(h, p, Zombie);
      EnqueueGood(Turn(h, p, Zombie), p);
      BandwidthGood(h, p, bandwidth);
      NotifyConnectGood(WithBandwidth(h, p, bandwidth), p, deliver);
    }
  }

  lemma AcknowledgeGood(h: Host, p: nat, command: Command, pending: bool, deliver: bool)
    requires h.Has(p) && Good(h)
    ensures Good(HandleAcknowledge(h, p, command, pending, deliver))
  {
    if h.peers[p].state == AcknowledgingConnect {
      NotifyConnectGood(h, p, deliver);
    } else if h.peers[p].state == Disconnecting {
      NotifyDisconnectGood(h, p, deliver);
    } else if h.peers[p].state == DisconnectLater {
      AskDisconnectGood(h, p);
    }
  }

  lemma StepGood(h: Host, a: Action)
    requires Good(h)
    ensures |h.life| == |h.peers| && Good(Step(h, a))
  {
    hide Counts, Fits, Proper, Reset, Turn;
    match a {
      case LocalConnect => TakeGood(h, Connecting, 0, false);
      case RemoteConnect(bandwidth) => TakeGood(h, AcknowledgingConnect, bandwidth, true);
      case DispatchEvent => if h.queue != [] && h.queue[0] < |h.peers| { DispatchGood(h); }
      case _ => if a.p < |h.peers| { StepPeerGood(h, a); }
    }
  }

  // ---- Runs ----

  /** A host with `n` free slots. */
  function NewHost(n: nat): Host {
    Host(seq(n, _ => Peer(Disconnected, 0, 0, false)), 0, 0, [], seq(n, _ => Life(false, [])), [])
  }

  lemma {:induction false} NewHostGood(n: nat)
    ensures Good(NewHost(n))
  {
    if n > 0 {
      NewHostGood(n - 1);
      assert NewHost(n).peers[1..] == NewHost(n - 1).peers;
    }
  }

  /** The host after the given actions, from `NewHost(n)`. */
  ghost function After(n: nat, run: seq<Action>): (h: Host)
    ensures Good(h)
    decreases |run|
  {
    if run == [] then NewHostGood(n); NewHost(n)
    else
      var h := After(n, run[..|run| - 1]);
      StepGood(h, run[|run| - 1]);
      Step(h, run[|run| - 1])
  }

  /** RECEIVE comes after CONNECT and before DISCONNECT, each of which comes at most once; and there is no
      DISCONNECT without a CONNECT in a life that began with a remote CONNECT. */
  predicate Grammar(l: Life) {
    && (forall i :: 0 <= i < |l.events| && l.events[i] == Receive ==> i > 0 && l.events[0] == Connect)
    && (forall i, j :: 0 <= i < j < |l.events| ==> l.events[i] != Disconnect && l.events[j] != Connect)
    && (l.remote && Disconnect in l.events ==> l.events[0] == Connect)
  }

  lemma ProperGrammar(l: Life)
    requires Proper(l)
    ensures Grammar(l)
  {
    var m := |l.events| - 1;
    if l.events != [] && !Lively(l.events) && m > 0 {
      assert forall k :: 0 <= k < m ==> l.events[..m][k] == l.events[k];
    }
  }

  /** In every run, every life keeps to the grammar, be it over or not. */
  lemma EventGrammar(n: nat, run: seq<Action>, l: Life)
    requires var h := After(n, run); l in h.lives || l in h.life
    ensures Grammar(l)
  {
    hide Proper, Fits, Grammar, Counts, After;
    var h := After(n, run);
    if l in h.life {
      var p :| 0 <= p < |h.life| && h.life[p] == l;
      FitsProper(h.peers[p].state, l);
    }
    ProperGrammar(l);
  }

  /** In every reachable state, the counters are the numbers of connected peers and of those of them with
      a limited bandwidth. */
  lemma CountersRight(n: nat, run: seq<Action>)
    ensures var h := After(n, run); h.connected == CountUp(h.peers) && h.limited == CountLimited(h.peers)
  {
  }
}
