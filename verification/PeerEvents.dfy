/**
 That the application is told what it must be told: which events are due, that the queue has the peers they are due
 for, and that working off the queue tells them.
 */
module PeerEvents {
  import opened PeerLifecycle
  import opened PeerHosts

  /** The application has something to be told about the peer. */
  predicate Due(x: Peer) {
    || x.state == Zombie || x.state == ConnectionPending || x.state == ConnectionSucceeded
    || (x.state == Connected && x.waiting > 0)
  }

  predicate Early(s: State) {
    s == Disconnected || s == Connecting || s == AcknowledgingConnect || s == ConnectionPending || s == ConnectionSucceeded
  }

  predicate PeerPrompt(x: Peer, queued: bool) {
    (Due(x) || x.flagged ==> queued) && (Early(x.state) ==> x.waiting == 0)
  }

  /** Every peer for which something is due is in the queue. */
  ghost predicate Prompt(h: Host) {
    Queued(h) && forall p :: 0 <= p < |h.peers| ==> PeerPrompt(h.peers[p], p in h.queue)
  }

  // ---- Every step keeps this ----

  /** Only slot `p` has changed, and no other one has left the queue. */
  ghost predicate OnlySlot(h: Host, h': Host, p: nat) {
    && |h'.peers| == |h'.life| == |h.peers| == |h.life|
    && (forall q :: 0 <= q < |h.peers| && q != p ==> h'.peers[q] == h.peers[q] && h'.life[q] == h.life[q])
    && (forall q :: q in h.queue ==> q == p || q in h'.queue)
    && (forall q :: q in h'.queue ==> q == p || q in h.queue)
  }

  lemma PromptFrom(h: Host, h': Host, p: nat)
    requires Prompt(h) && OnlySlot(h, h', p) && p < |h.peers| && PeerPrompt(h'.peers[p], p in h'.queue)
    ensures Prompt(h')
  {
    forall i | 0 <= i < |h'.queue| ensures h'.queue[i] < |h'.peers| { assert h'.queue[i] in h'.queue; }
  }

  lemma {:induction false} UnlinkOthers(queue: seq<nat>, p: nat, q: nat)
    ensures q != p ==> (q in Unlink(queue, p) <==> q in queue)
    ensures q in Unlink(queue, p) ==> q in queue
  {
    if queue != [] { UnlinkOthers(queue[1..], p, q); }
  }

  lemma ResetQueuesOnly(h: Host, p: nat)
    requires h.Has(p)
    ensures OnlySlot(h, ResetQueues(h, p), p)
  {
    forall q ensures q != p ==> (q in Unlink(h.queue, p) <==> q in h.queue) { UnlinkOthers(h.queue, p, q); }
    forall q | q in Unlink(h.queue, p) ensures q in h.queue { UnlinkOthers(h.queue, p, q); }
  }

  lemma OnlyOn(h: Host, h1: Host, h2: Host, p: nat)
    requires OnlySlot(h, h1, p) && OnlySlot(h1, h2, p)
    ensures OnlySlot(h, h2, p)
  {
  }

  /** What a step does to slot `p`, with its queues reset before. */
  lemma AfterQueues(h: Host, p: nat, h2: Host)
    requires Prompt(h) && p < |h.peers| && OnlySlot(ResetQueues(h, p), h2, p) && PeerPrompt(h2.peers[p], p in h2.queue)
    ensures Prompt(h2)
  {
    hide ResetQueues, OnlySlot;
    ResetQueuesOnly(h, p);
    OnlyOn(h, ResetQueues(h, p), h2, p);
    PromptFrom(h, h2, p);
  }

  lemma TurnOnly(h: Host, p: nat, s: State)
    requires h.Has(p)
    ensures OnlySlot(h, Turn(h, p, s), p) && OnlySlot(h, DispatchState(h, p, s), p) && OnlySlot(h, Reset(h, p), p)
    ensures Turn(h, p, s).peers[p] == h.peers[p].(state := s) && Turn(h, p, s).queue == h.queue
    ensures DispatchState(h, p, s).peers[p] == h.peers[p].(state := s, flagged := true)
    ensures (h.peers[p].flagged ==> p in h.queue) ==> p in DispatchState(h, p, s).queue
    ensures Reset(h, p).peers[p] == Peer(Disconnected, 0, 0, false)
  {
  }

  lemma AskDisconnectPrompt(h: Host, p: nat)
    requires Prompt(h) && p < |h.peers|
    ensures Prompt(AskDisconnect(h, p)) && Prompt(CutOff(h, p)) && Prompt(Reset(h, p))
  {
    hide OnlySlot, Turn, Reset;
    var h1 := ResetQueues(h, p);
    TurnOnly(h, p, Disconnecting);
    TurnOnly(h1, p, Disconnecting);
    PromptFrom(h, Reset(h, p), p);
    AfterQueues(h, p, Reset(h1, p));
    AfterQueues(h, p, Turn(h1, p, Disconnecting));
  }

  lemma NotifyPrompt(h: Host, p: nat, deliver: bool)
    requires Prompt(h) && p < |h.peers|
    ensures Prompt(NotifyDisconnect(h, p, deliver))
    ensures h.peers[p].state == Connecting || h.peers[p].state == AcknowledgingConnect ==> Prompt(NotifyConnect(h, p, deliver))
    ensures Prompt(DispatchState(h, p, Zombie))
  {
    hide Turn, Reset;
    var s := if h.peers[p].state == Connecting then ConnectionSucceeded else ConnectionPending;
    TurnOnly(h, p, Zombie);
    TurnOnly(h, p, s);
    TurnOnly(h, p, Connected);
    TurnOnly(Tell(h, p, Disconnect), p, Zombie);
    PromptFrom(h, NotifyDisconnect(h, p, deliver), p);
    PromptFrom(h, DispatchState(h, p, Zombie), p);
    if h.peers[p].state == Connecting || h.peers[p].state == AcknowledgingConnect {
      PromptFrom(h, NotifyConnect(h, p, deliver), p);
    }
  }

  lemma HandleDisconnectPrompt(h: Host, p: nat, acknowledge: bool)
    requires Prompt(h) && p < |h.peers|
    ensures Prompt(HandleDisconnect(h, p, acknowledge))
  {
    hide OnlySlot, Turn, Reset, Unlink;
    var h1 := ResetQueues(h, p);
    TurnOnly(h1, p, Zombie);
    TurnOnly(h1, p, AcknowledgingDisconnect);
    AfterQueues(h, p, Reset(h1, p));
    AfterQueues(h, p, DispatchState(h1, p, Zombie));
    AfterQueues(h, p, Turn(h1, p, AcknowledgingDisconnect));
  }

  /** What happens to the first peer of the queue, and what the application is told. */
  lemma DispatchHere(h: Host)
    requires h.queue != [] && h.Has(h.queue[0])
    ensures var p, h' := h.queue[0], DispatchOne(h); var x := h.peers[p].(flagged := false);
      && |h'.peers| == |h'.life| == |h.peers|
      && match x.state
         case Zombie =>
           && h'.peers[p] == Peer(Disconnected, 0, 0, false) && h'.life[p] == Life(false, [])
           && h'.lives == h.lives + [Life(h.life[p].remote, h.life[p].events + [Disconnect])]
         case Connected =>
           && h'.lives == h.lives && h'.peers[p] == x.(waiting := h'.peers[p].waiting, flagged := x.waiting > 1)
           && h'.peers[p].waiting == (if x.waiting > 0 then x.waiting - 1 else 0)
           && h'.life[p] == h.life[p].(events := h.life[p].events + if x.waiting > 0 then [Receive] else [])
         case ConnectionPending => Connects(h, h', p, x)
         case ConnectionSucceeded => Connects(h, h', p, x)
         case _ => h'.peers[p] == x && h'.life == h.life && h'.lives == h.lives
    ensures DispatchOne(h).queue == h.queue[1..] + if h.peers[h.queue[0]].state == Connected && h.peers[h.queue[0]].waiting > 1 then [h.queue[0]] else []
  {
    assert h.life[h.queue[0]].events + [] == h.life[h.queue[0]].events;
  }

  predicate Connects(h: Host, h': Host, p: nat, x: Peer)
    requires h.Has(p) && h'.Has(p)
  {
    && h'.peers[p] == x.(state := Connected) && h'.lives == h.lives
    && h'.life[p] == h.life[p].(events := h.life[p].events + [Connect])
  }

  lemma DispatchOnly(h: Host)
    requires h.queue != [] && h.Has(h.queue[0])
    ensures OnlySlot(h, DispatchOne(h), h.queue[0])
  {
  }

  lemma DispatchPrompt(h: Host)
    requires Prompt(h) && h.queue != [] && h.Has(h.queue[0])
    ensures Prompt(DispatchOne(h))
  {
    hide DispatchOne, OnlySlot;
    DispatchHere(h);
    DispatchOnly(h);
    PromptFrom(h, DispatchOne(h), h.queue[0]);
  }

  lemma StepPeerPrompt(h: Host, a: Action)
    requires Prompt(h) && !a.LocalConnect? && !a.RemoteConnect? && !a.DispatchEvent? && a.p < |h.peers|
    ensures Prompt(StepPeer(h, a))
  {
    var p, h' := a.p, StepPeer(h, a);
    hide Turn, Reset, ResetQueues;
    match a {
      case VerifyConnect(_, agrees, bandwidth, deliver) =>
        var h1 := WithBandwidth(h, p, bandwidth);
        if h.peers[p].state == Connecting {
          PromptFrom(h, h1, p);
          NotifyPrompt(h1, p, deliver);
          NotifyPrompt(h, p, deliver);
        }
      case Acknowledge(_, command, pending, deliver) =>
        hide OnlySlot, NotifyConnect, NotifyDisconnect, AskDisconnect;
        NotifyPrompt(h, p, deliver);
        AskDisconnectPrompt(h, p);
      case RemoteDisconnect(_, acknowledge) => HandleDisconnectPrompt(h, p, acknowledge);
      case SendDisconnectAck(_) => NotifyPrompt(h, p, true);
      case SentUnreliable(_, _) => AskDisconnectPrompt(h, p);
      case Timeout(_, deliver) => NotifyPrompt(h, p, deliver);
      case UserDisconnect(_) => AskDisconnectPrompt(h, p);
      case UserDisconnectNow(_) => AskDisconnectPrompt(h, p);
      case UserDisconnectLater(_, pending) =>
        AskDisconnectPrompt(h, p);
        TurnOnly(h, p, DisconnectLater);
        if h.peers[p].state.Up() { PromptFrom(h, Turn(h, p, DisconnectLater), p); }
      case UserReset(_) => AskDisconnectPrompt(h, p);
      case _ => PromptFrom(h, h', p);
    }
  }

  lemma StepPrompt(h: Host, a: Action)
    requires Prompt(h)
    ensures |h.life| == |h.peers| && Prompt(Step(h, a))
  {
    hide StepPeer, DispatchOne;
    match a {
      case LocalConnect => TakePrompt(h, Connecting, 0, false);
      case RemoteConnect(bandwidth) => TakePrompt(h, AcknowledgingConnect, bandwidth, true);
      case DispatchEvent => if h.queue != [] { DispatchPrompt(h); }
      case _ => if a.p < |h.peers| { StepPeerPrompt(h, a); }
    }
  }

  lemma TakePrompt(h: Host, s: State, bandwidth: nat, remote: bool)
    requires Prompt(h) && (s == Connecting || s == AcknowledgingConnect)
    ensures Prompt(Take(h, s, bandwidth, remote))
  {
    var p := FreeSlot(h.peers);
    if p < |h.peers| { PromptFrom(h, Take(h, s, bandwidth, remote), p); }
  }

  /** In every run, every peer that has been connected or disconnected without the application having been told, and
      every connected one with packets, is in the queue. */
  lemma {:induction false} AllPrompt(n: nat, run: seq<Action>)
    ensures Prompt(After(n, run))
    decreases |run|
  {
    hide Prompt, Step, Good;
    if run == [] {
      NewPrompt(n);
    } else {
      AllPrompt(n, run[..|run| - 1]);
      StepPrompt(After(n, run[..|run| - 1]), run[|run| - 1]);
    }
  }

  lemma NewPrompt(n: nat)
    ensures Prompt(NewHost(n))
  {
  }

  // ---- The queue is worked off ----

  function IndexOf(queue: seq<nat>, p: nat): nat {
    if queue == [] || queue[0] == p then 0 else 1 + IndexOf(queue[1..], p)
  }

  lemma {:induction false} IndexBefore(queue: seq<nat>, p: nat, more: seq<nat>)
    requires p in queue
    ensures IndexOf(queue, p) < |queue| && IndexOf(queue + more, p) == IndexOf(queue, p)
  {
    if queue[0] != p {
      assert (queue + more)[1..] == queue[1..] + more;
      IndexBefore(queue[1..], p, more);
    }
  }

  predicate OnlyDispatch(run: seq<Action>) { forall a :: a in run ==> a == DispatchEvent }

  /** The application has been told what was due for peer `p`. */
  ghost predicate Told(h: Host, h': Host, p: nat)
    requires h.Has(p) && h'.Has(p)
  {
    var l := h.life[p];
    match h.peers[p].state
    case Zombie =>
      && h'.peers[p].state == Disconnected && h'.lives != []
      && h'.lives[|h'.lives| - 1] == Life(l.remote, l.events + [Disconnect])
    case Connected => h'.life[p] == Life(l.remote, l.events + [Receive])
    case _ => h'.peers[p].state == Connected && h'.life[p] == Life(l.remote, l.events + [Connect])
  }

  lemma RunOneMore(n: nat, run: seq<Action>, a: Action)
    ensures After(n, run + [a]) == Step(After(n, run), a)
  {
    assert (run + [a])[..|run|] == run;
  }

  lemma PromptUse(h: Host, p: nat)
    requires Prompt(h) && p < |h.peers| && Due(h.peers[p])
    ensures |h.life| == |h.peers| && h.queue != [] && h.queue[0] < |h.peers| && p in h.queue
  {
  }

  lemma OnlyUse(h: Host, h': Host, q: nat, p: nat)
    requires OnlySlot(h, h', q) && p != q && p < |h.peers|
    ensures h.Has(p) && h'.Has(p) && h'.peers[p] == h.peers[p] && h'.life[p] == h.life[p]
  {
  }

  /** What is due for a peer, the application is told when the queue has been worked off up to the peer. */
  lemma {:induction false} EventComes(n: nat, run: seq<Action>, p: nat) returns (more: seq<Action>)
    requires p < |After(n, run).peers| && Due(After(n, run).peers[p])
    ensures OnlyDispatch(more) && |more| == IndexOf(After(n, run).queue, p) + 1 <= |After(n, run).queue|
    ensures After(n, run).Has(p) && After(n, run + more).Has(p) && Told(After(n, run), After(n, run + more), p)
    decreases IndexOf(After(n, run).queue, p)
  {
    hide After, Good, DispatchOne, OnlySlot, Prompt;
    var h, run' := After(n, run), run + [DispatchEvent];
    AllPrompt(n, run);
    PromptUse(h, p);
    var h' := After(n, run');
    RunOneMore(n, run, DispatchEvent);
    IndexBefore(h.queue, p, []);
    if h.queue[0] == p {
      more := [DispatchEvent];
      DispatchTells(h);
    } else {
      DispatchOnly(h);
      OnlyUse(h, h', h.queue[0], p);
      DispatchHere(h);
      IndexBefore(h.queue[1..], p, h'.queue[|h.queue| - 1..]);
      assert h'.queue == h.queue[1..] + h'.queue[|h.queue| - 1..];
      var rest := EventComes(n, run', p);
      more := [DispatchEvent] + rest;
      assert run + more == run' + rest;
    }
  }

  lemma DispatchTells(h: Host)
    requires h.queue != [] && h.Has(h.queue[0]) && Due(h.peers[h.queue[0]])
    ensures DispatchOne(h).Has(h.queue[0]) && Told(h, DispatchOne(h), h.queue[0])
  {
    hide DispatchOne;
    DispatchHere(h);
  }

  // ---- A peer that leaves ----

  /** What a remote disconnect makes of a connected peer. */
  lemma LeavesHow(h: Host, p: nat, acknowledge: bool)
    requires h.Has(p) && h.peers[p].state.Up()
    ensures var h' := Step(h, RemoteDisconnect(p, acknowledge));
      && h'.Has(p) && h'.life == h.life && h'.lives == h.lives
      && h'.peers[p].state == if acknowledge then AcknowledgingDisconnect else Zombie
  {
  }

  lemma AckSent(h: Host, p: nat)
    requires h.Has(p) && h.peers[p].state == AcknowledgingDisconnect
    ensures var h' := Step(h, SendDisconnectAck(p));
      h'.Has(p) && h'.life == h.life && h'.lives == h.lives && h'.peers[p].state == Zombie
  {
  }

  /** When the other side leaves a connected peer, the application is told DISCONNECT, as the last event of that life:
      at once when the queue is worked off, or when the acknowledgement that the other side asked for has gone out. */
  lemma RemoteGoodbye(n: nat, run: seq<Action>, p: nat, acknowledge: bool) returns (left: seq<Action>, more: seq<Action>)
    requires p < |After(n, run).peers| && After(n, run).peers[p].state.Up()
    ensures left == run + [RemoteDisconnect(p, acknowledge)] + if acknowledge then [SendDisconnectAck(p)] else []
    ensures OnlyDispatch(more) && |After(n, run).life| == |After(n, run).peers|
    ensures var l, h' := After(n, run).life[p], After(n, left + more);
      && p < |h'.peers| && h'.peers[p].state == Disconnected && h'.lives != []
      && h'.lives[|h'.lives| - 1] == Life(l.remote, l.events + [Disconnect])
  {
    hide After, Step, OnlyDispatch;
    var h := After(n, run);
    GoodUse(h, p);
    var gone := run + [RemoteDisconnect(p, acknowledge)];
    RunOneMore(n, run, RemoteDisconnect(p, acknowledge));
    LeavesHow(h, p, acknowledge);
    if acknowledge {
      left := gone + [SendDisconnectAck(p)];
      RunOneMore(n, gone, SendDisconnectAck(p));
      AckSent(After(n, gone), p);
    } else {
      left := gone + [];
      assert left == gone;
    }
    more := EventComes(n, left, p);
  }

  // ---- Everything that connects or loses a peer ----

  /** The connection of peer `p` comes about: with the answer to a request of this side, or the acknowledgement of the
      answer to one of the other side. */
  predicate ConnectsBy(s: State, a: Action, p: nat) {
    || (s == Connecting && a.VerifyConnect? && a.p == p && a.agrees)
    || (s == AcknowledgingConnect && a.Acknowledge? && a.p == p && a.command == VerifyConnectCommand)
  }

  /** It is lost: by a wrong answer, a timeout, the acknowledgement of a disconnect, or a disconnect of the other side
      that is not to be acknowledged.  A connection that the other side asked for, and of which the application knows
      nothing, is not. */
  predicate LostBy(s: State, a: Action, p: nat) {
    || (s == Connecting && a.VerifyConnect? && a.p == p && !a.agrees)
    || (a.Timeout? && a.p == p && (s == Connecting || s == ConnectionSucceeded || s.Up() || s == Disconnecting || s == AcknowledgingDisconnect))
    || (s == Disconnecting && a.Acknowledge? && a.p == p && a.command == DisconnectCommand)
    || (a.RemoteDisconnect? && a.p == p && (s == Connecting || s == ConnectionSucceeded || s == Disconnecting || (s.Up() && !a.acknowledge)))
  }

  /** The application has been told of it, or will be. */
  predicate ToldNow(h: Host, h': Host, p: nat, e: Event)
    requires h.Has(p) && h'.Has(p)
  {
    var l := Life(h.life[p].remote, h.life[p].events + [e]);
    if e == Connect then h'.peers[p].state == Connected && h'.life[p] == l
    else h'.peers[p].state == Disconnected && h'.lives != [] && h'.lives[|h'.lives| - 1] == l
  }

  predicate ToldSoon(h: Host, h': Host, p: nat, e: Event)
    requires h.Has(p) && h'.Has(p)
  {
    && h'.life[p] == h.life[p]
    && if e == Connect then h'.peers[p].state == ConnectionPending || h'.peers[p].state == ConnectionSucceeded
       else h'.peers[p].state == Zombie
  }

  ghost predicate Tells(h: Host, h': Host, p: nat, e: Event) {
    h.Has(p) && h'.Has(p) && (ToldNow(h, h', p, e) || ToldSoon(h, h', p, e))
  }

  lemma ConnectsHow(h: Host, a: Action, p: nat)
    requires h.Has(p) && ConnectsBy(h.peers[p].state, a, p)
    ensures Tells(h, Step(h, a), p, Connect)
  {
    hide NotifyConnect, NotifyDisconnect, DispatchState, Reset, ResetQueues, AskDisconnect, Tells;
    NotifyTells(h, p, a.deliver);
    if a.VerifyConnect? {
      NotifyTells(WithBandwidth(h, p, a.bandwidth), p, a.deliver);
      ToldFrom(h, WithBandwidth(h, p, a.bandwidth), Step(h, a), p);
    }
  }

  lemma LostHow(h: Host, a: Action, p: nat)
    requires h.Has(p) && LostBy(h.peers[p].state, a, p)
    ensures Tells(h, Step(h, a), p, Disconnect)
  {
    hide NotifyConnect, NotifyDisconnect, DispatchState, Reset, ResetQueues, AskDisconnect, Tells;
    ZombieTells(h, p);
    if a.Timeout? || a.Acknowledge? { NotifyTells(h, p, a.deliver); }
  }

  lemma ToldFrom(h: Host, h1: Host, h2: Host, p: nat)
    requires Tells(h1, h2, p, Connect) && h1.life == h.life && |h1.peers| == |h.peers|
    ensures Tells(h, h2, p, Connect)
  {
  }

  lemma NotifyTells(h: Host, p: nat, deliver: bool)
    requires h.Has(p)
    ensures Tells(h, NotifyConnect(h, p, deliver), p, Connect)
    ensures var s := h.peers[p].state;
      s != Disconnected && s != AcknowledgingConnect && s != ConnectionPending ==> Tells(h, NotifyDisconnect(h, p, deliver), p, Disconnect)
  {
  }

  lemma ZombieTells(h: Host, p: nat)
    requires h.Has(p)
    ensures Tells(h, DispatchState(h, p, Zombie), p, Disconnect)
    ensures ResetQueues(h, p).Has(p) && Tells(h, DispatchState(ResetQueues(h, p), p, Zombie), p, Disconnect)
  {
  }

  /** Whatever connects or loses a peer, the application is told, at once or when the queue is worked off. */
  lemma ToldOf(n: nat, run: seq<Action>, a: Action, p: nat, e: Event) returns (more: seq<Action>)
    requires After(n, run).Has(p)
    requires (e == Connect && ConnectsBy(After(n, run).peers[p].state, a, p)) || (e == Disconnect && LostBy(After(n, run).peers[p].state, a, p))
    ensures OnlyDispatch(more) && After(n, run + [a] + more).Has(p)
    ensures ToldNow(After(n, run), After(n, run + [a] + more), p, e)
  {
    hide After, Step, ConnectsBy, LostBy, Good;
    RunOneMore(n, run, a);
    if e == Connect {
      ConnectsHow(After(n, run), a, p);
    } else {
      LostHow(After(n, run), a, p);
    }
    if ToldNow(After(n, run), After(n, run + [a]), p, e) {
      more := [];
      assert run + [a] + [] == run + [a];
    } else {
      more := EventComes(n, run + [a], p);
    }
  }

  /** The three ways in which the application itself asks a connected peer to leave: now, when nothing is pending, and
      when nothing is pending any more. */
  predicate AsksBy(s: State, a: Action, p: nat) {
    || (s.Up() && (a == UserDisconnect(p) || a == UserDisconnectLater(p, false)))
    || (s == DisconnectLater && (a == SentUnreliable(p, false) || (a.Acknowledge? && a.p == p && !a.pending)))
  }

  lemma AsksHow(h: Host, a: Action, p: nat)
    requires h.Has(p) && AsksBy(h.peers[p].state, a, p)
    ensures Step(h, a).Has(p) && Step(h, a).peers[p].state == Disconnecting && Step(h, a).life == h.life
  {
  }

  /** When the application has asked a connected peer to leave, it is told DISCONNECT, as the last event of that life,
      once the other side has acknowledged, or has been given up. */
  lemma OwnGoodbye(n: nat, run: seq<Action>, a: Action, answer: Action, p: nat) returns (more: seq<Action>)
    requires After(n, run).Has(p) && AsksBy(After(n, run).peers[p].state, a, p) && LostBy(Disconnecting, answer, p)
    ensures OnlyDispatch(more) && After(n, run + [a] + [answer] + more).Has(p)
    ensures ToldNow(After(n, run), After(n, run + [a] + [answer] + more), p, Disconnect)
  {
    hide After, Step, LostBy, AsksBy;
    RunOneMore(n, run, a);
    AsksHow(After(n, run), a, p);
    more := ToldOf(n, run + [a], answer, p, Disconnect);
  }

  // ---- Packets, new peers, and peers cut off ----

  /** A packet that arrives for a connected peer is waiting, and the application is told RECEIVE when the queue is worked
      off. */
  lemma PacketTold(n: nat, run: seq<Action>, p: nat) returns (more: seq<Action>)
    requires After(n, run).Has(p) && After(n, run).peers[p].state == Connected
    ensures After(n, run + [Arrive(p)]).Has(p) && After(n, run + [Arrive(p)] + more).Has(p) && OnlyDispatch(more)
    ensures After(n, run + [Arrive(p)]).peers[p].waiting == After(n, run).peers[p].waiting + 1
    ensures var l := After(n, run).life[p]; After(n, run + [Arrive(p)] + more).life[p] == Life(l.remote, l.events + [Receive])
  {
    hide After;
    RunOneMore(n, run, Arrive(p));
    more := EventComes(n, run + [Arrive(p)], p);
  }

  /** A new peer takes the first free slot, if there is one, and begins a life there. */
  lemma TakenHow(h: Host, bandwidth: nat)
    requires |h.life| == |h.peers|
    ensures var p, h1, h2 := FreeSlot(h.peers), Step(h, LocalConnect), Step(h, RemoteConnect(bandwidth));
      if p == |h.peers| then h1 == h2 == h
      else
        && OnlySlot(h, h1, p) && h1.peers[p].state == Connecting && h1.peers[p].bandwidth == 0 && h1.life[p] == Life(false, [])
        && OnlySlot(h, h2, p) && h2.peers[p].state == AcknowledgingConnect && h2.peers[p].bandwidth == bandwidth && h2.life[p] == Life(true, [])
  {
  }

  /** A peer that the application resets, or cuts off, is gone, and so is its life. */
  lemma CutHow(h: Host, p: nat, a: Action)
    requires h.Has(p) && h.peers[p].state != Disconnected && (a == UserReset(p) || a == UserDisconnectNow(p))
    ensures Step(h, a).Has(p) && Step(h, a).peers[p] == Peer(Disconnected, 0, 0, false) && Step(h, a).lives == h.lives + [h.life[p]]
  {
  }

  // ---- Why a peer is in AcknowledgingDisconnect ----

  /** A step makes this state of another only for a remote disconnect of a connected peer that asks for an
      acknowledgement. */
  lemma AcknowledgesWhen(h: Host, a: Action, p: nat)
    requires Good(h) && Prompt(h) && p < |h.peers|
    ensures |h.life| == |h.peers| == |Step(h, a).peers|
    ensures Step(h, a).peers[p].state == AcknowledgingDisconnect ==>
      h.peers[p].state == AcknowledgingDisconnect || (a == RemoteDisconnect(p, true) && h.peers[p].state.Up())
  {
    hide Good, Unlink, CountUp, CountLimited;
    assert |h.life| == |h.peers| by { GoodUse(h, p); }
    match a {
      case LocalConnect =>
      case RemoteConnect(_) =>
      case DispatchEvent =>
      case _ => if a.p < |h.peers| { PeerAcknowledges(h, a, p); }
    }
  }

  /** The state is not new. */
  predicate NoNewAck(h: Host, h': Host, p: nat) {
    |h'.peers| == |h.peers| && (p < |h.peers| && h'.peers[p].state == AcknowledgingDisconnect ==> h.peers[p].state == AcknowledgingDisconnect)
  }

  lemma BlocksAcknowledge(h: Host, q: nat, p: nat, deliver: bool)
    requires h.Has(q)
    ensures NoNewAck(h, Reset(h, q), p) && NoNewAck(h, AskDisconnect(h, q), p) && NoNewAck(h, CutOff(h, q), p)
    ensures NoNewAck(h, NotifyDisconnect(h, q, deliver), p) && NoNewAck(h, NotifyConnect(h, q, deliver), p)
    ensures NoNewAck(h, DispatchState(h, q, Zombie), p) && NoNewAck(h, Turn(h, q, DisconnectLater), p)
  {
  }

  lemma LeavingAcknowledges(h: Host, q: nat, acknowledge: bool, p: nat)
    requires h.Has(q)
    ensures |HandleDisconnect(h, q, acknowledge).peers| == |h.peers|
    ensures NoNewAck(h, HandleDisconnect(h, q, acknowledge), p) || (q == p && acknowledge && h.peers[p].state.Up())
  {
  }

  lemma PeerAcknowledges(h: Host, a: Action, p: nat)
    requires !a.LocalConnect? && !a.RemoteConnect? && !a.DispatchEvent? && h.Has(a.p)
    ensures |StepPeer(h, a).peers| == |h.peers|
    ensures NoNewAck(h, StepPeer(h, a), p) || (a == RemoteDisconnect(p, true) && h.peers[p].state.Up())
  {
    hide Reset, AskDisconnect, CutOff, NotifyDisconnect, NotifyConnect, DispatchState, Turn, HandleDisconnect;
    var slot := a.p;
    match a {
      case RemoteDisconnect(q, acknowledge) => LeavingAcknowledges(h, q, acknowledge, p);
      case VerifyConnect(q, _, bandwidth, deliver) =>
        BlocksAcknowledge(h, q, p, deliver);
        BlocksAcknowledge(WithBandwidth(h, q, bandwidth), q, p, deliver);
      case Acknowledge(q, _, _, deliver) => BlocksAcknowledge(h, q, p, deliver);
      case Timeout(q, deliver) => BlocksAcknowledge(h, q, p, deliver);
      case _ => BlocksAcknowledge(h, slot, p, true);
    }
  }

  /** In every run: a peer that is to acknowledge a disconnect was connected when the last remote disconnect asked for
      that, and has been in this state since. */
  lemma {:induction false} AcknowledgesWhy(n: nat, run: seq<Action>, p: nat) returns (j: nat)
    requires p < |After(n, run).peers| && After(n, run).peers[p].state == AcknowledgingDisconnect
    ensures j < |run| && run[j] == RemoteDisconnect(p, true)
    ensures p < |After(n, run[..j]).peers| && After(n, run[..j]).peers[p].state.Up()
    ensures forall i :: j < i <= |run| ==>
      p < |After(n, run[..i]).peers| && After(n, run[..i]).peers[p].state == AcknowledgingDisconnect
    decreases |run|
  {
    hide Good, Step;
    var m := |run| - 1;
    if run == [] {
      NoneAcknowledges(n, p);
    } else {
      var h := After(n, run[..m]);
      AllPrompt(n, run[..m]);
      SameSlots(h, run[m]);
      AcknowledgesWhen(h, run[m], p);
      hide After;
      assert run[..|run|] == run;
      if h.peers[p].state == AcknowledgingDisconnect {
        j := AcknowledgesWhy(n, run[..m], p);
        assert forall i :: 0 <= i <= m ==> run[..m][..i] == run[..i];
      } else {
        j := m;
      }
    }
  }

  lemma NoneAcknowledges(n: nat, p: nat)
    ensures p < |NewHost(n).peers| ==> NewHost(n).peers[p].state == Disconnected
  {
  }

  lemma SameSlots(h: Host, a: Action)
    requires Good(h) && Prompt(h)
    ensures |h.life| == |h.peers| == |Step(h, a).peers|
  {
    hide StepPeer, DispatchOne, Good;
    match a {
      case LocalConnect =>
      case RemoteConnect(_) =>
      case DispatchEvent => if h.queue != [] { DispatchHere(h); }
      case _ => if a.p < |h.peers| { PeerAcknowledges(h, a, 0); }
    }
  }

  // ---- Whoever has been told CONNECT is told DISCONNECT ----

  predicate Ended(l: Life) { l.events == [] || l.events[|l.events| - 1] == Disconnect }

  /** No life has ended, or one has that was told DISCONNECT, or nothing. */
  predicate EndsWell(h: Host, h': Host) {
    || h'.lives == h.lives
    || (|h'.lives| == |h.lives| + 1 && h'.lives[..|h.lives|] == h.lives && Ended(h'.lives[|h.lives|]))
  }

  lemma ResetEnds(h: Host, p: nat)
    requires h.Has(p)
    ensures h.life[p].events == [] ==> EndsWell(h, Reset(h, p)) && EndsWell(h, Reset(ResetQueues(h, p), p))
    ensures EndsWell(h, Reset(Tell(h, p, Disconnect), p))
  {
  }

  lemma BlocksEnd(h: Host, p: nat, deliver: bool, acknowledge: bool)
    requires h.Has(p) && Fits(h.peers[p].state, h.life[p])
    ensures EndsWell(h, NotifyDisconnect(h, p, deliver)) && EndsWell(h, NotifyConnect(h, p, deliver))
    ensures EndsWell(h, AskDisconnect(h, p)) && EndsWell(h, HandleDisconnect(h, p, acknowledge))
  {
    hide Reset, EndsWell, Unlink;
    ResetEnds(h, p);
    EndsSame(h, NotifyDisconnect(h, p, deliver));
    EndsSame(h, NotifyConnect(h, p, deliver));
    EndsSame(h, AskDisconnect(h, p));
    EndsSame(h, HandleDisconnect(h, p, acknowledge));
  }

  lemma EndsSame(h: Host, h': Host)
    ensures h'.lives == h.lives ==> EndsWell(h, h')
  {
  }

  lemma DispatchEnds(h: Host)
    requires h.queue != [] && h.Has(h.queue[0])
    ensures EndsWell(h, DispatchOne(h))
  {
    hide DispatchOne;
    DispatchHere(h);
  }

  /** A life that ends in a step has been told DISCONNECT if it was told CONNECT, unless the application cuts the peer
      off itself. */
  lemma LifeEnds(h: Host, a: Action)
    requires Good(h) && !a.UserReset? && !a.UserDisconnectNow?
    ensures |h.life| == |h.peers| && EndsWell(h, Step(h, a))
  {
    hide EndsWell, DispatchOne, NotifyDisconnect, NotifyConnect, AskDisconnect, HandleDisconnect, Good;
    GoodUse(h, 0);
    EndsSame(h, Step(h, a));
    if a.DispatchEvent? {
      if h.queue != [] && h.queue[0] < |h.peers| { DispatchEnds(h); }
    } else if !a.LocalConnect? && !a.RemoteConnect? && a.p < |h.peers| {
      PeerEnds(h, a);
    }
  }

  lemma PeerEnds(h: Host, a: Action)
    requires Good(h) && !a.LocalConnect? && !a.RemoteConnect? && !a.DispatchEvent? && h.Has(a.p)
    requires !a.UserReset? && !a.UserDisconnectNow?
    ensures EndsWell(h, StepPeer(h, a))
  {
    hide EndsWell, NotifyDisconnect, NotifyConnect, AskDisconnect, HandleDisconnect, Good;
    var slot := a.p;
    GoodUse(h, slot);
    EndsSame(h, StepPeer(h, a));
    match a {
      case RemoteDisconnect(p, acknowledge) => BlocksEnd(h, p, true, acknowledge);
      case VerifyConnect(p, _, bandwidth, deliver) =>
        BlocksEnd(WithBandwidth(h, p, bandwidth), p, deliver, true);
        EndsFrom(h, WithBandwidth(h, p, bandwidth), NotifyConnect(WithBandwidth(h, p, bandwidth), p, deliver));
      case Acknowledge(p, _, _, deliver) => BlocksEnd(h, p, deliver, true);
      case Timeout(p, deliver) => BlocksEnd(h, p, deliver, true);
      case _ => BlocksEnd(h, slot, true, true);
    }
  }

  lemma EndsFrom(h: Host, h1: Host, h2: Host)
    requires h1.lives == h.lives && EndsWell(h1, h2)
    ensures EndsWell(h, h2)
  {
  }

  /** In every run without such calls, every life that is over ends with DISCONNECT, or the application was told nothing
      of it. */
  lemma {:induction false} Goodbyes(n: nat, run: seq<Action>, i: nat)
    requires (forall a :: a in run ==> !a.UserReset? && !a.UserDisconnectNow?) && i < |After(n, run).lives|
    ensures Ended(After(n, run).lives[i])
    decreases |run|
  {
    hide Good, Step, Ended;
    if run != [] {
      var r := run[..|run| - 1];
      LifeEnds(After(n, r), run[|run| - 1]);
      if i < |After(n, r).lives| { Goodbyes(n, r, i); }
    }
  }
}
