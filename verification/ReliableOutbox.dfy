/**
 The sending side of a peer's reliable channels: the queues, the window counters and the data in
 transit, and the atomic steps that the sender's loops are made of.
 */
module ReliableOutboxes {
  import opened Words
  import opened SequenceWindows
  import opened WindowBits

  /** An outgoing command.  `number` is its sequence number before it is cut to 16 bits; `flagged` says
      whether it asks for an acknowledgement. */
  datatype Outgoing = Outgoing(
    channel: nat, number: nat, attempts: nat, length: nat, packet: bool, flagged: bool,
    queued: u32, sentAt: u32, timeout: nat)
  {
    function Window(): (w: nat)
      ensures w < WINDOWS
    {
      Wire(number) / WINDOW
    }

    predicate Live(c: nat) { channel == c && attempts >= 1 }
  }

  /** A channel's counters.  `used` are the one bits of `usedReliableWindows`; `last` is the last number
      given to a command. */
  datatype Channel = Channel(windows: seq<nat>, used: set<nat>, last: nat)

  datatype Outbox = Outbox(
    outgoing: seq<Outgoing>, reliable: seq<Outgoing>, sent: seq<Outgoing>, channels: seq<Channel>, transit: nat)
  {
    /** The commands of the channels, sent or to be sent, in the order of the two lists. */
    function All(): seq<Outgoing> { sent + reliable }
  }

  /** What may be in transit at most, for a peer with this MTU. */
  function Ceiling(mtu: nat): nat { if mtu > 0x1_0000 then mtu else 0x1_0000 }

  // ---- Counting ----

  /** How many live commands of channel `c` are in window `r`. */
  function Tally(s: seq<Outgoing>, c: nat, r: nat): nat {
    if s == [] then 0 else (if s[0].Live(c) && s[0].Window() == r then 1 else 0) + Tally(s[1..], c, r)
  }

  function Lengths(s: seq<Outgoing>): nat {
    if s == [] then 0 else s[0].length + Lengths(s[1..])
  }

  /** The numbers of channel `c` that have not been sent yet, in the order of the list. */
  function Fresh(s: seq<Outgoing>, c: nat): seq<nat> {
    if s == [] then []
    else (if s[0].channel == c && s[0].attempts == 0 then [s[0].number] else []) + Fresh(s[1..], c)
  }

  lemma {:induction false} TallyAppend(a: seq<Outgoing>, b: seq<Outgoing>, c: nat, r: nat)
    ensures Tally(a + b, c, r) == Tally(a, c, r) + Tally(b, c, r)
  {
    if a == [] {
      assert a + b == b;
    } else {
      assert (a + b)[1..] == a[1..] + b;
      TallyAppend(a[1..], b, c, r);
    }
  }

  lemma {:induction false} LengthsAppend(a: seq<Outgoing>, b: seq<Outgoing>)
    ensures Lengths(a + b) == Lengths(a) + Lengths(b)
  {
    if a == [] {
      assert a + b == b;
    } else {
      assert (a + b)[1..] == a[1..] + b;
      LengthsAppend(a[1..], b);
    }
  }

  lemma {:induction false} FreshAppend(a: seq<Outgoing>, b: seq<Outgoing>, c: nat)
    ensures Fresh(a + b, c) == Fresh(a, c) + Fresh(b, c)
  {
    if a == [] {
      assert a + b == b;
    } else {
      assert (a + b)[1..] == a[1..] + b;
      FreshAppend(a[1..], b, c);
    }
  }

  /** A live command is counted in its window. */
  lemma {:induction false} TallyHas(s: seq<Outgoing>, i: nat, c: nat)
    requires i < |s| && s[i].Live(c)
    ensures Tally(s, c, s[i].Window()) > 0
  {
    if i > 0 { TallyHas(s[1..], i - 1, c); }
  }

  function Without<T>(s: seq<T>, i: nat): seq<T>
    requires i < |s|
  {
    s[..i] + s[i + 1..]
  }

  function With<T>(s: seq<T>, p: nat, x: T): seq<T>
    requires p <= |s|
  {
    s[..p] + [x] + s[p..]
  }

  function One(x: Outgoing, c: nat, r: nat): nat {
    if x.Live(c) && x.Window() == r then 1 else 0
  }

  lemma TallyWithout(s: seq<Outgoing>, i: nat, c: nat, r: nat)
    requires i < |s|
    ensures Tally(Without(s, i), c, r) + One(s[i], c, r) == Tally(s, c, r)
  {
    assert s == s[..i] + ([s[i]] + s[i + 1..]);
    TallyAppend(s[..i], [s[i]] + s[i + 1..], c, r);
    TallyAppend([s[i]], s[i + 1..], c, r);
    TallyAppend(s[..i], s[i + 1..], c, r);
    TallyOne(s[i], c, r);
  }

  lemma TallyOne(x: Outgoing, c: nat, r: nat)
    ensures Tally([x], c, r) == One(x, c, r)
  {
    assert Tally([x][1..], c, r) == 0;
  }

  lemma TallyWith(s: seq<Outgoing>, p: nat, x: Outgoing, c: nat, r: nat)
    requires p <= |s|
    ensures Tally(With(s, p, x), c, r) == Tally(s, c, r) + One(x, c, r)
  {
    assert s == s[..p] + s[p..];
    TallyAppend(s[..p], s[p..], c, r);
    TallyAppend(s[..p] + [x], s[p..], c, r);
    TallyAppend(s[..p], [x], c, r);
    TallyOne(x, c, r);
  }

  lemma LengthsWithout(s: seq<Outgoing>, i: nat)
    requires i < |s|
    ensures Lengths(Without(s, i)) + s[i].length == Lengths(s)
  {
    assert s == s[..i] + ([s[i]] + s[i + 1..]);
    LengthsAppend(s[..i], [s[i]] + s[i + 1..]);
    LengthsAppend(s[..i], s[i + 1..]);
    assert ([s[i]] + s[i + 1..])[1..] == s[i + 1..];
  }

  // ---- What the sender keeps ----

  /** Which commands are in which list: those of a channel carry a packet, the others do not. */
  predicate Kinds(o: Outbox) {
    && (forall i :: 0 <= i < |o.reliable| ==> o.reliable[i].packet && o.reliable[i].flagged && o.reliable[i].channel < |o.channels|)
    && (forall i :: 0 <= i < |o.outgoing| && o.outgoing[i].flagged ==> Control(o.outgoing[i], |o.channels|))
    && (forall i :: 0 <= i < |o.sent| ==>
         o.sent[i].flagged && o.sent[i].attempts >= 1 && (o.sent[i].packet || Control(o.sent[i], |o.channels|)))
    && (forall i :: 0 <= i < |o.sent| && o.sent[i].packet ==> o.sent[i].channel < |o.channels|)
  }

  predicate Control(x: Outgoing, channels: nat) {
    !x.packet && x.length == 0 && x.channel >= channels
  }

  /** The window counters count the live commands, and the bits tell which counters are not zero. */
  ghost predicate Accounts(o: Outbox) {
    forall c :: 0 <= c < |o.channels| ==> Accounted(o.channels[c], o.All(), c)
  }

  ghost predicate Accounted(ch: Channel, all: seq<Outgoing>, c: nat) {
    && |ch.windows| == WINDOWS
    && (forall r :: 0 <= r < WINDOWS ==> ch.windows[r] == Tally(all, c, r))
    && (forall r :: r in ch.used <==> 0 <= r < WINDOWS && ch.windows[r] > 0)
  }

  /** The last number of channel `c` that has been sent. */
  function Frontier(o: Outbox, c: nat): int
    requires c < |o.channels|
  {
    o.channels[c].last - |Fresh(o.reliable, c)|
  }

  /** Numbers not sent yet follow each other after the last one sent. */
  predicate InTurn(o: Outbox, c: nat)
    requires c < |o.channels|
  {
    && Frontier(o, c) >= 0
    && forall j :: 0 <= j < |Fresh(o.reliable, c)| ==> Fresh(o.reliable, c)[j] == Frontier(o, c) + 1 + j
  }

  /** Live numbers lie within seven windows up to the last one sent. */
  predicate Near(all: seq<Outgoing>, c: nat, f: int) {
    forall i :: 0 <= i < |all| && all[i].Live(c) ==>
      0 < all[i].number <= f && f / WINDOW <= all[i].number / WINDOW + (FREE_WINDOWS - 2)
  }

  predicate Unique(all: seq<Outgoing>) {
    forall i, j :: 0 <= i < j < |all| && all[i].attempts >= 1 && all[j].attempts >= 1 && all[i].packet && all[j].packet ==>
      all[i].channel != all[j].channel || all[i].number != all[j].number
  }

  /** Commands that are to be sent again come before those that have not been sent. */
  predicate AgainFirst(s: seq<Outgoing>) {
    forall i, j :: 0 <= i < j < |s| && s[i].flagged && s[j].flagged && s[j].attempts >= 1 ==> s[i].attempts >= 1
  }

  ghost predicate Good(o: Outbox, ceiling: nat) {
    && Kinds(o) && Accounts(o) && Unique(o.All())
    && (forall c :: 0 <= c < |o.channels| ==> InTurn(o, c) && Near(o.All(), c, Frontier(o, c)))
    && AgainFirst(o.reliable) && AgainFirst(o.outgoing)
    && o.transit == Lengths(o.sent) <= ceiling
  }

  // ---- The steps ----

  /** The window test for a command that has not been sent. */
  predicate Blocked(o: Outbox, x: Outgoing)
    requires x.channel < |o.channels| && |o.channels[x.channel].windows| == WINDOWS
  {
    var ch, w := o.channels[x.channel], x.Window();
    && x.attempts < 1 && Wire(x.number) % WINDOW == 0
    && (ch.windows[(w + WINDOWS - 1) % WINDOWS] >= WINDOW || exists r :: r in ch.used && r < WINDOWS && Marked(Mask(w), r))
  }

  function Enter(ch: Channel, w: nat): Channel
    requires w < |ch.windows|
  {
    ch.(windows := ch.windows[w := ch.windows[w] + 1], used := ch.used + {w})
  }

  function Leave(ch: Channel, w: nat): Channel
    requires w < |ch.windows|
  {
    if ch.windows[w] == 0 then ch
    else ch.(windows := ch.windows[w := ch.windows[w] - 1], used := if ch.windows[w] == 1 then ch.used - {w} else ch.used)
  }

  function Stamped(x: Outgoing, now: u32, rto: nat): Outgoing {
    x.(attempts := x.attempts + 1, sentAt := now, timeout := if x.timeout == 0 then rto else x.timeout)
  }

  /** The first command of the reliable list goes out. */
  function SendHead(o: Outbox, now: u32, rto: nat): Outbox
    requires o.reliable != [] && o.reliable[0].channel < |o.channels|
    requires |o.channels[o.reliable[0].channel].windows| == WINDOWS
  {
    var x := o.reliable[0];
    var ch := o.channels[x.channel];
    o.(reliable := o.reliable[1..], sent := o.sent + [Stamped(x, now, rto)],
       channels := if x.attempts < 1 then o.channels[x.channel := Enter(ch, x.Window())] else o.channels,
       transit := o.transit + x.length)
  }

  /** A control command goes out. */
  function SendControl(o: Outbox, i: nat, now: u32, rto: nat): Outbox
    requires i < |o.outgoing|
  {
    o.(outgoing := Without(o.outgoing, i), sent := o.sent + [Stamped(o.outgoing[i], now, rto)],
       transit := o.transit + o.outgoing[i].length)
  }

  /** A timed-out command goes back to the head of its queue, behind those that went before it. */
  function Requeue(o: Outbox, i: nat, p: nat): Outbox
    requires i < |o.sent| && (if o.sent[i].packet then p <= |o.reliable| else p <= |o.outgoing|)
    requires o.sent[i].packet ==> o.sent[i].length <= o.transit
  {
    var x := o.sent[i].(timeout := 2 * o.sent[i].timeout);
    if x.packet then o.(sent := Without(o.sent, i), reliable := With(o.reliable, p, x), transit := o.transit - x.length)
    else o.(sent := Without(o.sent, i), outgoing := With(o.outgoing, p, x))
  }

  function Left(o: Outbox, c: nat, seqno: u16): seq<Channel> {
    if c < |o.channels| && |o.channels[c].windows| == WINDOWS then o.channels[c := Leave(o.channels[c], seqno / WINDOW)]
    else o.channels
  }

  function RemoveSent(o: Outbox, i: nat): Outbox
    requires i < |o.sent| && (o.sent[i].packet ==> o.sent[i].length <= o.transit)
  {
    var x := o.sent[i];
    o.(sent := Without(o.sent, i), channels := Left(o, x.channel, Wire(x.number)),
       transit := if x.packet then o.transit - x.length else o.transit)
  }

  function RemoveQueued(o: Outbox, i: nat): Outbox
    requires i < |o.reliable|
  {
    o.(reliable := Without(o.reliable, i), channels := Left(o, o.reliable[i].channel, Wire(o.reliable[i].number)))
  }

  function RemoveControl(o: Outbox, i: nat): Outbox
    requires i < |o.outgoing|
  {
    o.(outgoing := Without(o.outgoing, i), channels := Left(o, o.outgoing[i].channel, Wire(o.outgoing[i].number)))
  }
}
