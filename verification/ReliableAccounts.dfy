/**
 Every step of the sender keeps its books, and moves each channel as the runs of a reliable channel
 allow.
 */
module ReliableAccounts {
  import opened Words
  import opened SequenceWindows
  import opened WindowBits
  import opened ReliableOutboxes
  import opened ReliableRuns

  /** The numbers of channel `c` that have been sent and not acknowledged. */
  function Open(all: seq<Outgoing>, c: nat): set<nat> {
    set i | 0 <= i < |all| && all[i].Live(c) :: all[i].number
  }

  // ---- Replacing, removing and adding one command ----

  lemma TallyReplace(s: seq<Outgoing>, i: nat, x: Outgoing, c: nat, r: nat)
    requires i < |s|
    ensures Tally(s[i := x], c, r) + One(s[i], c, r) == Tally(s, c, r) + One(x, c, r)
  {
    TallyWithout(s, i, c, r);
    TallyWithout(s[i := x], i, c, r);
    assert Without(s[i := x], i) == Without(s, i);
  }

  lemma WithoutAt<T>(s: seq<T>, i: nat)
    requires i < |s|
    ensures |Without(s, i)| == |s| - 1
    ensures forall j :: 0 <= j < i ==> Without(s, i)[j] == s[j]
    ensures forall j :: i <= j < |s| - 1 ==> Without(s, i)[j] == s[j + 1]
    ensures forall j :: 0 <= j < |s| && j != i ==> s[j] in Without(s, i)
  {
    forall j | 0 <= j < |s| && j != i ensures s[j] in Without(s, i) {
      if j < i {
        assert Without(s, i)[j] == s[j];
      } else {
        assert Without(s, i)[j - 1] == s[j];
      }
    }
  }

  lemma WithAt<T>(s: seq<T>, p: nat, x: T)
    requires p <= |s|
    ensures |With(s, p, x)| == |s| + 1 && With(s, p, x)[p] == x
    ensures forall j :: 0 <= j < p ==> With(s, p, x)[j] == s[j]
    ensures forall j :: p < j <= |s| ==> With(s, p, x)[j] == s[j - 1]
  {
  }

  lemma FreshLive(s: seq<Outgoing>, i: nat, c: nat)
    requires i < |s| && s[i].attempts >= 1
    ensures Fresh(Without(s, i), c) == Fresh(s, c)
  {
    assert s == s[..i] + ([s[i]] + s[i + 1..]);
    FreshAppend(s[..i], [s[i]] + s[i + 1..], c);
    FreshAppend(s[..i], s[i + 1..], c);
    assert ([s[i]] + s[i + 1..])[1..] == s[i + 1..];
  }

  lemma FreshWith(s: seq<Outgoing>, p: nat, x: Outgoing, c: nat)
    requires p <= |s| && x.attempts >= 1
    ensures Fresh(With(s, p, x), c) == Fresh(s, c)
  {
    WithAt(s, p, x);
    FreshLive(With(s, p, x), p, c);
    assert Without(With(s, p, x), p) == s;
  }

  lemma {:induction false} FreshHas(s: seq<Outgoing>, c: nat)
    requires s != []
    ensures s[0].channel == c && s[0].attempts == 0 ==> Fresh(s, c) == [s[0].number] + Fresh(s[1..], c)
    ensures !(s[0].channel == c && s[0].attempts == 0) ==> Fresh(s, c) == Fresh(s[1..], c)
  {
  }

  // ---- Sending ----

  lemma HeadAll(o: Outbox, x': Outgoing)
    requires o.reliable != []
    ensures (o.sent + [x']) + o.reliable[1..] == o.All()[|o.sent| := x']
    ensures o.All()[|o.sent|] == o.reliable[0]
  {
  }

  /** The head of the list, when it has not been sent, is the next number of its channel. */
  lemma HeadTurn(o: Outbox, c: nat)
    requires o.reliable != [] && o.reliable[0].channel == c < |o.channels| && o.reliable[0].attempts == 0 && InTurn(o, c)
    ensures o.reliable[0].number == Frontier(o, c) + 1
  {
    FreshHas(o.reliable, c);
    assert Fresh(o.reliable, c)[0] == o.reliable[0].number;
  }

  lemma WindowOfWire(n: nat)
    ensures Wire(n) / WINDOW == (n / WINDOW) % WINDOWS && Wire(n) % WINDOW == n % WINDOW
  {
    WireParts(n);
  }

  /** The window test is the limit on the open numbers. */
  lemma FreeWindows(o: Outbox, x: Outgoing)
    requires x.channel < |o.channels| && Accounted(o.channels[x.channel], o.All(), x.channel)
    requires !Blocked(o, x) && x.attempts == 0 && x.number % WINDOW == 0
    ensures WindowFree(Open(o.All(), x.channel), x.number / WINDOW)
  {
    hide Tally, Mask, Wire;
    var all, c, ch := o.All(), x.channel, o.channels[x.channel];
    WindowOfWire(x.number);
    forall n | n in Open(all, c) ensures (n / WINDOW - x.number / WINDOW) % WINDOWS >= FREE_WINDOWS + 2 {
      var i :| 0 <= i < |all| && all[i].Live(c) && all[i].number == n;
      TallyHas(all, i, c);
      var r := all[i].Window();
      WindowOfWire(n);
      MaskBits(x.Window(), r);
      assert r in ch.used && !Marked(Mask(x.Window()), r);
      ModDifference(n / WINDOW, x.number / WINDOW);
    }
  }

  lemma ModDifference(a: int, b: int)
    ensures (a % WINDOWS - b % WINDOWS) % WINDOWS == (a - b) % WINDOWS
  {
    ModShift(a - b, a / WINDOWS - b / WINDOWS);
  }

  lemma ModShift(x: int, k: int)
    ensures (x - WINDOWS * k) % WINDOWS == x % WINDOWS
  {
    var q, r := x / WINDOWS, x % WINDOWS;
    assert x - WINDOWS * k == WINDOWS * (q - k) + r;
  }

  predicate CanSend(o: Outbox, limit: nat) {
    && o.reliable != [] && o.reliable[0].channel < |o.channels|
    && |o.channels[o.reliable[0].channel].windows| == WINDOWS
    && !Blocked(o, o.reliable[0]) && o.transit + o.reliable[0].length <= limit
  }

  lemma EnterAccounted(ch: Channel, all: seq<Outgoing>, all': seq<Outgoing>, c: nat, w: nat)
    requires Accounted(ch, all, c) && w < WINDOWS
    requires forall r :: 0 <= r < WINDOWS ==> Tally(all', c, r) == Tally(all, c, r) + if r == w then 1 else 0
    ensures Accounted(Enter(ch, w), all', c)
  {
  }

  lemma LeaveAccounted(ch: Channel, all: seq<Outgoing>, all': seq<Outgoing>, c: nat, w: nat)
    requires Accounted(ch, all, c) && w < WINDOWS
    requires forall r :: 0 <= r < WINDOWS ==> Tally(all', c, r) + (if r == w then 1 else 0) == Tally(all, c, r)
    ensures Accounted(Leave(ch, w), all', c)
  {
  }

  lemma SameAccounted(ch: Channel, all: seq<Outgoing>, all': seq<Outgoing>, c: nat)
    requires Accounted(ch, all, c)
    requires forall r :: 0 <= r < WINDOWS ==> Tally(all', c, r) == Tally(all, c, r)
    ensures Accounted(ch, all', c)
  {
  }

  lemma SendHeadAccounts(o: Outbox, now: u32, rto: nat, limit: nat)
    requires Accounts(o) && CanSend(o, limit)
    ensures Accounts(SendHead(o, now, rto))
  {
    hide Accounted, Tally, Outgoing.Window, Enter, Blocked;
    var x := o.reliable[0];
    var x', o', all := Stamped(x, now, rto), SendHead(o, now, rto), o.All();
    HeadAll(o, x');
    forall c | 0 <= c < |o.channels| ensures Accounted(o'.channels[c], o'.All(), c) {
      assert Accounted(o.channels[c], all, c);
      forall r | 0 <= r < WINDOWS
        ensures Tally(o'.All(), c, r) == Tally(all, c, r) + if x.attempts < 1 && c == x.channel && r == x.Window() then 1 else 0
      {
        TallyReplace(all, |o.sent|, x', c, r);
        assert x'.Window() == x.Window() by { SameWindow(x, x'); }
      }
      if x.attempts < 1 && c == x.channel {
        EnterAccounted(o.channels[c], all, o'.All(), c, x.Window());
      } else {
        SameAccounted(o.channels[c], all, o'.All(), c);
      }
    }
  }

  lemma SameWindow(x: Outgoing, y: Outgoing)
    requires x.number == y.number
    ensures x.Window() == y.Window()
  {
  }

  /** What sending does to a channel: a number that goes out for the first time is the next one, within
      the window limit; a repetition changes nothing. */
  lemma SendHeadView(o: Outbox, now: u32, rto: nat, limit: nat, ceiling: nat, c: nat)
    requires Good(o, ceiling) && CanSend(o, limit) && c < |o.channels|
    ensures var o' := SendHead(o, now, rto); var f := Frontier(o, c);
      |o'.channels| == |o.channels| && InTurn(o', c)
      && if o.reliable[0].channel == c && o.reliable[0].attempts == 0 then
           && Frontier(o', c) == f + 1 == o.reliable[0].number && Open(o'.All(), c) == Open(o.All(), c) + {f + 1}
           && ((f + 1) % WINDOW == 0 ==> WindowFree(Open(o.All(), c), (f + 1) / WINDOW))
         else Frontier(o', c) == f && Open(o'.All(), c) == Open(o.All(), c)
  {
    hide Blocked, Tally, Lengths, Kinds, AgainFirst, Near, Unique, WindowFree, Enter, Wire, Outgoing.Window;
    var x := o.reliable[0];
    var o', x' := SendHead(o, now, rto), Stamped(x, now, rto);
    FreshHas(o.reliable, c);
    HeadAll(o, x');
    assert InTurn(o, c) && Accounted(o.channels[x.channel], o.All(), x.channel);
    assert o'.channels[c].last == o.channels[c].last by { SendHeadLast(o, now, rto, c); }
    OpenReplace(o.All(), |o.sent|, x', c);
    if x.channel == c && x.attempts == 0 {
      HeadTurn(o, c);
      assert forall j :: 0 <= j < |Fresh(o'.reliable, c)| ==> Fresh(o'.reliable, c)[j] == Fresh(o.reliable, c)[j + 1];
      if x.number % WINDOW == 0 { FreeWindows(o, x); }
    }
  }

  lemma SendHeadLast(o: Outbox, now: u32, rto: nat, c: nat)
    requires o.reliable != [] && o.reliable[0].channel < |o.channels| && c < |o.channels|
    requires |o.channels[o.reliable[0].channel].windows| == WINDOWS
    ensures |SendHead(o, now, rto).channels| == |o.channels| && SendHead(o, now, rto).channels[c].last == o.channels[c].last
  {
  }

  lemma OpenReplace(all: seq<Outgoing>, i: nat, x: Outgoing, c: nat)
    requires i < |all| && x.number == all[i].number && x.channel == all[i].channel && x.attempts == all[i].attempts + 1
    ensures Open(all[i := x], c) ==
      Open(all, c) + if x.channel == c && all[i].attempts == 0 then {x.number} else {}
  {
    var all' := all[i := x];
    forall n | n in Open(all, c) ensures n in Open(all', c) {
      var j :| 0 <= j < |all| && all[j].Live(c) && all[j].number == n;
      assert all'[j].Live(c) && all'[j].number == n;
    }
    assert all'[i] == x;
  }

  /** Going on to number `f` keeps the live numbers within seven windows. */
  lemma NearOn(all: seq<Outgoing>, i: nat, x: Outgoing, c: nat, f: nat)
    requires Near(all, c, f) && i < |all| && x.number == all[i].number && x.channel == all[i].channel
    requires x.channel == c && x.number == f + 1
    requires (f + 1) % WINDOW == 0 ==> WindowFree(Open(all, c), (f + 1) / WINDOW)
    ensures Near(all[i := x], c, f + 1)
  {
    hide Outgoing.Window;
    forall j | 0 <= j < |all| && all[j].Live(c)
      ensures (f + 1) / WINDOW <= all[j].number / WINDOW + (FREE_WINDOWS - 2)
    {
      assert all[j].number in Open(all, c);
      WindowStep(f, all[j].number);
    }
  }

  lemma NearSame(all: seq<Outgoing>, i: nat, x: Outgoing, c: nat, f: int)
    requires Near(all, c, f) && i < |all| && x.number == all[i].number && x.channel == all[i].channel
    requires x.channel == c ==> all[i].attempts >= 1
    ensures Near(all[i := x], c, f)
  {
    assert x.Live(c) ==> all[i].Live(c);
  }

  lemma UniqueOn(all: seq<Outgoing>, i: nat, x: Outgoing)
    requires Unique(all) && i < |all| && x.number == all[i].number && x.channel == all[i].channel && x.packet == all[i].packet
    requires all[i].attempts == 0 ==> forall j :: 0 <= j < |all| && all[j].Live(x.channel) ==> all[j].number < x.number
    ensures Unique(all[i := x])
  {
  }

  /** Sending the head of the list keeps the sender's books. */
  lemma SendHeadGood(o: Outbox, now: u32, rto: nat, limit: nat, ceiling: nat)
    requires Good(o, ceiling) && CanSend(o, limit) && limit <= ceiling
    ensures Good(SendHead(o, now, rto), ceiling)
  {
    hide Blocked, Tally, Lengths, AgainFirst, Near, Unique, WindowFree, Enter, Outgoing.Window, Accounts, InTurn, Kinds, Frontier;
    var x := o.reliable[0];
    var o', x', all := SendHead(o, now, rto), Stamped(x, now, rto), o.All();
    HeadAll(o, x');
    SendHeadAccounts(o, now, rto, limit);
    SendHeadView(o, now, rto, limit, ceiling, x.channel);
    SendHeadShape(o, now, rto);
    assert Near(all, x.channel, Frontier(o, x.channel));
    if x.attempts == 0 {
      NearBelow(all, x.channel, Frontier(o, x.channel), x.number);
    }
    UniqueOn(all, |o.sent|, x');
    forall c | 0 <= c < |o.channels| ensures InTurn(o', c) && Near(o'.All(), c, Frontier(o', c)) {
      SendHeadView(o, now, rto, limit, ceiling, c);
      assert Near(all, c, Frontier(o, c)) && InTurn(o, c);
      if x.channel == c && x.attempts == 0 {
        assert Frontier(o, c) >= 0 by { TurnPositive(o, c); }
        NearOn(all, |o.sent|, x', c, Frontier(o, c));
      } else {
        NearSame(all, |o.sent|, x', c, Frontier(o, c));
      }
    }
  }

  lemma TurnPositive(o: Outbox, c: nat)
    requires c < |o.channels| && InTurn(o, c)
    ensures Frontier(o, c) >= 0
  {
  }

  lemma NearBelow(all: seq<Outgoing>, c: nat, f: int, n: nat)
    requires Near(all, c, f) && n == f + 1
    ensures forall j :: 0 <= j < |all| && all[j].Live(c) ==> all[j].number < n
  {
  }

  lemma SendHeadShape(o: Outbox, now: u32, rto: nat)
    requires o.reliable != [] && o.reliable[0].channel < |o.channels|
    requires |o.channels[o.reliable[0].channel].windows| == WINDOWS
    requires Kinds(o) && AgainFirst(o.reliable) && o.transit == Lengths(o.sent)
    ensures var o' := SendHead(o, now, rto); Kinds(o') && AgainFirst(o'.reliable) && o'.transit == Lengths(o'.sent)
    ensures SendHead(o, now, rto).transit == o.transit + o.reliable[0].length
  {
    hide Outgoing.Window, Enter;
    var x' := Stamped(o.reliable[0], now, rto);
    LengthsAppend(o.sent, [x']);
    assert [x'][1..] == [] && Lengths([x']) == x'.length;
  }

  // ---- Removing and putting back ----

  /** Two commands that are sent apart from each other. */
  predicate Differ(x: Outgoing, y: Outgoing) {
    x.packet && y.packet && x.attempts >= 1 && y.attempts >= 1 ==> x.channel != y.channel || x.number != y.number
  }

  lemma UniqueDrop(all: seq<Outgoing>, i: nat)
    requires Unique(all) && i < |all|
    ensures Unique(Without(all, i))
    ensures forall y :: y in Without(all, i) ==> Differ(y, all[i])
  {
    WithoutAt(all, i);
    var rest := Without(all, i);
    forall j | 0 <= j < |rest| ensures Differ(rest[j], all[i]) {
      var j' := if j < i then j else j + 1;
      assert rest[j] == all[j'];
    }
  }

  lemma UniqueAdd(all: seq<Outgoing>, p: nat, x: Outgoing)
    requires Unique(all) && p <= |all| && forall y :: y in all ==> Differ(y, x)
    ensures Unique(With(all, p, x))
  {
    WithAt(all, p, x);
    var more := With(all, p, x);
    forall i, j | 0 <= i < j < |more| && i != p && j != p ensures Differ(more[i], more[j]) {
      var i', j' := if i < p then i else i - 1, if j < p then j else j - 1;
      assert more[i] == all[i'] && more[j] == all[j'];
    }
    forall i | 0 <= i < |more| && i != p ensures Differ(more[i], x) {
      assert more[i] in all;
    }
  }

  lemma NearDrop(all: seq<Outgoing>, i: nat, c: nat, f: int)
    requires Near(all, c, f) && i < |all|
    ensures Near(Without(all, i), c, f)
  {
    WithoutAt(all, i);
  }

  lemma NearAdd(all: seq<Outgoing>, p: nat, x: Outgoing, c: nat, f: int)
    requires Near(all, c, f) && p <= |all| && Near([x], c, f)
    ensures Near(With(all, p, x), c, f)
  {
    WithAt(all, p, x);
    assert [x][0] == x;
  }

  lemma OpenDrop(all: seq<Outgoing>, i: nat, c: nat)
    requires Unique(all) && i < |all| && (forall j :: 0 <= j < |all| && all[j].Live(c) ==> all[j].packet)
    ensures Open(Without(all, i), c) == Open(all, c) - if all[i].Live(c) then {all[i].number} else {}
  {
    WithoutAt(all, i);
    UniqueDrop(all, i);
    var rest := Without(all, i);
    forall n | n in Open(rest, c) ensures n in Open(all, c) && !(all[i].Live(c) && all[i].number == n) {
      var j :| 0 <= j < |rest| && rest[j].Live(c) && rest[j].number == n;
      var j' := if j < i then j else j + 1;
      assert rest[j] == all[j'] && all[j'].Live(c) && rest[j] in rest;
    }
    forall n | n in Open(all, c) && !(all[i].Live(c) && all[i].number == n) ensures n in Open(rest, c) {
      var j :| 0 <= j < |all| && all[j].Live(c) && all[j].number == n;
      assert all[j] in rest;
      var j' :| 0 <= j' < |rest| && rest[j'] == all[j];
      assert rest[j'].Live(c);
    }
  }

  lemma OpenAdd(all: seq<Outgoing>, p: nat, x: Outgoing, c: nat)
    requires p <= |all|
    ensures Open(With(all, p, x), c) == Open(all, c) + if x.Live(c) then {x.number} else {}
  {
    WithAt(all, p, x);
    var more := With(all, p, x);
    forall n | n in Open(all, c) ensures n in Open(more, c) {
      var j :| 0 <= j < |all| && all[j].Live(c) && all[j].number == n;
      var j' := if j < p then j else j + 1;
      assert more[j'] == all[j] && more[j'].Live(c);
    }
    forall n | n in Open(more, c) && !(x.Live(c) && x.number == n) ensures n in Open(all, c) {
      var j :| 0 <= j < |more| && more[j].Live(c) && more[j].number == n;
      var j' := if j < p then j else j - 1;
      assert more[j] == all[j'] && all[j'].Live(c);
    }
    assert more[p] == x;
  }

  /** Every live command of a channel carries a packet. */
  lemma LivePacket(o: Outbox, c: nat)
    requires Kinds(o) && c < |o.channels|
    ensures forall j :: 0 <= j < |o.All()| && o.All()[j].Live(c) ==> o.All()[j].packet
  {
    forall j | 0 <= j < |o.All()| && o.All()[j].Live(c) ensures o.All()[j].packet {
      if j >= |o.sent| { assert o.All()[j] == o.reliable[j - |o.sent|]; }
    }
  }

  /** Taking command `k` out of the lists, with its counter, keeps the counters right. */
  lemma DropAccounts(o: Outbox, o': Outbox, k: nat)
    requires Accounts(o) && k < |o.All()| && o'.All() == Without(o.All(), k)
    requires o.All()[k].attempts >= 1 && o'.channels == Left(o, o.All()[k].channel, Wire(o.All()[k].number))
    ensures Accounts(o')
  {
    hide Accounted, Tally, Wire, Leave;
    var x := o.All()[k];
    forall c | 0 <= c < |o'.channels| ensures Accounted(o'.channels[c], o'.All(), c) {
      assert Accounted(o.channels[c], o.All(), c);
      forall r | 0 <= r < WINDOWS ensures Tally(o'.All(), c, r) + One(x, c, r) == Tally(o.All(), c, r) {
        TallyWithout(o.All(), k, c, r);
      }
      if c == x.channel {
        AccountedSize(o.channels[c], o.All(), c);
        LeaveAccounted(o.channels[c], o.All(), o'.All(), c, x.Window());
      } else {
        SameAccounted(o.channels[c], o.All(), o'.All(), c);
      }
    }
  }

  lemma AccountedSize(ch: Channel, all: seq<Outgoing>, c: nat)
    requires Accounted(ch, all, c)
    ensures |ch.windows| == WINDOWS
  {
  }

  lemma LeftLast(o: Outbox, c: nat, seqno: u16)
    ensures |Left(o, c, seqno)| == |o.channels| && forall d :: 0 <= d < |o.channels| ==> Left(o, c, seqno)[d].last == o.channels[d].last
  {
  }

  /** Channel `d` has no open number `n` any more; nothing else has changed for the channels. */
  ghost predicate Forgets(o: Outbox, o': Outbox, d: nat, n: nat) {
    |o'.channels| == |o.channels| && forall c :: 0 <= c < |o.channels| ==>
      (&& Frontier(o', c) == Frontier(o, c) && o'.channels[c].last == o.channels[c].last
       && Open(o'.All(), c) == Open(o.All(), c) - if c == d then {n} else {})
  }

  /** Nothing has changed for the channels. */
  ghost predicate SameView(o: Outbox, o': Outbox) {
    |o'.channels| == |o.channels| && forall c :: 0 <= c < |o.channels| ==>
      (&& Frontier(o', c) == Frontier(o, c) && o'.channels[c].last == o.channels[c].last
       && Open(o'.All(), c) == Open(o.All(), c))
  }

  /** Taking a live command out of the lists: the channel forgets its number, and nothing else. */
  lemma DropGood(o: Outbox, o': Outbox, k: nat, ceiling: nat)
    requires Good(o, ceiling) && k < |o.All()| && o'.All() == Without(o.All(), k)
    requires o.All()[k].attempts >= 1 && o'.channels == Left(o, o.All()[k].channel, Wire(o.All()[k].number))
    requires Kinds(o') && AgainFirst(o'.reliable) && AgainFirst(o'.outgoing) && o'.transit == Lengths(o'.sent) <= ceiling
    requires forall c :: 0 <= c < |o.channels| ==> Fresh(o'.reliable, c) == Fresh(o.reliable, c)
    ensures Good(o', ceiling)
    ensures Forgets(o, o', o.All()[k].channel, o.All()[k].number)
  {
    hide Kinds, Accounts, Unique, AgainFirst, Near, Lengths, Wire, Left, Open;
    var x := o.All()[k];
    DropAccounts(o, o', k);
    UniqueDrop(o.All(), k);
    LeftLast(o, x.channel, Wire(x.number));
    forall c | 0 <= c < |o.channels|
      ensures Frontier(o', c) == Frontier(o, c) && InTurn(o', c) && Near(o'.All(), c, Frontier(o', c))
      ensures Open(o'.All(), c) == Open(o.All(), c) - if x.channel == c then {x.number} else {}
    {
      assert InTurn(o, c) && Near(o.All(), c, Frontier(o, c));
      NearDrop(o.All(), k, c, Frontier(o, c));
      LivePacket(o, c);
      OpenDrop(o.All(), k, c);
    }
  }

  lemma AllWithout(o: Outbox, i: nat)
    ensures i < |o.sent| ==> Without(o.sent, i) + o.reliable == Without(o.All(), i) && o.All()[i] == o.sent[i]
    ensures i < |o.reliable| ==>
      o.sent + Without(o.reliable, i) == Without(o.All(), |o.sent| + i) && o.All()[|o.sent| + i] == o.reliable[i]
  {
  }

  lemma AgainDrop(s: seq<Outgoing>, i: nat)
    requires AgainFirst(s) && i < |s|
    ensures AgainFirst(Without(s, i))
  {
    WithoutAt(s, i);
  }

  /** An acknowledged command that was on its way. */
  lemma RemoveSentGood(o: Outbox, i: nat, ceiling: nat)
    requires Good(o, ceiling) && i < |o.sent|
    ensures o.sent[i].length <= o.transit && Good(RemoveSent(o, i), ceiling)
    ensures Forgets(o, RemoveSent(o, i), o.sent[i].channel, o.sent[i].number)
  {
    hide Kinds, Accounts, Unique, AgainFirst, Near, Wire, Left, Open, Lengths, InTurn, Frontier;
    LengthsWithout(o.sent, i);
    SentKind(o, i);
    var o', x := RemoveSent(o, i), o.sent[i];
    AllWithout(o, i);
    RemoveKinds(o, i);
    LeftLast(o, x.channel, Wire(x.number));
    DropGood(o, o', i, ceiling);
  }

  lemma RemoveKinds(o: Outbox, i: nat)
    requires Kinds(o)
    ensures i < |o.sent| && o.sent[i].length <= o.transit ==> Kinds(RemoveSent(o, i))
    ensures i < |o.reliable| ==> Kinds(RemoveQueued(o, i))
  {
    hide Wire, Leave;
    if i < |o.sent| {
      WithoutAt(o.sent, i);
      LeftLast(o, o.sent[i].channel, Wire(o.sent[i].number));
    }
    if i < |o.reliable| {
      WithoutAt(o.reliable, i);
      LeftLast(o, o.reliable[i].channel, Wire(o.reliable[i].number));
    }
  }

  /** An acknowledged command that had timed out and was to be sent again. */
  lemma RemoveQueuedGood(o: Outbox, i: nat, ceiling: nat)
    requires Good(o, ceiling) && i < |o.reliable| && o.reliable[i].attempts >= 1
    ensures Good(RemoveQueued(o, i), ceiling)
    ensures Forgets(o, RemoveQueued(o, i), o.reliable[i].channel, o.reliable[i].number)
  {
    hide Kinds, Accounts, Unique, AgainFirst, Near, Wire, Left, Open, Lengths, InTurn, Frontier;
    var o', x := RemoveQueued(o, i), o.reliable[i];
    AllWithout(o, i);
    RemoveKinds(o, i);
    AgainDrop(o.reliable, i);
    LeftLast(o, x.channel, Wire(x.number));
    forall c | 0 <= c < |o.channels| ensures Fresh(o'.reliable, c) == Fresh(o.reliable, c) {
      FreshLive(o.reliable, i, c);
    }
    DropGood(o, o', |o.sent| + i, ceiling);
  }

  /** An acknowledged control command that was to be sent again. */
  lemma RemoveControlGood(o: Outbox, i: nat, ceiling: nat)
    requires Good(o, ceiling) && i < |o.outgoing| && o.outgoing[i].flagged
    ensures Good(RemoveControl(o, i), ceiling) && SameView(o, RemoveControl(o, i))
  {
    hide Accounted, Unique, Near, Wire, Leave, Open, Lengths;
    WithoutAt(o.outgoing, i);
    AgainDrop(o.outgoing, i);
    OutgoingGood(o, RemoveControl(o, i), ceiling);
  }

  /** The list of control commands does not matter for the channels. */
  lemma OutgoingGood(o: Outbox, o': Outbox, ceiling: nat)
    requires Good(o, ceiling) && o' == o.(outgoing := o'.outgoing) && Kinds(o') && AgainFirst(o'.outgoing)
    ensures Good(o', ceiling) && SameView(o, o')
  {
    hide Accounted, Unique, Near, AgainFirst, Kinds, Open, Lengths, InTurn;
    forall c | 0 <= c < |o.channels| ensures InTurn(o', c) && Near(o'.All(), c, Frontier(o', c)) {
      assert InTurn(o, c) && Near(o.All(), c, Frontier(o, c));
      TurnSame(o, o', c);
    }
  }

  lemma TurnSame(o: Outbox, o': Outbox, c: nat)
    requires c < |o.channels| == |o'.channels| && InTurn(o, c)
    requires Fresh(o'.reliable, c) == Fresh(o.reliable, c) && o'.channels[c].last == o.channels[c].last
    ensures InTurn(o', c) && Frontier(o', c) == Frontier(o, c)
  {
  }

  /** Putting a live command into the lists that no channel counts. */
  lemma AddGood(o: Outbox, o': Outbox, p: nat, x: Outgoing, ceiling: nat)
    requires Good(o, ceiling) && p <= |o.All()| && o'.All() == With(o.All(), p, x) && o'.channels == o.channels
    requires x.channel >= |o.channels| && !x.packet
    requires Kinds(o') && AgainFirst(o'.reliable) && AgainFirst(o'.outgoing) && o'.transit == Lengths(o'.sent) <= ceiling
    requires o'.reliable == o.reliable
    ensures Good(o', ceiling) && SameView(o, o')
  {
    hide Kinds, Accounted, Unique, AgainFirst, Near, Lengths, Tally, Open;
    UniqueAdd(o.All(), p, x);
    forall c | 0 <= c < |o.channels|
      ensures Accounted(o'.channels[c], o'.All(), c) && InTurn(o', c) && Near(o'.All(), c, Frontier(o', c))
      ensures Frontier(o', c) == Frontier(o, c) && Open(o'.All(), c) == Open(o.All(), c)
    {
      assert InTurn(o, c) && Near(o.All(), c, Frontier(o, c)) && Accounted(o.channels[c], o.All(), c);
      NearOne(x, c, Frontier(o, c));
      NearAdd(o.All(), p, x, c, Frontier(o, c));
      OpenAdd(o.All(), p, x, c);
      forall r | 0 <= r < WINDOWS ensures Tally(o'.All(), c, r) == Tally(o.All(), c, r) {
        TallyWith(o.All(), p, x, c, r);
      }
      SameAccounted(o.channels[c], o.All(), o'.All(), c);
    }
  }

  lemma NearOne(x: Outgoing, c: nat, f: int)
    requires x.Live(c) ==> 0 < x.number <= f && f / WINDOW <= x.number / WINDOW + (FREE_WINDOWS - 2)
    ensures Near([x], c, f)
  {
  }

  lemma SendControlGood(o: Outbox, i: nat, now: u32, rto: nat, ceiling: nat)
    requires Good(o, ceiling) && i < |o.outgoing| && o.outgoing[i].flagged
    ensures Good(SendControl(o, i, now, rto), ceiling) && SameView(o, SendControl(o, i, now, rto))
  {
    hide Accounts, Unique, Near, Open, InTurn, Frontier, AgainFirst;
    var o', x' := SendControl(o, i, now, rto), Stamped(o.outgoing[i], now, rto);
    WithoutAt(o.outgoing, i);
    AgainDrop(o.outgoing, i);
    LengthsAppend(o.sent, [x']);
    assert Lengths([x']) == 0 by { assert [x'][1..] == []; }
    assert (o.sent + [x']) + o.reliable == With(o.All(), |o.sent|, x');
    AddGood(o, o', |o.sent|, x', ceiling);
  }

  /** The first `p` commands of a list have been sent before. */
  predicate AllAgain(s: seq<Outgoing>, p: nat) {
    p <= |s| && forall i :: 0 <= i < p ==> s[i].attempts >= 1
  }

  lemma AgainAdd(s: seq<Outgoing>, p: nat, x: Outgoing)
    requires AgainFirst(s) && AllAgain(s, p) && x.attempts >= 1
    ensures AgainFirst(With(s, p, x)) && AllAgain(With(s, p, x), p + 1)
  {
    WithAt(s, p, x);
  }

  /** Moving a live command from one place to another changes nothing for the channels. */
  lemma MoveView(all: seq<Outgoing>, i: nat, p: nat, x: Outgoing, c: nat, f: int)
    requires Unique(all) && Near(all, c, f) && i < |all| && p < |all|
    requires x.number == all[i].number && x.channel == all[i].channel && x.attempts == all[i].attempts && x.packet == all[i].packet
    requires forall j :: 0 <= j < |all| && all[j].Live(c) ==> all[j].packet
    ensures var all' := With(Without(all, i), p, x);
      Near(all', c, f) && Open(all', c) == Open(all, c) && forall r :: 0 <= r < WINDOWS ==> Tally(all', c, r) == Tally(all, c, r)
  {
    hide Tally, Outgoing.Window, Unique;
    var rest := Without(all, i);
    WithoutAt(all, i);
    NearDrop(all, i, c, f);
    NearOne(x, c, f);
    NearAdd(rest, p, x, c, f);
    OpenDrop(all, i, c);
    OpenAdd(rest, p, x, c);
    SameWindow(x, all[i]);
    forall r | 0 <= r < WINDOWS ensures Tally(With(rest, p, x), c, r) == Tally(all, c, r) {
      TallyWithout(all, i, c, r);
      TallyWith(rest, p, x, c, r);
    }
    assert all[i].Live(c) ==> all[i].number in Open(all, c);
  }

  lemma RequeueGood(o: Outbox, i: nat, p: nat, ceiling: nat)
    requires Good(o, ceiling) && i < |o.sent| && AllAgain(if o.sent[i].packet then o.reliable else o.outgoing, p)
    ensures o.sent[i].length <= o.transit && Good(Requeue(o, i, p), ceiling) && SameView(o, Requeue(o, i, p))
    ensures AllAgain(if o.sent[i].packet then Requeue(o, i, p).reliable else Requeue(o, i, p).outgoing, p + 1)
  {
    hide Accounts, Unique, Near, Open, InTurn, Frontier, AgainFirst, Lengths, AllAgain, Kinds;
    LengthsWithout(o.sent, i);
    SentKind(o, i);
    if o.sent[i].packet {
      RequeuePacket(o, i, p, ceiling);
    } else {
      RequeueControl(o, i, p, ceiling);
    }
  }

  lemma SentKind(o: Outbox, i: nat)
    requires Kinds(o) && i < |o.sent|
    ensures o.sent[i].flagged && o.sent[i].attempts >= 1 && (o.sent[i].packet ==> o.sent[i].channel < |o.channels|)
    ensures !o.sent[i].packet ==> Control(o.sent[i], |o.channels|)
  {
  }

  lemma RequeueKinds(o: Outbox, i: nat, p: nat)
    requires Kinds(o) && i < |o.sent| && p <= |if o.sent[i].packet then o.reliable else o.outgoing|
    requires o.sent[i].length <= o.transit
    ensures Kinds(Requeue(o, i, p))
  {
    var x := o.sent[i].(timeout := 2 * o.sent[i].timeout);
    WithoutAt(o.sent, i);
    if x.packet { WithAt(o.reliable, p, x); } else { WithAt(o.outgoing, p, x); }
  }

  lemma RequeuePacket(o: Outbox, i: nat, p: nat, ceiling: nat)
    requires Good(o, ceiling) && i < |o.sent| && o.sent[i].packet && AllAgain(o.reliable, p)
    requires o.sent[i].length <= o.transit && Lengths(Without(o.sent, i)) + o.sent[i].length == o.transit
    ensures Good(Requeue(o, i, p), ceiling) && SameView(o, Requeue(o, i, p)) && AllAgain(Requeue(o, i, p).reliable, p + 1)
  {
    hide Accounted, Unique, Near, Open, Lengths, Tally, Kinds, AgainFirst, Fresh, Outgoing.Window;
    var all, o', x, at := o.All(), Requeue(o, i, p), o.sent[i].(timeout := 2 * o.sent[i].timeout), |o.sent| - 1 + p;
    SentKind(o, i);
    RequeueKinds(o, i, p);
    AgainAdd(o.reliable, p, x);
    AllWithout(o, i);
    WithoutAt(o.sent, i);
    assert o'.All() == With(Without(all, i), at, x);
    UniqueDrop(all, i);
    UniqueAdd(Without(all, i), at, x);
    forall c | 0 <= c < |o.channels|
      ensures Accounted(o'.channels[c], o'.All(), c) && InTurn(o', c) && Near(o'.All(), c, Frontier(o', c))
      ensures Frontier(o', c) == Frontier(o, c) && Open(o'.All(), c) == Open(all, c)
    {
      assert InTurn(o, c) && Near(all, c, Frontier(o, c)) && Accounted(o.channels[c], all, c);
      FreshWith(o.reliable, p, x, c);
      LivePacket(o, c);
      MoveView(all, i, at, x, c, Frontier(o, c));
      SameAccounted(o.channels[c], all, o'.All(), c);
    }
  }

  lemma RequeueControl(o: Outbox, i: nat, p: nat, ceiling: nat)
    requires Good(o, ceiling) && i < |o.sent| && !o.sent[i].packet && AllAgain(o.outgoing, p)
    requires o.sent[i].length <= o.transit && Lengths(Without(o.sent, i)) + o.sent[i].length == o.transit
    ensures Good(Requeue(o, i, p), ceiling) && SameView(o, Requeue(o, i, p)) && AllAgain(Requeue(o, i, p).outgoing, p + 1)
  {
    hide Accounts, Unique, Near, Open, Lengths, Kinds, AgainFirst, Fresh;
    var o', x := Requeue(o, i, p), o.sent[i].(timeout := 2 * o.sent[i].timeout);
    SentKind(o, i);
    RequeueKinds(o, i, p);
    AgainAdd(o.outgoing, p, x);
    AllWithout(o, i);
    DropGood(o, o', i, ceiling);
  }

  // ---- Queueing ----

  /** `enet_peer_setup_outgoing_command` for a packet on channel `c`: it takes the channel's next number. */
  function Queue(o: Outbox, c: nat, length: nat, queued: u32): Outbox
    requires c < |o.channels|
  {
    var n := o.channels[c].last + 1;
    o.(channels := o.channels[c := o.channels[c].(last := n)],
       reliable := o.reliable + [Outgoing(c, n, 0, length, true, true, queued, 0, 0)])
  }

  lemma QueueGood(o: Outbox, c: nat, length: nat, queued: u32, ceiling: nat)
    requires Good(o, ceiling) && c < |o.channels|
    ensures Good(Queue(o, c, length, queued), ceiling)
    ensures forall d :: 0 <= d < |o.channels| ==>
      (var o' := Queue(o, c, length, queued);
       Frontier(o', d) == Frontier(o, d) && Open(o'.All(), d) == Open(o.All(), d))
  {
    hide Unique, Near, Open, Lengths, Tally, Outgoing.Window;
    var o', all := Queue(o, c, length, queued), o.All();
    var x := o'.reliable[|o.reliable|];
    assert o'.All() == With(all, |all|, x);
    UniqueAdd(all, |all|, x);
    forall d | 0 <= d < |o.channels|
      ensures Accounted(o'.channels[d], o'.All(), d) && InTurn(o', d) && Near(o'.All(), d, Frontier(o', d))
      ensures Frontier(o', d) == Frontier(o, d) && Open(o'.All(), d) == Open(all, d)
    {
      assert InTurn(o, d) && Near(all, d, Frontier(o, d)) && Accounted(o.channels[d], all, d);
      QueueTurn(o, c, length, queued, d);
      NearOne(x, d, Frontier(o, d));
      NearAdd(all, |all|, x, d, Frontier(o, d));
      OpenAdd(all, |all|, x, d);
      forall r | 0 <= r < WINDOWS ensures Tally(o'.All(), d, r) == Tally(all, d, r) {
        TallyWith(all, |all|, x, d, r);
      }
    }
  }

  lemma QueueTurn(o: Outbox, c: nat, length: nat, queued: u32, d: nat)
    requires c < |o.channels| && d < |o.channels| && InTurn(o, d)
    ensures var o' := Queue(o, c, length, queued); InTurn(o', d) && Frontier(o', d) == Frontier(o, d)
  {
    var x := Queue(o, c, length, queued).reliable[|o.reliable|];
    FreshAppend(o.reliable, [x], d);
    FreshHas([x], d);
    assert [x][1..] == [];
  }
}
