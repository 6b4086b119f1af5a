/**
 The sender's window limit, on the numbers that wait for an acknowledgement.
 */
module ReliableLimits {
  import opened Basics
  import opened Words
  import opened SequenceWindows
  import opened WindowBits
  import opened ReliableOutboxes
  import opened ReliableAccounts

  /** A new number is held back at the start of a window: while all 4096 numbers of the window before wait for an
      acknowledgement, or while one from more than six windows before does. */
  predicate HeldBack(open: set<nat>, number: nat) {
    && number > 0 && number % 4096 == 0
    && ((forall n: nat :: number - 4096 <= n < number ==> n in open) || exists n :: n in open && n < number - 6 * 4096)
  }

  // ---- Counting numbers ----

  /** No number occurs twice among the live commands of channel `c`. */
  ghost predicate Different(s: seq<Outgoing>, c: nat) {
    forall i, j :: 0 <= i < j < |s| && s[i].Live(c) && s[j].Live(c) ==> s[i].number != s[j].number
  }

  function InWindow(s: seq<Outgoing>, c: nat, r: nat): set<nat> {
    set i | 0 <= i < |s| && s[i].Live(c) && s[i].Window() == r :: s[i].number
  }

  /** A window's counter counts its open numbers. */
  lemma {:induction false} TallySize(s: seq<Outgoing>, c: nat, r: nat)
    requires Different(s, c)
    ensures Tally(s, c, r) == |InWindow(s, c, r)|
  {
    hide Outgoing.Window;
    if s == [] {
      assert InWindow(s, c, r) == {};
    } else {
      TallySize(s[1..], c, r);
      InWindowFirst(s, c, r);
    }
  }

  lemma InWindowFirst(s: seq<Outgoing>, c: nat, r: nat)
    requires Different(s, c) && s != []
    ensures var here, rest := s[0].Live(c) && s[0].Window() == r, InWindow(s[1..], c, r);
      InWindow(s, c, r) == (if here then {s[0].number} else {}) + rest && (here ==> s[0].number !in rest)
  {
    hide Outgoing.Window;
    var rest := InWindow(s[1..], c, r);
    forall n | n in InWindow(s, c, r) ensures n in (if s[0].Live(c) && s[0].Window() == r then {s[0].number} else {}) + rest {
      var i :| 0 <= i < |s| && s[i].Live(c) && s[i].Window() == r && s[i].number == n;
      if i > 0 { assert s[1..][i - 1] == s[i]; }
    }
    forall n | n in rest ensures n in InWindow(s, c, r) && (s[0].Live(c) ==> n != s[0].number) {
      var i :| 0 <= i < |s[1..]| && s[1..][i].Live(c) && s[1..][i].Window() == r && s[1..][i].number == n;
      assert s[i + 1] == s[1..][i];
    }
  }

  lemma GoodDifferent(o: Outbox, ceiling: nat, c: nat)
    requires Good(o, ceiling) && c < |o.channels|
    ensures Different(o.All(), c)
  {
    hide Accounts, InTurn, Near, AgainFirst, Lengths;
    var all := o.All();
    forall i | 0 <= i < |all| && all[i].Live(c) ensures all[i].packet {
      if i < |o.sent| { assert all[i] == o.sent[i]; } else { assert all[i] == o.reliable[i - |o.sent|]; }
    }
  }

  // ---- The two tests ----

  /** An open number as the test for a new number sees it: it is one to seven windows before. */
  lemma SeenWindow(f: nat, n: nat)
    requires (f + 1) % WINDOW == 0 && n <= f && f / WINDOW <= n / WINDOW + (FREE_WINDOWS - 2)
    ensures var x, r, w := (f + 1) / WINDOW, (n / WINDOW) % WINDOWS, (f + 1) / WINDOW % WINDOWS;
      && 1 <= x - n / WINDOW <= 7
      && ((r - w) % 16 < 10 <==> n < f + 1 - 6 * 4096)
      && (r == (w + WINDOWS - 1) % WINDOWS <==> f + 1 - 4096 <= n)
  {
    var x, y := (f + 1) / WINDOW, n / WINDOW;
    assert x == f / WINDOW + 1;
    WindowMonotone(n, f);
    ModDifference(y, x);
    SevenBack(y % WINDOWS, x % WINDOWS, x - y);
  }

  lemma SevenBack(r: nat, w: nat, d: int)
    requires r < 16 && w < 16 && 1 <= d <= 7 && (r - w) % 16 == (-d) % 16
    ensures ((r - w) % 16 < 10 <==> d == 7) && (r == (w + 15) % 16 <==> d == 1)
  {
  }

  lemma NearOpen(o: Outbox, ceiling: nat, c: nat, n: nat)
    requires Good(o, ceiling) && c < |o.channels| && n in Open(o.All(), c)
    ensures 0 < n <= Frontier(o, c) && Frontier(o, c) / WINDOW <= n / WINDOW + (FREE_WINDOWS - 2)
  {
    hide Kinds, Accounts, Unique, InTurn, AgainFirst, Lengths, Frontier;
    assert Near(o.All(), c, Frontier(o, c));
  }

  lemma FullBefore(o: Outbox, ceiling: nat, c: nat, number: nat)
    requires Good(o, ceiling) && c < |o.channels| && number == Frontier(o, c) + 1 && number % WINDOW == 0
    ensures |o.channels[c].windows| == WINDOWS
    ensures o.channels[c].windows[(Wire(number) / WINDOW + WINDOWS - 1) % WINDOWS] >= WINDOW
      <==> forall n: nat :: number - 4096 <= n < number ==> n in Open(o.All(), c)
  {
    hide Good, Frontier, Tally, Wire;
    var all, r := o.All(), (Wire(number) / WINDOW + WINDOWS - 1) % WINDOWS;
    GoodAccounted(o, ceiling, c);
    GoodDifferent(o, ceiling, c);
    TallySize(all, c, r);
    var before := InWindow(all, c, r);
    hide Open, InWindow;
    WindowOfWire(number);
    forall n | n in Open(all, c) ensures n in before <==> number - 4096 <= n < number {
      NearOpen(o, ceiling, c, n);
      SeenWindow(number - 1, n);
      OpenWindow(all, c, r, n);
    }
    forall n | n in before ensures n in Open(all, c) {
      InWindowOpen(all, c, r, n);
    }
    AllOfRange(before, Open(all, c), number - 4096, 4096);
  }

  lemma AllOfRange(part: set<nat>, open: set<nat>, lo: nat, k: nat)
    requires forall n :: n in part <==> n in open && lo <= n < lo + k
    ensures |part| >= k <==> forall n: nat :: lo <= n < lo + k ==> n in open
  {
    var full := Range(lo, k);
    assert part <= full;
    SubsetSize(part, full);
    if forall n: nat :: lo <= n < lo + k ==> n in open { assert part == full; }
  }

  lemma InWindowOpen(all: seq<Outgoing>, c: nat, r: nat, n: nat)
    requires n in InWindow(all, c, r)
    ensures n in Open(all, c)
  {
  }

  lemma OpenWindow(all: seq<Outgoing>, c: nat, r: nat, n: nat)
    requires n in Open(all, c)
    ensures n in InWindow(all, c, r) <==> (n / WINDOW) % WINDOWS == r
  {
    hide Wire;
    WindowOfWire(n);
    var i :| 0 <= i < |all| && all[i].Live(c) && all[i].number == n;
    assert all[i].Window() == (n / WINDOW) % WINDOWS;
  }

  lemma GoodAccounted(o: Outbox, ceiling: nat, c: nat)
    requires Good(o, ceiling) && c < |o.channels|
    ensures Accounted(o.channels[c], o.All(), c) && Frontier(o, c) >= 0
  {
    assert InTurn(o, c);
  }

  lemma {:induction false} TallySome(s: seq<Outgoing>, c: nat, r: nat) returns (i: nat)
    requires Tally(s, c, r) > 0
    ensures i < |s| && s[i].Live(c) && s[i].Window() == r
  {
    hide Outgoing.Window;
    if s[0].Live(c) && s[0].Window() == r {
      i := 0;
    } else {
      i := TallySome(s[1..], c, r);
      i := i + 1;
    }
  }

  lemma MarkedBefore(o: Outbox, ceiling: nat, c: nat, number: nat)
    requires Good(o, ceiling) && c < |o.channels| && number == Frontier(o, c) + 1 && number % WINDOW == 0
    ensures (exists r :: r in o.channels[c].used && r < WINDOWS && Marked(Mask(Wire(number) / WINDOW), r))
      <==> exists n :: n in Open(o.All(), c) && n < number - 6 * 4096
  {
    hide Good, Frontier, Tally, Wire, Mask, Marked;
    var all, ch, w := o.All(), o.channels[c], Wire(number) / WINDOW;
    GoodAccounted(o, ceiling, c);
    WindowOfWire(number);
    if r :| r in ch.used && r < WINDOWS && Marked(Mask(w), r) {
      var i := TallySome(all, c, r);
      var n := all[i].number;
      assert n in Open(all, c);
      NearOpen(o, ceiling, c, n);
      WindowOfWire(n);
      MaskBits(w, r);
      SeenWindow(number - 1, n);
      assert n < number - 6 * 4096;
    }
    if n :| n in Open(all, c) && n < number - 6 * 4096 {
      var i :| 0 <= i < |all| && all[i].Live(c) && all[i].number == n;
      TallyHas(all, i, c);
      NearOpen(o, ceiling, c, n);
      WindowOfWire(n);
      MaskBits(w, all[i].Window());
      SeenWindow(number - 1, n);
      assert all[i].Window() in ch.used && Marked(Mask(w), all[i].Window());
    }
  }

  /** The counters and the bits of the windows hold the first command of the list back exactly when the open numbers
      of its channel do. */
  lemma BlockedWhen(o: Outbox, ceiling: nat)
    requires Good(o, ceiling) && o.reliable != []
    ensures var x := o.reliable[0];
      && x.channel < |o.channels| && |o.channels[x.channel].windows| == WINDOWS
      && (Blocked(o, x) <==> x.attempts == 0 && HeldBack(Open(o.All(), x.channel), x.number))
  {
    var x := o.reliable[0];
    var c := x.channel;
    assert Accounted(o.channels[c], o.All(), c) && InTurn(o, c);
    hide Good, Frontier, Tally, Mask, Marked, Wire, Open;
    WindowOfWire(x.number);
    if x.attempts == 0 {
      HeadTurn(o, c);
      if x.number % WINDOW == 0 {
        FullBefore(o, ceiling, c, x.number);
        MarkedBefore(o, ceiling, c, x.number);
      }
    }
  }
}
