/**
 Messages, their sequence numbers, and the commands that carry them.
 */
module ReliableMessages {
  import opened Basics
  import opened Words
  import Fragmentation
  import opened SequenceWindows
  import opened ReliableReceivers
  import opened ReliableOrder

  /** A packet sent on a reliable channel: in one command, or in fragments of `size` bytes. */
  datatype Message = Whole(data: seq<byte>) | Pieces(data: seq<byte>, size: nat) {
    predicate Valid() {
      Pieces? ==> 0 < size < |data| && Count() <= WINDOW
    }

    function Count(): nat {
      if Whole? || size == 0 then 1 else Fragmentation.Count(|data|, size)
    }

    /** Where fragment `i` starts and ends. */
    function Cut(i: nat): nat {
      if Whole? then |data| else Fragmentation.Cut(|data|, size, i)
    }
  }

  predicate AllValid(ms: seq<Message>) {
    forall k :: 0 <= k < |ms| ==> ms[k].Valid()
  }

  /** The number of the first command of message `k`: every command takes the next number. */
  function First(ms: seq<Message>, k: nat): (n: nat)
    requires k <= |ms|
    ensures n > 0
  {
    if k == 0 then 1 else First(ms, k - 1) + ms[k - 1].Count()
  }

  lemma CutBounds(m: Message, i: nat)
    requires m.Valid() && m.Pieces? && i < m.Count()
    ensures i * m.size == m.Cut(i) < m.Cut(i + 1) <= |m.data| && m.Cut(i + 1) - m.Cut(i) <= m.size
    ensures 2 <= m.Count() <= |m.data|
  {
    var c := Fragmentation.CountBounds(|m.data|, m.size);
    Fragmentation.CutBounds(|m.data|, m.size, i);
  }

  lemma WholeOne(m: Message)
    requires m.Whole?
    ensures m.Count() == 1
  {
  }

  lemma CountPositive(m: Message)
    requires m.Valid()
    ensures 1 <= m.Count() <= WINDOW
  {
    if m.Pieces? {
      var c := Fragmentation.CountBounds(|m.data|, m.size);
    }
  }

  lemma {:induction false} FirstMonotone(ms: seq<Message>, a: nat, b: nat)
    requires AllValid(ms) && a <= b <= |ms|
    ensures First(ms, a) + (b - a) <= First(ms, b)
    ensures a < b ==> First(ms, a) + ms[a].Count() <= First(ms, b)
    decreases b - a
  {
    if a < b {
      CountPositive(ms[b - 1]);
      FirstMonotone(ms, a, b - 1);
    }
  }

  lemma {:induction false} FirstAppend(ms: seq<Message>, m: Message, k: nat)
    requires k <= |ms|
    ensures First(ms + [m], k) == First(ms, k)
  {
    if k > 0 { FirstAppend(ms, m, k - 1); }
  }

  /** A number belongs to one command only. */
  lemma NumberUnique(ms: seq<Message>, k: nat, i: nat, k': nat, i': nat)
    requires AllValid(ms) && k < |ms| && k' < |ms| && i < ms[k].Count() && i' < ms[k'].Count()
    requires First(ms, k) + i == First(ms, k') + i'
    ensures k == k' && i == i'
  {
    if k < k' {
      FirstMonotone(ms, k, k');
    } else if k' < k {
      FirstMonotone(ms, k', k);
    }
  }

  /** The command that carries fragment `i` of message `k`. */
  function CommandFor(ms: seq<Message>, k: nat, i: nat): Command
    requires k < |ms|
  {
    var m, first := ms[k], First(ms, k);
    if m.Whole? then Reliable(Wire(first), m.data)
    else Fragment(Wire(first + i), PieceFor(m, Wire(first), i))
  }

  function PieceFor(m: Message, start: u16, i: nat): Piece {
    Piece(start, m.Count(), i, |m.data|, m.Cut(i), if m.Cut(i) <= m.Cut(i + 1) then m.data[m.Cut(i)..m.Cut(i + 1)] else [])
  }

  // ---- What an entry of the receiver's queue holds of a message ----

  /** Fragment `i` of the entry is what was sent. */
  predicate PieceHeld(e: Entry, m: Message, i: nat)
    requires |e.data| == |m.data|
  {
    forall x :: 0 <= x < |e.data| && m.Cut(i) <= x < m.Cut(i + 1) ==> e.data[x] == m.data[x]
  }

  predicate EntryFor(e: Entry, m: Message) {
    if m.Whole? then e.count == 0 && e.missing == 0 && e.data == m.data
    else
      && e.count == m.Count() && Counted(e) && |e.data| == |m.data|
      && forall i :: 0 <= i < |e.have| && e.have[i] ==> PieceHeld(e, m, i)
  }

  /** When all fragments are there, so is the message: every byte lies in one of them. */
  lemma CompleteData(e: Entry, m: Message)
    requires m.Valid() && EntryFor(e, m) && e.missing == 0
    ensures e.data == m.data
  {
    if m.Pieces? {
      UnsetNone(e.have);
      forall x | 0 <= x < |m.data| ensures e.data[x] == m.data[x] {
        var i := x / m.size;
        CutHolds(m, x, i);
        assert PieceHeld(e, m, i);
      }
    }
  }

  lemma CutHolds(m: Message, x: nat, i: nat)
    requires m.Valid() && m.Pieces? && x < |m.data| && i == x / m.size
    ensures i < m.Count() && m.Cut(i) <= x < m.Cut(i + 1)
  {
    var j := Fragmentation.CutHolds(|m.data|, m.size, x);
  }

  lemma BlankFor(m: Message, start: u16, i: nat)
    requires m.Valid() && m.Pieces? && i < m.Count()
    ensures EntryFor(Blank(PieceFor(m, start, i)), m)
  {
    UnsetAll(m.Count());
  }

  /** A fragment put into its place brings its bytes, and leaves those of the others alone. */
  lemma FilledFor(e: Entry, m: Message, start: u16, i: nat)
    requires m.Valid() && m.Pieces? && i < m.Count() && EntryFor(e, m)
    ensures var p := PieceFor(m, start, i);
      Fits(e, p) && EntryFor(Filled(e, p), m) && Filled(e, p).have[i] && |p.data| > 0
  {
    hide Message.Count, Message.Cut;
    var p := PieceFor(m, start, i);
    CutBounds(m, i);
    var e' := Filled(e, p);
    if !e.have[i] {
      UnsetSet(e.have, i);
      assert forall x :: 0 <= x < |e.data| ==>
        e'.data[x] == if m.Cut(i) <= x < m.Cut(i + 1) then m.data[x] else e.data[x];
    }
    forall j | 0 <= j < |e'.have| && e'.have[j] ensures PieceHeld(e', m, j) {
      assert j == i || PieceHeld(e, m, j);
    }
  }

  lemma PieceWellFormed(m: Message, start: u16, i: nat, limit: nat)
    requires m.Valid() && m.Pieces? && i < m.Count()
    ensures var p := PieceFor(m, start, i); 0 < |p.data| <= |m.data| && (WellFormed(p, limit) <==> |m.data| <= limit)
  {
    CutBounds(m, i);
  }
}
