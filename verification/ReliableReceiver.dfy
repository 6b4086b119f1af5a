/**
 The receiving side of a reliable channel: window tests, sorted insertion, dispatch in order, and
 reassembly of fragments.
 */
module ReliableReceivers {
  import opened Words
  import opened SequenceWindows

  const MAXIMUM_FRAGMENT_COUNT := 1024 * 1024

  /** A command in the queue.  `count` is 0 for an unfragmented one; otherwise `have` are its fragment
      bits and `missing` is `fragmentsRemaining`. */
  datatype Entry = Entry(seqno: u16, count: nat, missing: nat, have: seq<bool>, data: seq<byte>) {
    /** How many sequence numbers the message takes. */
    function Span(): nat { if count > 0 then count else 1 }

    function Last(): u16 { (seqno + Span() - 1) % WRAP }
  }

  datatype Inbox = Inbox(incoming: u16, queue: seq<Entry>, dispatched: seq<seq<byte>>)

  datatype Piece = Piece(start: u16, count: nat, number: nat, total: nat, offset: nat, data: seq<byte>)

  datatype Command = Reliable(seqno: u16, data: seq<byte>) | Fragment(seqno: u16, piece: Piece)

  // ---- Dispatch ----

  /** Whether the front of the queue is the next message, and complete. */
  predicate Ready(b: Inbox) {
    b.queue != [] && b.queue[0].missing == 0 && b.queue[0].seqno == (b.incoming + 1) % WRAP
  }

  function Pop(b: Inbox): Inbox
    requires b.queue != []
  {
    Inbox(b.queue[0].Last(), b.queue[1..], b.dispatched + [b.queue[0].data])
  }

  function Dispatch(b: Inbox): Inbox
    decreases |b.queue|
  {
    if Ready(b) then Dispatch(Pop(b)) else b
  }

  // ---- Queueing ----

  /** How many entries stay in front of `seqno`. */
  function Place(queue: seq<Entry>, base: u16, seqno: u16): (at: nat)
    ensures at <= |queue|
    decreases |queue|
  {
    if queue == [] || Rank(base, queue[|queue| - 1].seqno) <= Rank(base, seqno) then |queue|
    else Place(queue[..|queue| - 1], base, seqno)
  }

  predicate Taken(queue: seq<Entry>, base: u16, seqno: u16) {
    var at := Place(queue, base, seqno);
    at > 0 && queue[at - 1].seqno == seqno
  }

  function Insert(b: Inbox, e: Entry): Inbox {
    var at := Place(b.queue, b.incoming, e.seqno);
    b.(queue := b.queue[..at] + [e] + b.queue[at..])
  }

  /** `closing` is the state DISCONNECT_LATER, in which nothing new is taken. */
  predicate Discards(b: Inbox, seqno: u16, closing: bool) {
    || closing || Ahead(b.incoming, seqno) >= FREE_WINDOWS - 1
    || seqno == b.incoming || Taken(b.queue, b.incoming, seqno)
  }

  datatype Result = Refused | Ignored | Kept(inbox: Inbox)

  /** `room` says whether the peer's waiting data are below the host's limit. */
  function Queue(b: Inbox, e: Entry, closing: bool, room: bool): Result {
    if Discards(b, e.seqno, closing) then (if e.count > 0 then Refused else Ignored)
    else if !room then Refused
    else Kept(Dispatch(Insert(b, e)))
  }

  function TakeReliable(b: Inbox, seqno: u16, data: seq<byte>, closing: bool, room: bool, limit: nat): (Inbox, bool) {
    if |data| > limit then (b, false)
    else
      var r := Queue(b, Entry(seqno, 0, 0, [], data), closing, room);
      if r.Kept? then (r.inbox, true) else (b, r.Ignored?)
  }

  /** Where an entry's position moves when entries in front of it are handed over. */
  function Shifted(at: nat, before: nat, after: nat): nat {
    if at + after >= before then at + after - before else 0
  }

  /** Dispatch never reaches past an incomplete entry. */
  lemma {:induction false} DispatchStays(b: Inbox, i: nat)
    requires i < |b.queue| && b.queue[i].missing > 0
    ensures var q := Dispatch(b).queue; |b.queue| - i <= |q| <= |b.queue| && q[i + |q| - |b.queue|] == b.queue[i]
    decreases i
  {
    if Ready(b) {
      DispatchStays(Pop(b), i - 1);
    }
  }

  lemma InsertIncomplete(b: Inbox, e: Entry)
    requires e.missing > 0
    ensures var q := Dispatch(Insert(b, e)).queue;
      var at := Shifted(Place(b.queue, b.incoming, e.seqno) + 1, |b.queue| + 1, |q|);
      0 < at <= |q| && q[at - 1] == e
  {
    DispatchStays(Insert(b, e), Place(b.queue, b.incoming, e.seqno));
  }

  // ---- Fragments ----

  predicate WellFormed(p: Piece, limit: nat) {
    && p.number < p.count <= MAXIMUM_FRAGMENT_COUNT && p.count <= p.total <= limit
    && p.offset < p.total && |p.data| <= p.total - p.offset
  }

  function Blank(p: Piece): Entry {
    Entry(p.start, p.count, p.count, seq(p.count, _ => false), seq(p.total, _ => 0))
  }

  /** The bytes of `data` with those from `offset` on replaced by `more`. */
  function Copy(data: seq<byte>, offset: nat, more: seq<byte>): (r: seq<byte>)
    requires offset + |more| <= |data|
    ensures |r| == |data|
  {
    data[..offset] + more + data[offset + |more|..]
  }

  predicate Fits(e: Entry, p: Piece) {
    p.number < e.count == |e.have| && p.offset + |p.data| <= |e.data|
  }

  function Filled(e: Entry, p: Piece): Entry
    requires Fits(e, p)
  {
    if e.have[p.number] then e
    else e.(missing := if e.missing > 0 then e.missing - 1 else 0,
            have := e.have[p.number := true],
            data := Copy(e.data, p.offset, p.data))
  }

  /** The fragment goes into the entry before position `at`. */
  function Fill(b: Inbox, at: nat, p: Piece): Inbox
    requires 0 < at <= |b.queue| && Fits(b.queue[at - 1], p)
  {
    var e := b.queue[at - 1];
    var b' := b.(queue := b.queue[at - 1 := Filled(e, p)]);
    if !e.have[p.number] && Filled(e, p).missing == 0 then Dispatch(b') else b'
  }

  /** The entry before `at` can take the fragment. */
  predicate Matching(queue: seq<Entry>, at: nat, p: Piece) {
    && 0 < at <= |queue| && queue[at - 1].count == |queue[at - 1].have| == p.count
    && p.count > 0 && |queue[at - 1].data| == p.total
  }

  function TakePiece(b: Inbox, p: Piece, closing: bool, room: bool, limit: nat): (Inbox, bool) {
    if |p.data| == 0 || |p.data| > limit then (b, false)
    else if Ahead(b.incoming, p.start) >= FREE_WINDOWS - 1 then (b, true)
    else if !WellFormed(p, limit) then (b, false)
    else
      var at := Place(b.queue, b.incoming, p.start);
      if Taken(b.queue, b.incoming, p.start) then
        if Matching(b.queue, at, p) then (Fill(b, at, p), true) else (b, false)
      else
        var r := Queue(b, Blank(p), closing, room);
        if !r.Kept? then (b, false)
        else
          InsertIncomplete(b, Blank(p));
          (Fill(r.inbox, Shifted(at + 1, |b.queue| + 1, |r.inbox.queue|), p), true)
  }

  // ---- Acknowledgement ----

  predicate Acknowledges(incoming: u16, seqno: u16) {
    !(FREE_WINDOWS - 1 <= Ahead(incoming, seqno) <= FREE_WINDOWS)
  }

  /** A command with the acknowledge flag arrives: the new state, and whether it is acknowledged. */
  function Receive(b: Inbox, c: Command, closing: bool, room: bool, limit: nat): (Inbox, bool) {
    var (b', ok) := match c
      case Reliable(seqno, data) => TakeReliable(b, seqno, data, closing, room, limit)
      case Fragment(seqno, piece) => TakePiece(b, piece, closing, room, limit);
    (b', ok && Acknowledges(b'.incoming, c.seqno))
  }

  // ---- The receiver's channel, updated in place ----

  function Payloads(queue: seq<Entry>): (r: seq<seq<byte>>)
    ensures |r| == |queue|
  {
    if queue == [] then [] else Payloads(queue[..|queue| - 1]) + [queue[|queue| - 1].data]
  }

  datatype Reply = Error | Dummy | Queued(at: nat)

  class Receiver {
    var incoming: u16
    var queue: seq<Entry>
    var dispatched: seq<seq<byte>>

    ghost function State(): Inbox
      reads this
    {
      Inbox(incoming, queue, dispatched)
    }

    constructor ()
      ensures State() == Inbox(0, [], [])
    {
      incoming, queue, dispatched := 0, [], [];
    }

    /** The backward scan of the queue for the place of `seqno`. */
    method Locate(seqno: u16) returns (at: nat)
      ensures at == Place(queue, incoming, seqno)
    {
      at := |queue|;
      assert queue[..at] == queue;
      while at > 0
        invariant at <= |queue| && Place(queue[..at], incoming, seqno) == Place(queue, incoming, seqno)
      {
        var q: int := queue[at - 1].seqno;
        assert queue[..at][..at - 1] == queue[..at - 1];
        if seqno >= incoming {
          if q < incoming {
            at := at - 1;
            continue;
          }
        } else if q >= incoming {
          break;
        }
        if q <= seqno {
          break;
        }
        at := at - 1;
      }
    }

    /** Hands over the complete messages that come next, in one segment. */
    method DispatchReady()
      modifies this
      ensures State() == Dispatch(old(State()))
    {
      hide Dispatch, Segment;
      var k := 0;
      SegmentStarts(incoming, queue, dispatched);
      while k < |queue|
        invariant k <= |queue| && queue == old(queue) && dispatched == old(dispatched)
        invariant Dispatch(Segment(incoming, queue, dispatched, k)) == Dispatch(old(State()))
      {
        var e := queue[k];
        if e.missing > 0 || e.seqno != (incoming + 1) % WRAP {
          break;
        }
        SegmentOn(incoming, queue, dispatched, k);
        incoming := e.seqno;
        if e.count > 0 {
          incoming := (incoming + e.count - 1) % WRAP;
        }
        k := k + 1;
      }
      SegmentStops(incoming, queue, dispatched, k);
      if k == 0 {
        return;
      }
      dispatched := dispatched + Payloads(queue[..k]);
      queue := queue[k..];
    }

    /** `enet_peer_queue_incoming_command` for a reliable command; `at` tells where the entry ended up. */
    method QueueIncoming(e: Entry, closing: bool, room: bool) returns (reply: Reply)
      modifies this
      ensures var r := Queue(old(State()), e, closing, room);
        && (reply.Error? <==> r.Refused?) && (reply.Dummy? <==> r.Ignored?)
        && State() == (if r.Kept? then r.inbox else old(State()))
        && (r.Kept? ==> reply == Queued(Shifted(Place(old(queue), old(incoming), e.seqno) + 1, |old(queue)| + 1, |queue|)))
    {
      var at := 0;
      var discard := closing || Ahead(incoming, e.seqno) >= FREE_WINDOWS - 1 || e.seqno == incoming;
      if !discard {
        at := Locate(e.seqno);
        discard := at > 0 && queue[at - 1].seqno == e.seqno;
      }
      if discard {
        return if e.count > 0 then Error else Dummy;
      }
      if !room {
        return Error;
      }
      queue := queue[..at] + [e] + queue[at..];
      assert State() == Insert(old(State()), e);
      var size := |queue|;
      DispatchReady();
      reply := Queued(Shifted(at + 1, size, |queue|));
    }

    /** `enet_protocol_handle_send_reliable`. */
    method HandleReliable(seqno: u16, data: seq<byte>, closing: bool, room: bool, limit: nat) returns (ok: bool)
      modifies this
      ensures (State(), ok) == TakeReliable(old(State()), seqno, data, closing, room, limit)
    {
      if |data| > limit {
        return false;
      }
      var reply := QueueIncoming(Entry(seqno, 0, 0, [], data), closing, room);
      ok := reply != Error;
    }

    /** Marks the fragment in the entry before position `at`, and copies its bytes. */
    method FillEntry(at: nat, p: Piece)
      requires 0 < at <= |queue| && Fits(queue[at - 1], p)
      modifies this
      ensures State() == Fill(old(State()), at, p)
    {
      var e := queue[at - 1];
      if !e.have[p.number] {
        var missing := if e.missing > 0 then e.missing - 1 else 0;
        queue := queue[at - 1 := Entry(e.seqno, e.count, missing, e.have[p.number := true], Copy(e.data, p.offset, p.data))];
        if missing == 0 {
          DispatchReady();
        }
      }
    }

    /** `enet_protocol_handle_send_fragment`. */
    method HandleFragment(p: Piece, closing: bool, room: bool, limit: nat) returns (ok: bool)
      modifies this
      ensures (State(), ok) == TakePiece(old(State()), p, closing, room, limit)
    {
      hide Dispatch, Place;
      if |p.data| == 0 || |p.data| > limit {
        return false;
      }
      if Ahead(incoming, p.start) >= FREE_WINDOWS - 1 {
        return true;
      }
      if !WellFormed(p, limit) {
        return false;
      }
      var at := Locate(p.start);
      if at > 0 && queue[at - 1].seqno == p.start {
        if !Matching(queue, at, p) {
          return false;
        }
      } else {
        var reply := QueueIncoming(Blank(p), closing, room);
        if !reply.Queued? {
          return false;
        }
        InsertIncomplete(old(State()), Blank(p));
        at := reply.at;
      }
      FillEntry(at, p);
      ok := true;
    }
  }

  /** The channel once the first `k` entries have been handed over. */
  function Segment(incoming: u16, queue: seq<Entry>, dispatched: seq<seq<byte>>, k: nat): Inbox
    requires k <= |queue|
  {
    Inbox(incoming, queue[k..], dispatched + Payloads(queue[..k]))
  }

  lemma SegmentStarts(incoming: u16, queue: seq<Entry>, dispatched: seq<seq<byte>>)
    ensures Segment(incoming, queue, dispatched, 0) == Inbox(incoming, queue, dispatched)
  {
    assert queue[0..] == queue && dispatched + Payloads(queue[..0]) == dispatched;
  }

  lemma SegmentOn(incoming: u16, queue: seq<Entry>, dispatched: seq<seq<byte>>, k: nat)
    requires k < |queue| && queue[k].missing == 0 && queue[k].seqno == (incoming + 1) % WRAP
    ensures Dispatch(Segment(incoming, queue, dispatched, k)) == Dispatch(Segment(queue[k].Last(), queue, dispatched, k + 1))
  {
    assert queue[k..][0] == queue[k] && queue[k..][1..] == queue[k + 1..];
    assert queue[..k + 1][..k] == queue[..k];
    assert dispatched + (Payloads(queue[..k]) + [queue[k].data]) == dispatched + Payloads(queue[..k]) + [queue[k].data];
    assert Pop(Segment(incoming, queue, dispatched, k)) == Segment(queue[k].Last(), queue, dispatched, k + 1);
  }

  lemma SegmentStops(incoming: u16, queue: seq<Entry>, dispatched: seq<seq<byte>>, k: nat)
    requires k <= |queue| && (k == |queue| || queue[k].missing > 0 || queue[k].seqno != (incoming + 1) % WRAP)
    ensures Dispatch(Segment(incoming, queue, dispatched, k)) == Inbox(incoming, queue[k..], dispatched + Payloads(queue[..k]))
    ensures k == 0 ==> Dispatch(Segment(incoming, queue, dispatched, k)) == Inbox(incoming, queue, dispatched)
  {
    SegmentStarts(incoming, queue, dispatched);
  }
}
