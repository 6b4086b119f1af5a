/**
 The Rust port's buffer for reliable messages that arrive out of order.
 */
module ReorderBuffers {
  import opened Words
  import opened SequenceWindows

  const CAPACITY := 4096

  /** `seq_lt`: whether `b` comes after `a`, within half a wrap. */
  predicate SeqLess(a: u16, b: u16) { 0 < (b - a) % WRAP < 0x8000 }

  /** Message `n`, counted from 1, is `sent[n - 1]`. */
  class ReorderBuffer {
    var incoming: u16
    var queue: map<u16, seq<byte>>
    ghost var base: nat

    ghost predicate Valid(sent: seq<seq<byte>>)
      reads this
    {
      && incoming == Wire(base) && base <= |sent| && |queue| <= CAPACITY && Wire(base + 1) !in queue
      && Holds(queue, base, sent)
    }

    constructor (ghost sent: seq<seq<byte>>)
      ensures Valid(sent) && base == 0
    {
      incoming, queue, base := 0, map[], 0;
    }

    /** `receive_reliable`: what is handed over are the next messages, in order and without a gap.  The
        copy that arrives must be less than half a wrap from the next message. */
    method Receive(seqno: u16, data: seq<byte>, ghost n: nat, ghost sent: seq<seq<byte>>) returns (out: seq<seq<byte>>)
      requires Valid(sent) && 0 < n <= |sent| && seqno == Wire(n) && data == sent[n - 1]
      requires base + 1 < n + 0x8000 && n < base + 0x8001
      modifies this
      ensures Valid(sent) && old(base) <= base && out == sent[old(base)..base]
      ensures n == old(base) + 1 ==> base >= n
      ensures n != old(base) + 1 ==> base == old(base)
      ensures n > old(base) + 1 ==> queue == if |old(queue)| < 4096 then old(queue)[seqno := data] else old(queue)
      ensures n == old(base) + 1 ==> Rest(queue, old(queue), n, base)
      ensures n <= old(base) ==> queue == old(queue)
    {
      hide Wire, Holds, SeqLess, Rest;
      var expected := (incoming + 1) % WRAP;
      NextWire(base);
      SeenFrom(base + 1, n);
      out := [];
      if seqno == expected {
        NextHolds(queue, base, sent);
        RestAll(queue, n);
        incoming, base := seqno, n;
        out := [data];
        NextWire(base);
        while (incoming + 1) % WRAP in queue
          invariant incoming == Wire(base) && old(base) < base <= |sent| && |queue| <= CAPACITY
          invariant (incoming + 1) % WRAP == Wire(base + 1)
          invariant Holds(queue, base, sent) && out == sent[old(base)..base] && Rest(queue, old(queue), n, base)
          decreases |queue|
        {
          var next := (incoming + 1) % WRAP;
          TakeHolds(queue, base, sent);
          SmallerMap(queue, next);
          out := out + [queue[next]];
          assert sent[old(base)..base + 1] == sent[old(base)..base] + [sent[base]];
          RestOn(queue, old(queue), n, base);
          queue := queue - {next};
          incoming, base := next, base + 1;
          NextWire(base);
        }
      } else if SeqLess(expected, seqno) {
        if (seqno - expected) % WRAP <= FREE_WINDOWS * WINDOW && |queue| < CAPACITY {
          PutHolds(queue, base, sent, n);
          GrownMap(queue, seqno, data);
          queue := queue[seqno := data];
        }
      }
    }
  }

  /** Every entry is the message of its number, which lies within a wrap ahead of `base`. */
  ghost predicate Holds(queue: map<u16, seq<byte>>, base: nat, sent: seq<seq<byte>>) {
    forall k :: k in queue ==>
      0 < Rank(Wire(base), k) <= 0x8000 && base + Rank(Wire(base), k) <= |sent| && queue[k] == sent[base + Rank(Wire(base), k) - 1]
  }

  /** What is left of the queue when the messages after `n` up to `base` have been handed over. */
  ghost predicate Rest(queue: map<u16, seq<byte>>, before: map<u16, seq<byte>>, n: nat, base: nat) {
    && (forall k :: k in queue ==> k in before && queue[k] == before[k])
    && (forall k :: k in before ==> k in queue || exists m: nat :: n < m <= base && k == Wire(m))
  }

  lemma RestAll(queue: map<u16, seq<byte>>, n: nat)
    ensures Rest(queue, queue, n, n)
  {
  }

  lemma RestOn(queue: map<u16, seq<byte>>, before: map<u16, seq<byte>>, n: nat, base: nat)
    requires Rest(queue, before, n, base) && n <= base
    ensures Rest(queue - {Wire(base + 1)}, before, n, base + 1)
  {
    hide Wire;
    forall k | k in before && k !in queue - {Wire(base + 1)} ensures exists m: nat :: n < m <= base + 1 && k == Wire(m) {
      if k == Wire(base + 1) {
        assert n < base + 1 <= base + 1;
      } else {
        var m: nat :| n < m <= base && k == Wire(m);
      }
    }
  }

  /** Moving on to the next number keeps the numbers of the other entries. */
  lemma NextHolds(queue: map<u16, seq<byte>>, base: nat, sent: seq<seq<byte>>)
    requires Holds(queue, base, sent) && Wire(base + 1) !in queue
    ensures Holds(queue, base + 1, sent)
  {
    forall k | k in queue ensures 0 < Rank(Wire(base + 1), k) == Rank(Wire(base), k) - 1 {
      RankNext(base, k);
    }
  }

  lemma RankNext(base: nat, k: u16)
    requires 0 < Rank(Wire(base), k)
    ensures Rank(Wire(base), k) == 1 <==> k == Wire(base + 1)
    ensures Rank(Wire(base), k) > 1 ==> Rank(Wire(base + 1), k) == Rank(Wire(base), k) - 1
  {
    NextWire(base);
  }

  lemma TakeHolds(queue: map<u16, seq<byte>>, base: nat, sent: seq<seq<byte>>)
    requires Holds(queue, base, sent) && Wire(base + 1) in queue
    ensures base < |sent| && queue[Wire(base + 1)] == sent[base] && Holds(queue - {Wire(base + 1)}, base + 1, sent)
  {
    SeenAhead(base, base + 1);
    NextHolds(queue - {Wire(base + 1)}, base, sent);
  }

  lemma PutHolds(queue: map<u16, seq<byte>>, base: nat, sent: seq<seq<byte>>, n: nat)
    requires Holds(queue, base, sent) && base + 1 < n <= |sent| && n <= base + 0x8000
    ensures Holds(queue[Wire(n) := sent[n - 1]], base, sent) && Wire(n) != Wire(base + 1)
  {
    SeenAhead(base, n);
    SeenAhead(base, base + 1);
  }

  lemma SeenFrom(expected: nat, n: nat)
    requires expected < n + 0x8000 && n < expected + 0x8000
    ensures Wire(n) == Wire(expected) <==> n == expected
    ensures SeqLess(Wire(expected), Wire(n)) <==> n > expected
    ensures n > expected ==> (Wire(n) - Wire(expected)) % WRAP == n - expected
  {
    if n > expected {
      RankMod(Wire(expected), Wire(n));
      SeenAhead(expected, n);
    } else if n < expected {
      RankMod(Wire(n), Wire(expected));
      RankMod(Wire(expected), Wire(n));
      SeenAhead(n, expected);
    }
  }

  lemma RankMod(base: u16, seqno: u16)
    ensures (seqno - base) % WRAP == Rank(base, seqno) < WRAP
    ensures Rank(base, seqno) > 0 ==> Rank(seqno, base) == WRAP - Rank(base, seqno)
    ensures Rank(base, seqno) == 0 <==> base == seqno
  {
  }

  lemma SmallerMap(m: map<u16, seq<byte>>, k: u16)
    requires k in m
    ensures |m - {k}| == |m| - 1
  {
    assert (m - {k}).Keys == m.Keys - {k};
  }

  lemma GrownMap(m: map<u16, seq<byte>>, k: u16, v: seq<byte>)
    ensures |m[k := v]| <= |m| + 1
  {
    assert m[k := v].Keys == m.Keys + {k};
  }
}
