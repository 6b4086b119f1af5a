/**
 Round trip times and retransmission timeouts in the Rust port.
 */
module RoundTripTimes {
  import opened Basics
  import opened Words

  const U32 := 0x1_0000_0000
  const DEFAULT_RTT := 500

  // ---- The echoed time ----

  /** The 32-bit time that an echoed 16-bit time stands for. */
  function Reconstruct(now: u32, echoed: u16): u32 {
    var t := now - now % 0x1_0000 + echoed;
    if echoed / 0x8000 > now % 0x1_0000 / 0x8000 then (t - 0x1_0000) % U32 else t
  }

  /** A time at most 32768 ms old is reconstructed exactly. */
  lemma ReconstructExact(now: u32, age: nat)
    requires age <= now && age <= 0x8000
    ensures Reconstruct(now, (now - age) % 0x1_0000) == now - age
  {
    Blocks(now, age);
  }

  lemma Blocks(now: u32, age: nat)
    requires age <= now && age < 0x1_0000
    ensures var low := now % 0x1_0000; (now - age) % 0x1_0000 == if age <= low then low - age else low + 0x1_0000 - age
    ensures age > now % 0x1_0000 ==> now >= 0x1_0000
  {
  }

  /** An older one, if and only if the clock's low half has not passed zero since, or has and the two lie
      in different halves. */
  lemma ReconstructIff(now: u32, age: nat)
    requires age <= now && age < 0x1_0000
    ensures Reconstruct(now, (now - age) % 0x1_0000) == now - age <==>
      age <= now % 0x1_0000 || ((now - age) % 0x1_0000 >= 0x8000 && now % 0x1_0000 < 0x8000)
  {
    Blocks(now, age);
  }

  /** Whatever is echoed, a sample that is taken lies between 1 and 65535 ms. */
  lemma SampleRange(now: u32, echoed: u16)
    requires now >= Reconstruct(now, echoed)
    ensures now - Reconstruct(now, echoed) <= 0xFFFF
  {
  }

  // ---- The estimate ----

  function SaturatingAdd(a: nat, b: nat): nat { if a + b < U32 then a + b else U32 - 1 }

  function SaturatingMul(a: nat, b: nat): nat { if a * b < U32 then a * b else U32 - 1 }

  class RttEstimator {
    var rtt: nat
    var rttVar: nat
    var initialized: bool
    ghost var samples: seq<nat>

    /** The estimate lies between the least and the greatest sample. */
    ghost predicate Valid()
      reads this
    {
      && rttVar <= 0xFFFF && rtt <= 0xFFFF && (initialized <==> samples != [])
      && (forall i :: 0 <= i < |samples| ==> 1 <= samples[i] <= 0xFFFF)
      && (initialized ==> exists i, j :: 0 <= i < |samples| && 0 <= j < |samples| && samples[i] <= rtt <= samples[j])
    }

    constructor ()
      ensures Valid() && samples == [] && InitialTimeout() == 1500
    {
      rtt, rttVar, initialized, samples := DEFAULT_RTT, DEFAULT_RTT / 2, false, [];
    }

    /** `update_rtt`. */
    method Update(sample: nat)
      requires Valid() && 1 <= sample <= 0xFFFF
      modifies this
      ensures Valid() && samples == old(samples) + [sample]
      ensures !old(initialized) ==> rtt == sample && rttVar == (sample + 1) / 2
      ensures old(initialized) ==>
        (&& (if sample >= old(rtt) then rtt == old(rtt) + (sample - old(rtt)) / 8 else rtt == old(rtt) - (old(rtt) - sample) / 8)
         && rttVar == old(rttVar) - old(rttVar) / 4 + (if sample >= old(rtt) then sample - old(rtt) else old(rtt) - sample) / 4)
    {
      ghost var was := samples;
      samples := samples + [sample];
      assert samples[|was|] == sample;
      if !initialized {
        rtt := sample;
        rttVar := (sample + 1) / 2;
        initialized := true;
      } else {
        ghost var i, j :| 0 <= i < |was| && 0 <= j < |was| && was[i] <= rtt <= was[j];
        assert samples[i] == was[i] && samples[j] == was[j];
        rttVar := rttVar - rttVar / 4;
        if sample >= rtt {
          var diff := sample - rtt;
          rttVar := rttVar + diff / 4;
          rtt := rtt + diff / 8;
          assert samples[i] <= rtt <= samples[|was|];
        } else {
          var diff := rtt - sample;
          rttVar := rttVar + diff / 4;
          rtt := rtt - diff / 8;
          assert samples[|was|] <= rtt <= samples[j];
        }
      }
    }

    /** `initial_rtt_timeout`: within 200 and 327675 ms, without ever saturating. */
    function InitialTimeout(): (t: nat)
      reads this
      ensures rtt <= 0xFFFF && rttVar <= 0xFFFF ==> 200 <= t <= 327675 && (t == rtt + 4 * rttVar || (t == 200 && rtt + 4 * rttVar < 200))
    {
      var t := SaturatingAdd(rtt, SaturatingMul(rttVar, 4));
      if t > 200 then t else 200
    }
  }

  // ---- Retransmission ----

  const TIMEOUT_LIMIT := 32
  const TIMEOUT_MINIMUM := 5000
  const TIMEOUT_MAXIMUM := 30000

  datatype Outstanding = Outstanding(first: u32, sent: u32, timeout: nat, attempts: nat)

  /** When a command was first and last sent, by an unbounded clock, and its first timeout. */
  datatype History = History(first: nat, sent: nat, initial: nat)

  function Elapsed(now: u32, then_: u32): nat { (now - then_) % U32 }

  predicate Due(e: Outstanding, now: u32) { Elapsed(now, e.sent) >= e.timeout }

  predicate Expired(e: Outstanding, now: u32) {
    && Due(e, now)
    && (|| Elapsed(now, e.first) >= TIMEOUT_MAXIMUM
        || (Power(if e.attempts > 32 then 31 else if e.attempts > 0 then e.attempts - 1 else 0) >= TIMEOUT_LIMIT
            && Elapsed(now, e.first) >= TIMEOUT_MINIMUM))
  }

  function Again(e: Outstanding, now: u32): Outstanding {
    Outstanding(e.first, now, SaturatingMul(e.timeout, 2), e.attempts + 1)
  }

  /** How long a command may go unacknowledged. */
  function Patience(h: History): nat { if h.initial > 90000 then h.initial else 90000 }

  /** What every command on its way keeps to: at most six transmissions, each after twice the time. */
  ghost predicate Follows(e: Outstanding, h: History, clock: nat) {
    && e.first == h.first % U32 && e.sent == h.sent % U32 && h.first <= h.sent <= clock
    && 1 <= e.attempts <= 6 && 200 <= h.initial <= 327675
    && e.timeout == h.initial * Power(e.attempts - 1)
    && h.sent - h.first >= h.initial * (Power(e.attempts - 1) - 1)
    && (e.attempts > 1 ==> h.sent - h.first < TIMEOUT_MAXIMUM && e.timeout < 2 * TIMEOUT_MAXIMUM)
    && (e.attempts == 1 ==> h.sent == h.first)
  }

  lemma TrueElapsed(now: u32, clock: nat, then_: nat)
    requires now == clock % U32 && then_ <= clock < then_ + U32
    ensures Elapsed(now, then_ % U32) == clock - then_
  {
    var a, b := clock / U32, then_ / U32;
    assert clock == U32 * a + now && then_ == U32 * b + then_ % U32;
    if a == b {
    } else {
      assert a == b + 1;
    }
  }

  lemma Powers(n: nat)
    requires n <= 5
    ensures Power(n) == [1, 2, 4, 8, 16, 32][n]
  {
    assert Power(1) == 2 && Power(2) == 4 && Power(3) == 8 && Power(4) == 16 && Power(5) == 32;
  }

  lemma Doubled(initial: nat, p: nat, spent: nat, timeout: nat, more: nat)
    requires p > 0 && timeout == initial * p && spent >= initial * (p - 1) && more >= spent + timeout
    ensures more >= initial * (2 * p - 1) && 2 * timeout == initial * (2 * p)
    ensures p == 32 && initial >= 200 ==> more >= TIMEOUT_MINIMUM
  {
    assert initial * (p - 1) == initial * p - initial;
    assert initial * (2 * p - 1) == initial * p + initial * p - initial;
  }

  /** A command that is due either ends the peer or goes out again, and never a seventh time. */
  lemma AgainFollows(e: Outstanding, h: History, now: u32, clock: nat)
    requires Follows(e, h, clock) && now == clock % U32 && clock < h.first + U32 && Due(e, now) && !Expired(e, now)
    ensures Follows(Again(e, now), h.(sent := clock), clock) && clock - h.first < TIMEOUT_MAXIMUM
    ensures 1 <= Again(e, now).attempts <= 6
  {
    hide Elapsed;
    var p := Power(e.attempts - 1);
    TrueElapsed(now, clock, h.first);
    TrueElapsed(now, clock, h.sent);
    Powers(e.attempts - 1);
    Doubled(h.initial, p, h.sent - h.first, e.timeout, clock - h.first);
    assert e.attempts < 6;
    assert Power(e.attempts) == 2 * p;
  }

  lemma PatienceShort(e: Outstanding, h: History, clock: nat)
    requires Follows(e, h, clock)
    ensures Patience(h) <= 327675
  {
  }

  lemma NotDue(e: Outstanding, now: u32)
    requires !Due(e, now)
    ensures !Expired(e, now)
  {
  }

  /** A command ends the peer, by an unbounded clock: its time is up, and it was first sent half a minute ago, or has
      been sent six times. */
  ghost predicate Exhausted(attempts: nat, h: History, clock: nat) {
    && attempts >= 1 && clock >= h.sent + h.initial * Power(attempts - 1)
    && (clock >= h.first + 30000 || attempts >= 6)
  }

  /** That is what the 32-bit tests come to; and no command ends the peer before 12.6 seconds. */
  lemma ExpiredWhen(e: Outstanding, h: History, now: u32, clock: nat)
    requires Follows(e, h, clock) && now == clock % U32 && clock < h.first + U32
    ensures Expired(e, now) <==> Exhausted(e.attempts, h, clock)
    ensures Exhausted(e.attempts, h, clock) ==> clock >= h.first + 12600
  {
    TrueElapsed(now, clock, h.first);
    TrueElapsed(now, clock, h.sent);
    Powers(e.attempts - 1);
    if Due(e, now) { Doubled(h.initial, Power(e.attempts - 1), h.sent - h.first, e.timeout, clock - h.first); }
  }

  /** After its patience, a command that is still there ends the peer. */
  lemma PatienceEnds(e: Outstanding, h: History, now: u32, clock: nat)
    requires Follows(e, h, clock) && now == clock % U32 && clock < h.first + U32 && !Expired(e, now)
    ensures !Due(e, now) ==> clock - h.first < Patience(h) && e.attempts <= 6
    ensures Due(e, now) ==> clock - h.first < TIMEOUT_MAXIMUM
  {
    TrueElapsed(now, clock, h.first);
    TrueElapsed(now, clock, h.sent);
    Powers(e.attempts - 1);
  }

  class Retransmitter {
    var outgoing: seq<Outstanding>
    ghost var history: seq<History>
    /** The clock at the last service call, and at the last call of any kind. */
    ghost var served: nat
    ghost var latest: nat

    ghost predicate Valid()
      reads this
    {
      Keeps(latest)
    }

    /** All commands keep to the rules, and at the last service call none had used up its patience. */
    ghost predicate Keeps(clock: nat)
      reads this
    {
      && |history| == |outgoing| && served <= clock
      && (forall i :: 0 <= i < |outgoing| ==> Follows(outgoing[i], history[i], clock))
      && (forall i :: 0 <= i < |outgoing| ==> served < history[i].first + Patience(history[i]))
    }

    constructor ()
      ensures outgoing == [] && served == latest == 0 && Valid()
    {
      outgoing, history, served, latest := [], [], 0, 0;
    }

    /** Time passes. */
    lemma Later(clock: nat)
      requires Valid() && latest <= clock
      ensures Keeps(clock)
    {
    }

    /** A command is sent for the first time. */
    method Send(now: u32, timeout: nat, ghost clock: nat)
      requires Valid() && latest <= clock && now == clock % U32 && 200 <= timeout <= 327675
      modifies this
      ensures Valid() && latest == clock && outgoing == old(outgoing) + [Outstanding(now, now, timeout, 1)] && served == old(served)
      ensures history == old(history) + [History(clock, clock, timeout)]
    {
      Later(clock);
      latest := clock;
      outgoing := outgoing + [Outstanding(now, now, timeout, 1)];
      history := history + [History(clock, clock, timeout)];
    }

    /** An acknowledgement removes a command. */
    method Acknowledge(i: nat, ghost clock: nat)
      requires Valid() && latest <= clock && i < |outgoing|
      modifies this
      ensures Valid() && latest == clock && outgoing == old(outgoing)[..i] + old(outgoing)[i + 1..] && served == old(served)
    {
      Later(clock);
      latest := clock;
      outgoing := outgoing[..i] + outgoing[i + 1..];
      history := history[..i] + history[i + 1..];
    }

    /** The loop of `service_one`.  The peer is given up exactly when some command has expired; otherwise
        every command that is due goes out again, as `again` lists them in order, none more than six times,
        and none has been on its way for longer than its patience. */
    method Service(now: u32, ghost clock: nat) returns (timedOut: bool, again: seq<nat>)
      requires now == clock % U32 && latest <= clock < served + 0x8000_0000 && Valid()
      modifies this
      ensures timedOut <==> exists i :: 0 <= i < |old(outgoing)| && Exhausted(old(outgoing)[i].attempts, old(history)[i], clock)
      ensures timedOut ==> exists i :: 0 <= i < |old(history)| && clock >= old(history)[i].first + 12600
      ensures !timedOut ==> Valid() && served == latest == clock && |outgoing| == |old(outgoing)|
      ensures !timedOut ==> forall i :: 0 <= i < |outgoing| ==>
        outgoing[i] == if Due(old(outgoing)[i], now) then Again(old(outgoing)[i], now) else old(outgoing)[i]
      ensures !timedOut ==> forall i :: i in again <==> 0 <= i < |outgoing| && Due(old(outgoing)[i], now)
      ensures forall a, b :: 0 <= a < b < |again| ==> again[a] < again[b]
      ensures !timedOut ==> forall i :: 0 <= i < |outgoing| ==> outgoing[i].attempts <= 6
      ensures !timedOut ==> forall i :: 0 <= i < |outgoing| ==>
        history[i].first == old(history)[i].first && clock < history[i].first + Patience(history[i])
    {
      hide Due, Expired, Follows, Again, Exhausted;
      Later(clock);
      ghost var o, h := outgoing, history;
      timedOut, again := false, [];
      var i := 0;
      while i < |outgoing|
        invariant i <= |outgoing| == |o| == |history|
        invariant forall j :: 0 <= j < i ==> !Exhausted(o[j].attempts, h[j], clock)
        invariant forall j :: j in again <==> 0 <= j < i && Due(o[j], now)
        invariant forall a :: 0 <= a < |again| ==> again[a] < i
        invariant forall a, b :: 0 <= a < b < |again| ==> again[a] < again[b]
        invariant forall j :: 0 <= j < |o| ==> outgoing[j] == if j < i && Due(o[j], now) then Again(o[j], now) else o[j]
        invariant forall j :: 0 <= j < |o| ==> history[j].first == h[j].first && history[j].initial == h[j].initial
        invariant forall j :: 0 <= j < |o| ==> Follows(outgoing[j], history[j], clock)
        invariant forall j :: i <= j < |o| ==> history[j] == h[j]
        invariant forall j :: 0 <= j < i ==> clock < history[j].first + Patience(history[j]) && outgoing[j].attempts <= 6
      {
        var e := outgoing[i];
        PatienceShort(e, history[i], clock);
        assert e == o[i] && clock < history[i].first + U32;
        ExpiredWhen(e, history[i], now, clock);
        if Due(e, now) {
          if Expired(e, now) {
            return true, again;
          }
          AgainFollows(e, history[i], now, clock);
          outgoing := outgoing[i := Again(e, now)];
          history := history[i := history[i].(sent := clock)];
          again := again + [i];
        } else {
          NotDue(e, now);
          PatienceEnds(e, history[i], now, clock);
        }
        i := i + 1;
      }
      served, latest := clock, clock;
    }
  }
}
