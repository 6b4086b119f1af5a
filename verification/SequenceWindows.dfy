/**
 Reliable sequence numbers.  On the wire they have 16 bits; the tests of both sides divide them into
 sixteen windows and take the window of a number that looks smaller than the receiver's as one wrap
 further on.
 */
module SequenceWindows {
  import opened Words

  const WRAP := 0x1_0000
  const WINDOW := 0x1000
  const WINDOWS := 16
  const FREE_WINDOWS := 8

  function Wire(n: nat): u16 { n % WRAP }

  /** How many windows `seqno` seems ahead of `base`. */
  function Ahead(base: u16, seqno: u16): int {
    seqno / WINDOW + (if seqno < base then WINDOWS else 0) - base / WINDOW
  }

  /** How many numbers `seqno` seems ahead of `base`. */
  function Rank(base: u16, seqno: u16): nat {
    if seqno >= base then seqno - base else seqno + WRAP - base
  }

  lemma RankAhead(base: u16, seqno: u16)
    ensures 0 <= Ahead(base, seqno) <= WINDOWS
    ensures Ahead(base, seqno) * WINDOW - WINDOW < Rank(base, seqno) < Ahead(base, seqno) * WINDOW + WINDOW
  {
  }

  /** A number less than a wrap ahead: the tests see it where it is. */
  lemma SeenAhead(base: nat, n: nat)
    requires base <= n < base + WRAP
    ensures Ahead(Wire(base), Wire(n)) == n / WINDOW - base / WINDOW
    ensures Rank(Wire(base), Wire(n)) == n - base
  {
    WireParts(base);
    WireParts(n);
  }

  lemma WireParts(n: nat)
    ensures n == WRAP * (n / WRAP) + Wire(n) && n / WINDOW == WINDOWS * (n / WRAP) + Wire(n) / WINDOW
  {
  }

  /** A number less than a wrap behind: the tests take it for its successor in the next wrap. */
  lemma SeenBehind(base: nat, n: nat)
    requires n < base < n + WRAP
    ensures Ahead(Wire(base), Wire(n)) == n / WINDOW + WINDOWS - base / WINDOW
  {
    SeenAhead(base, n + WRAP);
    NextWrap(n);
  }

  lemma NextWrap(n: nat)
    ensures Wire(n + WRAP) == Wire(n) && (n + WRAP) / WINDOW == n / WINDOW + WINDOWS
  {
  }

  lemma NextWire(n: nat)
    ensures Wire(n + 1) == (Wire(n) + 1) % WRAP
  {
  }

  lemma WireUnique(a: nat, b: nat)
    requires Wire(a) == Wire(b) && a < b + WRAP && b < a + WRAP
    ensures a == b
  {
    WireParts(a);
    WireParts(b);
  }

  lemma WindowMonotone(a: nat, b: nat)
    requires a <= b
    ensures a / WINDOW <= b / WINDOW
  {
  }
}
