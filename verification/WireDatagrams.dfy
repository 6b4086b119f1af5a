/**
 Datagrams of the Rust port: the protocol header, the checksum slot and the commands.  The checksum is
 any function of the bytes here.
 */
module WireDatagrams {
  import opened Basics
  import opened Words
  import opened WireFields
  import opened WireCommands

  const FLAG_SENT_TIME := 0x8000
  const FLAG_COMPRESSED := 0x4000

  /** Two flags, two bits of session, twelve bits of peer; and the time, if its flag says so. */
  datatype ProtocolHeader = ProtocolHeader(raw: u16, sentTime: Option<u16>) {
    function Peer(): nat { raw % 0x1000 }

    function Session(): nat { raw / 0x1000 % 4 }

    predicate Compressed() { raw / FLAG_COMPRESSED % 2 == 1 }

    predicate HasTime() { raw / FLAG_SENT_TIME == 1 }
  }

  function WriteHeader(h: ProtocolHeader): seq<byte> {
    Put(h.raw, 2) + (if h.sentTime.Some? then Put(h.sentTime.value, 2) else [])
  }

  function ParseHeader(buf: seq<byte>): (r: Option<(ProtocolHeader, seq<byte>)>)
    ensures r.Some? ==> |r.value.1| < |buf|
  {
    if |buf| < 2 then None
    else
      var raw: nat := Get(buf[..2]);
      var h := ProtocolHeader(raw % 0x1_0000, None);
      if !h.HasTime() then Some((h, buf[2..]))
      else if |buf| < 4 then None
      else Some((h.(sentTime := Some(Get(buf[2..4]) % 0x1_0000)), buf[4..]))
  }

  lemma TwoBytes(v: u16)
    ensures Get(Put(v, 2)) == v
  {
    Rooms();
    GetPut(v, 2);
  }

  lemma Slices(a: seq<byte>, b: seq<byte>, c: seq<byte>)
    ensures var s := a + b + c; s[..|a|] == a && s[|a|..|a| + |b|] == b && s[|a| + |b|..] == c
    ensures (a + c)[..|a|] == a && (a + c)[|a|..] == c
  {
  }

  /** A header comes back exactly when it has a time if and only if its flag is set. */
  lemma HeaderWritten(h: ProtocolHeader, rest: seq<byte>)
    ensures ParseHeader(WriteHeader(h) + rest) == Some((h, rest)) <==> (h.sentTime.Some? <==> h.HasTime())
  {
    hide Get, Put;
    TwoBytes(h.raw);
    var raw := Put(h.raw, 2);
    var time := if h.sentTime.Some? then Put(h.sentTime.value, 2) else [];
    Slices(raw, time, rest);
    assert raw + time + rest == raw + (time + rest);
    Slices(raw, [], time + rest);
    if h.sentTime.Some? {
      TwoBytes(h.sentTime.value);
    }
  }

  // ---- A whole datagram ----

  /** The bytes the checksum is taken of: the connection's number stands in its place. */
  function Seal(h: ProtocolHeader, connectId: u32, body: seq<byte>): seq<byte> {
    WriteHeader(h) + Put(connectId, 4) + body
  }

  function Outgoing(peer: u16, session: byte, now: nat): ProtocolHeader {
    ProtocolHeader(FLAG_SENT_TIME + session % 4 * 0x1000 + peer % 0x1000, Some(now % 0x1_0000))
  }

  function Datagram(peer: u16, session: byte, now: nat, connectId: u32, body: seq<byte>, checked: bool,
                    crc: seq<byte> -> u32): seq<byte> {
    var h := Outgoing(peer, session, now);
    if checked then WriteHeader(h) + Put(crc(Seal(h, connectId, body)), 4) + body else WriteHeader(h) + body
  }

  function Joined(cmds: seq<seq<byte>>): seq<byte> {
    if cmds == [] then [] else Joined(cmds[..|cmds| - 1]) + cmds[|cmds| - 1]
  }

  /** `make_datagram`: the commands go behind the connection's number, over which the checksum of the
      whole is then written. */
  method MakeDatagram(peer: u16, session: byte, now: nat, connectId: u32, cmds: seq<seq<byte>>, checked: bool,
                      crc: seq<byte> -> u32) returns (buf: seq<byte>)
    ensures buf == Datagram(peer, session, now, connectId, Joined(cmds), checked, crc)
  {
    hide Put;
    buf := Put(FLAG_SENT_TIME + session % 4 * 0x1000 + peer % 0x1000, 2);
    buf := buf + Put(now % 0x1_0000, 2);
    var slot := |buf|;
    ghost var head := buf;
    if checked {
      buf := buf + Put(connectId, 4);
    }
    ghost var front := buf;
    for i := 0 to |cmds|
      invariant buf == front + Joined(cmds[..i])
    {
      assert cmds[..i + 1][..i] == cmds[..i];
      buf := buf + cmds[i];
    }
    assert cmds[..|cmds|] == cmds;
    if checked {
      Slices(head, Put(connectId, 4), Joined(cmds));
      var ck := crc(buf);
      buf := buf[..slot] + Put(ck, 4) + buf[slot + 4..];
    }
  }

  /** What `on_datagram` makes of a datagram, before it looks at the commands one by one. */
  function Open(buf: seq<byte>, connectId: u32, checked: bool, crc: seq<byte> -> u32):
    Option<(ProtocolHeader, seq<Command>)>
  {
    match ParseHeader(buf)
    case None => None
    case Some((h, slice)) =>
      if h.Compressed() then None
      else if !checked then Some((h, ParseAll(slice, MAX_COMMANDS_PER_PACKET).0))
      else if |slice| < 4 then None
      else if crc(buf[..|buf| - |slice|] + Put(connectId, 4) + slice[4..]) != Get(slice[..4]) then None
      else Some((h, ParseAll(slice[4..], MAX_COMMANDS_PER_PACKET).0))
  }

  lemma OutgoingHeader(peer: u16, session: byte, now: nat)
    ensures var h := Outgoing(peer, session, now);
            !h.Compressed() && h.HasTime() && h.sentTime.Some? && h.Peer() == peer % 0x1000 && h.Session() == session % 4
  {
    var s, p := session % 4, peer % 0x1000;
    assert 0x8000 + s * 0x1000 + p < 0xC000;
  }

  lemma FourBytes(v: u32)
    ensures Get(Put(v, 4)) == v
  {
    Rooms();
    GetPut(v, 4);
  }

  /** A datagram is accepted, with its first 32 commands and the sender's time, if no checksums are in
      use, or if that of the receiver's connection number is that of the sender's: for one connection,
      always. */
  lemma OpenDatagram(peer: u16, session: byte, now: nat, connectId: u32, mine: u32, cs: seq<Command>, checked: bool,
                     crc: seq<byte> -> u32)
    requires forall i :: 0 <= i < |cs| ==> WellFormed(cs[i])
    ensures var h := Outgoing(peer, session, now);
            var first := if |cs| <= 32 then cs else cs[..32];
            Open(Datagram(peer, session, now, connectId, WriteAll(cs), checked, crc), mine, checked, crc)
            == if checked && crc(Seal(h, mine, WriteAll(cs))) != crc(Seal(h, connectId, WriteAll(cs))) then None
               else Some((h, first))
  {
    hide Get, Put, WriteHeader, ParseHeader, Outgoing, ParseAll, WriteAll, WellFormed;
    var h, body := Outgoing(peer, session, now), WriteAll(cs);
    OutgoingHeader(peer, session, now);
    ParseAllWritten(cs, MAX_COMMANDS_PER_PACKET);
    if checked {
      var ck := Put(crc(Seal(h, connectId, body)), 4);
      FourBytes(crc(Seal(h, connectId, body)));
      HeaderWritten(h, ck + body);
      Regroup(WriteHeader(h), ck, body);
      Slices(ck, [], body);
      Slices(WriteHeader(h), [], ck + body);
    } else {
      HeaderWritten(h, body);
    }
  }
}
