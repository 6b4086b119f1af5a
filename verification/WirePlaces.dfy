/**
 Where every field of a command and of a datagram's header stands, byte by byte, the high byte first.
 */
module WirePlaces {
  import opened Basics
  import opened Words
  import opened WireFields
  import opened WireCommands
  import opened WireDatagrams

  predicate U8(buf: seq<byte>, at: nat, v: nat) { at < |buf| && buf[at] == v }

  predicate U16(buf: seq<byte>, at: nat, v: nat) {
    at + 2 <= |buf| && 0x100 * (buf[at] as nat) + buf[at + 1] == v
  }

  predicate U32(buf: seq<byte>, at: nat, v: nat) {
    && at + 4 <= |buf|
    && 0x100_0000 * (buf[at] as nat) + 0x1_0000 * (buf[at + 1] as nat) + 0x100 * (buf[at + 2] as nat) + buf[at + 3] == v
  }

  // ---- Fields in a row ----

  /** The fields stand in the buffer from `at` on. */
  ghost predicate Stands(buf: seq<byte>, at: nat, fields: seq<Field>) {
    at + |PutAll(fields)| <= |buf| && buf[at..at + |PutAll(fields)|] == PutAll(fields)
  }

  lemma StandsNext(buf: seq<byte>, at: nat, fields: seq<Field>, k: nat)
    requires k < |fields| && Stands(buf, at, fields[k..])
    ensures var w := fields[k].width;
      at + w <= |buf| && buf[at..at + w] == Put(fields[k].value, w) && Stands(buf, at + w, fields[k + 1..])
  {
    hide Put;
    var f, w := fields[k..], fields[k].width;
    assert f[0] == fields[k] && f[1..] == fields[k + 1..];
    var all, first, rest := PutAll(f), Put(fields[k].value, w), PutAll(f[1..]);
    assert all == first + rest;
    assert buf[at..at + |all|][..w] == first && buf[at..at + |all|][w..] == rest;
    assert buf[at..at + w] == buf[at..at + |all|][..w];
    assert buf[at + w..at + w + |rest|] == buf[at..at + |all|][w..];
  }

  lemma PutOne(v: nat)
    requires v < 0x100
    ensures Put(v, 1) == [v]
  {
    assert Put(v / 256, 0) == [];
  }

  lemma PutTwo(v: nat)
    requires v < 0x1_0000
    ensures Put(v, 2) == [v / 256, v % 256]
  {
    PutOne(v / 256);
  }

  lemma PutFour(v: nat)
    requires v < 0x1_0000_0000
    ensures U32(Put(v, 4), 0, v)
  {
    PutTwo(v / 256 / 256);
    assert Put(v / 256, 3) == Put(v / 256 / 256, 2) + [v / 256 % 256];
  }

  lemma Place1(buf: seq<byte>, at: nat, fields: seq<Field>, k: nat)
    requires k < |fields| && fields[k].width == 1 && fields[k].value < 0x100 && Stands(buf, at, fields[k..])
    ensures U8(buf, at, fields[k].value) && Stands(buf, at + 1, fields[k + 1..])
  {
    hide Stands;
    StandsNext(buf, at, fields, k);
    PutOne(fields[k].value);
    assert buf[at] == buf[at..at + 1][0];
  }

  lemma Place2(buf: seq<byte>, at: nat, fields: seq<Field>, k: nat)
    requires k < |fields| && fields[k].width == 2 && fields[k].value < 0x1_0000 && Stands(buf, at, fields[k..])
    ensures U16(buf, at, fields[k].value) && Stands(buf, at + 2, fields[k + 1..])
  {
    hide Stands;
    StandsNext(buf, at, fields, k);
    PutTwo(fields[k].value);
    assert buf[at] == buf[at..at + 2][0] && buf[at + 1] == buf[at..at + 2][1];
  }

  lemma Place4(buf: seq<byte>, at: nat, fields: seq<Field>, k: nat)
    requires k < |fields| && fields[k].width == 4 && fields[k].value < 0x1_0000_0000 && Stands(buf, at, fields[k..])
    ensures U32(buf, at, fields[k].value) && Stands(buf, at + 4, fields[k + 1..])
  {
    hide Stands, Put;
    StandsNext(buf, at, fields, k);
    PutFour(fields[k].value);
    assert buf[at] == buf[at..at + 4][0] && buf[at + 1] == buf[at..at + 4][1];
    assert buf[at + 2] == buf[at..at + 4][2] && buf[at + 3] == buf[at..at + 4][3];
  }

  // ---- Commands ----

  predicate HeaderPlaced(buf: seq<byte>, h: Header) {
    U8(buf, 0, h.command) && U8(buf, 1, h.channel) && U16(buf, 2, h.reliableSeq)
  }

  predicate SessionPlaced(buf: seq<byte>, s: Session) {
    && U16(buf, 4, s.outgoingPeerId) && U8(buf, 6, s.incomingSession) && U8(buf, 7, s.outgoingSession)
    && U32(buf, 8, s.mtu) && U32(buf, 12, s.windowSize) && U32(buf, 16, s.channelCount)
    && U32(buf, 20, s.incomingBandwidth) && U32(buf, 24, s.outgoingBandwidth)
    && U32(buf, 28, s.interval) && U32(buf, 32, s.acceleration) && U32(buf, 36, s.deceleration)
    && U32(buf, 40, s.connectId)
  }

  predicate FragmentPlaced(buf: seq<byte>, f: Fragment, data: seq<byte>) {
    && U16(buf, 4, f.startSeq) && U16(buf, 6, |data| % 0x1_0000)
    && U32(buf, 8, f.count) && U32(buf, 12, f.number) && U32(buf, 16, f.total) && U32(buf, 20, f.offset)
    && buf[24..] == data
  }

  /** Where the fields of a body stand, and where its data begin. */
  predicate BodyPlaced(buf: seq<byte>, b: Body) {
    match b
    case Acknowledge(received, time) => U16(buf, 4, received) && U16(buf, 6, time) && |buf| == 8
    case Connect(s, d) => SessionPlaced(buf, s) && U32(buf, 44, d) && |buf| == 48
    case VerifyConnect(s) => SessionPlaced(buf, s) && |buf| == 44
    case Disconnect(d) => U32(buf, 4, d) && |buf| == 8
    case Ping => |buf| == 4
    case SendReliable(data) => U16(buf, 4, |data| % 0x1_0000) && buf[6..] == data
    case SendUnreliable(n, data) => U16(buf, 4, n) && U16(buf, 6, |data| % 0x1_0000) && buf[8..] == data
    case SendFragment(f, data) => FragmentPlaced(buf, f, data)
    case SendUnsequenced(n, data) => U16(buf, 4, n) && U16(buf, 6, |data| % 0x1_0000) && buf[8..] == data
    case BandwidthLimit(i, o) => U32(buf, 4, i) && U32(buf, 8, o) && |buf| == 12
    case ThrottleConfigure(i, a, d) => U32(buf, 4, i) && U32(buf, 8, a) && U32(buf, 12, d) && |buf| == 16
    case SendUnreliableFragment(f, data) => FragmentPlaced(buf, f, data)
  }

  /** The fields of the body stand behind the header, and the data behind them. */
  lemma Parts(c: Command)
    ensures Stands(Write(c), 0, PutHeader(c.header)[0..]) && |PutAll(PutHeader(c.header))| == 4
    ensures Stands(Write(c), 4, Layout(c.body)[0..])
    ensures var n := |PutAll(Layout(c.body))|; 4 + n + |c.body.Payload()| == |Write(c)| && Write(c)[4 + n..] == c.body.Payload()
  {
    hide Put, Layout;
    var h, l, d, buf := PutAll(PutHeader(c.header)), PutAll(Layout(c.body)), c.body.Payload(), Write(c);
    HeaderSize(c.header);
    assert PutHeader(c.header)[0..] == PutHeader(c.header) && Layout(c.body)[0..] == Layout(c.body);
    assert buf == h + l + d;
    assert buf[0..4] == h && buf[4..4 + |l|] == l && buf[4 + |l|..] == d;
  }

  lemma HeaderSize(h: Header)
    ensures |PutAll(PutHeader(h))| == 4
  {
    hide Put;
    var f := PutHeader(h);
    assert f[1..][1..] == f[2..] && f[2..][1..] == [];
    assert |PutAll(f[2..])| == 2 && |PutAll(f[1..])| == 3;
  }

  lemma HeaderWhere(buf: seq<byte>, h: Header)
    requires Stands(buf, 0, PutHeader(h)[0..])
    ensures HeaderPlaced(buf, h)
  {
    hide Stands;
    var f := PutHeader(h);
    Place1(buf, 0, f, 0);
    Place1(buf, 1, f, 1);
    Place2(buf, 2, f, 2);
  }

  lemma SessionWhere(buf: seq<byte>, s: Session, f: seq<Field>)
    requires |f| >= 12 && f[..12] == PutSession(s) && Stands(buf, 4, f[0..])
    ensures SessionPlaced(buf, s) && Stands(buf, 44, f[12..])
  {
    hide Stands;
    assert forall i :: 0 <= i < 12 ==> f[i] == PutSession(s)[i];
    Place2(buf, 4, f, 0);
    Place1(buf, 6, f, 1);
    Place1(buf, 7, f, 2);
    Place4(buf, 8, f, 3);
    Place4(buf, 12, f, 4);
    Place4(buf, 16, f, 5);
    Place4(buf, 20, f, 6);
    Place4(buf, 24, f, 7);
    Place4(buf, 28, f, 8);
    Place4(buf, 32, f, 9);
    Place4(buf, 36, f, 10);
    Place4(buf, 40, f, 11);
  }

  lemma FragmentWhere(buf: seq<byte>, g: Fragment, data: seq<byte>)
    requires Stands(buf, 4, PutFragment(g, |data| % 0x1_0000)[0..])
    ensures |buf| >= 24 && (buf[24..] == data ==> FragmentPlaced(buf, g, data)) 
  {
    hide Stands;
    var f := PutFragment(g, |data| % 0x1_0000);
    Place2(buf, 4, f, 0);
    Place2(buf, 6, f, 1);
    Place4(buf, 8, f, 2);
    Place4(buf, 12, f, 3);
    Place4(buf, 16, f, 4);
    Place4(buf, 20, f, 5);
  }

  /** Every command has its fields where the protocol has them, and nothing else but its data. */
  lemma WrittenWhere(c: Command)
    ensures HeaderPlaced(Write(c), c.header) && BodyPlaced(Write(c), c.body)
  {
    hide Stands, Write, U16, U32, PutAll, Put;
    var buf, f := Write(c), Layout(c.body);
    Parts(c);
    HeaderWhere(buf, c.header);
    SizeWritten(c);
    match c.body {
      case Acknowledge(_, _) =>
        Place2(buf, 4, f, 0);
        Place2(buf, 6, f, 1);
      case Connect(s, d) =>
        SessionWhere(buf, s, f);
        Place4(buf, 44, f, 12);
      case VerifyConnect(s) =>
        SessionWhere(buf, s, f);
      case Disconnect(_) =>
        Place4(buf, 4, f, 0);
      case Ping =>
      case SendReliable(data) =>
        Place2(buf, 4, f, 0);
      case SendUnreliable(_, data) =>
        Place2(buf, 4, f, 0);
        Place2(buf, 6, f, 1);
      case SendFragment(g, data) =>
        FragmentWhere(buf, g, data);
      case SendUnsequenced(_, data) =>
        Place2(buf, 4, f, 0);
        Place2(buf, 6, f, 1);
      case BandwidthLimit(_, _) =>
        Place4(buf, 4, f, 0);
        Place4(buf, 8, f, 1);
      case ThrottleConfigure(_, _, _) =>
        Place4(buf, 4, f, 0);
        Place4(buf, 8, f, 1);
        Place4(buf, 12, f, 2);
      case SendUnreliableFragment(g, data) =>
        FragmentWhere(buf, g, data);
    }
  }

  /** A datagram begins with the flags, the session and the peer, and with the time; then comes the checksum, if there is
      one, and then the commands. */
  lemma DatagramWhere(peer: u16, session: byte, now: nat, connectId: u32, body: seq<byte>, checked: bool, crc: seq<byte> -> u32)
    ensures var buf := Datagram(peer, session, now, connectId, body, checked, crc);
      && U16(buf, 0, 0x8000 + session % 4 * 0x1000 + peer % 0x1000) && U16(buf, 2, now % 0x1_0000)
      && (checked ==> |buf| == 8 + |body| && U32(buf, 4, crc(Seal(Outgoing(peer, session, now), connectId, body))) && buf[8..] == body)
      && (!checked ==> |buf| == 4 + |body| && buf[4..] == body)
  {
    var h := Outgoing(peer, session, now);
    PutTwo(h.raw);
    PutTwo(now % 0x1_0000);
    PutFour(crc(Seal(h, connectId, body)));
    hide Put;
  }
}
