/**
 The commands of the Rust port on the wire: the writer, the parser, and the loop that takes a datagram
 apart.
 */
module WireCommands {
  import opened Basics
  import opened Words
  import opened WireFields

  const COMMAND_MASK := 16
  const MAX_COMMANDS_PER_PACKET := 32

  datatype Header = Header(command: byte, channel: byte, reliableSeq: u16)

  datatype Session = Session(outgoingPeerId: u16, incomingSession: byte, outgoingSession: byte, mtu: u32,
                             windowSize: u32, channelCount: u32, incomingBandwidth: u32, outgoingBandwidth: u32,
                             interval: u32, acceleration: u32, deceleration: u32, connectId: u32)

  datatype Fragment = Fragment(startSeq: u16, count: u32, number: u32, total: u32, offset: u32)

  datatype Body =
    | Acknowledge(receivedSeq: u16, receivedTime: u16)
    | Connect(session: Session, connectData: u32)
    | VerifyConnect(session: Session)
    | Disconnect(disconnectData: u32)
    | Ping
    | SendReliable(data: seq<byte>)
    | SendUnreliable(unreliableSeq: u16, data: seq<byte>)
    | SendFragment(fragment: Fragment, data: seq<byte>)
    | SendUnsequenced(group: u16, data: seq<byte>)
    | BandwidthLimit(incoming: u32, outgoing: u32)
    | ThrottleConfigure(interval: u32, acceleration: u32, deceleration: u32)
    | SendUnreliableFragment(fragment: Fragment, data: seq<byte>)
  {
    function Type(): byte {
      match this
      case Acknowledge(_, _) => 1
      case Connect(_, _) => 2
      case VerifyConnect(_) => 3
      case Disconnect(_) => 4
      case Ping => 5
      case SendReliable(_) => 6
      case SendUnreliable(_, _) => 7
      case SendFragment(_, _) => 8
      case SendUnsequenced(_, _) => 9
      case BandwidthLimit(_, _) => 10
      case ThrottleConfigure(_, _, _) => 11
      case SendUnreliableFragment(_, _) => 12
    }

    function Payload(): seq<byte> {
      if CarriesData(Type()) then data else []
    }
  }

  datatype Command = Command(header: Header, body: Body)

  predicate CarriesData(t: byte) { t in {6, 7, 8, 9, 12} }

  // ---- Writing ----

  function PutSession(s: Session): seq<Field> {
    [Field(2, s.outgoingPeerId), Field(1, s.incomingSession), Field(1, s.outgoingSession), Field(4, s.mtu),
     Field(4, s.windowSize), Field(4, s.channelCount), Field(4, s.incomingBandwidth), Field(4, s.outgoingBandwidth),
     Field(4, s.interval), Field(4, s.acceleration), Field(4, s.deceleration), Field(4, s.connectId)]
  }

  function PutFragment(f: Fragment, length: nat): seq<Field> {
    [Field(2, f.startSeq), Field(2, length), Field(4, f.count), Field(4, f.number), Field(4, f.total),
     Field(4, f.offset)]
  }

  /** The fields of a body as they are put out; a length is cut to 16 bits. */
  function Layout(b: Body): seq<Field> {
    match b
    case Acknowledge(seq_, time) => [Field(2, seq_), Field(2, time)]
    case Connect(s, d) => PutSession(s) + [Field(4, d)]
    case VerifyConnect(s) => PutSession(s)
    case Disconnect(d) => [Field(4, d)]
    case Ping => []
    case SendReliable(data) => [Field(2, |data| % 0x1_0000)]
    case SendUnreliable(n, data) => [Field(2, n), Field(2, |data| % 0x1_0000)]
    case SendFragment(f, data) => PutFragment(f, |data| % 0x1_0000)
    case SendUnsequenced(n, data) => [Field(2, n), Field(2, |data| % 0x1_0000)]
    case BandwidthLimit(i, o) => [Field(4, i), Field(4, o)]
    case ThrottleConfigure(i, a, d) => [Field(4, i), Field(4, a), Field(4, d)]
    case SendUnreliableFragment(f, data) => PutFragment(f, |data| % 0x1_0000)
  }

  function PutHeader(h: Header): seq<Field> {
    [Field(1, h.command), Field(1, h.channel), Field(2, h.reliableSeq)]
  }

  /** `Command::write`. */
  function Write(c: Command): seq<byte> {
    PutAll(PutHeader(c.header)) + PutAll(Layout(c.body)) + c.body.Payload()
  }

  /** `Command::byte_size`. */
  function ByteSize(c: Command): nat {
    4 + match c.body
        case Acknowledge(_, _) => 4
        case Connect(_, _) => 44
        case VerifyConnect(_) => 40
        case Disconnect(_) => 4
        case Ping => 0
        case SendReliable(data) => 2 + |data|
        case SendUnreliable(_, data) => 4 + |data|
        case SendFragment(_, data) => 20 + |data|
        case SendUnsequenced(_, data) => 4 + |data|
        case BandwidthLimit(_, _) => 8
        case ThrottleConfigure(_, _, _) => 12
        case SendUnreliableFragment(_, data) => 20 + |data|
  }

  // ---- Parsing ----

  const HEADER: seq<nat> := [1, 1, 2]

  const SESSION: seq<nat> := [2, 1, 1, 4, 4, 4, 4, 4, 4, 4, 4, 4]

  /** The widths of the fields that the parser looks for. */
  function Shape(t: byte): seq<nat> {
    if t == 1 then [2, 2]
    else if t == 2 then SESSION + [4]
    else if t == 3 then SESSION
    else if t == 4 then [4]
    else if t == 6 then [2]
    else if t == 7 || t == 9 then [2, 2]
    else if t == 8 || t == 12 then [2, 2, 4, 4, 4, 4]
    else if t == 10 then [4, 4]
    else if t == 11 then [4, 4, 4]
    else []
  }

  /** The announced length of the data. */
  function DataLength(t: byte, fields: seq<Field>): nat
    requires |fields| == |Shape(t)|
  {
    if t == 6 then fields[0].value else if CarriesData(t) then fields[1].value else 0
  }

  function Octet(f: Field): byte { f.value % 0x100 }

  function Short(f: Field): u16 { f.value % 0x1_0000 }

  function Word(f: Field): u32 { f.value % 0x1_0000_0000 }

  function GetSession(f: seq<Field>): Session
    requires |f| >= 12
  {
    Session(Short(f[0]), Octet(f[1]), Octet(f[2]), Word(f[3]), Word(f[4]), Word(f[5]), Word(f[6]), Word(f[7]),
            Word(f[8]), Word(f[9]), Word(f[10]), Word(f[11]))
  }

  function GetFragment(f: seq<Field>): Fragment
    requires |f| == 6
  {
    Fragment(Short(f[0]), Word(f[2]), Word(f[3]), Word(f[4]), Word(f[5]))
  }

  function GetBody(t: byte, f: seq<Field>, data: seq<byte>): Body
    requires 1 <= t <= 12 && |f| == |Shape(t)|
  {
    if t == 1 then Acknowledge(Short(f[0]), Short(f[1]))
    else if t == 2 then Connect(GetSession(f), Word(f[12]))
    else if t == 3 then VerifyConnect(GetSession(f))
    else if t == 4 then Disconnect(Word(f[0]))
    else if t == 5 then Ping
    else if t == 6 then SendReliable(data)
    else if t == 7 then SendUnreliable(Short(f[0]), data)
    else if t == 8 then SendFragment(GetFragment(f), data)
    else if t == 9 then SendUnsequenced(Short(f[0]), data)
    else if t == 10 then BandwidthLimit(Word(f[0]), Word(f[1]))
    else if t == 11 then ThrottleConfigure(Word(f[0]), Word(f[1]), Word(f[2]))
    else SendUnreliableFragment(GetFragment(f), data)
  }

  function GetHeader(f: seq<Field>): Header
    requires |f| == 3
  {
    Header(Octet(f[0]), Octet(f[1]), Short(f[2]))
  }

  /** The body of a command of type `t`, and what follows it. */
  function ParseBody(t: byte, buf: seq<byte>): Option<(Body, seq<byte>)> {
    if !(1 <= t <= 12) then None
    else
      match GetAll(Shape(t), buf)
      case None => None
      case Some((f, rest)) =>
        if |rest| < DataLength(t, f) then None
        else Some((GetBody(t, f, rest[..DataLength(t, f)]), rest[DataLength(t, f)..]))
  }

  /** `Command::parse`. */
  function Parse(buf: seq<byte>): Option<(Command, seq<byte>)> {
    match GetAll(HEADER, buf)
    case None => None
    case Some((f, rest)) =>
      match ParseBody(GetHeader(f).command % COMMAND_MASK, rest)
      case None => None
      case Some((b, more)) => Some((Command(GetHeader(f), b), more))
  }

  // ---- Layouts and shapes agree ----

  lemma Rooms()
    ensures Room(1) == 0x100 && Room(2) == 0x1_0000 && Room(4) == 0x1_0000_0000
  {
    assert Room(3) == 256 * Room(2);
  }

  lemma SessionFits(s: Session)
    ensures Widths(PutSession(s)) == SESSION && Fit(PutSession(s))
  {
    hide Room, Widths;
    Rooms();
  }

  lemma SessionRead(s: Session)
    ensures GetSession(PutSession(s)) == s
  {
  }

  lemma FragmentFits(f: Fragment, length: u16)
    ensures Widths(PutFragment(f, length)) == [2, 2, 4, 4, 4, 4] && Fit(PutFragment(f, length))
  {
    hide Room, Widths;
    Rooms();
  }

  lemma MoreFits(f: seq<Field>, x: Field)
    requires Fit(f) && x.value < Room(x.width)
    ensures Fit(f + [x]) && Widths(f + [x]) == Widths(f) + [x.width]
  {
    hide Room, Widths;
  }

  lemma LayoutFits(b: Body)
    ensures Widths(Layout(b)) == Shape(b.Type()) && Fit(Layout(b))
  {
    hide Room, Widths, Fit, PutSession, PutFragment;
    Rooms();
    if b.Connect? || b.VerifyConnect? {
      SessionFits(b.session);
      MoreFits(PutSession(b.session), Field(4, if b.Connect? then b.connectData else 0));
    } else if b.SendFragment? || b.SendUnreliableFragment? {
      FragmentFits(b.fragment, |b.data| % 0x1_0000);
    } else {
      SmallFits(b);
    }
  }

  lemma SmallFits(b: Body)
    requires !(b.Connect? || b.VerifyConnect? || b.SendFragment? || b.SendUnreliableFragment?)
    ensures Widths(Layout(b)) == Shape(b.Type()) && Fit(Layout(b))
  {
    hide Room, Widths, PutSession, PutFragment;
    Rooms();
  }

  lemma BodyBack(b: Body)
    ensures |Layout(b)| == |Shape(b.Type())| && GetBody(b.Type(), Layout(b), b.Payload()) == b
  {
    hide PutSession, GetSession, PutFragment, GetFragment, Layout, Shape, GetBody, Body.Payload;
    if b.Connect? || b.VerifyConnect? {
      SessionBodyBack(b);
    } else {
      OtherBodyBack(b);
    }
  }

  lemma SessionBodyBack(b: Body)
    requires b.Connect? || b.VerifyConnect?
    ensures |Layout(b)| == |Shape(b.Type())| && GetBody(b.Type(), Layout(b), b.Payload()) == b
  {
    hide PutSession, GetSession, PutFragment, GetFragment;
    SessionFits(b.session);
    SessionPrefix(b.session, Layout(b));
  }

  lemma OtherBodyBack(b: Body)
    requires !b.Connect? && !b.VerifyConnect?
    ensures |Layout(b)| == |Shape(b.Type())| && GetBody(b.Type(), Layout(b), b.Payload()) == b
  {
    hide PutSession, GetSession;
  }

  lemma SessionPrefix(s: Session, f: seq<Field>)
    requires |f| >= 12 && f[..12] == PutSession(s)
    ensures GetSession(f) == s
  {
    SessionRead(s);
    assert forall i :: 0 <= i < 12 ==> f[i] == f[..12][i];
  }

  lemma FieldIs(f: seq<Field>, i: nat)
    requires Fit(f) && i < |f|
    ensures f[i].width == 1 ==> f[i] == Field(1, Octet(f[i]))
    ensures f[i].width == 2 ==> f[i] == Field(2, Short(f[i]))
    ensures f[i].width == 4 ==> f[i] == Field(4, Word(f[i]))
  {
    hide Room;
    Rooms();
  }

  lemma SessionBack(f: seq<Field>)
    requires |f| >= 12 && Fit(f) && Widths(f)[..12] == SESSION
    ensures PutSession(GetSession(f)) == f[..12]
  {
    hide Fit, Octet, Short, Word;
    forall i | 0 <= i < 12
      ensures f[i].width == SESSION[i]
      ensures f[i] == Field(SESSION[i], if i == 0 then Short(f[i]) else if i <= 2 then Octet(f[i]) else Word(f[i]))
    {
      assert Widths(f)[..12][i] == f[i].width;
      FieldIs(f, i);
    }
  }

  lemma FragmentBack(f: seq<Field>)
    requires Fit(f) && Widths(f) == [2, 2, 4, 4, 4, 4]
    ensures PutFragment(GetFragment(f), f[1].value) == f
  {
    hide Fit, Octet, Short, Word;
    forall i | 0 <= i < 6
      ensures f[i] == Field(if i < 2 then 2 else 4, if i < 2 then Short(f[i]) else Word(f[i]))
    {
      assert Widths(f)[i] == f[i].width;
      FieldIs(f, i);
    }
  }

  lemma LayoutBack(t: byte, f: seq<Field>, data: seq<byte>)
    requires 1 <= t <= 12 && Widths(f) == Shape(t) && Fit(f) && |data| == DataLength(t, f)
    ensures var b := GetBody(t, f, data); b.Type() == t && Layout(b) == f && b.Payload() == data
  {
    hide Fit, Octet, Short, Word, PutSession, GetSession, PutFragment, GetFragment;
    if t == 2 {
      assert Widths(f)[..12] == SESSION;
      SessionBack(f);
      FieldIs(f, 12);
      assert f[..12] + [f[12]] == f;
    } else if t == 3 {
      assert Widths(f)[..12] == SESSION;
      SessionBack(f);
      assert f[..12] == f;
    } else if t == 8 || t == 12 {
      FieldIs(f, 1);
      FragmentBack(f);
      ShortRange(f[1]);
    } else {
      SmallLayoutBack(t, f, data);
    }
  }

  lemma ShortRange(f: Field)
    ensures f == Field(2, Short(f)) ==> f.value % 0x1_0000 == f.value
  {
  }

  lemma SmallLayoutBack(t: byte, f: seq<Field>, data: seq<byte>)
    requires t in {1, 4, 5, 6, 7, 9, 10, 11} && Widths(f) == Shape(t) && Fit(f) && |data| == DataLength(t, f)
    ensures var b := GetBody(t, f, data); b.Type() == t && Layout(b) == f && b.Payload() == data
  {
    hide Fit, PutSession, GetSession, PutFragment, GetFragment;
    forall i | 0 <= i < |f|
      ensures f[i].width == Shape(t)[i]
      ensures f[i] == Field(Shape(t)[i], if f[i].width == 2 then Short(f[i]) else Word(f[i]))
    {
      FieldIs(f, i);
    }
  }

  // ---- A command there and back ----

  /** The type in the header is the body's, and the length of the data can be announced. */
  predicate WellFormed(c: Command) {
    c.body.Type() == c.header.command % COMMAND_MASK && |c.body.Payload()| < 0x1_0000
  }

  lemma HeaderBack(h: Header)
    ensures Widths(PutHeader(h)) == HEADER && Fit(PutHeader(h)) && GetHeader(PutHeader(h)) == h
  {
    hide Room;
    Rooms();
  }

  lemma BackHeader(f: seq<Field>)
    requires Widths(f) == HEADER && Fit(f)
    ensures PutHeader(GetHeader(f)) == f
  {
    hide Fit;
    FieldIs(f, 0);
    FieldIs(f, 1);
    FieldIs(f, 2);
    assert Widths(f)[0] == 1 && Widths(f)[1] == 1 && Widths(f)[2] == 2;
  }

  lemma ParseBodyWritten(b: Body, rest: seq<byte>)
    requires |b.Payload()| < 0x1_0000
    ensures ParseBody(b.Type(), PutAll(Layout(b)) + (b.Payload() + rest)) == Some((b, rest))
  {
    LengthTold(b);
    hide Layout, Shape, GetBody, DataLength, GetAll, PutAll, Widths, Fit, Body.Payload;
    LayoutFits(b);
    BodyBack(b);
    GetPutAll(Layout(b), b.Payload() + rest);
    var data := b.Payload();
    assert (data + rest)[..|data|] == data && (data + rest)[|data|..] == rest;
  }

  lemma LengthTold(b: Body)
    requires |b.Payload()| < 0x1_0000
    ensures |Layout(b)| == |Shape(b.Type())| && DataLength(b.Type(), Layout(b)) == |b.Payload()|
    ensures 1 <= b.Type() <= 12
  {
  }

  lemma ParseBodyBack(t: byte, buf: seq<byte>)
    requires ParseBody(t, buf).Some?
    ensures var (b, rest) := ParseBody(t, buf).value;
            b.Type() == t && |b.Payload()| < 0x1_0000 && PutAll(Layout(b)) + (b.Payload() + rest) == buf
  {
    hide Layout, Shape, GetBody, GetAll, PutAll, Widths, Fit, Body.Payload;
    PutGetAll(Shape(t), buf);
    var (f, more) := GetAll(Shape(t), buf).value;
    var n := DataLength(t, f);
    LayoutBack(t, f, more[..n]);
    LengthFits(t, f);
    assert more[..n] + more[n..] == more;
  }

  lemma LengthFits(t: byte, f: seq<Field>)
    requires Fit(f) && Widths(f) == Shape(t)
    ensures DataLength(t, f) < 0x1_0000
  {
    hide Room;
    Rooms();
  }

  /** Whatever the parser takes off a buffer is a well-formed command whose bytes stood there. */
  lemma ParseBack(buf: seq<byte>)
    requires Parse(buf).Some?
    ensures var (c, rest) := Parse(buf).value; WellFormed(c) && Write(c) + rest == buf
  {
    hide ParseBody, Layout, GetAll, PutAll, Widths, Fit, PutHeader, GetHeader, Body.Payload, Body.Type;
    PutGetAll(HEADER, buf);
    var (f, more) := GetAll(HEADER, buf).value;
    BackHeader(f);
    ParseBodyBack(GetHeader(f).command % COMMAND_MASK, more);
    var (b, rest) := ParseBody(GetHeader(f).command % COMMAND_MASK, more).value;
    Regroup(PutAll(f), PutAll(Layout(b)), b.Payload() + rest);
    Regroup(PutAll(f) + PutAll(Layout(b)), b.Payload(), rest);
  }

  /** A command comes back from the wire, whatever follows it, exactly when it is well formed. */
  lemma ParseWritten(c: Command, rest: seq<byte>)
    ensures Parse(Write(c) + rest) == Some((c, rest)) <==> WellFormed(c)
  {
    hide ParseBody, Layout, GetAll, PutAll, Widths, Fit, PutHeader, GetHeader, Body.Payload, Body.Type;
    if WellFormed(c) {
      var head, fields, data := PutAll(PutHeader(c.header)), PutAll(Layout(c.body)), c.body.Payload();
      Regroup(head + fields, data, rest);
      Regroup(head, fields, data + rest);
      HeaderBack(c.header);
      GetPutAll(PutHeader(c.header), fields + (data + rest));
      ParseBodyWritten(c.body, rest);
    } else if Parse(Write(c) + rest) == Some((c, rest)) {
      ParseBack(Write(c) + rest);
    }
  }

  /** A command with 64 KiB of data announces none, and does not come back. */
  lemma TooLong(data: seq<byte>, rest: seq<byte>) returns (c: Command)
    requires |data| == 0x1_0000
    ensures c == Command(Header(6, 0, 1), SendReliable(data))
    ensures Layout(c.body) == [Field(2, 0)] && Parse(Write(c) + rest) != Some((c, rest))
  {
    c := Command(Header(6, 0, 1), SendReliable(data));
    ParseWritten(c, rest);
  }

  /** The sizes the sender counts with are the sizes on the wire. */
  lemma SizeWritten(c: Command)
    ensures |Write(c)| == ByteSize(c)
  {
    hide Layout, Fit, PutAll, PutHeader, Widths, Shape, Size, ByteSize, Body.Payload, Body.Type;
    PutAllSize(PutHeader(c.header));
    PutAllSize(Layout(c.body));
    HeaderBack(c.header);
    LayoutFits(c.body);
    ShapeSize(c.header, c.body);
  }

  lemma ShapeSize(h: Header, b: Body)
    ensures Size(HEADER) == 4
    ensures Size(Shape(b.Type())) + |b.Payload()| == ByteSize(Command(h, b)) - 4
  {
    hide Size;
    NextThree(HEADER);
    var w := Shape(b.Type());
    if b.Connect? {
      NextThree([4]);
      SessionSize([4]);
    } else if b.VerifyConnect? {
      NextThree([]);
      SessionSize([]);
      assert SESSION + [] == SESSION;
    } else {
      NextThree(w);
      if |w| == 6 {
        NextThree(w[3..]);
      }
    }
  }

  lemma SessionSize(more: seq<nat>)
    ensures Size(SESSION + more) == 40 + Size(more)
  {
    hide Size;
    var w := SESSION + more;
    NextThree(w);
    NextThree(w[3..]);
    NextThree(w[6..]);
    NextThree(w[9..]);
    assert w[3..][3..] == w[6..] && w[6..][3..] == w[9..] && w[9..][3..] == more;
  }

  lemma NextThree(w: seq<nat>)
    ensures |w| == 0 ==> Size(w) == 0
    ensures |w| == 1 ==> Size(w) == w[0]
    ensures |w| == 2 ==> Size(w) == w[0] + w[1]
    ensures |w| >= 3 ==> Size(w) == w[0] + w[1] + w[2] + Size(w[3..])
    ensures |w| == 3 ==> Size(w[3..]) == 0
  {
    if |w| >= 3 {
      assert w[1..][1..] == w[2..] && w[2..][1..] == w[3..];
    }
  }

  // ---- A datagram full of commands ----

  function WriteAll(cs: seq<Command>): seq<byte> {
    if cs == [] then [] else Write(cs[0]) + WriteAll(cs[1..])
  }

  /** The first `most` commands of a buffer, up to what cannot be parsed, and what is left. */
  function ParseAll(buf: seq<byte>, most: nat): (seq<Command>, seq<byte>)
    decreases most
  {
    if buf == [] || most == 0 || Parse(buf).None? then ([], buf)
    else
      var (c, more) := Parse(buf).value;
      var (cs, rest) := ParseAll(more, most - 1);
      ([c] + cs, rest)
  }

  /** `parse_commands`. */
  method ParseCommands(buf: seq<byte>) returns (cmds: seq<Command>)
    ensures cmds == ParseAll(buf, MAX_COMMANDS_PER_PACKET).0
  {
    hide Parse, ParseAll;
    cmds := [];
    var left := buf;
    while left != []
      invariant |cmds| <= MAX_COMMANDS_PER_PACKET
      invariant cmds + ParseAll(left, MAX_COMMANDS_PER_PACKET - |cmds|).0 == ParseAll(buf, MAX_COMMANDS_PER_PACKET).0
      decreases MAX_COMMANDS_PER_PACKET - |cmds|
    {
      if |cmds| >= MAX_COMMANDS_PER_PACKET {
        break;
      }
      match Parse(left)
      case Some((c, more)) =>
        ParseAllOn(cmds, left, MAX_COMMANDS_PER_PACKET - |cmds|);
        cmds, left := cmds + [c], more;
      case None =>
        ParseAllStops(left, MAX_COMMANDS_PER_PACKET - |cmds|);
        return;
    }
    ParseAllStops(left, MAX_COMMANDS_PER_PACKET - |cmds|);
  }

  lemma ParseAllOn(cmds: seq<Command>, left: seq<byte>, most: nat)
    requires left != [] && most > 0 && Parse(left).Some?
    ensures var (c, more) := Parse(left).value; cmds + ParseAll(left, most).0 == cmds + [c] + ParseAll(more, most - 1).0
  {
    hide Parse;
    var (c, more) := Parse(left).value;
    assert cmds + ([c] + ParseAll(more, most - 1).0) == cmds + [c] + ParseAll(more, most - 1).0;
  }

  lemma ParseAllStops(left: seq<byte>, most: nat)
    requires left == [] || most == 0 || Parse(left).None?
    ensures ParseAll(left, most).0 == []
  {
    hide Parse;
  }

  /** The commands parsed are well formed, their bytes are the front of the buffer in order, and parsing
      stopped there for one of the three reasons to stop. */
  lemma {:induction false} ParseAllBack(buf: seq<byte>, most: nat)
    ensures var (cs, rest) := ParseAll(buf, most);
            && (forall i :: 0 <= i < |cs| ==> WellFormed(cs[i]))
            && WriteAll(cs) + rest == buf
            && |cs| <= most && (|cs| == most || rest == [] || Parse(rest).None?)
    decreases most
  {
    hide Parse, Write, WellFormed;
    var (cs, rest) := ParseAll(buf, most);
    if cs == [] {
      assert [] + buf == buf;
    } else {
      ParseBack(buf);
      var (c, more) := Parse(buf).value;
      ParseAllBack(more, most - 1);
      assert cs[1..] == ParseAll(more, most - 1).0;
      Regroup(Write(c), WriteAll(cs[1..]), rest);
    }
  }

  /** Up to 32 well-formed commands written one after the other come back, and of more the first 32. */
  lemma {:induction false} ParseAllWritten(cs: seq<Command>, most: nat)
    requires forall i :: 0 <= i < |cs| ==> WellFormed(cs[i])
    ensures ParseAll(WriteAll(cs), most).0 == if |cs| <= most then cs else cs[..most]
    decreases most
  {
    hide Parse, Write, WellFormed;
    if cs != [] && most > 0 {
      ParseWritten(cs[0], WriteAll(cs[1..]));
      Something(cs[0]);
      ParseAllWritten(cs[1..], most - 1);
      assert |cs| > most ==> [cs[0]] + cs[1..][..most - 1] == cs[..most];
      assert [cs[0]] + cs[1..] == cs;
    }
  }

  lemma Something(c: Command)
    ensures Write(c) != []
  {
    hide Layout, PutAll, PutHeader;
    SizeWritten(c);
  }
}
