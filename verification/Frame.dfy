/**
 Ethernet frames as the XDP program reads them, and the 16-byte address keys shared by
 the kernel and the daemon.  A frame is a byte sequence; every read is bounds-checked.
 */
module Frame {
  import opened Wire

  type Addr = Bytes16
  type Bytes4 = s: seq<Byte> | |s| == 4 witness seq(4, _ => 0)

  const ETH_HDR_LEN := 14
  const ETH_TYPE_OFF := 12
  const ETHERTYPE_IPV4 := 0x0800
  const ETHERTYPE_IPV6 := 0x86DD
  const IP6_HDR_LEN := 40
  const IPPROTO_TCP: Byte := 6
  const IPPROTO_UDP: Byte := 17
  const TCP_FLAGS_OFF := 13
  const UDP_HDR_LEN := 8

  /** An address as the daemon's socket reports it. */
  datatype IpAddr = V4(octets: Bytes4) | V6(octets16: Addr)

  datatype FlowKey = FlowKey(saddr: Addr, daddr: Addr, sport: U16, dport: U16)

  /** L3 addresses, the L4 protocol and where its header starts. */
  datatype Packet = Packet(saddr: Addr, daddr: Addr, proto: Byte, l4: nat)

  datatype Parsed = Unreadable | NotOurs | Located(packet: Packet)

  /**
   What the gate sees of a frame.  `Floor` is everything it hands on undecided: other
   protocols, IPv6 extension headers, and any frame that fails a bounds-checked read.
   */
  datatype Traffic =
    | Floor
    | Tcp(flow: FlowKey, flags: Byte)
    | Udp(saddr: Addr, dport: U16, payload: int)

  predicate Fin(flags: Byte) { flags % 2 == 1 }

  predicate Syn(flags: Byte) { flags / 2 % 2 == 1 }

  predicate Rst(flags: Byte) { flags / 4 % 2 == 1 }

  predicate Ack(flags: Byte) { flags / 16 % 2 == 1 }

  // ---- addresses -------------------------------------------------------------------

  /** ::ffff:a.b.c.d (section 2.5.5.2 of RFC 4291). */
  function MappedV4(o: Bytes4): (a: Addr) {
    [0, 0, 0, 0, 0, 0, 0, 0, 0, 0, 0xff, 0xff, o[0], o[1], o[2], o[3]]
  }

  function Group(hi: Byte, lo: Byte): U16 {
    hi as int * 256 + lo as int
  }

  /** The eight 16-bit groups of the IPv4-mapped address. */
  function MappedSegments(o: Bytes4): seq<U16> {
    [0, 0, 0, 0, 0, 0xffff, Group(o[0], o[1]), Group(o[2], o[3])]
  }

  /** An address's groups in network byte order. */
  function Octets(segments: seq<U16>): (bytes: seq<Byte>)
    ensures |bytes| == 2 * |segments|
  {
    if segments == [] then [] else ToBe(segments[0], 2) + Octets(segments[1..])
  }

  /** The daemon's key for a source: IPv4 by way of its mapped IPv6 address. */
  function AddrKey(source: IpAddr): Addr {
    match source
    case V4(o) => Octets(MappedSegments(o))
    case V6(o) => o
  }

  method FillMappedV4(o: Bytes4) returns (a: array<Byte>)
    ensures fresh(a) && a[..] == MappedV4(o)
  {
    a := new Byte[16](_ => 0);
    a[10] := 0xff;
    a[11] := 0xff;
    a[12] := o[0];
    a[13] := o[1];
    a[14] := o[2];
    a[15] := o[3];
  }

  // ---- parsing ---------------------------------------------------------------------

  function Load(frame: seq<Byte>, offset: nat, len: nat): (r: Option<seq<Byte>>)
    ensures r.Some? <==> offset + len <= |frame|
    ensures r.Some? ==> |r.value| == len
  {
    if offset + len > |frame| then None else Some(frame[offset..offset + len])
  }

  function Parse(frame: seq<Byte>): Parsed {
    var kind := Load(frame, ETH_TYPE_OFF, 2);
    if kind.None? then Unreadable
    else if Be16(kind.value) == ETHERTYPE_IPV4 then ParseV4(frame)
    else if Be16(kind.value) == ETHERTYPE_IPV6 then ParseV6(frame)
    else NotOurs
  }

  function ParseV4(frame: seq<Byte>): Parsed {
    var first := Load(frame, ETH_HDR_LEN, 1);
    if first.None? then Unreadable
    else
      var headerLen := first.value[0] % 16 * 4;
      if headerLen < 20 then NotOurs
      else
        var src := Load(frame, ETH_HDR_LEN + 12, 4);
        var dst := Load(frame, ETH_HDR_LEN + 16, 4);
        var proto := Load(frame, ETH_HDR_LEN + 9, 1);
        if src.None? || dst.None? || proto.None? then Unreadable
        else Located(Packet(MappedV4(src.value), MappedV4(dst.value), proto.value[0], ETH_HDR_LEN + headerLen))
  }

  function ParseV6(frame: seq<Byte>): Parsed {
    var proto := Load(frame, ETH_HDR_LEN + 6, 1);
    if proto.None? then Unreadable
    else if proto.value[0] != IPPROTO_TCP && proto.value[0] != IPPROTO_UDP then NotOurs
    else
      var src := Load(frame, ETH_HDR_LEN + 8, 16);
      var dst := Load(frame, ETH_HDR_LEN + 24, 16);
      if src.None? || dst.None? then Unreadable
      else Located(Packet(src.value, dst.value, proto.value[0], ETH_HDR_LEN + IP6_HDR_LEN))
  }

  /** The gate's view of a frame; TCP is gated only with its first 14 header bytes present. */
  function Classify(frame: seq<Byte>): Traffic {
    match Parse(frame)
    case Unreadable => Floor
    case NotOurs => Floor
    case Located(p) =>
      if p.proto == IPPROTO_TCP then
        if p.l4 + TCP_FLAGS_OFF + 1 > |frame| then Floor
        else Tcp(FlowKey(p.saddr, p.daddr, Be16(frame[p.l4..p.l4 + 2]), Be16(frame[p.l4 + 2..p.l4 + 4])),
                 frame[p.l4 + TCP_FLAGS_OFF])
      else if p.proto == IPPROTO_UDP then
        if p.l4 + 4 > |frame| then Floor
        else Udp(p.saddr, Be16(frame[p.l4 + 2..p.l4 + 4]), |frame| - p.l4 - UDP_HDR_LEN)
      else Floor
  }

  function Pow2(k: nat): nat {
    if k == 0 then 1 else 2 * Pow2(k - 1)
  }

  /** The number with these binary digits, lowest first. */
  function FromBits(bits: seq<bool>): (n: nat)
    ensures n < Pow2(|bits|)
  {
    if bits == [] then 0 else (if bits[0] then 1 else 0) + 2 * FromBits(bits[1..])
  }

  function FlagByte(bits: seq<bool>): Byte
    requires |bits| == 8
  {
    assert Pow2(8) == 256;
    FromBits(bits)
  }

  lemma Halved(bits: seq<bool>)
    requires bits != []
    ensures FromBits(bits) / 2 == FromBits(bits[1..])
    ensures FromBits(bits) % 2 == 1 <==> bits[0]
  {
  }

  /** Each flag is its own bit, whatever the others are: FIN 0x01, SYN 0x02, RST 0x04, ACK 0x10. */
  lemma FlagsAreBits(bits: seq<bool>)
    requires |bits| == 8
    ensures Fin(FlagByte(bits)) <==> bits[0]
    ensures Syn(FlagByte(bits)) <==> bits[1]
    ensures Rst(FlagByte(bits)) <==> bits[2]
    ensures Ack(FlagByte(bits)) <==> bits[4]
  {
    Halved(bits);
    Halved(bits[1..]);
    Halved(bits[2..]);
    Halved(bits[3..]);
    Halved(bits[4..]);
    assert bits[1..][1..] == bits[2..] && bits[2..][1..] == bits[3..] && bits[3..][1..] == bits[4..];
    var v := FlagByte(bits);
    assert v / 4 == v / 2 / 2 && v / 8 == v / 4 / 2 && v / 16 == v / 8 / 2;
  }

  /** Every number is made of such bits. */
  lemma {:induction false} HasBits(n: nat, k: nat) returns (bits: seq<bool>)
    requires n < Pow2(k)
    ensures |bits| == k && FromBits(bits) == n
  {
    if k == 0 {
      bits := [];
    } else {
      var high := HasBits(n / 2, k - 1);
      bits := [n % 2 == 1] + high;
      assert bits[1..] == high;
    }
  }

  /** The byte offsets a frame is read at: its header's length, family, addresses and protocol. */
  lemma ParseReads(frame: seq<Byte>)
    ensures |frame| >= 34 && frame[12] == 0x08 && frame[13] == 0x00 && frame[14] % 16 >= 5 ==>
              Parse(frame) == Located(Packet(MappedV4(frame[26..30]), MappedV4(frame[30..34]), frame[23], 14 + 4 * (frame[14] % 16)))
    ensures |frame| >= 54 && frame[12] == 0x86 && frame[13] == 0xDD && (frame[20] == 6 || frame[20] == 17) ==>
              Parse(frame) == Located(Packet(frame[22..38], frame[38..54], frame[20], 54))
    ensures Parse(frame).Located? <==>
              || (|frame| >= 34 && frame[12] == 0x08 && frame[13] == 0x00 && frame[14] % 16 >= 5)
              || (|frame| >= 54 && frame[12] == 0x86 && frame[13] == 0xDD && (frame[20] == 6 || frame[20] == 17))
  {
    if |frame| >= 14 {
      Be16Value(frame[12..14]);
    }
  }

  /** What is made of a located packet: TCP needs its flag byte, UDP its destination port, the rest is left alone. */
  lemma ClassifyReads(frame: seq<Byte>, p: Packet)
    requires Parse(frame) == Located(p)
    ensures Classify(frame) ==
              if p.proto == 6 && p.l4 + 14 <= |frame| then
                var sport, dport := 256 * (frame[p.l4] as int) + frame[p.l4 + 1] as int,
                                    256 * (frame[p.l4 + 2] as int) + frame[p.l4 + 3] as int;
                Tcp(FlowKey(p.saddr, p.daddr, sport, dport), frame[p.l4 + 13])
              else if p.proto == 17 && p.l4 + 4 <= |frame| then
                Udp(p.saddr, 256 * (frame[p.l4 + 2] as int) + frame[p.l4 + 3] as int, |frame| - p.l4 - 8)
              else Floor
  {
    if p.l4 + 4 <= |frame| {
      Be16Value(frame[p.l4..p.l4 + 2]);
      Be16Value(frame[p.l4 + 2..p.l4 + 4]);
    }
  }

  lemma NotLocatedIsFloor(frame: seq<Byte>)
    requires !Parse(frame).Located?
    ensures Classify(frame) == Floor
  {
  }

  // ---- framing ------------------------------------------------------------------------

  /** An IPv4 header (section 3.1 of RFC 791) whose IHL counts `options` in 32-bit words. */
  datatype V4Header = V4Header(
    version: Byte, beforeProto: seq<Byte>, checksum: seq<Byte>, src: Bytes4, dst: Bytes4, options: seq<Byte>)
  {
    predicate WellFormed() {
      version < 16 && |beforeProto| == 8 && |checksum| == 2 && |options| % 4 == 0 && |options| <= 40
    }

    function Bytes(proto: Byte): (b: seq<Byte>)
      requires WellFormed()
      ensures |b| == 20 + |options|
    {
      [version * 16 + 5 + |options| / 4] + beforeProto + [proto] + checksum + src + dst + options
    }
  }

  /** A fixed IPv6 header (section 3 of RFC 8200). */
  datatype V6Header = V6Header(beforeNext: seq<Byte>, hopLimit: Byte, src: Addr, dst: Addr) {
    predicate WellFormed() {
      |beforeNext| == 6
    }

    function Bytes(next: Byte): (b: seq<Byte>)
      requires WellFormed()
      ensures |b| == IP6_HDR_LEN
    {
      beforeNext + [next, hopLimit] + src + dst
    }
  }

  datatype Network = OverV4(v4: V4Header) | OverV6(v6: V6Header) {
    predicate WellFormed() {
      if OverV4? then v4.WellFormed() else v6.WellFormed()
    }

    function Src(): Addr {
      if OverV4? then MappedV4(v4.src) else v6.src
    }

    function Dst(): Addr {
      if OverV4? then MappedV4(v4.dst) else v6.dst
    }

    function Frame(macs: seq<Byte>, proto: Byte, l4: seq<Byte>): seq<Byte>
      requires |macs| == 12 && WellFormed()
    {
      macs + (if OverV4? then [0x08, 0x00] + v4.Bytes(proto) else [0x86, 0xDD] + v6.Bytes(proto)) + l4
    }

    function HeaderLen(): nat
      requires WellFormed()
    {
      if OverV4? then 20 + |v4.options| else IP6_HDR_LEN
    }
  }

  /** Ports, nine bytes of sequence, acknowledgement and offset, then the flags. */
  function TcpSegment(sport: U16, dport: U16, beforeFlags: seq<Byte>, flags: Byte, rest: seq<Byte>): seq<Byte> {
    ToBe(sport, 2) + ToBe(dport, 2) + beforeFlags + [flags] + rest
  }

  function UdpDatagram(sport: U16, dport: U16, lenAndSum: seq<Byte>, payload: seq<Byte>): seq<Byte> {
    ToBe(sport, 2) + ToBe(dport, 2) + lenAndSum + payload
  }

  // ---- parsing inverts framing -----------------------------------------------------------

  lemma EtherType(macs: seq<Byte>, hi: Byte, lo: Byte, rest: seq<Byte>)
    requires |macs| == 12
    ensures var f := macs + ([hi, lo] + rest); f[12..14] == [hi, lo] && f[14..] == rest
    ensures Be16([hi, lo]) == hi * 256 + lo
  {
    assert [hi, lo][..1] == [hi];
    assert [hi][..0] == [];
    assert FromBe([hi]) == hi;
  }

  lemma V4Layout(h: V4Header, proto: Byte)
    requires h.WellFormed()
    ensures var b := h.Bytes(proto);
            && b[0] % 16 * 4 == 20 + |h.options| && b[9] == proto && b[12..16] == h.src && b[16..20] == h.dst
  {
    var b := h.Bytes(proto);
    var b1 := [b[0]] + h.beforeProto + [proto] + h.checksum;
    assert b == b1 + (h.src + (h.dst + h.options));
    assert b[..12] == b1 && b[12..] == h.src + (h.dst + h.options);
    assert b[12..16] == b[12..][..4] && b[16..20] == b[12..][4..8];
    assert b[9] == b1[9];
  }

  lemma V6Layout(h: V6Header, next: Byte)
    requires h.WellFormed()
    ensures var b := h.Bytes(next); b[6] == next && b[8..24] == h.src && b[24..40] == h.dst
  {
    var b1 := h.beforeNext + [next, h.hopLimit];
    assert h.Bytes(next) == b1 + h.src + h.dst;
  }

  lemma ParseV4Reads(f: seq<Byte>)
    requires |f| >= 34 && f[14] % 16 * 4 >= 20
    ensures ParseV4(f) == Located(Packet(MappedV4(f[26..30]), MappedV4(f[30..34]), f[23], 14 + f[14] % 16 * 4))
  {
  }

  lemma ParseV6Reads(f: seq<Byte>)
    requires |f| >= 54 && (f[20] == IPPROTO_TCP || f[20] == IPPROTO_UDP)
    ensures ParseV6(f) == Located(Packet(f[22..38], f[38..54], f[20], 54))
  {
  }

  lemma ParseInvertsV4(h: V4Header, macs: seq<Byte>, proto: Byte, l4: seq<Byte>)
    requires |macs| == 12 && h.WellFormed()
    ensures var f := macs + ([0x08, 0x00] + (h.Bytes(proto) + l4));
            && Parse(f) == Located(Packet(MappedV4(h.src), MappedV4(h.dst), proto, 34 + |h.options|))
            && f[34 + |h.options|..] == l4
  {
    var b := h.Bytes(proto);
    var f := macs + ([0x08, 0x00] + (b + l4));
    EtherType(macs, 0x08, 0x00, b + l4);
    V4Layout(h, proto);
    assert f[14..][..|b|] == b;
    assert f[14] == b[0] && f[23] == b[9];
    assert f[26..30] == b[12..16];
    assert f[30..34] == b[16..20];
    ParseV4Reads(f);
  }

  lemma ParseInvertsV6(h: V6Header, macs: seq<Byte>, proto: Byte, l4: seq<Byte>)
    requires |macs| == 12 && h.WellFormed()
    requires proto == IPPROTO_TCP || proto == IPPROTO_UDP
    ensures var f := macs + ([0x86, 0xDD] + (h.Bytes(proto) + l4));
            && Parse(f) == Located(Packet(h.src, h.dst, proto, 54))
            && f[54..] == l4
  {
    var b := h.Bytes(proto);
    var f := macs + ([0x86, 0xDD] + (b + l4));
    EtherType(macs, 0x86, 0xDD, b + l4);
    V6Layout(h, proto);
    assert f[20] == b[6];
    assert f[22..38] == b[8..24];
    assert f[38..54] == b[24..40];
    ParseV6Reads(f);
  }

  /** Addresses, protocol and L4 offset come back from any well-formed framing. */
  lemma ParseInvertsFraming(n: Network, macs: seq<Byte>, proto: Byte, l4: seq<Byte>)
    requires |macs| == 12 && n.WellFormed()
    requires proto == IPPROTO_TCP || proto == IPPROTO_UDP
    ensures var f := n.Frame(macs, proto, l4);
            && |f| == ETH_HDR_LEN + n.HeaderLen() + |l4|
            && Parse(f) == Located(Packet(n.Src(), n.Dst(), proto, ETH_HDR_LEN + n.HeaderLen()))
            && f[ETH_HDR_LEN + n.HeaderLen()..] == l4
  {
    match n
    case OverV4(h) =>
      assert n.Frame(macs, proto, l4) == macs + ([0x08, 0x00] + (h.Bytes(proto) + l4));
      ParseInvertsV4(h, macs, proto, l4);
    case OverV6(h) =>
      assert n.Frame(macs, proto, l4) == macs + ([0x86, 0xDD] + (h.Bytes(proto) + l4));
      ParseInvertsV6(h, macs, proto, l4);
  }

  lemma PortsAt(sport: U16, dport: U16, rest: seq<Byte>)
    ensures var b := ToBe(sport, 2) + ToBe(dport, 2) + rest;
            && Be16(b[0..2]) == sport && Be16(b[2..4]) == dport && b[4..] == rest
  {
    var b := ToBe(sport, 2) + ToBe(dport, 2) + rest;
    assert b[0..2] == ToBe(sport, 2) && b[2..4] == ToBe(dport, 2);
    assert Pow256(2) == 0x1_0000;
    FromBeOfToBe(sport, 2);
    FromBeOfToBe(dport, 2);
  }

  lemma TcpLayout(sport: U16, dport: U16, beforeFlags: seq<Byte>, flags: Byte, rest: seq<Byte>)
    requires |beforeFlags| == 9
    ensures var l4 := TcpSegment(sport, dport, beforeFlags, flags, rest);
            && |l4| >= 14 && Be16(l4[0..2]) == sport && Be16(l4[2..4]) == dport && l4[13] == flags
  {
    assert TcpSegment(sport, dport, beforeFlags, flags, rest)
        == ToBe(sport, 2) + ToBe(dport, 2) + (beforeFlags + [flags] + rest);
    PortsAt(sport, dport, beforeFlags + [flags] + rest);
  }

  /** A framed TCP segment is seen with exactly its own addresses, ports and flags. */
  lemma ClassifyTcp(
    n: Network, macs: seq<Byte>, sport: U16, dport: U16, beforeFlags: seq<Byte>, flags: Byte, rest: seq<Byte>)
    requires |macs| == 12 && n.WellFormed() && |beforeFlags| == 9
    ensures Classify(n.Frame(macs, IPPROTO_TCP, TcpSegment(sport, dport, beforeFlags, flags, rest)))
            == Tcp(FlowKey(n.Src(), n.Dst(), sport, dport), flags)
  {
    var l4 := TcpSegment(sport, dport, beforeFlags, flags, rest);
    TcpLayout(sport, dport, beforeFlags, flags, rest);
    ParseInvertsFraming(n, macs, IPPROTO_TCP, l4);
    ClassifyTcpAt(n.Frame(macs, IPPROTO_TCP, l4), Packet(n.Src(), n.Dst(), IPPROTO_TCP, ETH_HDR_LEN + n.HeaderLen()), l4);
  }

  lemma ClassifyTcpAt(frame: seq<Byte>, p: Packet, l4: seq<Byte>)
    requires Parse(frame) == Located(p) && p.proto == IPPROTO_TCP
    requires p.l4 <= |frame| && frame[p.l4..] == l4 && |l4| >= 14
    ensures Classify(frame) == Tcp(FlowKey(p.saddr, p.daddr, Be16(l4[0..2]), Be16(l4[2..4])), l4[13])
  {
    assert frame[p.l4..p.l4 + 2] == l4[0..2];
    assert frame[p.l4 + 2..p.l4 + 4] == l4[2..4];
  }

  /** A framed UDP datagram is seen with its source, port and exact payload length. */
  lemma ClassifyUdp(
    n: Network, macs: seq<Byte>, sport: U16, dport: U16, lenAndSum: seq<Byte>, payload: seq<Byte>)
    requires |macs| == 12 && n.WellFormed() && |lenAndSum| == 4
    ensures Classify(n.Frame(macs, IPPROTO_UDP, UdpDatagram(sport, dport, lenAndSum, payload)))
            == Udp(n.Src(), dport, |payload|)
  {
    var l4 := UdpDatagram(sport, dport, lenAndSum, payload);
    var f := n.Frame(macs, IPPROTO_UDP, l4);
    ParseInvertsFraming(n, macs, IPPROTO_UDP, l4);
    assert l4 == ToBe(sport, 2) + ToBe(dport, 2) + (lenAndSum + payload);
    PortsAt(sport, dport, lenAndSum + payload);
    ClassifyUdpAt(f, Packet(n.Src(), n.Dst(), IPPROTO_UDP, ETH_HDR_LEN + n.HeaderLen()), l4);
  }

  lemma ClassifyUdpAt(frame: seq<Byte>, p: Packet, l4: seq<Byte>)
    requires Parse(frame) == Located(p) && p.proto == IPPROTO_UDP
    requires p.l4 <= |frame| && frame[p.l4..] == l4 && |l4| >= 8
    ensures Classify(frame) == Udp(p.saddr, Be16(l4[2..4]), |l4| - 8)
  {
    assert frame[p.l4 + 2..p.l4 + 4] == l4[2..4];
  }

  lemma EtherTypeIs(frame: seq<Byte>)
    requires |frame| >= 14
    ensures Be16(frame[12..14]) == ETHERTYPE_IPV4 ==> frame[12..14] == [0x08, 0x00]
    ensures Be16(frame[12..14]) == ETHERTYPE_IPV6 ==> frame[12..14] == [0x86, 0xDD]
  {
    EtherType(frame[..12], frame[12], frame[13], []);
    assert frame[12..14] == [frame[12], frame[13]];
  }

  lemma V4IsFramed(frame: seq<Byte>, p: Packet) returns (h: V4Header)
    requires |frame| >= 34 && ParseV4(frame) == Located(p) && p.l4 <= |frame|
    ensures h.WellFormed() && p.l4 == 34 + |h.options|
    ensures p.saddr == MappedV4(h.src) && p.daddr == MappedV4(h.dst)
    ensures h.Bytes(p.proto) == frame[14..p.l4]
  {
    h := V4Header(frame[14] / 16, frame[15..23], frame[24..26], frame[26..30], frame[30..34], frame[34..p.l4]);
    assert h.Bytes(p.proto) == frame[14..p.l4];
  }

  lemma V6IsFramed(frame: seq<Byte>, p: Packet) returns (h: V6Header)
    requires |frame| >= 54 && ParseV6(frame) == Located(p)
    ensures h.WellFormed() && p.l4 == 54 && p.saddr == h.src && p.daddr == h.dst
    ensures h.Bytes(p.proto) == frame[14..54]
  {
    h := V6Header(frame[14..20], frame[21], frame[22..38], frame[38..54]);
    assert h.Bytes(p.proto) == frame[14..54];
  }

  lemma SplitFrame(frame: seq<Byte>, l4: nat)
    requires 14 <= l4 <= |frame|
    ensures frame == frame[..12] + (frame[12..14] + frame[14..l4]) + frame[l4..]
  {
  }

  /** A located packet lies behind a well-formed header of one of the two families. */
  lemma LocatedIsFramed(frame: seq<Byte>, p: Packet) returns (n: Network)
    requires Parse(frame) == Located(p) && p.l4 <= |frame|
    ensures n.WellFormed() && n.Src() == p.saddr && n.Dst() == p.daddr
    ensures |frame| >= 12 && frame == n.Frame(frame[..12], p.proto, frame[p.l4..])
  {
    EtherTypeIs(frame);
    SplitFrame(frame, p.l4);
    if Be16(frame[12..14]) == ETHERTYPE_IPV4 {
      var h := V4IsFramed(frame, p);
      n := OverV4(h);
    } else {
      var h := V6IsFramed(frame, p);
      n := OverV6(h);
    }
  }

  /** `frame` is a framing of a TCP segment with these addresses, ports and flags. */
  ghost predicate FramesTcp(frame: seq<Byte>, f: FlowKey, flags: Byte) {
    exists n: Network, macs: seq<Byte>, beforeFlags: seq<Byte>, rest: seq<Byte> ::
      && n.WellFormed() && |macs| == 12 && |beforeFlags| == 9
      && n.Src() == f.saddr && n.Dst() == f.daddr
      && frame == n.Frame(macs, IPPROTO_TCP, TcpSegment(f.sport, f.dport, beforeFlags, flags, rest))
  }

  lemma SegmentOf(l4: seq<Byte>)
    requires |l4| >= 14
    ensures l4 == TcpSegment(Be16(l4[0..2]), Be16(l4[2..4]), l4[4..13], l4[13], l4[14..])
  {
    ToBeOfFromBe(l4[0..2]);
    ToBeOfFromBe(l4[2..4]);
    assert l4 == l4[0..2] + l4[2..4] + l4[4..13] + [l4[13]] + l4[14..];
  }

  /** The gate sees a TCP packet exactly when the frame is a framing of that packet. */
  lemma TcpSeenIffFramed(frame: seq<Byte>, f: FlowKey, flags: Byte)
    ensures Classify(frame) == Tcp(f, flags) <==> FramesTcp(frame, f, flags)
  {
    if Classify(frame) == Tcp(f, flags) {
      var p := Parse(frame).packet;
      var n := LocatedIsFramed(frame, p);
      var l4 := frame[p.l4..];
      ClassifyTcpAt(frame, p, l4);
      SegmentOf(l4);
      assert frame == n.Frame(frame[..12], IPPROTO_TCP, TcpSegment(f.sport, f.dport, l4[4..13], flags, l4[14..]));
    }
    if FramesTcp(frame, f, flags) {
      var n: Network, macs: seq<Byte>, beforeFlags: seq<Byte>, rest: seq<Byte> :|
        && n.WellFormed() && |macs| == 12 && |beforeFlags| == 9
        && n.Src() == f.saddr && n.Dst() == f.daddr
        && frame == n.Frame(macs, IPPROTO_TCP, TcpSegment(f.sport, f.dport, beforeFlags, flags, rest));
      ClassifyTcp(n, macs, f.sport, f.dport, beforeFlags, flags, rest);
    }
  }

  lemma GroupOctets(hi: Byte, lo: Byte)
    ensures Octets([Group(hi, lo)]) == [hi, lo]
  {
    assert ToBe(Group(hi, lo), 2) == ToBe(hi, 1) + [lo];
    assert ToBe(hi, 1) == ToBe(0, 0) + [hi];
  }

  lemma {:induction false} OctetsConcat(a: seq<U16>, b: seq<U16>)
    ensures Octets(a + b) == Octets(a) + Octets(b)
  {
    if a == [] {
      assert a + b == b;
    } else {
      OctetsConcat(a[1..], b);
      assert (a + b)[1..] == a[1..] + b;
    }
  }

  /** The groups, written out, are the bytes the XDP program fills in. */
  lemma MappedOctets(o: Bytes4)
    ensures Octets(MappedSegments(o)) == MappedV4(o)
  {
    var prefix: seq<U16>, high, low := [0, 0, 0, 0, 0, 0xffff], [Group(o[0], o[1])], [Group(o[2], o[3])];
    assert Octets(prefix) == [0, 0, 0, 0, 0, 0, 0, 0, 0, 0, 0xff, 0xff];
    OctetsConcat(prefix + high, low);
    OctetsConcat(prefix, high);
    GroupOctets(o[0], o[1]);
    GroupOctets(o[2], o[3]);
    assert MappedSegments(o) == prefix + high + low;
  }

  /** How a dual-stack or IPv4-only socket may report the sender of a packet. */
  predicate ReportedAs(n: Network, source: IpAddr) {
    match n
    case OverV4(h) => source == V4(h.src) || source == V6(Octets(MappedSegments(h.src)))
    case OverV6(h) => source == V6(h.src)
  }

  /**
   Kernel and daemon key every source alike, from the frame's bytes on the one side and
   the socket's report on the other, and no two IPv4 sources share a key.
   */
  lemma KeysAgree(n: Network, macs: seq<Byte>, proto: Byte, l4: seq<Byte>, source: IpAddr)
    requires |macs| == 12 && n.WellFormed() && ReportedAs(n, source)
    requires proto == IPPROTO_TCP || proto == IPPROTO_UDP
    ensures Parse(n.Frame(macs, proto, l4)).Located?
    ensures Parse(n.Frame(macs, proto, l4)).packet.saddr == AddrKey(source)
    ensures forall a: Bytes4, b: Bytes4 | AddrKey(V4(a)) == AddrKey(V4(b)) :: a == b
  {
    ParseInvertsFraming(n, macs, proto, l4);
    if n.OverV4? {
      MappedOctets(n.v4.src);
    }
    forall a: Bytes4, b: Bytes4 | AddrKey(V4(a)) == AddrKey(V4(b)) ensures a == b {
      MappedOctets(a);
      MappedOctets(b);
      assert forall i | 0 <= i < 4 :: a[i] == MappedV4(a)[12 + i] && b[i] == MappedV4(b)[12 + i];
    }
  }
}
