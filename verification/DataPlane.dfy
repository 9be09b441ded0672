/**
 The XDP data plane: allow-list, protected ports, tracked flows and the per-source
 knock limiter.  One packet is one atomic step.  A `wrote` argument says whether the
 kernel accepted the step's map insertion, whose result the program ignores.
 Mirrors spa-ebpf and spa-ebpf-common.
 */
module DataPlane {
  import opened Wire
  import opened Frame

  const MAX_GRANT_PORTS := 8
  const ALLOW_CAPACITY := 1024
  const PROTECTED_CAPACITY := 64
  const SECOND := 1_000_000_000
  const FLOW_IDLE_NS := 120 * SECOND
  const RATE_WINDOW_NS := SECOND
  const RATE_LIMIT := 10
  const KNOCK_MIN := 180
  const KNOCK_MAX := 260

  type PortSlots = s: seq<U16> | |s| == MAX_GRANT_PORTS witness seq(MAX_GRANT_PORTS, _ => 0)

  datatype Grant = Grant(expiry: U64, ports: PortSlots, portCount: Byte) {
    /** The valid prefix of the slots; an oversized count is clamped to the array. */
    function Granted(): seq<U16> {
      ports[..if portCount > MAX_GRANT_PORTS then MAX_GRANT_PORTS else portCount]
    }

    method AllowsPort(port: U16) returns (yes: bool)
      ensures yes <==> port in Granted()
      ensures yes <==> exists i: nat :: i < 8 && i < portCount && ports[i] == port
    {
      var n := if portCount > MAX_GRANT_PORTS then MAX_GRANT_PORTS else portCount;
      var i := 0;
      while i < n
        invariant 0 <= i <= n
        invariant port !in Granted()[..i]
      {
        if ports[i] == port {
          assert Granted()[i] == port && i < 8;
          return true;
        }
        i := i + 1;
      }
      assert Granted()[..n] == Granted();
      assert forall k: nat | k < 8 && k < portCount :: Granted()[k] == ports[k];
      yes := false;
    }
  }

  datatype RateState = RateState(window: U64, count: nat)

  datatype Verdict = Pass | Drop

  /** The values of the five BPF maps. */
  datatype Plane = Plane(
    allow: map<Addr, Grant>,
    protectedPorts: set<U16>,
    established: map<FlowKey, U64>,
    rate: map<Addr, RateState>,
    knockPort: Option<U16>)

  /** u64 wrapping subtraction. */
  function WrappingSub(a: U64, b: U64): (r: U64)
    ensures b <= a ==> r == a - b
    ensures (b + r) % 0x1_0000_0000_0000_0000 == a
  {
    if b <= a then a - b else a - b + 0x1_0000_0000_0000_0000
  }

  predicate SourceAllowed(allow: map<Addr, Grant>, src: Addr, port: U16, now: U64) {
    src in allow && now < allow[src].expiry && port in allow[src].Granted()
  }

  predicate Tracked(established: map<FlowKey, U64>, f: FlowKey, now: U64) {
    f in established && WrappingSub(now, established[f]) < FLOW_IDLE_NS
  }

  predicate Closing(flags: Byte) {
    Fin(flags) || Rst(flags)
  }

  /** A connection's first packet: SYN without ACK. */
  predicate Opening(flags: Byte) {
    Syn(flags) && !Ack(flags)
  }

  function Insert<K, V>(m: map<K, V>, k: K, v: V, wrote: bool): map<K, V> {
    if wrote then m[k := v] else m
  }

  /** Verdict on a TCP packet and the flow table after it. */
  function TcpGate(pl: Plane, f: FlowKey, flags: Byte, now: U64, wrote: bool): (Verdict, map<FlowKey, U64>) {
    if f.dport !in pl.protectedPorts then (Pass, pl.established)
    else if Tracked(pl.established, f, now) then
      (Pass, if Closing(flags) then pl.established - {f} else Insert(pl.established, f, now, wrote))
    else if Opening(flags) && SourceAllowed(pl.allow, f.saddr, f.dport, now) then
      (Pass, Insert(pl.established - {f}, f, now, wrote))
    else (Drop, pl.established - {f})
  }

  predicate InWindow(rate: map<Addr, RateState>, src: Addr, now: U64) {
    src in rate && WrappingSub(now, rate[src].window) < RATE_WINDOW_NS
  }

  /** Limiter decision for one knock and the limiter state after it. */
  function RateOk(rate: map<Addr, RateState>, src: Addr, now: U64, wrote: bool): (bool, map<Addr, RateState>) {
    if InWindow(rate, src, now) then
      if rate[src].count >= RATE_LIMIT then (false, rate)
      else (true, Insert(rate, src, RateState(rate[src].window, rate[src].count + 1), wrote))
    else (true, Insert(rate, src, RateState(now, 1), wrote))
  }

  predicate SizeOk(payload: int) {
    KNOCK_MIN <= payload <= KNOCK_MAX
  }

  function UdpGate(pl: Plane, src: Addr, dport: U16, payload: int, now: U64, wrote: bool):
    (Verdict, map<Addr, RateState>)
  {
    if pl.knockPort != Some(dport) then (Pass, pl.rate)
    else if !SizeOk(payload) then (Drop, pl.rate)
    else
      var (ok, rate) := RateOk(pl.rate, src, now, wrote);
      (if ok then Pass else Drop, rate)
  }

  /** The whole program on one frame: its verdict and the maps after it. */
  function Gate(pl: Plane, t: Traffic, now: U64, wrote: bool): (Verdict, Plane) {
    match t
    case Floor => (Pass, pl)
    case Tcp(f, flags) =>
      var (v, est) := TcpGate(pl, f, flags, now, wrote);
      (v, pl.(established := est))
    case Udp(src, dport, payload) =>
      var (v, rate) := UdpGate(pl, src, dport, payload, now, wrote);
      (v, pl.(rate := rate))
  }

  // ---- what the gate does, number by number -------------------------------------------------

  /** Whatever is not for a protected TCP port or the knock port passes, and leaves no trace. */
  lemma OrdinaryTrafficPasses(pl: Plane, t: Traffic, now: U64, wrote: bool)
    requires t.Floor? || (t.Tcp? && t.flow.dport !in pl.protectedPorts) || (t.Udp? && pl.knockPort != Some(t.dport))
    ensures Gate(pl, t, now, wrote) == (Pass, pl)
  {
  }

  /** So do the frames of such packets ... */
  lemma OrdinaryFramesPass(
    n: Network, macs: seq<Byte>, sport: U16, dport: U16, filler: seq<Byte>, flags: Byte, rest: seq<Byte>,
    pl: Plane, now: U64, wrote: bool)
    requires |macs| == 12 && n.WellFormed()
    ensures |filler| == 9 && dport !in pl.protectedPorts ==>
              Gate(pl, Classify(n.Frame(macs, 6, TcpSegment(sport, dport, filler, flags, rest))), now, wrote) == (Pass, pl)
    ensures |filler| == 4 && pl.knockPort != Some(dport) ==>
              Gate(pl, Classify(n.Frame(macs, 17, UdpDatagram(sport, dport, filler, rest))), now, wrote) == (Pass, pl)
  {
    if |filler| == 9 {
      ClassifyTcp(n, macs, sport, dport, filler, flags, rest);
    }
    if |filler| == 4 {
      ClassifyUdp(n, macs, sport, dport, filler, rest);
    }
  }

  /** ... and every frame that is neither IPv4 nor IPv6, or carries neither TCP nor UDP. */
  lemma ForeignFramesPass(frame: seq<Byte>, pl: Plane, now: U64, wrote: bool)
    requires
      || |frame| < 14
      || ((frame[12] != 0x08 || frame[13] != 0x00) && (frame[12] != 0x86 || frame[13] != 0xDD))
      || (Parse(frame).Located? && Parse(frame).packet.proto != 6 && Parse(frame).packet.proto != 17)
    ensures Gate(pl, Classify(frame), now, wrote) == (Pass, pl)
  {
    ParseReads(frame);
    if Parse(frame).Located? {
      ClassifyReads(frame, Parse(frame).packet);
    } else {
      NotLocatedIsFloor(frame);
    }
  }

  /** A live grant: less than its expiry, and the port among the first `portCount` of eight slots. */
  lemma AllowedExactly(allow: map<Addr, Grant>, src: Addr, port: U16, now: U64)
    ensures SourceAllowed(allow, src, port, now) <==>
              src in allow && now < allow[src].expiry
              && exists i: nat :: i < 8 && i < allow[src].portCount && allow[src].ports[i] == port
  {
    if SourceAllowed(allow, src, port, now) {
      var i: nat :| i < |allow[src].Granted()| && allow[src].Granted()[i] == port;
      assert allow[src].ports[i] == port;
    } else if src in allow && now < allow[src].expiry {
      forall i: nat | i < 8 && i < allow[src].portCount ensures allow[src].ports[i] != port {
        assert allow[src].Granted()[i] == allow[src].ports[i];
      }
    }
  }

  /**
   A TCP packet to a protected port, by its flag bits: it passes if its flow was seen less than
   120 seconds ago, or it is a SYN without ACK under a live grant.  A flow seen that recently
   survives exactly if neither FIN nor RST is set; any other is there afterwards exactly if such
   a SYN was recorded.  Nothing else changes.
   */
  lemma TcpGateExactly(pl: Plane, f: FlowKey, bits: seq<bool>, now: U64, wrote: bool)
    requires f.dport in pl.protectedPorts && |bits| == 8
    ensures var (v, pl') := Gate(pl, Tcp(f, FlagByte(bits)), now, wrote);
            var fin, syn, rst, ack := bits[0], bits[1], bits[2], bits[4];
            var live := f in pl.established && WrappingSub(now, pl.established[f]) < 120_000_000_000;
            var starts := syn && !ack && SourceAllowed(pl.allow, f.saddr, f.dport, now);
            && pl' == pl.(established := pl'.established)
            && (v == Pass <==> live || starts)
            && (forall g | g != f :: g in pl'.established <==> g in pl.established)
            && (forall g | g != f && g in pl.established :: pl'.established[g] == pl.established[g])
            && (live ==> (f in pl'.established <==> !fin && !rst))
            && (!live ==> (f in pl'.established <==> starts && wrote))
            && (f in pl'.established ==> pl'.established[f] == if wrote then now else pl.established[f])
  {
    FlagsAreBits(bits);
  }

  /**
   A datagram to the knock port: it passes exactly if its payload is of 180 to 260 bytes and
   fewer than ten from its source were counted in the window opened less than a second ago;
   then, if recorded, it is the window's next, or the first of a new one.  Nothing else changes.
   */
  lemma KnockGateExactly(pl: Plane, src: Addr, dport: U16, payload: int, now: U64, wrote: bool)
    requires pl.knockPort == Some(dport)
    ensures var (v, pl') := Gate(pl, Udp(src, dport, payload), now, wrote);
            var open := src in pl.rate && WrappingSub(now, pl.rate[src].window) < 1_000_000_000;
            && pl' == pl.(rate := pl'.rate)
            && (v == Pass <==> 180 <= payload <= 260 && (open ==> pl.rate[src].count < 10))
            && (v == Drop || !wrote ==> pl' == pl)
            && (v == Pass && wrote ==>
                  pl'.rate == pl.rate[src := if open then RateState(pl.rate[src].window, pl.rate[src].count + 1)
                                             else RateState(now, 1)])
  {
  }

  /** The XDP program over its maps. */
  class XdpGate {
    var allow: map<Addr, Grant>
    var protectedPorts: set<U16>
    var established: map<FlowKey, U64>
    var rate: map<Addr, RateState>
    var knockPort: Option<U16>

    ghost function Value(): Plane
      reads this
    {
      Plane(allow, protectedPorts, established, rate, knockPort)
    }

    method CheckSource(src: Addr, port: U16, now: U64) returns (yes: bool)
      ensures yes <==> SourceAllowed(allow, src, port, now)
    {
      if src !in allow || now >= allow[src].expiry {
        return false;
      }
      yes := allow[src].AllowsPort(port);
    }

    method CheckRate(src: Addr, now: U64, wrote: bool) returns (ok: bool)
      modifies this`rate
      ensures (ok, rate) == RateOk(old(rate), src, now, wrote)
    {
      var next: RateState;
      if src in rate && WrappingSub(now, rate[src].window) < RATE_WINDOW_NS {
        if rate[src].count >= RATE_LIMIT {
          return false;
        }
        next := rate[src].(count := rate[src].count + 1);
      } else {
        next := RateState(now, 1);
      }
      if wrote { rate := rate[src := next]; }
      ok := true;
    }

    method GateTcp(frame: seq<Byte>, p: Packet, now: U64, wrote: bool) returns (v: Verdict)
      requires Parse(frame) == Located(p) && p.proto == IPPROTO_TCP
      modifies this`established
      ensures (v, Value()) == Gate(old(Value()), Classify(frame), now, wrote)
    {
      var portBytes := Load(frame, p.l4 + 2, 2);
      if portBytes.None? { return Pass; }
      var dport := Be16(portBytes.value);
      if dport !in protectedPorts { return Pass; }
      var sportBytes, flagByte := Load(frame, p.l4, 2), Load(frame, p.l4 + TCP_FLAGS_OFF, 1);
      if sportBytes.None? || flagByte.None? { return Pass; }
      var flow, flags := FlowKey(p.saddr, p.daddr, Be16(sportBytes.value), dport), flagByte.value[0];
      assert Classify(frame) == Tcp(flow, flags);

      if flow in established {
        if WrappingSub(now, established[flow]) < FLOW_IDLE_NS {
          if Closing(flags) {
            established := established - {flow};
          } else if wrote {
            established := established[flow := now];
          }
          return Pass;
        }
        established := established - {flow};
      }
      assert established == old(established) - {flow};
      var granted := CheckSource(p.saddr, dport, now);
      if Opening(flags) && granted {
        if wrote { established := established[flow := now]; }
        return Pass;
      }
      v := Drop;
    }

    method GateUdp(frame: seq<Byte>, p: Packet, now: U64, wrote: bool) returns (v: Verdict)
      requires Parse(frame) == Located(p) && p.proto == IPPROTO_UDP
      modifies this`rate
      ensures (v, Value()) == Gate(old(Value()), Classify(frame), now, wrote)
    {
      var portBytes := Load(frame, p.l4 + 2, 2);
      if portBytes.None? { return Pass; }
      if knockPort != Some(Be16(portBytes.value)) { return Pass; }
      var base, end := p.l4 + UDP_HDR_LEN, |frame|;
      if base + KNOCK_MIN > end || base + KNOCK_MAX < end { return Drop; }
      var ok := CheckRate(p.saddr, now, wrote);
      v := if ok then Pass else Drop;
    }

    method TryGate(frame: seq<Byte>, now: U64, wrote: bool) returns (v: Verdict)
      modifies this`established, this`rate
      ensures (v, Value()) == Gate(old(Value()), Classify(frame), now, wrote)
    {
      var parsed := Parse(frame);
      if !parsed.Located? { return Pass; }
      if parsed.packet.proto == IPPROTO_TCP {
        v := GateTcp(frame, parsed.packet, now, wrote);
      } else if parsed.packet.proto == IPPROTO_UDP {
        v := GateUdp(frame, parsed.packet, now, wrote);
      } else {
        v := Pass;
      }
    }
  }
}
