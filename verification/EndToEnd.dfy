/**
 What the gate is for, in one theorem: a sealed knock on the wire reaches the daemon, opens
 its ports, lets the client's SYN in, and the connection then lives on.
 */
module EndToEnd {
  import opened Wire
  import opened Envelope
  import opened Frame
  import opened DataPlane
  import opened Core
  import opened Adapters
  import opened System
  import opened Admission
  import opened Serving
  import AllowList
  import NonBypass
  import Flows

  /** What a client authenticates with: its signing key and some entropy, or a one-time token. */
  datatype Secret = SigningKey(key: seq<Byte>, entropy: seq<Byte>) | Token(shared: seq<Byte>)

  /** A client with its secret, and the knock it seals to the gate holding `priv`. */
  datatype Client = Client(
    prims: Primitives, priv: seq<Byte>, secret: Secret, id: Thumbprint, req: KnockRequest, ephPrivate: seq<Byte>)
  {
    /** `packet` is the sealed knock, and the gate opens packets with the matching key. */
    ghost predicate Seals(p: Params, packet: seq<Byte>) {
      && Correct(prims) && p.crypto == GateCrypto(prims, p.suite, priv)
      && var gatePublic := prims.agreementPublic(p.suite, priv);
         match secret
         case SigningKey(key, entropy) => SignedKnock(prims, gatePublic, p.suite, key, id, req, entropy, ephPrivate) == Ok(packet)
         case Token(shared) => PskKnock(prims, gatePublic, p.suite, shared, id, req, ephPrivate) == Ok(packet)
    }

    /** The policy is for this client's secret. */
    predicate Matches(p: Params, policy: ClientPolicy) {
      policy.suite == p.suite &&
      match secret
      case SigningKey(key, _) => policy.auth == BySignature && policy.key == prims.signingPublic(p.suite, key)
      case Token(shared) => policy.auth == ByPsk && policy.key == shared
    }
  }

  /** The sealed knock opens to the client's request, and is authentic under any policy for its secret. */
  lemma SealedIsAuthentic(p: Params, c: Client, packet: seq<Byte>)
    requires c.Seals(p, packet)
    ensures p.crypto.open(packet).Some?
    ensures var o := p.crypto.open(packet).value;
            && o.auth == Authenticated(c.req, c.id, o.auth.signature)
            && forall policy | c.Matches(p, policy) :: Authentic(p.crypto, policy, o)
  {
    match c.secret
    case SigningKey(key, entropy) => SignedKnockRoundTrip(c.prims, p.suite, c.priv, key, c.id, c.req, entropy, c.ephPrivate);
    case Token(shared) => PskKnockRoundTrip(c.prims, p.suite, c.priv, shared, c.id, c.req, c.ephPrivate);
  }

  /** The headers under which the knock travels. */
  datatype Headers = Headers(n: Network, macs: seq<Byte>, sport: U16, dport: U16, lenAndSum: seq<Byte>) {
    predicate WellFormed() {
      |macs| == 12 && n.WellFormed() && |lenAndSum| == 4
    }

    function Around(packet: seq<Byte>): seq<Byte>
      requires WellFormed()
    {
      n.Frame(macs, IPPROTO_UDP, UdpDatagram(sport, dport, lenAndSum, packet))
    }
  }

  /** On the wire: whether the frame gets through is up to the limiter's entry for the sender, and nothing else. */
  lemma KnockFacesOnlyTheLimiter(
    p: Params, c: Client, packet: seq<Byte>, h: Headers, source: IpAddr, pl: Plane, now: U64, stored: bool)
    requires c.Seals(p, packet) && h.WellFormed() && ReportedAs(h.n, source) && pl.knockPort == Some(h.dport)
    ensures Gate(pl, Classify(h.Around(packet)), now, stored).0 == Pass <==> RateOk(pl.rate, AddrKey(source), now, stored).0
  {
    SealedIsAuthentic(p, c, packet);
    SizeFilterSparesKnocks(c.prims, p.suite, c.priv, packet, h.n, h.macs, h.sport, h.dport, h.lenAndSum, pl, now, stored);
    var l4 := UdpDatagram(h.sport, h.dport, h.lenAndSum, packet);
    KeysAgree(h.n, h.macs, IPPROTO_UDP, l4, source);
    ParseInvertsFraming(h.n, h.macs, IPPROTO_UDP, l4);
  }

  /** In the daemon: the policy the visit finds is for the client's secret, and the request meets it. */
  ghost predicate Expected(r: Run, v: Visit, c: Client, wall: U64)
    requires r.Valid() && v.open < |r.events| && v.arrive < v.clients < v.tokens < v.decide < v.open
  {
    var policy := PolicyAt(r, v, c.id);
    && policy.Some? && c.Matches(r.params, policy.value)
    && c.req.gateId == r.params.gateId
    && AbsDiff(wall, c.req.timestamp) <= r.params.SkewNanos()
    && PortsPermitted(c.req.ports, policy.value.allowedPorts)
    && c.req.nonce !in Prune(r.states[v.arrive].seen, r.events[v.decide].at, r.params.Window())
  }

  /** A visit of an expected knock opens exactly the requested ports for its source, whatever else goes on. */
  lemma ExpectedKnockOpens(
    r: Run, v: Visit, c: Client, packet: seq<Byte>, source: IpAddr, wall: U64, wrote: bool)
    requires r.Valid() && c.Seals(r.params, packet) && Serves(r, v, packet, source, wall, wrote)
    requires Expected(r, v, c, wall)
    ensures r.Opens(v.open)
    ensures r.OpenedKnock(v.open).source == source && r.OpenedKnock(v.open).content.auth.ports == c.req.ports
  {
    SealedIsAuthentic(r.params, c, packet);
    VisitOpensIffWelcome(r, v, packet, source, wall, wrote);
  }

  /** In the kernel: a SYN under the latest, stored and unexpired opening starts a connection. */
  lemma SynGetsIn(r: Run, g: nat, j: nat, f: FlowKey)
    requires r.Valid() && AllowList.DecodesKnocks(r.params.crypto)
    requires r.Opens(g) && g < j && AllowList.OpensKey(r, g, f.saddr) && AllowList.Stored(r, g)
    requires forall k: nat | g < k < j :: !AllowList.OpensKey(r, k, f.saddr)
    requires NonBypass.Gated(r, j, f) && Opening(NonBypass.FlagsAt(r, j, f))
    requires f.dport in r.OpenedKnock(g).content.auth.ports
    requires r.events[j].at < SaturatingAdd(r.events[g].at, PINHOLE_NANOS)
    ensures NonBypass.Passes(r, j, f)
  {
    AllowList.LatestStoredOpeningDecides(r, j, f.saddr, f.dport, r.events[j].at);
    assert AllowList.LatestStored(r, j, f.saddr) == Some(g);
  }

  /** Every packet of `f` after event `j` passes, as long as nothing before it took the flow out of the table. */
  ghost predicate LivesOn(r: Run, j: nat, f: FlowKey)
    requires r.Valid()
  {
    forall m: nat | j < m && NonBypass.Gated(r, m, f) && (forall k: nat | j < k < m :: Flows.Undisturbed(r, f, j, k))
      && r.events[m].at - r.events[Flows.LastPacket(r, f, j, m)].at < 120 * SECOND :: NonBypass.Passes(r, m, f)
  }

  lemma ConnectionLivesOn(r: Run, j: nat, f: FlowKey)
    requires r.Valid() && Flows.Starts(r, j, f)
    ensures LivesOn(r, j, f)
  {
    forall m: nat | j < m && NonBypass.Gated(r, m, f) && (forall k: nat | j < k < m :: Flows.Undisturbed(r, f, j, k))
      && r.events[m].at - r.events[Flows.LastPacket(r, f, j, m)].at < 120 * SECOND ensures NonBypass.Passes(r, m, f)
    {
      Flows.GrantedConnectionOutlivesGrant(r, f, j, m);
    }
  }

  /**
   A knock sealed under a signing key or a one-time token faces only the limiter on the wire;
   served after that, while it is expected, it opens its ports; a SYN from the same source to one of them, before the grant
   runs out or another opening replaces it, passes; and so does every later packet of the
   connection up to the first FIN or RST, with gaps under 120 seconds, while the port stays
   protected, nothing evicts the flow and writes succeed.
   */
  lemma KnockLetsTheConnectionIn(
    r: Run, c: Client, packet: seq<Byte>, h: Headers, u: nat, source: IpAddr, wall: U64, v: Visit, j: nat, f: FlowKey)
    requires r.Valid() && c.Seals(r.params, packet)
    // the knock's frame, at event u
    requires h.WellFormed() && ReportedAs(h.n, source)
    requires u < |r.events| && r.events[u].act.Receive? && r.events[u].act.traffic == Classify(h.Around(packet))
    requires r.states[u].plane.knockPort == Some(h.dport)
    // the daemon serves it, and the kernel takes its grant
    requires u < v.arrive && Serves(r, v, packet, source, wall, true) && Expected(r, v, c, wall)
    requires HasRoom(r.states[v.open].plane.allow, AddrKey(source))
    // the SYN, at event j
    requires v.open < j && NonBypass.Gated(r, j, f) && Opening(NonBypass.FlagsAt(r, j, f))
    requires f.saddr == AddrKey(source) && f.dport in c.req.ports
    requires r.events[j].at < SaturatingAdd(r.events[v.open].at, PINHOLE_NANOS)
    requires forall k: nat | v.open < k < j :: !AllowList.OpensKey(r, k, f.saddr)
    requires Tracked(r.states[j].plane.established, f, r.events[j].at) ==> !Closing(NonBypass.FlagsAt(r, j, f))
    requires r.events[j].act.stored
    ensures var e := r.events[u];
            Gate(r.states[u].plane, e.act.traffic, e.at, e.act.stored).0 == Pass
            <==> RateOk(r.states[u].plane.rate, AddrKey(source), e.at, e.act.stored).0
    ensures r.Opens(v.open)
    ensures NonBypass.Passes(r, j, f)
    ensures LivesOn(r, j, f)
  {
    KnockFacesOnlyTheLimiter(r.params, c, packet, h, source, r.states[u].plane, r.events[u].at, r.events[u].act.stored);
    ExpectedKnockOpens(r, v, c, packet, source, wall, true);
    GateCryptoDecodes(c.prims, r.params.suite, c.priv);
    SynGetsIn(r, v.open, j, f);
    ConnectionLivesOn(r, j, f);
  }
}
