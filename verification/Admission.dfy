/**
 One whole `admit`: the step machine agrees with the sequential program, and a sealed knock
 is admitted exactly when policy says so.
 */
module Admission {
  import opened Wire
  import opened Envelope
  import opened Frame
  import opened DataPlane
  import opened Core
  import opened Adapters
  import opened Gatekeeper
  import opened System
  import AllowList

  // ---- one admit, uninterrupted -----------------------------------------------------------

  /** The clock readings of the six steps of an `admit`. */
  datatype Times = Times(arrived: U64, clients: U64, tokens: U64, decided: U64, burned: U64, written: U64)

  function LookupEvents(packet: seq<Byte>, source: IpAddr, wall: U64, t: Times): seq<Event> {
    [Event(t.arrived, Arrive(packet, source, wall)), Event(t.clients, ReadClients), Event(t.tokens, ReadTokens)]
  }

  function FinishEvents(wrote: bool, t: Times): seq<Event> {
    [Event(t.burned, Burn), Event(t.written, OpenGate(wrote))]
  }

  function DecidingEvents(wrote: bool, t: Times): seq<Event> {
    [Event(t.decided, Decide)] + FinishEvents(wrote, t)
  }

  /** The events of an `admit` that no other thread interrupts. */
  function AdmitEvents(packet: seq<Byte>, source: IpAddr, wall: U64, wrote: bool, t: Times): seq<Event> {
    LookupEvents(packet, source, wall, t) + DecidingEvents(wrote, t)
  }

  function Admit(p: Params, s: State, packet: seq<Byte>, source: IpAddr, wall: U64, wrote: bool, t: Times): State {
    Steps(p, s, AdmitEvents(packet, source, wall, wrote, t))
  }

  /** The checks of the sequential program in this state. */
  function ChecksIn(p: Params, s: State, packet: seq<Byte>, wall: U64): Result<(Opened, ClientPolicy), Reject> {
    Checks(p.Cfg(), p.crypto, s.clients, s.tokens, p.suite, packet, wall)
  }

  function RefusalIn(p: Params, s: State, packet: seq<Byte>, wall: U64, decidedAt: U64): Option<Reject> {
    Refusal(ChecksIn(p, s, packet, wall), s.seen, p.Window(), decidedAt)
  }

  /** What screening and lookup lead to: the knock with its policy, or a refusal. */
  function Found(p: Params, s: State, packet: seq<Byte>, wall: U64): Result<(Opened, ClientPolicy), Reject> {
    match Screen(p.Cfg(), p.crypto, packet, wall)
    case Err(reason) => Err(reason)
    case Ok(o) =>
      match PolicyFor(s.clients, s.tokens, p.suite, o.auth.thumbprint)
      case None => Err(UnknownClient)
      case Some(policy) => Ok((o, policy))
  }

  lemma LookupPhase(p: Params, s: State, packet: seq<Byte>, source: IpAddr, wall: U64, t: Times)
    requires s.knock.Idle?
    ensures var es, found := LookupEvents(packet, source, wall, t), Found(p, s, packet, wall);
            if found.Err? then Steps(p, s, es) == s && Decisions(p, s, es) == [Rejected(found.error)]
            else
              && Steps(p, s, es) == s.(knock := Vetting(Knock(found.value.0, source, wall), found.value.1))
              && Decisions(p, s, es) == []
  {
    var es := LookupEvents(packet, source, wall, t);
    var screened := Screen(p.Cfg(), p.crypto, packet, wall);
    var s1 := Step(p, s, es[0]);
    if screened.Err? {
      assert s1 == s;
    } else {
      assert s1 == s.(knock := Screened(Knock(screened.value, source, wall)));
      assert Step(p, s1, es[1]) == s.(knock := AfterClients(p, s1));
    }
    ThreeSteps(p, s, es[0], es[1], es[2]);
  }

  /** Deciding a vetted knock against the replay guard. */
  lemma DecisionPhase(p: Params, s: State, k: Knock, policy: ClientPolicy, now: U64)
    requires s.knock.Idle?
    ensures var e, s1 := Event(now, Decide), s.(knock := Vetting(k, policy));
            var flaw := Vet(p.crypto, policy, k.content);
            if flaw.Some? then Step(p, s1, e) == s && Outcome(p, s1, e) == Some(Rejected(flaw.value))
            else
              var (novel, seen) := ReplayAdmit(s.seen, k.content.auth.nonce, now, p.Window());
              && Step(p, s1, e) == s.(knock := if novel then Accepted(k, policy, now) else Idle, seen := seen)
              && Outcome(p, s1, e) == if novel then None else Some(Rejected(Replay))
  {
  }

  /** The state once a knock with this content was accepted and its grant written. */
  function Admitted(p: Params, s: State, auth: Authorization, singleUse: bool, source: IpAddr, wrote: bool, t: Times): State {
    s.(seen := Prune(s.seen, t.decided, p.Window())[auth.nonce := t.decided],
       tokens := if singleUse then s.tokens - {auth.thumbprint} else s.tokens,
       plane := s.plane.(allow := AllowAfter(s.plane.allow, AddrKey(source),
                                             GrantFor(auth.ports, t.written, PINHOLE_NANOS), wrote)))
  }

  lemma FinishPhase(p: Params, s: State, s': State, k: Knock, policy: ClientPolicy, wrote: bool, t: Times)
    requires s.knock.Idle?
    requires s' == s.(knock := Accepted(k, policy, t.decided),
                      seen := Prune(s.seen, t.decided, p.Window())[k.content.auth.nonce := t.decided])
    ensures Steps(p, s', FinishEvents(wrote, t)) == Admitted(p, s, k.content.auth, policy.singleUse, k.source, wrote, t)
    ensures Decisions(p, s', FinishEvents(wrote, t)) == [OpenedFor(k.content.auth.ports)]
  {
    assert Step(p, s', Event(t.burned, Burn)) == s'.(knock := Burned(k, policy, t.decided), tokens := TokensAfter(s', Burn));
    TwoSteps(p, s', Event(t.burned, Burn), Event(t.written, OpenGate(wrote)));
  }

  lemma IdleSkips(p: Params, s: State, wrote: bool, t: Times)
    requires s.knock.Idle?
    ensures Steps(p, s, FinishEvents(wrote, t)) == s && Decisions(p, s, FinishEvents(wrote, t)) == []
    ensures Steps(p, s, DecidingEvents(wrote, t)) == s && Decisions(p, s, DecidingEvents(wrote, t)) == []
  {
    TwoSteps(p, s, Event(t.burned, Burn), Event(t.written, OpenGate(wrote)));
    ThreeSteps(p, s, Event(t.decided, Decide), Event(t.burned, Burn), Event(t.written, OpenGate(wrote)));
    assert Step(p, s, Event(t.decided, Decide)) == Step(p, s, Event(t.burned, Burn)) == s;
    assert DecidingEvents(wrote, t) == [Event(t.decided, Decide), Event(t.burned, Burn), Event(t.written, OpenGate(wrote))];
  }

  /** What becomes of a knock whose policy was found: refused for a flaw or as a replay, or admitted. */
  function Judged(p: Params, s: State, k: Knock, policy: ClientPolicy, wrote: bool, t: Times): (State, seq<Decision>) {
    var flaw, kept := Vet(p.crypto, policy, k.content), Prune(s.seen, t.decided, p.Window());
    if flaw.Some? then (s, [Rejected(flaw.value)])
    else if k.content.auth.nonce in kept then (s.(seen := kept), [Rejected(Replay)])
    else
      (Admitted(p, s, k.content.auth, policy.singleUse, k.source, wrote, t), [OpenedFor(k.content.auth.ports)])
  }

  lemma DecidingPhase(p: Params, s: State, k: Knock, policy: ClientPolicy, wrote: bool, t: Times)
    requires s.knock.Idle?
    ensures var s1, es := s.(knock := Vetting(k, policy)), DecidingEvents(wrote, t);
            var (s', decisions) := Judged(p, s, k, policy, wrote, t);
            Steps(p, s1, es) == s' && Decisions(p, s1, es) == decisions
  {
    var s1, finish := s.(knock := Vetting(k, policy)), FinishEvents(wrote, t);
    DecisionsFirst(p, s1, Event(t.decided, Decide), finish);
    DecisionPhase(p, s, k, policy, t.decided);
    var s2 := Step(p, s1, Event(t.decided, Decide));
    if s2.knock.Idle? {
      IdleSkips(p, s2, wrote, t);
    } else {
      FinishPhase(p, s, s2, k, policy, wrote, t);
    }
  }

  lemma AdmitByStages(p: Params, s: State, packet: seq<Byte>, source: IpAddr, wall: U64, wrote: bool, t: Times)
    requires s.knock.Idle?
    ensures var es, found := AdmitEvents(packet, source, wall, wrote, t), Found(p, s, packet, wall);
            var (s', decisions) :=
              if found.Err? then (s, [Rejected(found.error)])
              else Judged(p, s, Knock(found.value.0, source, wall), found.value.1, wrote, t);
            Steps(p, s, es) == s' && Decisions(p, s, es) == decisions
  {
    var lookup, deciding := LookupEvents(packet, source, wall, t), DecidingEvents(wrote, t);
    StepsConcat(p, s, lookup, deciding);
    DecisionsConcat(p, s, lookup, deciding);
    LookupPhase(p, s, packet, source, wall, t);
    var found := Found(p, s, packet, wall);
    if found.Err? {
      IdleSkips(p, s, wrote, t);
    } else {
      DecidingPhase(p, s, Knock(found.value.0, source, wall), found.value.1, wrote, t);
    }
  }

  /**
   The step machine, run without interruption, decides exactly what the program decides and
   changes exactly what it changes: a refusal for the first failing check, touching nothing
   but expired nonces, or an opening with its three effects.
   */
  lemma AdmitIsTheProgram(p: Params, s: State, packet: seq<Byte>, source: IpAddr, wall: U64, wrote: bool, t: Times)
    requires s.knock.Idle?
    ensures var s' := Admit(p, s, packet, source, wall, wrote, t);
            var decisions := Decisions(p, s, AdmitEvents(packet, source, wall, wrote, t));
            match RefusalIn(p, s, packet, wall, t.decided)
            case Some(reason) =>
              && decisions == [Rejected(reason)]
              && s' == s.(seen := if reason == Replay then Prune(s.seen, t.decided, p.Window()) else s.seen)
            case None =>
              var (o, policy) := ChecksIn(p, s, packet, wall).value;
              && decisions == [OpenedFor(o.auth.ports)]
              && s' == Admitted(p, s, o.auth, policy.singleUse, source, wrote, t)
  {
    AdmitByStages(p, s, packet, source, wall, wrote, t);
  }

  // ---- what is refused, and why ------------------------------------------------------------------

  /** The packet opens to a knock that names this gate and is within the configured seconds. */
  ghost predicate Timely(p: Params, packet: seq<Byte>, o: Opened, wall: U64) {
    && p.crypto.open(packet) == Some(o) && o.auth.gateId == p.gateId
    && wall <= o.auth.timestamp + p.skewSeconds * 1_000_000_000
    && o.auth.timestamp <= wall + p.skewSeconds * 1_000_000_000
  }

  /** A timely knock whose credential's key does not verify it is refused, and changes nothing. */
  lemma ForgeryIsRefused(p: Params, s: State, packet: seq<Byte>, o: Opened, source: IpAddr, wall: U64, wrote: bool, t: Times)
    requires s.knock.Idle? && Timely(p, packet, o, wall)
    requires var id := o.auth.thumbprint;
             if id in s.clients then !p.crypto.verify(p.suite, s.clients[id].key, o.signingBytes, o.auth.signature)
             else id in s.tokens && !p.crypto.verifyMac(s.tokens[id].key, o.signingBytes, o.auth.signature)
    ensures Decisions(p, s, AdmitEvents(packet, source, wall, wrote, t)) == [Rejected(BadSignature)]
    ensures Admit(p, s, packet, source, wall, wrote, t) == s
  {
    SkewExactly(p, wall, o.auth.timestamp);
    ChecksExactly(p.Cfg(), p.crypto, s.clients, s.tokens, p.suite, packet, wall);
    AdmitIsTheProgram(p, s, packet, source, wall, wrote, t);
  }

  /** A timely, authentic knock that asks for one port its credential does not list is refused whole. */
  lemma UnlistedPortIsRefused(
    p: Params, s: State, packet: seq<Byte>, o: Opened, source: IpAddr, wall: U64, wrote: bool, t: Times, i: nat)
    requires s.knock.Idle? && Timely(p, packet, o, wall) && i < |o.auth.ports|
    requires var id := o.auth.thumbprint;
             if id in s.clients then
               && p.crypto.verify(p.suite, s.clients[id].key, o.signingBytes, o.auth.signature)
               && o.auth.ports[i] !in s.clients[id].ports
             else
               && id in s.tokens && p.crypto.verifyMac(s.tokens[id].key, o.signingBytes, o.auth.signature)
               && o.auth.ports[i] !in s.tokens[id].ports
    ensures Decisions(p, s, AdmitEvents(packet, source, wall, wrote, t)) == [Rejected(PortNotAllowed)]
    ensures Admit(p, s, packet, source, wall, wrote, t) == s
  {
    SkewExactly(p, wall, o.auth.timestamp);
    ChecksExactly(p.Cfg(), p.crypto, s.clients, s.tokens, p.suite, packet, wall);
    AdmitIsTheProgram(p, s, packet, source, wall, wrote, t);
  }

  /** A knock for another gate, or outside the configured seconds, is refused as such before any lookup. */
  lemma StrayKnockIsRefused(p: Params, s: State, packet: seq<Byte>, source: IpAddr, wall: U64, wrote: bool, t: Times)
    requires s.knock.Idle?
    ensures var decisions := Decisions(p, s, AdmitEvents(packet, source, wall, wrote, t));
            if p.crypto.open(packet).None? then decisions == [Rejected(Undecryptable)]
            else
              var auth := p.crypto.open(packet).value.auth;
              var late := wall > auth.timestamp + p.skewSeconds * 1_000_000_000;
              var early := auth.timestamp > wall + p.skewSeconds * 1_000_000_000;
              && (auth.gateId != p.gateId ==> decisions == [Rejected(WrongGate)])
              && (auth.gateId == p.gateId && (late || early) ==> decisions == [Rejected(Expired)])
  {
    if p.crypto.open(packet).Some? {
      SkewExactly(p, wall, p.crypto.open(packet).value.auth.timestamp);
    }
    ChecksExactly(p.Cfg(), p.crypto, s.clients, s.tokens, p.suite, packet, wall);
    AdmitIsTheProgram(p, s, packet, source, wall, wrote, t);
  }

  // ---- seal to admit ---------------------------------------------------------------------------

  /** The crypto adapter of a gate holding `priv`. */
  function GateCrypto(prims: Primitives, suite: Suite, priv: seq<Byte>): Crypto {
    Crypto((packet: seq<Byte>) => Open(prims, suite, priv, packet), prims.verify, prims.verifyMac)
  }

  /** An adapter built on correct primitives opens only packets with 1 to 8 ports. */
  lemma GateCryptoDecodes(prims: Primitives, suite: Suite, priv: seq<Byte>)
    requires AeadCorrect(prims)
    ensures AllowList.DecodesKnocks(GateCrypto(prims, suite, priv))
  {
    var crypto := GateCrypto(prims, suite, priv);
    forall packet | crypto.open(packet).Some? ensures crypto.open(packet).value.auth.Encodable() {
      OpenedIsWhatWasSigned(prims, suite, priv, packet);
    }
  }

  /** What a well-sealed request must meet on arrival. */
  ghost predicate Admissible(p: Params, s: State, req: KnockRequest, allowed: seq<U16>, wall: U64, decidedAt: U64) {
    && req.gateId == p.gateId
    && AbsDiff(wall, req.timestamp) <= p.SkewNanos()
    && PortsPermitted(req.ports, allowed)
    && req.nonce !in Prune(s.seen, decidedAt, p.Window())
  }

  /**
   The knock is accepted if and only if it is admissible, and then opens exactly the
   requested ports, records its nonce, and burns `id` if it is a one-time credential.
   */
  ghost predicate AdmittedIffAdmissible(
    p: Params, s: State, packet: seq<Byte>, req: KnockRequest, id: Thumbprint, policy: ClientPolicy,
    source: IpAddr, wall: U64, wrote: bool, t: Times)
  {
    && (RefusalIn(p, s, packet, wall, t.decided).None? <==> Admissible(p, s, req, policy.allowedPorts, wall, t.decided))
    && (Admissible(p, s, req, policy.allowedPorts, wall, t.decided) ==>
          && Decisions(p, s, AdmitEvents(packet, source, wall, wrote, t)) == [OpenedFor(req.ports)]
          && GrantFor(req.ports, t.written, PINHOLE_NANOS).Granted() == req.ports
          && Admit(p, s, packet, source, wall, wrote, t)
             == Admitted(p, s, RequestAuthorization(req, id), policy.singleUse, source, wrote, t))
  }

  /** A packet opens to the request and authenticates under the policy found for it. */
  ghost predicate WellSealed(p: Params, s: State, packet: seq<Byte>, o: Opened, req: KnockRequest, policy: ClientPolicy) {
    && p.crypto.open(packet) == Some(o)
    && o.auth == RequestAuthorization(req, o.auth.thumbprint).(signature := o.auth.signature) && o.auth.Encodable()
    && PolicyFor(s.clients, s.tokens, p.suite, o.auth.thumbprint) == Some(policy)
    && Authentic(p.crypto, policy, o)
  }

  lemma WellSealedChecks(
    p: Params, s: State, packet: seq<Byte>, o: Opened, req: KnockRequest, policy: ClientPolicy, wall: U64, decidedAt: U64)
    requires WellSealed(p, s, packet, o, req, policy)
    ensures RefusalIn(p, s, packet, wall, decidedAt).None? <==> Admissible(p, s, req, policy.allowedPorts, wall, decidedAt)
    ensures Admissible(p, s, req, policy.allowedPorts, wall, decidedAt) ==> ChecksIn(p, s, packet, wall) == Ok((o, policy))
  {
  }

  lemma WellSealedIsAdmitted(
    p: Params, s: State, packet: seq<Byte>, o: Opened, req: KnockRequest, policy: ClientPolicy,
    source: IpAddr, wall: U64, wrote: bool, t: Times)
    requires s.knock.Idle? && WellSealed(p, s, packet, o, req, policy)
    ensures AdmittedIffAdmissible(p, s, packet, req, o.auth.thumbprint, policy, source, wall, wrote, t)
  {
    WellSealedChecks(p, s, packet, o, req, policy, wall, t.decided);
    if Admissible(p, s, req, policy.allowedPorts, wall, t.decided) {
      AdmitIsTheProgram(p, s, packet, source, wall, wrote, t);
    }
  }

  /** A knock signed by a known client opens exactly its ports, if and only if it is admissible. */
  lemma SignedKnockIsAdmitted(
    p: Params, s: State, prims: Primitives, priv: seq<Byte>, signingKey: seq<Byte>, thumbprint: Thumbprint,
    req: KnockRequest, entropy: seq<Byte>, ephPrivate: seq<Byte>, packet: seq<Byte>,
    source: IpAddr, wall: U64, wrote: bool, t: Times)
    requires Correct(prims) && p.crypto == GateCrypto(prims, p.suite, priv)
    requires s.knock.Idle?
    requires thumbprint in s.clients && s.clients[thumbprint].key == prims.signingPublic(p.suite, signingKey)
    requires SignedKnock(prims, prims.agreementPublic(p.suite, priv), p.suite, signingKey, thumbprint, req, entropy, ephPrivate)
             == Ok(packet)
    ensures AdmittedIffAdmissible(p, s, packet, req, thumbprint, ClientPolicyOf(s.clients[thumbprint], p.suite),
                                  source, wall, wrote, t)
  {
    SignedKnockRoundTrip(prims, p.suite, priv, signingKey, thumbprint, req, entropy, ephPrivate);
    var o := Open(prims, p.suite, priv, packet).value;
    WellSealedIsAdmitted(p, s, packet, o, req, ClientPolicyOf(s.clients[thumbprint], p.suite), source, wall, wrote, t);
  }

  /** A knock under a one-time token does the same, and burns the token. */
  lemma PskKnockIsAdmitted(
    p: Params, s: State, prims: Primitives, priv: seq<Byte>, token: seq<Byte>, tokenId: Thumbprint,
    req: KnockRequest, ephPrivate: seq<Byte>, packet: seq<Byte>, source: IpAddr, wall: U64, wrote: bool, t: Times)
    requires Correct(prims) && p.crypto == GateCrypto(prims, p.suite, priv)
    requires s.knock.Idle?
    requires tokenId !in s.clients && tokenId in s.tokens && s.tokens[tokenId].key == token
    requires PskKnock(prims, prims.agreementPublic(p.suite, priv), p.suite, token, tokenId, req, ephPrivate) == Ok(packet)
    ensures AdmittedIffAdmissible(p, s, packet, req, tokenId, TokenPolicyOf(s.tokens[tokenId], p.suite),
                                  source, wall, wrote, t)
  {
    PskKnockRoundTrip(prims, p.suite, priv, token, tokenId, req, ephPrivate);
    var o := Open(prims, p.suite, priv, packet).value;
    WellSealedIsAdmitted(p, s, packet, o, req, TokenPolicyOf(s.tokens[tokenId], p.suite), source, wall, wrote, t);
  }

  /** One sealed request, and how and when it comes to be admitted. */
  datatype Attempt = Attempt(
    req: KnockRequest, ephPrivate: seq<Byte>, packet: seq<Byte>, source: IpAddr, wall: U64, wrote: bool, t: Times)
  {
    ghost predicate IsPsk(prims: Primitives, suite: Suite, priv: seq<Byte>, token: seq<Byte>, tokenId: Thumbprint) {
      PskKnock(prims, prims.agreementPublic(suite, priv), suite, token, tokenId, req, ephPrivate) == Ok(packet)
    }

    predicate Screened(p: Params) {
      req.gateId == p.gateId && AbsDiff(wall, req.timestamp) <= p.SkewNanos()
    }

    function Decided(p: Params, s: State): seq<Decision> {
      Decisions(p, s, AdmitEvents(packet, source, wall, wrote, t))
    }
  }

  /** A knock under a token the store does not hold is refused as unknown, once it passes screening. */
  lemma SpentTokenIsUnknown(
    p: Params, s: State, prims: Primitives, priv: seq<Byte>, token: seq<Byte>, tokenId: Thumbprint, a: Attempt)
    requires Correct(prims) && p.crypto == GateCrypto(prims, p.suite, priv)
    requires s.knock.Idle? && tokenId !in s.clients && tokenId !in s.tokens
    requires a.IsPsk(prims, p.suite, priv, token, tokenId) && a.Screened(p)
    ensures a.Decided(p, s) == [Rejected(UnknownClient)]
  {
    PskKnockRoundTrip(prims, p.suite, priv, token, tokenId, a.req, a.ephPrivate);
    AdmitIsTheProgram(p, s, a.packet, a.source, a.wall, a.wrote, a.t);
  }

  lemma TokenOpens(
    p: Params, s: State, prims: Primitives, priv: seq<Byte>, token: seq<Byte>, tokenId: Thumbprint, a: Attempt)
    requires Correct(prims) && p.crypto == GateCrypto(prims, p.suite, priv)
    requires s.knock.Idle? && tokenId !in s.clients && tokenId in s.tokens && s.tokens[tokenId].key == token
    requires a.IsPsk(prims, p.suite, priv, token, tokenId)
    ensures Admissible(p, s, a.req, s.tokens[tokenId].ports, a.wall, a.t.decided) ==>
              && a.Decided(p, s) == [OpenedFor(a.req.ports)]
              && Admit(p, s, a.packet, a.source, a.wall, a.wrote, a.t)
                 == Admitted(p, s, RequestAuthorization(a.req, tokenId), true, a.source, a.wrote, a.t)
  {
    PskKnockIsAdmitted(p, s, prims, priv, token, tokenId, a.req, a.ephPrivate, a.packet, a.source, a.wall, a.wrote, a.t);
  }

  /** A bundle's token list installs `token` under `tokenId`, with these ports. */
  predicate InstallsAs(cs: seq<Credential>, tokenId: Thumbprint, token: seq<Byte>, ports: seq<U16>) {
    tokenId in Installed(cs) && Installed(cs)[tokenId] == Entry(token, ports)
  }

  /** The state a token's first knock leaves. */
  function Spent(p: Params, s: State, tokenId: Thumbprint, first: Attempt): State {
    Admitted(p, s, RequestAuthorization(first.req, tokenId), true, first.source, first.wrote, first.t)
  }

  lemma RenewedTokenOpens(
    p: Params, s: State, prims: Primitives, priv: seq<Byte>, token: seq<Byte>, tokenId: Thumbprint,
    first: Attempt, reinstalledAt: U64, ports: seq<U16>, second: Attempt)
    requires Correct(prims) && p.crypto == GateCrypto(prims, p.suite, priv)
    requires s.knock.Idle? && tokenId !in s.clients
    requires s.watch.SettingTokens? && InstallsAs(s.watch.bundle.tokens, tokenId, token, ports)
    requires second.IsPsk(prims, p.suite, priv, token, tokenId) && second.Screened(p)
    requires PortsPermitted(second.req.ports, ports) && second.req.nonce != first.req.nonce && second.req.nonce !in s.seen
    ensures second.Decided(p, Step(p, Spent(p, s, tokenId, first), Event(reinstalledAt, SetTokens)))
            == [OpenedFor(second.req.ports)]
  {
    var renewed := Step(p, Spent(p, s, tokenId, first), Event(reinstalledAt, SetTokens));
    assert renewed.tokens == Installed(s.watch.bundle.tokens);
    TokenOpens(p, renewed, prims, priv, token, tokenId, second);
  }

  /**
   A token that opened the gate is unknown from then on, until a bundle that still lists it
   is installed: then a second knock under it, with a nonce of its own, opens the gate again.
   */
  lemma BurnedTokenOpensAgain(
    p: Params, s: State, prims: Primitives, priv: seq<Byte>, token: seq<Byte>, tokenId: Thumbprint,
    first: Attempt, reinstalledAt: U64, ports: seq<U16>, second: Attempt)
    requires Correct(prims) && p.crypto == GateCrypto(prims, p.suite, priv)
    requires s.knock.Idle? && tokenId !in s.clients && tokenId in s.tokens && s.tokens[tokenId].key == token
    requires s.watch.SettingTokens? && InstallsAs(s.watch.bundle.tokens, tokenId, token, ports)
    requires first.IsPsk(prims, p.suite, priv, token, tokenId) && second.IsPsk(prims, p.suite, priv, token, tokenId)
    requires Admissible(p, s, first.req, s.tokens[tokenId].ports, first.wall, first.t.decided) && second.Screened(p)
    ensures var spent := Admit(p, s, first.packet, first.source, first.wall, first.wrote, first.t);
            var renewed := Step(p, spent, Event(reinstalledAt, SetTokens));
            && first.Decided(p, s) == [OpenedFor(first.req.ports)]
            && second.Decided(p, spent) == [Rejected(UnknownClient)]
            && (PortsPermitted(second.req.ports, ports) && second.req.nonce != first.req.nonce
                && second.req.nonce !in s.seen ==>
                  second.Decided(p, renewed) == [OpenedFor(second.req.ports)])
  {
    TokenOpens(p, s, prims, priv, token, tokenId, first);
    SpentTokenIsUnknown(p, Spent(p, s, tokenId, first), prims, priv, token, tokenId, second);
    if PortsPermitted(second.req.ports, ports) && second.req.nonce != first.req.nonce && second.req.nonce !in s.seen {
      RenewedTokenOpens(p, s, prims, priv, token, tokenId, first, reinstalledAt, ports, second);
    }
  }

  // ---- the size pre-filter ------------------------------------------------------------------------

  /**
   A framed datagram to the knock port that the daemon could decrypt is never dropped for
   its size: its fate is the limiter's alone.
   */
  lemma SizeFilterSparesKnocks(
    prims: Primitives, suite: Suite, priv: seq<Byte>, packet: seq<Byte>,
    n: Network, macs: seq<Byte>, sport: U16, dport: U16, lenAndSum: seq<Byte>, pl: Plane, now: U64, stored: bool)
    requires AeadCorrect(prims) && Open(prims, suite, priv, packet).Some?
    requires |macs| == 12 && n.WellFormed() && |lenAndSum| == 4
    requires pl.knockPort == Some(dport)
    ensures SizeOk(|packet|)
    ensures var frame := n.Frame(macs, IPPROTO_UDP, UdpDatagram(sport, dport, lenAndSum, packet));
            Gate(pl, Classify(frame), now, stored).0 == Pass <==> RateOk(pl.rate, n.Src(), now, stored).0
  {
    OpenedIsWhatWasSigned(prims, suite, priv, packet);
    ClassifyUdp(n, macs, sport, dport, lenAndSum, packet);
  }

  // ---- after a window, the same packet is admitted again ------------------------------------------

  /** The same packet, re-sent a window later at a wall time still within the skew, is admitted again. */
  lemma AdmittedAgainAfterWindow(
    p: Params, s: State, packet: seq<Byte>, source: IpAddr, wall: U64, wall': U64, wrote: bool, t: Times, decidedAt': U64)
    requires s.knock.Idle? && RefusalIn(p, s, packet, wall, t.decided).None?
    requires !ChecksIn(p, s, packet, wall).value.1.singleUse
    requires AbsDiff(wall', ChecksIn(p, s, packet, wall).value.0.auth.timestamp) <= p.SkewNanos()
    requires decidedAt' >= t.decided + p.Window()
    ensures var s' := Admit(p, s, packet, source, wall, wrote, t);
            s'.knock.Idle? && RefusalIn(p, s', packet, wall', decidedAt').None?
  {
    AdmitIsTheProgram(p, s, packet, source, wall, wrote, t);
  }
}
