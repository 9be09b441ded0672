/**
 The knock loop's `admit` over its real adapters, and the bundle watcher's reload:
 the daemon's two threads, each as the sequential program it runs.
 */
module Gatekeeper {
  import opened Wire
  import opened Envelope
  import opened Frame
  import opened DataPlane
  import opened Core
  import opened Adapters

  /** Every check before the replay guard: the knock and the policy it met, or the first failure. */
  function Checks(
    cfg: Config, crypto: Crypto, clients: map<Thumbprint, Entry>, tokens: map<Thumbprint, Entry>, suite: Suite,
    packet: seq<Byte>, wall: U64): Result<(Opened, ClientPolicy), Reject>
  {
    match Screen(cfg, crypto, packet, wall)
    case Err(reason) => Err(reason)
    case Ok(o) =>
      match PolicyFor(clients, tokens, suite, o.auth.thumbprint)
      case None => Err(UnknownClient)
      case Some(policy) =>
        match Vet(crypto, policy, o)
        case Some(reason) => Err(reason)
        case None => Ok((o, policy))
  }

  /** Why a knock is refused: the first check that fails, in the order they run. */
  function Refusal(checks: Result<(Opened, ClientPolicy), Reject>, seen: map<Nonce, U64>, window: nat, now: U64):
    Option<Reject>
  {
    match checks
    case Err(reason) => Some(reason)
    case Ok(v) => if ReplayAdmit(seen, v.0.auth.nonce, now, window).0 then None else Some(Replay)
  }

  /** A knock that passes every check is the one the packet holds, under a one-time policy unless a client's. */
  lemma ChecksPassed(
    cfg: Config, crypto: Crypto, clients: map<Thumbprint, Entry>, tokens: map<Thumbprint, Entry>, suite: Suite,
    packet: seq<Byte>, wall: U64)
    requires Checks(cfg, crypto, clients, tokens, suite, packet, wall).Ok?
    ensures var (o, policy) := Checks(cfg, crypto, clients, tokens, suite, packet, wall).value;
            crypto.open(packet) == Some(o) && (policy.singleUse <==> o.auth.thumbprint !in clients)
  {
  }

  /**
   Every verdict of the checks, by the tables and the primitives themselves: a knock passes
   exactly if it opens, names this gate, is within the skew, its credential's own key verifies
   its authenticator, and its credential's own list holds every port it asks for.
   */
  lemma ChecksExactly(
    cfg: Config, crypto: Crypto, clients: map<Thumbprint, Entry>, tokens: map<Thumbprint, Entry>, suite: Suite,
    packet: seq<Byte>, wall: U64)
    ensures var r := Checks(cfg, crypto, clients, tokens, suite, packet, wall);
            if crypto.open(packet).None? then r == Err(Undecryptable)
            else
              var o := crypto.open(packet).value;
              var id, ts, ports := o.auth.thumbprint, o.auth.timestamp, o.auth.ports;
              if o.auth.gateId != cfg.gateId then r == Err(WrongGate)
              else if wall > ts + cfg.skewNanos || ts > wall + cfg.skewNanos then r == Err(Expired)
              else if id in clients then
                if !crypto.verify(suite, clients[id].key, o.signingBytes, o.auth.signature) then r == Err(BadSignature)
                else if exists i :: 0 <= i < |ports| && ports[i] !in clients[id].ports then r == Err(PortNotAllowed)
                else r == Ok((o, ClientPolicy(clients[id].key, suite, clients[id].ports, BySignature, false)))
              else if id in tokens then
                if !crypto.verifyMac(tokens[id].key, o.signingBytes, o.auth.signature) then r == Err(BadSignature)
                else if exists i :: 0 <= i < |ports| && ports[i] !in tokens[id].ports then r == Err(PortNotAllowed)
                else r == Ok((o, ClientPolicy(tokens[id].key, suite, tokens[id].ports, ByPsk, true)))
              else r == Err(UnknownClient)
  {
  }

  /** What the replay guard adds: a checked knock is refused exactly if its nonce is cached and under a window old. */
  lemma RefusalExactly(
    checks: Result<(Opened, ClientPolicy), Reject>, seen: map<Nonce, U64>, window: nat, now: U64)
    ensures checks.Err? ==> Refusal(checks, seen, window, now) == Some(checks.error)
    ensures checks.Ok? ==>
              var nonce := checks.value.0.auth.nonce;
              Refusal(checks, seen, window, now)
              == if nonce in seen && now - seen[nonce] < window then Some(Replay) else None
  {
  }

  /** The same of a verdict that may also be `Replay`. */
  lemma JudgedExactly(
    cfg: Config, crypto: Crypto, clients: map<Thumbprint, Entry>, tokens: map<Thumbprint, Entry>, suite: Suite,
    packet: seq<Byte>, wall: U64, judged: Result<(Opened, ClientPolicy), Reject>)
    requires var checks := Checks(cfg, crypto, clients, tokens, suite, packet, wall);
             judged == checks || (checks.Ok? && judged == Err(Replay))
    ensures judged.Ok? ==>
              && crypto.open(packet) == Some(judged.value.0)
              && var o := judged.value.0;
                 var id := o.auth.thumbprint;
                 && o.auth.gateId == cfg.gateId
                 && wall <= o.auth.timestamp + cfg.skewNanos && o.auth.timestamp <= wall + cfg.skewNanos
                 && if id in clients then
                      && crypto.verify(suite, clients[id].key, o.signingBytes, o.auth.signature)
                      && forall p | p in o.auth.ports :: p in clients[id].ports
                    else
                      && id in tokens
                      && crypto.verifyMac(tokens[id].key, o.signingBytes, o.auth.signature)
                      && forall p | p in o.auth.ports :: p in tokens[id].ports
    ensures crypto.open(packet).Some? ==>
              var o := crypto.open(packet).value;
              var id := o.auth.thumbprint;
              && o.auth.gateId == cfg.gateId
              && wall <= o.auth.timestamp + cfg.skewNanos && o.auth.timestamp <= wall + cfg.skewNanos
              && (if id in clients then !crypto.verify(suite, clients[id].key, o.signingBytes, o.auth.signature)
                  else id in tokens && !crypto.verifyMac(tokens[id].key, o.signingBytes, o.auth.signature))
              ==> judged == Err(BadSignature)
  {
    ChecksExactly(cfg, crypto, clients, tokens, suite, packet, wall);
  }

  class Keeper {
    const cfg: Config
    const crypto: Crypto
    const trust: SharedTrust
    const replay: MemReplay
    const gate: BpfGateWriter

    constructor (cfg: Config, crypto: Crypto, trust: SharedTrust, replay: MemReplay, gate: BpfGateWriter)
      ensures this.cfg == cfg && this.crypto == crypto
      ensures this.trust == trust && this.replay == replay && this.gate == gate
    {
      this.cfg, this.crypto := cfg, crypto;
      this.trust, this.replay, this.gate := trust, replay, gate;
    }

    /** The checks that change nothing, cheapest first. */
    method RunChecks(packet: seq<Byte>, wall: U64) returns (r: Result<(Opened, ClientPolicy), Reject>)
      ensures r == Checks(cfg, crypto, trust.clients, trust.tokens, trust.suite, packet, wall)
    {
      var opening := crypto.open(packet);
      if opening.None? { return Err(Undecryptable); }
      var auth := opening.value.auth;
      if auth.gateId != cfg.gateId { return Err(WrongGate); }
      if AbsDiff(wall, auth.timestamp) > cfg.skewNanos { return Err(Expired); }
      var policy := trust.Lookup(auth.thumbprint);
      if policy.None? { return Err(UnknownClient); }
      if !Authentic(crypto, policy.value, opening.value) { return Err(BadSignature); }
      if !PortsPermitted(auth.ports, policy.value.allowedPorts) { return Err(PortNotAllowed); }
      r := Ok((opening.value, policy.value));
    }

    /**
     One knock.  `wall` is the unix time of the skew check, `decidedAt` and `openedAt`
     the monotonic readings of the replay guard and of the allow-list writer.
     */
    method Admit(packet: seq<Byte>, source: IpAddr, wall: U64, decidedAt: U64, openedAt: U64, wrote: bool)
      returns (d: Decision)
      requires replay.Valid() && replay.last <= decidedAt && replay.window > 0
      modifies replay, trust`tokens, gate`allow
      ensures replay.Valid()
      ensures var checks := Checks(cfg, crypto, trust.clients, old(trust.tokens), trust.suite, packet, wall);
              var refusal := Refusal(checks, old(replay.seen), replay.window, decidedAt);
              d == if refusal.Some? then Rejected(refusal.value) else OpenedFor(crypto.open(packet).value.auth.ports)
      // an opened knock names this gate, is in time, and its credential vouches for it and all its ports
      ensures d.OpenedFor? ==>
                && crypto.open(packet).Some?
                && var o := crypto.open(packet).value;
                   var id := o.auth.thumbprint;
                   && o.auth.gateId == cfg.gateId
                   && wall <= o.auth.timestamp + cfg.skewNanos && o.auth.timestamp <= wall + cfg.skewNanos
                   && d.ports == o.auth.ports
                   && if id in trust.clients then
                        && crypto.verify(trust.suite, trust.clients[id].key, o.signingBytes, o.auth.signature)
                        && forall p | p in d.ports :: p in trust.clients[id].ports
                      else
                        && id in old(trust.tokens)
                        && crypto.verifyMac(old(trust.tokens)[id].key, o.signingBytes, o.auth.signature)
                        && forall p | p in d.ports :: p in old(trust.tokens)[id].ports
      // a timely knock for this gate whose credential does not verify it is refused as such
      ensures crypto.open(packet).Some? ==>
                var o := crypto.open(packet).value;
                var id := o.auth.thumbprint;
                && o.auth.gateId == cfg.gateId
                && wall <= o.auth.timestamp + cfg.skewNanos && o.auth.timestamp <= wall + cfg.skewNanos
                && (if id in trust.clients then
                      !crypto.verify(trust.suite, trust.clients[id].key, o.signingBytes, o.auth.signature)
                    else
                      && id in old(trust.tokens)
                      && !crypto.verifyMac(old(trust.tokens)[id].key, o.signingBytes, o.auth.signature))
                ==> d == Rejected(BadSignature)
      // a refused knock burns no nonce, no token and opens nothing
      ensures d.Rejected? ==>
                replay.calls == old(replay.calls) && trust.tokens == old(trust.tokens) && gate.allow == old(gate.allow)
      // an accepted one records its nonce, burns a token only if it was one, and opens exactly its ports
      ensures d.OpenedFor? ==>
                var auth := crypto.open(packet).value.auth;
                && replay.calls == old(replay.calls) + [Call(auth.nonce, decidedAt)]
                && trust.tokens == (if auth.thumbprint in trust.clients then old(trust.tokens)
                                    else old(trust.tokens) - {auth.thumbprint})
                && gate.allow == AllowAfter(old(gate.allow), AddrKey(source),
                                            GrantFor(auth.ports, openedAt, cfg.pinholeNanos), wrote)
    {
      var judged := Judge(packet, wall, decidedAt);
      JudgedExactly(cfg, crypto, trust.clients, trust.tokens, trust.suite, packet, wall, judged);
      if judged.Err? { return Rejected(judged.error); }
      ChecksPassed(cfg, crypto, trust.clients, trust.tokens, trust.suite, packet, wall);
      var (content, policy) := judged.value;
      var auth := content.auth;
      if policy.singleUse {
        trust.Consume(auth.thumbprint);
      }
      gate.Open(source, auth.ports, cfg.pinholeNanos, openedAt, wrote);
      d := OpenedFor(auth.ports);
    }

    /** Everything up to the decision: the checks, then the replay guard, which alone changes state. */
    method Judge(packet: seq<Byte>, wall: U64, decidedAt: U64) returns (r: Result<(Opened, ClientPolicy), Reject>)
      requires replay.Valid() && replay.last <= decidedAt && replay.window > 0
      modifies replay
      ensures replay.Valid()
      ensures var checks := Checks(cfg, crypto, trust.clients, trust.tokens, trust.suite, packet, wall);
              var refusal := Refusal(checks, old(replay.seen), replay.window, decidedAt);
              r == if refusal.Some? then Err(refusal.value) else checks
      ensures replay.calls == old(replay.calls) + if r.Ok? then [Call(r.value.0.auth.nonce, decidedAt)] else []
    {
      r := RunChecks(packet, wall);
      if r.Ok? {
        var novel := replay.Admit(r.value.0.auth.nonce, decidedAt);
        if !novel { r := Err(Replay); }
      }
    }
  }

  // ---- bundle watcher ---------------------------------------------------------------

  function PortSet(ports: seq<U16>): set<U16> {
    set p | p in ports
  }

  /** A verified bundle. */
  datatype Bundle = Bundle(generation: U64, protectedPorts: seq<U16>, clients: seq<Credential>, tokens: seq<Credential>)
  {
    function Ports(): set<U16> {
      PortSet(protectedPorts)
    }

    /** The bundle authorizes `id` in either role. */
    predicate Authorizes(id: Thumbprint) {
      Lists(clients, id) || Lists(tokens, id)
    }
  }

  /** PROTECTED is a 64-entry hash map: a new port is refused once it is full. */
  function ProtectPort(ports: set<U16>, p: U16): set<U16> {
    if p in ports || |ports| < PROTECTED_CAPACITY then ports + {p} else ports
  }

  /** An insertion is taken exactly if the port is there already or fewer than 64 are. */
  lemma ProtectPortTakes(ports: set<U16>, p: U16)
    ensures p in ports || |ports| < 64 ==> ProtectPort(ports, p) == ports + {p}
    ensures p !in ports && |ports| >= 64 ==> ProtectPort(ports, p) == ports
  {
  }

  /** PROTECTED after inserting the listed ports one by one. */
  function InsertAll(ports: set<U16>, order: seq<U16>): set<U16> {
    if order == [] then ports
    else ProtectPort(InsertAll(ports, order[..|order| - 1]), order[|order| - 1])
  }

  /** `order` visits every port of `s` once; a hash set promises no more. */
  ghost predicate Enumerates(order: seq<U16>, s: set<U16>) {
    && (forall p :: p in order <==> p in s)
    && (forall i, j | 0 <= i < j < |order| :: order[i] != order[j])
  }

  lemma EnumeratesPrefix(order: seq<U16>, s: set<U16>)
    requires Enumerates(order, s) && order != []
    ensures Enumerates(order[..|order| - 1], s - {order[|order| - 1]})
  {
    var n := |order| - 1;
    forall p ensures p in order[..n] <==> p in s - {order[n]} {
      if p in s && p != order[n] {
        var i :| 0 <= i < |order| && order[i] == p;
        assert order[..n][i] == p;
      }
    }
  }

  /** One insertion: exact if it fits, otherwise the map is full and stays as it is. */
  lemma ProtectPortExact(before: set<U16>, p: U16, all: set<U16>)
    requires before <= all && p in all && |before| <= PROTECTED_CAPACITY
    ensures |ProtectPort(before, p)| <= PROTECTED_CAPACITY
    ensures |before| == PROTECTED_CAPACITY ==> ProtectPort(before, p) == before
    ensures ProtectPort(before, p) == before + {p} || (|before| == PROTECTED_CAPACITY && |all| > PROTECTED_CAPACITY)
  {
    SubsetSize(before + {p}, all);
  }

  /** Whatever the order, insertion loses nothing, adds only what is listed, and is complete exactly if all fits. */
  lemma {:induction false} InsertAllExact(ports: set<U16>, order: seq<U16>, s: set<U16>)
    requires Enumerates(order, s) && |ports| <= PROTECTED_CAPACITY
    ensures ports <= InsertAll(ports, order) <= ports + s
    ensures |InsertAll(ports, order)| <= 64
    ensures InsertAll(ports, order) == ports + s <==> |ports + s| <= 64
    ensures InsertAll(ports, order) != ports + s ==> |InsertAll(ports, order)| == 64
  {
    if order != [] {
      var p := order[|order| - 1];
      EnumeratesPrefix(order, s);
      InsertAllExact(ports, order[..|order| - 1], s - {p});
      assert p in order && ports + s == ports + (s - {p}) + {p};
      SubsetSize(ports + (s - {p}), ports + s);
      ProtectPortExact(InsertAll(ports, order[..|order| - 1]), p, ports + s);
    } else {
      assert s == {};
    }
  }

  class Watcher {
    const trust: SharedTrust
    var protectedPorts: set<U16>
    var knownPorts: set<U16>
    var appliedGen: U64

    constructor (trust: SharedTrust, ports: set<U16>, generation: U64)
      requires |ports| <= PROTECTED_CAPACITY
      ensures Valid() && this.trust == trust && appliedGen == generation
      ensures protectedPorts == knownPorts == ports
    {
      this.trust := trust;
      protectedPorts, knownPorts := ports, ports;
      appliedGen := generation;
    }

    /**
     Start-up: load the configured ports one by one, and give up at the first the map
     refuses.  It succeeds exactly if all of them fit, with a map that holds just them.
     */
    static method Start(trust: SharedTrust, ports: seq<U16>, generation: U64) returns (w: Option<Watcher>)
      ensures w.Some? <==> |PortSet(ports)| <= PROTECTED_CAPACITY
      ensures w.Some? ==> fresh(w.value) && w.value.Valid() && w.value.trust == trust && w.value.appliedGen == generation
      ensures w.Some? ==> w.value.protectedPorts == w.value.knownPorts == PortSet(ports)
    {
      var loaded: set<U16> := {};
      for i := 0 to |ports|
        invariant loaded == PortSet(ports[..i]) && |loaded| <= PROTECTED_CAPACITY
      {
        assert ports[..i + 1] == ports[..i] + [ports[i]];
        var next := ProtectPort(loaded, ports[i]);
        if ports[i] !in next {
          ProtectPortExact(loaded, ports[i], PortSet(ports));
          return None;
        }
        loaded := next;
      }
      assert ports[..|ports|] == ports;
      var watcher := new Watcher(trust, loaded, generation);
      w := Some(watcher);
    }

    /** The map holds no port the watcher does not know of; it may have missed some it does. */
    ghost predicate Valid()
      reads this
    {
      protectedPorts <= knownPorts && |protectedPorts| <= PROTECTED_CAPACITY
    }

    /**
     One poll that found a changed file: `loaded` is the verified bundle, or nothing if
     verification failed.  The delta update equals a full replacement exactly when the new
     ports fit the map beside the old ones and no port still listed was missed before.
     */
    method Reload(loaded: Option<Bundle>) returns (applied: bool, ghost order: seq<U16>)
      requires Valid()
      modifies this, trust
      ensures Valid()
      ensures applied <==> loaded.Some? && loaded.value.generation > old(appliedGen)
      ensures !applied ==> unchanged(this) && unchanged(trust)
      ensures applied ==>
                && trust.clients == Installed(loaded.value.clients)
                && trust.tokens == Installed(loaded.value.tokens)
                && knownPorts == loaded.value.Ports()
                && appliedGen == loaded.value.generation
      ensures applied ==>
                && Enumerates(order, knownPorts - old(knownPorts))
                && protectedPorts == InsertAll(old(protectedPorts), order) - (old(knownPorts) - knownPorts)
      ensures applied ==> old(protectedPorts) * knownPorts <= protectedPorts
      ensures applied ==> (protectedPorts == knownPorts <==>
                && old(knownPorts) * knownPorts <= old(protectedPorts)
                && |old(protectedPorts) + (knownPorts - old(knownPorts))| <= PROTECTED_CAPACITY)
    {
      order := [];
      if loaded.None? || loaded.value.generation <= appliedGen { return false, order; }
      var b := loaded.value;
      trust.Set(b.clients);
      trust.SetTokens(b.tokens);
      var newPorts := b.Ports();
      order := InsertMissing(newPorts);
      InsertAllExact(old(protectedPorts), order, newPorts - knownPorts);
      SubsetSize(protectedPorts - (knownPorts - newPorts), protectedPorts);
      RemoveStale(newPorts);
      knownPorts := newPorts;
      appliedGen := b.generation;
      applied := true;
    }

    /** First loop: try to protect every port new to the watcher, in some order. */
    method InsertMissing(newPorts: set<U16>) returns (ghost order: seq<U16>)
      modifies this`protectedPorts
      ensures Enumerates(order, newPorts - knownPorts)
      ensures protectedPorts == InsertAll(old(protectedPorts), order)
    {
      var left := newPorts - knownPorts;
      order := [];
      while left != {}
        invariant left <= newPorts - knownPorts
        invariant Enumerates(order, newPorts - knownPorts - left)
        invariant protectedPorts == InsertAll(old(protectedPorts), order)
        decreases |left|
      {
        var p :| p in left;
        protectedPorts := ProtectPort(protectedPorts, p);
        left := left - {p};
        assert (order + [p])[..|order|] == order;
        order := order + [p];
      }
    }

    /** Second loop: stop protecting every port the new bundle dropped. */
    method RemoveStale(newPorts: set<U16>)
      modifies this`protectedPorts
      ensures protectedPorts == old(protectedPorts) - (knownPorts - newPorts)
    {
      var left := knownPorts - newPorts;
      while left != {}
        invariant left <= knownPorts - newPorts
        invariant protectedPorts == old(protectedPorts) - (knownPorts - newPorts - left)
        decreases |left|
      {
        var p :| p in left;
        protectedPorts := protectedPorts - {p};
        left := left - {p};
      }
    }
  }

  lemma SubsetSize(a: set<U16>, b: set<U16>)
    requires a <= b
    ensures |a| <= |b|
  {
    assert b == a + (b - a);
  }
}
