/**
 The decision core: what a knock must satisfy, in the order the checks run, and the
 phases one `admit` passes through between its accesses to shared state.  The crypto
 adapter is a parameter.  Mirrors spa-core.
 */
module Core {
  import opened Wire
  import opened Envelope
  import opened Frame

  datatype Config = Config(gateId: GateId, skewNanos: U64, pinholeNanos: U64)

  datatype Auth = BySignature | ByPsk

  datatype ClientPolicy = ClientPolicy(
    key: seq<Byte>, suite: Suite, allowedPorts: seq<U16>, auth: Auth, singleUse: bool)

  datatype Crypto = Crypto(
    open: seq<Byte> -> Option<Opened>,
    verify: (Suite, seq<Byte>, seq<Byte>, seq<Byte>) -> bool,
    verifyMac: (seq<Byte>, seq<Byte>, seq<Byte>) -> bool)

  datatype Reject = Undecryptable | WrongGate | Expired | UnknownClient | BadSignature | PortNotAllowed | Replay

  datatype Decision = OpenedFor(ports: seq<U16>) | Rejected(reason: Reject)

  function AbsDiff(a: U64, b: U64): U64 {
    if a < b then b - a else a - b
  }

  predicate PortsPermitted(requested: seq<U16>, allowed: seq<U16>) {
    forall p | p in requested :: p in allowed
  }

  predicate Authentic(crypto: Crypto, policy: ClientPolicy, o: Opened) {
    match policy.auth
    case BySignature => crypto.verify(policy.suite, policy.key, o.signingBytes, o.auth.signature)
    case ByPsk => crypto.verifyMac(policy.key, o.signingBytes, o.auth.signature)
  }

  /** Checks that need no shared state: decryption, addressee and clock skew. */
  function Screen(cfg: Config, crypto: Crypto, packet: seq<Byte>, wall: U64): Result<Opened, Reject> {
    var o := crypto.open(packet);
    if o.None? then Err(Undecryptable)
    else if o.value.auth.gateId != cfg.gateId then Err(WrongGate)
    else if AbsDiff(wall, o.value.auth.timestamp) > cfg.skewNanos then Err(Expired)
    else Ok(o.value)
  }

  /** Checks against a looked-up policy. */
  function Vet(crypto: Crypto, policy: ClientPolicy, o: Opened): Option<Reject> {
    if !Authentic(crypto, policy, o) then Some(BadSignature)
    else if !PortsPermitted(o.auth.ports, policy.allowedPorts) then Some(PortNotAllowed)
    else None
  }

  /** A knock that passed screening: its contents, its source and the wall clock it was judged by. */
  datatype Knock = Knock(content: Opened, source: IpAddr, wall: U64)

  /**
   Where one `admit` stands.  `Accepted` follows the recording of the nonce at monotonic
   time `at`; `Burned` follows the consumption of a one-time credential.
   */
  datatype Phase =
    | Idle
    | Screened(knock: Knock)
    | NotClient(knock: Knock)
    | Vetting(knock: Knock, policy: ClientPolicy)
    | Accepted(knock: Knock, policy: ClientPolicy, at: U64)
    | Burned(knock: Knock, policy: ClientPolicy, at: U64)
  {
    /** The knock has been accepted and is about to open the gate. */
    predicate Committed() {
      Accepted? || Burned?
    }

    function Thumb(): Thumbprint
      requires !Idle?
    {
      knock.content.auth.thumbprint
    }
  }

  /** Everything a committed knock has been checked for. */
  predicate Vetted(cfg: Config, crypto: Crypto, k: Knock, policy: ClientPolicy) {
    && k.content.auth.gateId == cfg.gateId
    && AbsDiff(k.wall, k.content.auth.timestamp) <= cfg.skewNanos
    && Authentic(crypto, policy, k.content)
    && PortsPermitted(k.content.auth.ports, policy.allowedPorts)
  }
}
