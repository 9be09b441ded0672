/**
 The whole gate as one transition system.  The knock loop, the bundle watcher and the
 XDP program interleave at every access to shared state; an event carries all that the
 environment chooses: packets, clock readings, bundles, evictions and the outcome of
 ignored map writes.  An event that is not enabled in a state changes nothing.  A frame
 enters as the traffic `Frame.Classify` sees in it.
 */
module System {
  import opened Wire
  import opened Frame
  import opened DataPlane
  import opened Core
  import opened Adapters
  import opened Gatekeeper

  /** How long an opening lasts: 30 seconds, a constant of the daemon. */
  const PINHOLE_NANOS: U64 := 30_000 * 1_000_000

  /** The daemon's configuration, and what start-up derives from it. */
  datatype Params = Params(gateId: GateId, skewSeconds: U64, suite: Suite, crypto: Crypto) {
    function SkewNanos(): U64 {
      if skewSeconds * SECOND >= 0x1_0000_0000_0000_0000 then 0xFFFF_FFFF_FFFF_FFFF else skewSeconds * SECOND
    }

    function Cfg(): Config {
      Config(gateId, SkewNanos(), PINHOLE_NANOS)
    }

    /** The configuration file is TOML, whose integers are signed 64-bit, so no larger skew can be loaded. */
    predicate Loadable() {
      skewSeconds < 0x8000_0000_0000_0000
    }

    /** `skew_seconds * 2 + 1` is representable; past that, the u64 product wraps. */
    predicate WindowInRange() {
      skewSeconds * 2 + 1 < 0x1_0000_0000_0000_0000
    }

    function Window(): nat {
      (if WindowInRange() then skewSeconds * 2 + 1 else skewSeconds * 2 + 1 - 0x1_0000_0000_0000_0000) * SECOND
    }
  }

  /** The window is the u64 product, taken modulo 2^64, in seconds. */
  lemma WindowExactly(p: Params)
    ensures p.Window() == (p.skewSeconds * 2 + 1) % 0x1_0000_0000_0000_0000 * 1_000_000_000
  {
  }

  /** The saturated skew accepts exactly the timestamps within the configured seconds of the clock. */
  lemma SkewExactly(p: Params, wall: U64, timestamp: U64)
    ensures wall > timestamp + p.Cfg().skewNanos || timestamp > wall + p.Cfg().skewNanos
            <==> wall > timestamp + p.skewSeconds * 1_000_000_000 || timestamp > wall + p.skewSeconds * 1_000_000_000
    ensures p.Cfg().gateId == p.gateId && p.Cfg().pinholeNanos == PINHOLE_NANOS == 30_000_000_000
  {
  }

  /**
   Where the watcher stands in applying a bundle.  The trust tables are swapped one after
   the other; then `add` is inserted port by port, and only then is `drop` removed.
   */
  datatype Watch =
    | Watching
    | SettingClients(bundle: Bundle)
    | SettingTokens(bundle: Bundle)
    | Porting(bundle: Bundle, add: set<U16>, drop: set<U16>)

  datatype State = State(
    plane: Plane,
    clients: map<Thumbprint, Entry>,
    tokens: map<Thumbprint, Entry>,
    seen: map<Nonce, U64>,
    knock: Phase,
    watch: Watch,
    known: set<U16>,
    applied: U64)

  datatype Action =
    // the knock loop, split at its accesses to shared state
    | Arrive(packet: seq<Byte>, source: IpAddr, wall: U64)
    | ReadClients
    | ReadTokens
    | Decide
    | Burn
    | OpenGate(wrote: bool)
    // the bundle watcher
    | LoadBundle(loaded: Option<Bundle>)
    | SetClients
    | SetTokens
    | InsertPort(port: U16)
    | RemovePort(port: U16)
    | Commit
    // the data plane
    | Receive(traffic: Traffic, stored: bool)
    | EvictFlows(flows: set<FlowKey>)
    | EvictRates(sources: set<Addr>)

  /** An action at a monotonic time. */
  datatype Event = Event(at: U64, act: Action)

  // ---- knock loop --------------------------------------------------------------------

  predicate KnockAction(a: Action) {
    a.Arrive? || a.ReadClients? || a.ReadTokens? || a.Decide? || a.Burn? || a.OpenGate?
  }

  function AfterClients(p: Params, s: State): Phase
    requires s.knock.Screened?
  {
    if s.knock.Thumb() in s.clients then Vetting(s.knock.knock, ClientPolicyOf(s.clients[s.knock.Thumb()], p.suite))
    else NotClient(s.knock.knock)
  }

  function AfterTokens(p: Params, s: State): Phase
    requires s.knock.NotClient?
  {
    if s.knock.Thumb() in s.tokens then Vetting(s.knock.knock, TokenPolicyOf(s.tokens[s.knock.Thumb()], p.suite))
    else Idle
  }

  function AfterDecision(p: Params, s: State, now: U64): (Phase, map<Nonce, U64>)
    requires s.knock.Vetting?
  {
    var k, policy := s.knock.knock, s.knock.policy;
    if Vet(p.crypto, policy, k.content).Some? then (Idle, s.seen)
    else
      var (novel, seen) := ReplayAdmit(s.seen, k.content.auth.nonce, now, p.Window());
      (if novel then Accepted(k, policy, now) else Idle, seen)
  }

  function AllowAfterOpen(p: Params, s: State, now: U64, wrote: bool): map<Addr, Grant>
    requires s.knock.Burned?
  {
    AllowAfter(s.plane.allow, AddrKey(s.knock.knock.source),
               GrantFor(s.knock.knock.content.auth.ports, now, PINHOLE_NANOS), wrote)
  }

  function PhaseAfter(p: Params, s: State, e: Event): Phase {
    match e.act
    case Arrive(packet, source, wall) =>
      if !s.knock.Idle? then s.knock
      else
        var r := Screen(p.Cfg(), p.crypto, packet, wall);
        if r.Err? then Idle else Screened(Knock(r.value, source, wall))
    case ReadClients => if s.knock.Screened? then AfterClients(p, s) else s.knock
    case ReadTokens => if s.knock.NotClient? then AfterTokens(p, s) else s.knock
    case Decide => if s.knock.Vetting? then AfterDecision(p, s, e.at).0 else s.knock
    case Burn => if s.knock.Accepted? then Burned(s.knock.knock, s.knock.policy, s.knock.at) else s.knock
    case OpenGate(_) => if s.knock.Burned? then Idle else s.knock
    case _ => s.knock
  }

  function SeenAfter(p: Params, s: State, e: Event): map<Nonce, U64> {
    if e.act.Decide? && s.knock.Vetting? then AfterDecision(p, s, e.at).1 else s.seen
  }

  function TokensAfter(s: State, a: Action): map<Thumbprint, Entry> {
    if a.Burn? && s.knock.Accepted? && s.knock.policy.singleUse then s.tokens - {s.knock.Thumb()} else s.tokens
  }

  function AllowAfterKnock(p: Params, s: State, e: Event): map<Addr, Grant> {
    if e.act.OpenGate? && s.knock.Burned? then AllowAfterOpen(p, s, e.at, e.act.wrote) else s.plane.allow
  }

  function KnockStep(p: Params, s: State, e: Event): State {
    s.(knock := PhaseAfter(p, s, e),
       seen := SeenAfter(p, s, e),
       tokens := TokensAfter(s, e.act),
       plane := s.plane.(allow := AllowAfterKnock(p, s, e)))
  }

  /** The decision an event completes, if it completes one. */
  function Outcome(p: Params, s: State, e: Event): Option<Decision> {
    match e.act
    case Arrive(packet, source, wall) =>
      if !s.knock.Idle? then None
      else
        var r := Screen(p.Cfg(), p.crypto, packet, wall);
        if r.Err? then Some(Rejected(r.error)) else None
    case ReadTokens => if s.knock.NotClient? && AfterTokens(p, s).Idle? then Some(Rejected(UnknownClient)) else None
    case Decide =>
      if !s.knock.Vetting? then None
      else
        var flaw := Vet(p.crypto, s.knock.policy, s.knock.knock.content);
        if flaw.Some? then Some(Rejected(flaw.value))
        else if AfterDecision(p, s, e.at).0.Idle? then Some(Rejected(Replay))
        else None
    case OpenGate(_) => if s.knock.Burned? then Some(OpenedFor(s.knock.knock.content.auth.ports)) else None
    case _ => None
  }

  // ---- bundle watcher ----------------------------------------------------------------

  predicate WatchAction(a: Action) {
    a.LoadBundle? || a.SetClients? || a.SetTokens? || a.InsertPort? || a.RemovePort? || a.Commit?
  }

  /** The watcher takes up a bundle only if it verified and its generation is newer. */
  predicate TakesUp(s: State, a: Action) {
    s.watch.Watching? && a.LoadBundle? && a.loaded.Some? && a.loaded.value.generation > s.applied
  }

  function WatchStep(s: State, a: Action): State
    requires WatchAction(a)
  {
    match a
    case LoadBundle(loaded) => if TakesUp(s, a) then s.(watch := SettingClients(loaded.value)) else s
    case SetClients =>
      if s.watch.SettingClients? then
        s.(clients := Installed(s.watch.bundle.clients), watch := SettingTokens(s.watch.bundle))
      else s
    case SetTokens =>
      if s.watch.SettingTokens? then
        var b := s.watch.bundle;
        s.(tokens := Installed(b.tokens), watch := Porting(b, b.Ports() - s.known, s.known - b.Ports()))
      else s
    case InsertPort(port) =>
      if s.watch.Porting? && port in s.watch.add then
        s.(plane := s.plane.(protectedPorts := ProtectPort(s.plane.protectedPorts, port)),
           watch := s.watch.(add := s.watch.add - {port}))
      else s
    case RemovePort(port) =>
      if s.watch.Porting? && s.watch.add == {} && port in s.watch.drop then
        s.(plane := s.plane.(protectedPorts := s.plane.protectedPorts - {port}),
           watch := s.watch.(drop := s.watch.drop - {port}))
      else s
    case Commit =>
      if s.watch.Porting? && s.watch.add == {} && s.watch.drop == {} then
        s.(known := s.watch.bundle.Ports(), applied := s.watch.bundle.generation, watch := Watching)
      else s
  }

  /** A step of either thread that is not its turn does nothing and decides nothing. */
  lemma OutOfTurnIsIdle(p: Params, s: State, e: Event)
    requires
      var a, w := e.act, s.watch;
      || (a.Arrive? && !s.knock.Idle?) || (a.ReadClients? && !s.knock.Screened?) || (a.ReadTokens? && !s.knock.NotClient?)
      || (a.Decide? && !s.knock.Vetting?) || (a.Burn? && !s.knock.Accepted?) || (a.OpenGate? && !s.knock.Burned?)
      || (a.LoadBundle? && !w.Watching?) || (a.SetClients? && !w.SettingClients?) || (a.SetTokens? && !w.SettingTokens?)
      || (a.InsertPort? && (!w.Porting? || a.port !in w.add))
      || (a.RemovePort? && (!w.Porting? || w.add != {} || a.port !in w.drop))
      || (a.Commit? && (!w.Porting? || w.add != {} || w.drop != {}))
    ensures Step(p, s, e) == s && Outcome(p, s, e).None?
  {
  }

  // ---- the system --------------------------------------------------------------------

  function Step(p: Params, s: State, e: Event): State {
    if KnockAction(e.act) then KnockStep(p, s, e)
    else if WatchAction(e.act) then WatchStep(s, e.act)
    else s.(plane := PlaneStep(s.plane, e))
  }

  function PlaneStep(pl: Plane, e: Event): Plane
    requires !KnockAction(e.act) && !WatchAction(e.act)
  {
    match e.act
    case Receive(traffic, stored) => Gate(pl, traffic, e.at, stored).1
    case EvictFlows(flows) => pl.(established := pl.established - flows)
    case EvictRates(sources) => pl.(rate := pl.rate - sources)
  }

  /** A freshly started daemon: any trust, any generation, empty tables, ports loaded. */
  ghost predicate Initial(s: State) {
    && s.plane.allow == map[] && s.plane.established == map[] && s.plane.rate == map[]
    && s.seen == map[] && s.knock.Idle? && s.watch.Watching?
    && s.plane.protectedPorts == s.known && |s.known| <= PROTECTED_CAPACITY
  }

  /** A finite execution: `states[i]` is the state before event `i`. */
  datatype Run = Run(params: Params, events: seq<Event>, states: seq<State>) {
    ghost predicate Next(i: nat)
      requires i < |events| && |states| == |events| + 1
    {
      states[i + 1] == Step(params, states[i], events[i])
    }

    /** Monotonic time does not decrease from event `i` to event `j`. */
    ghost predicate Ordered(i: nat, j: nat)
      requires i < |events| && j < |events|
    {
      events[i].at <= events[j].at
    }

    /** From start-up, by steps of the system, along non-decreasing monotonic time. */
    ghost predicate Valid() {
      && |states| == |events| + 1
      && Initial(states[0])
      && (forall i: nat | i < |events| :: Next(i))
      && (forall i: nat, j: nat | i <= j < |events| :: Ordered(i, j))
    }

    /** Event `i` completes the opening of the gate for a knock. */
    ghost predicate Opens(i: nat)
      requires Valid()
    {
      i < |events| && events[i].act.OpenGate? && states[i].knock.Burned?
    }

    /** The knock whose opening event `i` completes. */
    ghost function OpenedKnock(i: nat): Knock
      requires Valid() && Opens(i)
    {
      states[i].knock.knock
    }
  }

  // ---- what a step leaves alone -------------------------------------------------------------

  lemma FlowsStep(r: Run, i: nat)
    requires r.Valid() && i < |r.events|
    ensures r.states[i + 1].plane.established ==
            match r.events[i].act
            case Receive(t, stored) => Gate(r.states[i].plane, t, r.events[i].at, stored).1.established
            case EvictFlows(flows) => r.states[i].plane.established - flows
            case _ => r.states[i].plane.established
  {
    assert r.Next(i);
  }

  lemma AllowStep(r: Run, i: nat)
    requires r.Valid() && i < |r.events|
    ensures r.states[i + 1].plane.allow ==
            if r.Opens(i) then AllowAfterOpen(r.params, r.states[i], r.events[i].at, r.events[i].act.wrote)
            else r.states[i].plane.allow
  {
    assert r.Next(i);
    var s, e := r.states[i], r.events[i];
    if WatchAction(e.act) {
      assert WatchStep(s, e.act).plane.allow == s.plane.allow;
    } else if !KnockAction(e.act) {
      assert PlaneStep(s.plane, e).allow == s.plane.allow;
    }
  }

  lemma RateStep(r: Run, i: nat)
    requires r.Valid() && i < |r.events|
    ensures r.states[i + 1].plane.knockPort == r.states[i].plane.knockPort
    ensures r.states[i + 1].plane.rate ==
            match r.events[i].act
            case Receive(t, stored) => Gate(r.states[i].plane, t, r.events[i].at, stored).1.rate
            case EvictRates(sources) => r.states[i].plane.rate - sources
            case _ => r.states[i].plane.rate
  {
    assert r.Next(i);
    var s, e := r.states[i], r.events[i];
    if WatchAction(e.act) {
      var w := WatchStep(s, e.act);
      assert w.plane.rate == s.plane.rate && w.plane.knockPort == s.plane.knockPort;
    }
  }

  lemma KnockPhaseStep(r: Run, i: nat)
    requires r.Valid() && i < |r.events|
    ensures r.states[i + 1].knock == PhaseAfter(r.params, r.states[i], r.events[i])
    ensures r.states[i + 1].seen == SeenAfter(r.params, r.states[i], r.events[i])
  {
    assert r.Next(i);
  }

  lemma TrustStep(r: Run, i: nat)
    requires r.Valid() && i < |r.events|
    ensures r.states[i + 1].clients ==
            if r.events[i].act.SetClients? && r.states[i].watch.SettingClients?
            then Installed(r.states[i].watch.bundle.clients) else r.states[i].clients
    ensures r.states[i + 1].tokens ==
            if r.events[i].act.SetTokens? && r.states[i].watch.SettingTokens?
            then Installed(r.states[i].watch.bundle.tokens)
            else if r.events[i].act.Burn? && r.states[i].knock.Accepted? && r.states[i].knock.policy.singleUse
            then r.states[i].tokens - {r.states[i].knock.Thumb()}
            else r.states[i].tokens
  {
    assert r.Next(i);
  }

  lemma WatchingStep(r: Run, i: nat)
    requires r.Valid() && i < |r.events|
    ensures var s, s' := r.states[i], r.states[i + 1];
            if WatchAction(r.events[i].act) then
              var w := WatchStep(s, r.events[i].act);
              s'.watch == w.watch && s'.known == w.known && s'.applied == w.applied
              && s'.plane.protectedPorts == w.plane.protectedPorts
            else
              s'.watch == s.watch && s'.known == s.known && s'.applied == s.applied
              && s'.plane.protectedPorts == s.plane.protectedPorts
  {
    assert r.Next(i);
  }

  // ---- event lists ---------------------------------------------------------------------------

  function Steps(p: Params, s: State, es: seq<Event>): State
    decreases |es|
  {
    if es == [] then s else Steps(p, Step(p, s, es[0]), es[1..])
  }
  /** All refusals and openings of a schedule, in order. */
  function Decisions(p: Params, s: State, es: seq<Event>): seq<Decision>
    decreases |es|
  {
    if es == [] then []
    else
      Told(Outcome(p, s, es[0])) + Decisions(p, Step(p, s, es[0]), es[1..])
  }

  function Told(d: Option<Decision>): seq<Decision> {
    if d.Some? then [d.value] else []
  }

  lemma TwoSteps(p: Params, s: State, a: Event, b: Event)
    ensures Steps(p, s, [a, b]) == Step(p, Step(p, s, a), b)
    ensures Decisions(p, s, [a, b]) == Told(Outcome(p, s, a)) + Told(Outcome(p, Step(p, s, a), b))
  {
    var s1 := Step(p, s, a);
    assert [a, b][1..] == [b] && [b][1..] == [];
    assert Steps(p, s1, [b]) == Step(p, s1, b);
    assert Decisions(p, s1, [b]) == Told(Outcome(p, s1, b));
  }

  lemma ThreeSteps(p: Params, s: State, a: Event, b: Event, c: Event)
    ensures Steps(p, s, [a, b, c]) == Step(p, Step(p, Step(p, s, a), b), c)
    ensures Decisions(p, s, [a, b, c])
            == Told(Outcome(p, s, a)) + Told(Outcome(p, Step(p, s, a), b)) + Told(Outcome(p, Step(p, Step(p, s, a), b), c))
  {
    assert [a, b, c][1..] == [b, c];
    TwoSteps(p, Step(p, s, a), b, c);
  }

  lemma {:induction false} StepsConcat(p: Params, s: State, a: seq<Event>, b: seq<Event>)
    ensures Steps(p, s, a + b) == Steps(p, Steps(p, s, a), b)
    decreases |a|
  {
    if a == [] {
      assert a + b == b;
    } else {
      StepsConcat(p, Step(p, s, a[0]), a[1..], b);
      assert (a + b)[1..] == a[1..] + b;
    }
  }

  lemma DecisionsFirst(p: Params, s: State, e: Event, es: seq<Event>)
    ensures Decisions(p, s, [e] + es) == Told(Outcome(p, s, e)) + Decisions(p, Step(p, s, e), es)
    ensures Steps(p, s, [e] + es) == Steps(p, Step(p, s, e), es)
  {
    assert ([e] + es)[1..] == es;
  }

  lemma DecisionsLater(p: Params, s: State, e: Event, rest: seq<Event>, b: seq<Event>, tail: seq<Decision>)
    requires Decisions(p, Step(p, s, e), rest + b) == Decisions(p, Step(p, s, e), rest) + tail
    ensures Decisions(p, s, [e] + rest + b) == Decisions(p, s, [e] + rest) + tail
  {
    var told, first := Told(Outcome(p, s, e)), Decisions(p, Step(p, s, e), rest);
    assert Decisions(p, s, [e] + rest) == told + first by { DecisionsFirst(p, s, e, rest); }
    assert Decisions(p, s, [e] + rest + b) == told + (first + tail) by {
      DecisionsFirst(p, s, e, rest + b);
      assert [e] + rest + b == [e] + (rest + b);
    }
    assert told + (first + tail) == told + first + tail;
  }

  lemma {:induction false} DecisionsConcat(p: Params, s: State, a: seq<Event>, b: seq<Event>)
    ensures Decisions(p, s, a + b) == Decisions(p, s, a) + Decisions(p, Steps(p, s, a), b)
    decreases |a|
  {
    if a == [] {
      assert a + b == b;
    } else {
      DecisionsConcat(p, Step(p, s, a[0]), a[1..], b);
      DecisionsLater(p, s, a[0], a[1..], b, Decisions(p, Steps(p, s, a), b));
      assert a == [a[0]] + a[1..];
    }
  }

  lemma StepsLast(p: Params, s: State, es: seq<Event>)
    requires es != []
    ensures Steps(p, s, es) == Step(p, Steps(p, s, es[..|es| - 1]), es[|es| - 1])
  {
    assert es == es[..|es| - 1] + [es[|es| - 1]];
    StepsConcat(p, s, es[..|es| - 1], [es[|es| - 1]]);
  }

  predicate Does(es: seq<Event>, acts: seq<Action>) {
    |es| == |acts| && forall i | 0 <= i < |es| :: es[i].act == acts[i]
  }
  /** The run of a schedule, state by state. */
  function RunOf(p: Params, s: State, es: seq<Event>): Run {
    Run(p, es, seq(|es| + 1, i requires 0 <= i <= |es| => Steps(p, s, es[..i])))
  }

  lemma RunOfIsValid(p: Params, s: State, es: seq<Event>)
    requires Initial(s) && forall i, j | 0 <= i <= j < |es| :: es[i].at <= es[j].at
    ensures RunOf(p, s, es).Valid()
  {
    var r := RunOf(p, s, es);
    forall i: nat | i < |es| ensures r.Next(i) {
      StepsLast(p, s, es[..i + 1]);
      assert es[..i + 1][..i] == es[..i];
    }
  }
}
