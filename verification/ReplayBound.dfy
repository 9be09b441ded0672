/**
 The exact limits of replay safety: for every configured skew, which drift between the two
 clocks the replay window tolerates, shown by runs that open the gate twice beyond it.
 */
module ReplayBound {
  import opened Wire
  import opened Envelope
  import opened Frame
  import opened DataPlane
  import opened Core
  import opened Adapters
  import opened System
  import opened ReplaySafety
  import opened Admission
  import Serving

  // ---- an uninterrupted admit inside a run -------------------------------------------------------

  /** Events `i` to `i + 5` are an uninterrupted admit. */
  ghost predicate AdmitsAt(r: Run, i: nat, packet: seq<Byte>, source: IpAddr, wall: U64, t: Times)
    requires r.Valid()
  {
    && i + 6 <= |r.events| && r.states[i].knock.Idle?
    && r.events[i] == Event(t.arrived, Arrive(packet, source, wall)) && r.events[i + 1] == Event(t.clients, ReadClients)
    && r.events[i + 2] == Event(t.tokens, ReadTokens) && r.events[i + 3] == Event(t.decided, Decide)
    && r.events[i + 4] == Event(t.burned, Burn) && r.events[i + 5] == Event(t.written, OpenGate(true))
  }

  lemma AdmittedMeansOpened(r: Run, i: nat, packet: seq<Byte>, source: IpAddr, wall: U64, t: Times)
    requires r.Valid() && AdmitsAt(r, i, packet, source, wall, t)
    requires RefusalIn(r.params, r.states[i], packet, wall, t.decided).None?
    ensures var (o, policy) := ChecksIn(r.params, r.states[i], packet, wall).value;
            r.Opens(i + 5) && r.states[i + 5].knock == Burned(Knock(o, source, wall), policy, t.decided)
  {
    var v := Serving.Visit(i, i + 1, i + 2, i + 3, i + 4, i + 5);
    TrustStep(r, i);
    TrustStep(r, i + 1);
    assert Serving.Serves(r, v, packet, source, wall, true);
    Serving.VisitOpensIffWelcome(r, v, packet, source, wall, true);
  }

  // ---- one packet, twice -----------------------------------------------------------------------------

  /** All six steps at one monotonic time. */
  function At(now: U64): Times {
    Times(now, now, now, now, now, now)
  }

  /** One packet served at two moments. */
  function Twice(p: Params, s: State, packet: seq<Byte>, source: IpAddr, early: U64, now: U64, late: U64, later: U64): Run {
    RunOf(p, s, AdmitEvents(packet, source, early, true, At(now)) + AdmitEvents(packet, source, late, true, At(later)))
  }

  lemma TwiceIsValid(p: Params, s: State, packet: seq<Byte>, source: IpAddr, early: U64, now: U64, late: U64, later: U64)
    requires Initial(s) && now <= later
    requires Admit(p, s, packet, source, early, true, At(now)).knock.Idle?
    ensures var r := Twice(p, s, packet, source, early, now, late, later);
            && r.Valid() && r.params == p && r.states[0] == s
            && r.states[6] == Admit(p, s, packet, source, early, true, At(now))
            && AdmitsAt(r, 0, packet, source, early, At(now)) && AdmitsAt(r, 6, packet, source, late, At(later))
  {
    var first, second := AdmitEvents(packet, source, early, true, At(now)), AdmitEvents(packet, source, late, true, At(later));
    RunOfIsValid(p, s, first + second);
    assert (first + second)[..6] == first;
  }

  /** What `Twice` is claimed to show. */
  ghost predicate OpensTwiceWithDrift(r: Run, drift: int) {
    r.Valid() && r.Opens(5) && r.Opens(11) && SameAuthorization(r, 5, 11) && Drift(r, 5, 11) == drift
  }

  lemma TwoAdmitsOpenTwice(r: Run, packet: seq<Byte>, source: IpAddr, early: U64, now: U64, late: U64, later: U64)
    requires r.Valid()
    requires AdmitsAt(r, 0, packet, source, early, At(now)) && AdmitsAt(r, 6, packet, source, late, At(later))
    requires RefusalIn(r.params, r.states[0], packet, early, now).None?
    requires RefusalIn(r.params, r.states[6], packet, late, later).None?
    ensures OpensTwiceWithDrift(r, (later - now) - (late - early))
  {
    AdmittedMeansOpened(r, 0, packet, source, early, At(now));
    AdmittedMeansOpened(r, 6, packet, source, late, At(later));
  }

  /** Whatever is admitted once, under a reusable credential, opens the gate again after a window, if still within skew. */
  lemma OpensTwice(p: Params, s: State, packet: seq<Byte>, source: IpAddr, early: U64, now: U64, late: U64, later: U64)
    requires Initial(s) && RefusalIn(p, s, packet, early, now).None?
    requires var (o, policy) := ChecksIn(p, s, packet, early).value;
             !policy.singleUse && AbsDiff(late, o.auth.timestamp) <= p.SkewNanos()
    requires later >= now + p.Window()
    ensures OpensTwiceWithDrift(Twice(p, s, packet, source, early, now, late, later), (later - now) - (late - early))
  {
    AdmittedAgainAfterWindow(p, s, packet, source, early, late, true, At(now), later);
    TwiceIsValid(p, s, packet, source, early, now, late, later);
    TwoAdmitsOpenTwice(Twice(p, s, packet, source, early, now, late, later), packet, source, early, now, late, later);
  }

  /**
   The one-second allowance cannot be relaxed: for every skew that does not saturate,
   whatever knock is admitted at the early edge of its span opens the gate again at the late
   edge, in one run, if the monotonic clock gains exactly one second.
   */
  lemma DriftBoundIsTight(p: Params, s: State, packet: seq<Byte>, source: IpAddr, early: U64, now: U64, late: U64, later: U64)
    requires Initial(s) && p.SkewNanos() == p.skewSeconds * SECOND && p.WindowInRange()
    requires RefusalIn(p, s, packet, early, now).None?
    requires var (o, policy) := ChecksIn(p, s, packet, early).value;
             !policy.singleUse && early == o.auth.timestamp - p.SkewNanos() && late == o.auth.timestamp + p.SkewNanos()
    requires later == now + p.Window()
    ensures OpensTwiceWithDrift(Twice(p, s, packet, source, early, now, late, later), SECOND)
  {
    OpensTwice(p, s, packet, source, early, now, late, later);
  }

  /**
   Were the window product to wrap, which no loadable skew makes it do (LoadableNeverWraps),
   the skew would accept every timestamp, and waiting for the wrapped window, if a u64 clock
   can, would open the gate again with no drift at all.
   */
  lemma WrappedWindowForgets(p: Params, s: State, packet: seq<Byte>, source: IpAddr, early: U64, now: U64, late: U64, later: U64)
    requires Initial(s) && !p.WindowInRange()
    requires RefusalIn(p, s, packet, early, now).None? && !ChecksIn(p, s, packet, early).value.1.singleUse
    requires later == now + p.Window() && late == early + p.Window()
    ensures OpensTwiceWithDrift(Twice(p, s, packet, source, early, now, late, later), 0)
  {
    OpensTwice(p, s, packet, source, early, now, late, later);
  }

  // ---- the exact bound --------------------------------------------------------------------------------

  /** With this skew, in every run, no authorization opens twice at a drift below `bound`. */
  ghost predicate ReplaySafe(skewSeconds: U64, bound: int) {
    forall r: Run, g: nat, h: nat | r.Valid() && r.params.skewSeconds == skewSeconds && r.Opens(g) && r.Opens(h) && g < h
      && SameAuthorization(r, g, h) :: Drift(r, g, h) >= bound
  }

  // A gate with one client and the knock that client seals at wall time `timestamp`.

  const WITNESS_KEY: seq<Byte> := [1]
  const WITNESS_ID: Thumbprint := Zeros(32)

  function WitnessParams(skewSeconds: U64): Params {
    Params(Zeros(16), skewSeconds, Modern, GateCrypto(TrivialPrimitives(), Modern, WITNESS_KEY))
  }

  function WitnessRequest(timestamp: U64): KnockRequest {
    KnockRequest(Zeros(16), [22], Zeros(16), timestamp)
  }

  function WitnessKnock(timestamp: U64): Result<seq<Byte>, CryptoError> {
    var prims := TrivialPrimitives();
    SignedKnock(prims, prims.agreementPublic(Modern, WITNESS_KEY), Modern, WITNESS_KEY, WITNESS_ID,
                WitnessRequest(timestamp), [], [])
  }

  function WitnessState(): State {
    State(Plane(map[], {}, map[], map[], None), map[WITNESS_ID := Entry(WITNESS_KEY, [22])],
          map[], map[], Idle, Watching, {}, 0)
  }

  /** A fresh gate with this skew admits, at wall time 0, a reusable client's knock for any `timestamp` within the skew. */
  lemma SomeGateAdmits(skewSeconds: U64, timestamp: U64) returns (p: Params, s: State, packet: seq<Byte>)
    requires timestamp <= WitnessParams(skewSeconds).SkewNanos()
    ensures p.skewSeconds == skewSeconds && Initial(s) && RefusalIn(p, s, packet, 0, 0).None?
    ensures var (o, policy) := ChecksIn(p, s, packet, 0).value;
            !policy.singleUse && o.auth.timestamp == timestamp
  {
    ContractsAreSatisfiable();
    var prims := TrivialPrimitives();
    TrivialKnock(prims.agreementPublic(Modern, WITNESS_KEY), Modern, WITNESS_KEY, WITNESS_ID, WitnessRequest(timestamp));
    SignedKnockRoundTrip(prims, Modern, WITNESS_KEY, WITNESS_KEY, WITNESS_ID, WitnessRequest(timestamp), [], []);
    p, s, packet := WitnessParams(skewSeconds), WitnessState(), WitnessKnock(timestamp).value;
    assert PolicyFor(s.clients, s.tokens, Modern, WITNESS_ID)
        == Some(ClientPolicy(WITNESS_KEY, Modern, [22], BySignature, false));
  }

  /** Some run opens twice at a drift of exactly the window less the span, if a clock can wait that long. */
  lemma SlackIsReached(q: Params) returns (r: Run)
    requires q.Window() < 0x1_0000_0000_0000_0000
    ensures r.params.skewSeconds == q.skewSeconds && OpensTwiceWithDrift(r, q.Window() - Span(q))
  {
    var late := Span(q);
    var ts := if late == 0xFFFF_FFFF_FFFF_FFFF then 0x8000_0000_0000_0000 else q.SkewNanos();
    var p, s, packet := SomeGateAdmits(q.skewSeconds, ts);
    OpensTwice(p, s, packet, V4([0, 0, 0, 0]), 0, 0, late, p.Window());
    r := Twice(p, s, packet, V4([0, 0, 0, 0]), 0, 0, late, p.Window());
  }

  /**
   Replay safety, exactly: openings of one authorization are at least `bound` of drift apart,
   in every run with this skew, if and only if the window outlasts any u64 clock or exceeds
   the acceptance span by `bound`.
   */
  lemma ReplaySafeIff(p: Params, bound: int)
    ensures ReplaySafe(p.skewSeconds, bound) <==>
              p.Window() >= 0x1_0000_0000_0000_0000 || bound <= p.Window() - Span(p)
  {
    if ReplaySafe(p.skewSeconds, bound) && p.Window() < 0x1_0000_0000_0000_0000 {
      var r := SlackIsReached(p);
      assert SameAuthorization(r, 5, 11) && Drift(r, 5, 11) >= bound;
    }
    if p.Window() >= 0x1_0000_0000_0000_0000 || bound <= p.Window() - Span(p) {
      forall r: Run, g: nat, h: nat | r.Valid() && r.params.skewSeconds == p.skewSeconds && r.Opens(g) && r.Opens(h) && g < h
        && SameAuthorization(r, g, h) ensures Drift(r, g, h) >= bound
      {
        OpeningTwiceTakesDrift(r, g, h);
      }
    }
  }

  /** For a window computed without wrapping the bound is one second; a wrapped window short of the clock tolerates none. */
  lemma ReplayBoundInSeconds(p: Params)
    requires p.Window() < 0x1_0000_0000_0000_0000
    ensures p.WindowInRange() ==> forall bound: int :: ReplaySafe(p.skewSeconds, bound) <==> bound <= SECOND
    ensures !p.WindowInRange() ==> forall bound: int | bound > 0 :: !ReplaySafe(p.skewSeconds, bound)
  {
    forall bound: int ensures p.WindowInRange() ==> (ReplaySafe(p.skewSeconds, bound) <==> bound <= SECOND)
      ensures !p.WindowInRange() && bound > 0 ==> !ReplaySafe(p.skewSeconds, bound)
    {
      ReplaySafeIff(p, bound);
    }
  }
}
