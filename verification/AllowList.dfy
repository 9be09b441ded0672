/**
 The kernel allow-list as "latest opening wins", and where its bounded, never-reaped
 map departs from that.
 */
module AllowList {
  import opened Wire
  import opened Frame
  import opened DataPlane
  import opened Core
  import opened Adapters
  import opened System
  import NonBypass

  /** Every packet that opens carries a decodable authorization: 1 to 8 ports. */
  ghost predicate DecodesKnocks(crypto: Crypto) {
    forall packet | crypto.open(packet).Some? :: crypto.open(packet).value.auth.Encodable()
  }

  /** Event `g` opens the gate for source key `key`. */
  ghost predicate OpensKey(r: Run, g: nat, key: Addr)
    requires r.Valid()
  {
    r.Opens(g) && AddrKey(r.OpenedKnock(g).source) == key
  }

  /** The most recent opening for `key` before event `i`. */
  ghost function LatestOpening(r: Run, i: nat, key: Addr): (g: Option<nat>)
    requires r.Valid() && i <= |r.events|
    ensures g.Some? ==> g.value < i && OpensKey(r, g.value, key)
    ensures forall j: nat | j < i && OpensKey(r, j, key) :: g.Some? && j <= g.value
  {
    if i == 0 then None
    else if OpensKey(r, i - 1, key) then Some(i - 1)
    else LatestOpening(r, i - 1, key)
  }

  /** The kernel accepted the grant of opening `g`. */
  ghost predicate Stored(r: Run, g: nat)
    requires r.Valid() && r.Opens(g)
  {
    r.events[g].act.wrote && HasRoom(r.states[g].plane.allow, AddrKey(r.OpenedKnock(g).source))
  }

  /** It does so exactly if the write succeeds and its source has an entry already or fewer than 1024 have. */
  lemma StoredExactly(r: Run, g: nat)
    requires r.Valid() && r.Opens(g)
    ensures var allow, key := r.states[g].plane.allow, AddrKey(r.OpenedKnock(g).source);
            && (Stored(r, g) <==> r.events[g].act.wrote && (key in allow || |allow| < 1024))
            && (Stored(r, g) ==> key in r.states[g + 1].plane.allow)
            && (!Stored(r, g) ==> r.states[g + 1].plane.allow == allow)
  {
    AllowStep(r, g);
  }

  /** The most recent opening for `key` before event `i` whose grant the kernel accepted. */
  ghost function LatestStored(r: Run, i: nat, key: Addr): (g: Option<nat>)
    requires r.Valid() && i <= |r.events|
    ensures g.Some? ==> g.value < i && OpensKey(r, g.value, key) && Stored(r, g.value)
    ensures forall j: nat | j < i && OpensKey(r, j, key) && Stored(r, j) :: g.Some? && j <= g.value
  {
    if i == 0 then None
    else if OpensKey(r, i - 1, key) && Stored(r, i - 1) then Some(i - 1)
    else LatestStored(r, i - 1, key)
  }

  /** The grant in the map for `key` is that of its latest stored opening. */
  ghost predicate ReflectsStored(r: Run, i: nat, key: Addr)
    requires r.Valid() && i <= |r.events|
  {
    var allow, g := r.states[i].plane.allow, LatestStored(r, i, key);
    if g.None? then key !in allow
    else key in allow && allow[key] == GrantFor(r.OpenedKnock(g.value).content.auth.ports, r.events[g.value].at, PINHOLE_NANOS)
  }

  lemma {:induction false} AllowReflectsStored(r: Run, i: nat, key: Addr)
    requires r.Valid() && i <= |r.events|
    ensures ReflectsStored(r, i, key)
  {
    if i > 0 {
      AllowReflectsStored(r, i - 1, key);
      AllowStep(r, i - 1);
    }
  }

  lemma OpeningsAreDecoded(r: Run, g: nat)
    requires r.Valid() && r.Opens(g) && DecodesKnocks(r.params.crypto)
    ensures r.OpenedKnock(g).content.auth.Encodable()
  {
    NonBypass.OpeningIsAuthentic(r, g);
    var k := r.OpenedKnock(g);
    var a: nat, l: nat :| l < g && NonBypass.Traced(r, a, l, k, r.states[g].knock.policy);
    assert r.params.crypto.open(r.events[a].act.packet) == Some(k.content);
  }

  /**
   Exactly when a source may reach a port, with no premise on the map: the latest opening
   whose grant was accepted lists the port, and has not expired.
   */
  lemma LatestStoredOpeningDecides(r: Run, i: nat, key: Addr, port: U16, now: U64)
    requires r.Valid() && i <= |r.events| && DecodesKnocks(r.params.crypto)
    ensures var g := LatestStored(r, i, key);
            SourceAllowed(r.states[i].plane.allow, key, port, now) <==>
              && g.Some? && port in r.OpenedKnock(g.value).content.auth.ports
              && now < SaturatingAdd(r.events[g.value].at, PINHOLE_NANOS)
  {
    AllowReflectsStored(r, i, key);
    var g := LatestStored(r, i, key);
    if g.Some? {
      OpeningsAreDecoded(r, g.value);
    }
  }

  /**
   Latest opening wins: if the most recent opening was stored and does not saturate, a
   source may reach a port exactly when that opening lists it and is less than 30 seconds old.
   */
  lemma LatestOpeningWins(r: Run, i: nat, key: Addr, port: U16, now: U64)
    requires r.Valid() && i <= |r.events| && DecodesKnocks(r.params.crypto)
    requires var g := LatestOpening(r, i, key);
             g.Some? ==> Stored(r, g.value) && r.events[g.value].at + PINHOLE_NANOS < 0x1_0000_0000_0000_0000
    ensures var g := LatestOpening(r, i, key);
            SourceAllowed(r.states[i].plane.allow, key, port, now) <==>
              g.Some? && port in r.OpenedKnock(g.value).content.auth.ports && now < r.events[g.value].at + 30 * SECOND
  {
    LatestStoredOpeningDecides(r, i, key, port, now);
    assert LatestStored(r, i, key) == LatestOpening(r, i, key);
  }

  // ---- saturation of the map -----------------------------------------------------------------

  lemma {:induction false} AllowNeverShrinks(r: Run, i: nat, j: nat)
    requires r.Valid() && i <= j <= |r.events|
    ensures r.states[i].plane.allow.Keys <= r.states[j].plane.allow.Keys
  {
    if i < j {
      AllowNeverShrinks(r, i, j - 1);
      AllowStep(r, j - 1);
    }
  }

  /** A flow is tracked only for a source that holds an entry, if an expired one. */
  lemma {:induction false} TrackedSourcesAreListed(r: Run, i: nat, f: FlowKey)
    requires r.Valid() && i <= |r.events| && f in r.states[i].plane.established
    ensures f.saddr in r.states[i].plane.allow
  {
    if i > 0 {
      FlowsStep(r, i - 1);
      AllowNeverShrinks(r, i - 1, i);
      if f in r.states[i - 1].plane.established {
        TrackedSourcesAreListed(r, i - 1, f);
      }
    }
  }

  /** A full allow-list keeps exactly its sources for good. */
  lemma {:induction false} FullListIsFrozen(r: Run, i: nat, j: nat)
    requires r.Valid() && i <= j <= |r.events| && |r.states[i].plane.allow| >= 1024
    ensures r.states[j].plane.allow.Keys == r.states[i].plane.allow.Keys
  {
    if i < j {
      FullListIsFrozen(r, i, j - 1);
      AllowStep(r, j - 1);
      var before, first := r.states[j - 1].plane.allow, r.states[i].plane.allow;
      assert |before| == |before.Keys| == |first.Keys| == |first|;
    }
  }

  /**
   No entry is ever reaped, so once 1024 sources hold one, expired or not, a new source is
   shut out for good: its knocks are still answered `OpenedFor` but change nothing, and its
   packets to protected ports are dropped.
   */
  lemma FullListShutsNewcomersOut(r: Run, i: nat, j: nat, key: Addr)
    requires r.Valid() && i <= j < |r.events|
    requires |r.states[i].plane.allow| >= 1024 && key !in r.states[i].plane.allow
    ensures OpensKey(r, j, key) ==>
              && Outcome(r.params, r.states[j], r.events[j]) == Some(OpenedFor(r.OpenedKnock(j).content.auth.ports))
              && r.states[j + 1].plane.allow == r.states[j].plane.allow
    ensures forall f: FlowKey | f.saddr == key && NonBypass.Gated(r, j, f) :: !NonBypass.Passes(r, j, f)
  {
    FullListIsFrozen(r, i, j);
    var before, first := r.states[j].plane.allow, r.states[i].plane.allow;
    assert |before| == |before.Keys| == |first.Keys| == |first|;
    AllowStep(r, j);
    forall f: FlowKey | f.saddr == key && NonBypass.Gated(r, j, f) ensures !NonBypass.Passes(r, j, f) {
      if f in r.states[j].plane.established {
        TrackedSourcesAreListed(r, j, f);
        assert false;
      }
    }
  }
}
