/**
 The flow table: a bounded, evicting table only ever closes flows an unbounded one keeps
 open, and a granted connection outlives its grant.
 */
module Flows {
  import opened Wire
  import opened Frame
  import opened DataPlane
  import opened System
  import NonBypass

  // ---- eviction only closes: one packet -----------------------------------------------------

  /** If `actual` tracks `f`, `ideal` does too, seen at least as recently and not in the future. */
  predicate Covers(actual: map<FlowKey, U64>, ideal: map<FlowKey, U64>, f: FlowKey, now: U64) {
    f in actual ==> f in ideal && actual[f] <= ideal[f] <= now
  }

  /** A SYN that also carries FIN or RST, arriving under a live grant. */
  predicate AmbiguousSyn(pl: Plane, f: FlowKey, flags: Byte, now: U64) {
    f.dport in pl.protectedPorts && Opening(flags) && Closing(flags) && SourceAllowed(pl.allow, f.saddr, f.dport, now)
  }

  /** A recorded ambiguous SYN that starts a flow the one table lost and closes it in the other. */
  predicate BreaksCover(pl: Plane, ideal: map<FlowKey, U64>, f: FlowKey, flags: Byte, now: U64, stored: bool) {
    AmbiguousSyn(pl, f, flags, now) && !Tracked(pl.established, f, now) && Tracked(ideal, f, now) && stored
  }

  /**
   Under a covering table a packet of `f` passes if it passes at all, and coverage of `f`
   survives it exactly if it is not such a SYN.
   */
  lemma GateKeepsCover(pl: Plane, ideal: map<FlowKey, U64>, f: FlowKey, flags: Byte, now: U64, stored: bool)
    requires Covers(pl.established, ideal, f, now)
    ensures TcpGate(pl, f, flags, now, stored).0 == Pass ==>
              TcpGate(pl.(established := ideal), f, flags, now, true).0 == Pass
    ensures var actual' := TcpGate(pl, f, flags, now, stored).1;
            var ideal' := TcpGate(pl.(established := ideal), f, flags, now, true).1;
            && (Covers(actual', ideal', f, now) <==> !BreaksCover(pl, ideal, f, flags, now, stored))
            && (BreaksCover(pl, ideal, f, flags, now, stored) ==> f in actual' && f !in ideal')
  {
  }

  /** Coverage survives a packet whatever the tables and the write outcome. */
  ghost predicate AlwaysKeepsCover(pl: Plane, f: FlowKey, flags: Byte, now: U64) {
    forall actual, ideal, stored | Covers(actual, ideal, f, now) ::
      Covers(TcpGate(pl.(established := actual), f, flags, now, stored).1,
             TcpGate(pl.(established := ideal), f, flags, now, true).1, f, now)
  }

  /** For all tables and write outcomes it does so exactly when the packet is not an ambiguous SYN. */
  lemma CoverIffUnambiguous(pl: Plane, f: FlowKey, flags: Byte, now: U64)
    ensures AlwaysKeepsCover(pl, f, flags, now) <==> !AmbiguousSyn(pl, f, flags, now)
  {
    if AmbiguousSyn(pl, f, flags, now) {
      EvictionCanOpen(pl, f, flags, now);
      var actual, ideal := map[], map[f := now];
      assert Covers(actual, ideal, f, now);
      assert !Covers(TcpGate(pl.(established := actual), f, flags, now, true).1,
                     TcpGate(pl.(established := ideal), f, flags, now, true).1, f, now);
    } else {
      forall actual, ideal, stored | Covers(actual, ideal, f, now)
        ensures Covers(TcpGate(pl.(established := actual), f, flags, now, stored).1,
                       TcpGate(pl.(established := ideal), f, flags, now, true).1, f, now)
      {
        var pl' := pl.(established := actual);
        GateKeepsCover(pl', ideal, f, flags, now, stored);
        assert pl'.(established := ideal) == pl.(established := ideal);
      }
    }
  }

  /**
   After an ambiguous SYN on a flow that eviction had removed, the evicting gate passes a
   bare data packet that the unbounded one, which took the same SYN for a close, drops.
   */
  lemma EvictionCanOpen(pl: Plane, f: FlowKey, flags: Byte, now: U64)
    requires AmbiguousSyn(pl, f, flags, now)
    ensures var actual := TcpGate(pl.(established := map[]), f, flags, now, true).1;
            var ideal := TcpGate(pl.(established := map[f := now]), f, flags, now, true).1;
            && f in actual && f !in ideal
            && TcpGate(pl.(established := actual), f, 0x10, now, true).0 == Pass
            && TcpGate(pl.(established := ideal), f, 0x10, now, true).0 == Drop
  {
  }

  // ---- eviction only closes: whole runs ---------------------------------------------------------

  /** The same event for a gate whose flow table never evicts and never refuses a write. */
  function Unbounded(e: Event): Event {
    match e.act
    case Receive(t, stored) => if t.Tcp? then e.(act := Receive(t, true)) else e
    case EvictFlows(_) => e.(act := EvictFlows({}))
    case _ => e
  }

  /** `q` is the run of the unbounded gate on the environment of `r`. */
  ghost predicate Shadows(q: Run, r: Run) {
    && q.Valid() && r.Valid()
    && q.params == r.params && q.states[0] == r.states[0] && |q.events| == |r.events|
    && forall i: nat | i < |r.events| :: q.events[i] == Unbounded(r.events[i])
  }

  /** Event `i` is a SYN of flow `f` that breaks coverage. */
  ghost predicate BreaksAt(q: Run, r: Run, i: nat, f: FlowKey)
    requires Shadows(q, r) && i < |r.events|
  {
    && NonBypass.Gated(r, i, f)
    && BreaksCover(r.states[i].plane, q.states[i].plane.established, f, NonBypass.FlagsAt(r, i, f),
                   r.events[i].at, r.events[i].act.stored)
  }

  ghost predicate NeverBroken(q: Run, r: Run, n: nat, f: FlowKey)
    requires Shadows(q, r) && n <= |r.events|
  {
    forall i: nat | i < n :: !BreaksAt(q, r, i, f)
  }

  /** The shadow's table covers the actual one for flow `f` at event `i`. */
  ghost predicate CoversAt(q: Run, r: Run, i: nat, f: FlowKey)
    requires Shadows(q, r) && i < |r.events|
  {
    Covers(r.states[i].plane.established, q.states[i].plane.established, f, r.events[i].at)
  }

  function WithFlows(s: State, established: map<FlowKey, U64>): State {
    s.(plane := s.plane.(established := established))
  }

  predicate EqualButFlows(s: State, t: State) {
    s == WithFlows(t, s.plane.established)
  }

  lemma KnockIgnoresFlows(p: Params, t: State, e: Event, established: map<FlowKey, U64>)
    ensures KnockStep(p, WithFlows(t, established), e) == WithFlows(KnockStep(p, t, e), established)
  {
    var u := WithFlows(t, established);
    assert PhaseAfter(p, u, e) == PhaseAfter(p, t, e);
    assert SeenAfter(p, u, e) == SeenAfter(p, t, e);
  }

  lemma WatchIgnoresFlows(t: State, a: Action, established: map<FlowKey, U64>)
    requires WatchAction(a)
    ensures WatchStep(WithFlows(t, established), a) == WithFlows(WatchStep(t, a), established)
  {
    match a
    case LoadBundle(_) =>
    case SetClients =>
    case SetTokens =>
    case InsertPort(_) =>
    case RemovePort(_) =>
    case Commit =>
  }

  lemma PlaneDiffersInFlows(pl: Plane, e: Event, established: map<FlowKey, U64>)
    requires !KnockAction(e.act) && !WatchAction(e.act)
    ensures var u, v := PlaneStep(pl.(established := established), Unbounded(e)), PlaneStep(pl, e);
            u == v.(established := u.established)
  {
    if e.act.Receive? {
      match e.act.traffic
      case Floor =>
      case Tcp(_, _) =>
      case Udp(_, _, _) =>
    }
  }

  lemma StepEqualButFlows(p: Params, s: State, t: State, e: Event)
    requires EqualButFlows(s, t)
    ensures EqualButFlows(Step(p, s, Unbounded(e)), Step(p, t, e))
  {
    var est := s.plane.established;
    if KnockAction(e.act) {
      KnockIgnoresFlows(p, t, e, est);
    } else if WatchAction(e.act) {
      WatchIgnoresFlows(t, e.act, est);
    } else {
      PlaneDiffersInFlows(t.plane, e, est);
    }
  }

  lemma {:induction false} ShadowEqualButFlows(q: Run, r: Run, i: nat)
    requires Shadows(q, r) && i <= |r.events|
    ensures EqualButFlows(q.states[i], r.states[i])
  {
    if i > 0 {
      ShadowEqualButFlows(q, r, i - 1);
      assert q.Next(i - 1) && r.Next(i - 1);
      StepEqualButFlows(r.params, q.states[i - 1], r.states[i - 1], r.events[i - 1]);
    }
  }

  lemma ShadowCoversStep(q: Run, r: Run, i: nat, f: FlowKey)
    requires Shadows(q, r) && i + 1 < |r.events| && CoversAt(q, r, i, f)
    ensures CoversAt(q, r, i + 1, f) <==> !BreaksAt(q, r, i, f)
  {
    ShadowEqualButFlows(q, r, i);
    FlowsStep(r, i);
    FlowsStep(q, i);
    assert r.Ordered(i, i + 1);
    if NonBypass.Gated(r, i, f) {
      GateKeepsCover(r.states[i].plane, q.states[i].plane.established,
                     f, r.events[i].act.traffic.flags, r.events[i].at, r.events[i].act.stored);
    }
  }

  /** Coverage of a flow lasts exactly as long as no SYN breaks it. */
  lemma {:induction false} CoverLastsUntilBroken(q: Run, r: Run, n: nat, f: FlowKey)
    requires Shadows(q, r) && n < |r.events|
    ensures (forall i: nat | i <= n :: CoversAt(q, r, i, f)) <==> NeverBroken(q, r, n, f)
  {
    if n > 0 {
      CoverLastsUntilBroken(q, r, n - 1, f);
      if NeverBroken(q, r, n - 1, f) {
        assert CoversAt(q, r, n - 1, f);
        ShadowCoversStep(q, r, n - 1, f);
      }
    }
  }

  /**
   Every TCP packet the evicting gate passes, the unbounded gate passes too, unless a SYN
   that breaks coverage of the same flow came before; other flows' packets do not matter.
   */
  lemma EvictionOnlyCloses(q: Run, r: Run, i: nat)
    requires Shadows(q, r) && i < |r.events|
    requires r.events[i].act.Receive? && r.events[i].act.traffic.Tcp?
    requires NeverBroken(q, r, i, r.events[i].act.traffic.flow)
    requires Gate(r.states[i].plane, r.events[i].act.traffic, r.events[i].at, r.events[i].act.stored).0 == Pass
    ensures Gate(q.states[i].plane, q.events[i].act.traffic, q.events[i].at, q.events[i].act.stored).0 == Pass
  {
    var t := r.events[i].act.traffic;
    CoverLastsUntilBroken(q, r, i, t.flow);
    assert CoversAt(q, r, i, t.flow);
    ShadowEqualButFlows(q, r, i);
    GateKeepsCover(r.states[i].plane, q.states[i].plane.established, t.flow, t.flags, r.events[i].at, r.events[i].act.stored);
  }

  // ---- handoff -------------------------------------------------------------------------------------

  /** Event `i` passes and leaves `f` tracked: a granted SYN, or a packet of a tracked flow that is no close. */
  ghost predicate Starts(r: Run, i: nat, f: FlowKey)
    requires r.Valid()
  {
    && NonBypass.Gated(r, i, f) && NonBypass.Passes(r, i, f)
    && (Tracked(r.states[i].plane.established, f, r.events[i].at) ==> !Closing(NonBypass.FlagsAt(r, i, f)))
    && r.events[i].act.stored
  }

  /** The last packet of `f` from event `i` on and before event `j`. */
  ghost function LastPacket(r: Run, f: FlowKey, i: nat, j: nat): (k: nat)
    requires r.Valid() && i < j <= |r.events|
    ensures i <= k < j
    decreases j
  {
    if j == i + 1 || NonBypass.Gated(r, j - 1, f) then j - 1 else LastPacket(r, f, i, j - 1)
  }

  /** Nothing strictly between `i` and `j` takes `f` out of the table: no close, eviction, failed write or idle gap. */
  ghost predicate Undisturbed(r: Run, f: FlowKey, i: nat, k: nat)
    requires r.Valid() && i < k < |r.events|
  {
    && f.dport in r.states[k].plane.protectedPorts
    && (r.events[k].act.EvictFlows? ==> f !in r.events[k].act.flows)
    && (NonBypass.Gated(r, k, f) ==>
          && r.events[k].act.stored
          && !Closing(NonBypass.FlagsAt(r, k, f))
          && r.events[k].at - r.events[LastPacket(r, f, i, k)].at < 120 * SECOND)
  }

  /** The entry of `f` before event `j` carries the time of its last packet. */
  ghost predicate TracksLast(r: Run, f: FlowKey, i: nat, j: nat)
    requires r.Valid() && i < j <= |r.events|
  {
    && f in r.states[j].plane.established
    && r.states[j].plane.established[f] == r.events[LastPacket(r, f, i, j)].at
  }

  lemma TracksLastStep(r: Run, f: FlowKey, i: nat, j: nat)
    requires r.Valid() && i < j < |r.events| && TracksLast(r, f, i, j) && Undisturbed(r, f, i, j)
    ensures TracksLast(r, f, i, j + 1)
  {
    assert r.Ordered(LastPacket(r, f, i, j), j);
    if NonBypass.Gated(r, j, f) {
      NonBypass.TrackedPacketKept(r, f, j);
    } else {
      FlowsStep(r, j);
    }
  }

  lemma {:induction false} StaysTracked(r: Run, f: FlowKey, i: nat, j: nat)
    requires r.Valid() && Starts(r, i, f) && i < j <= |r.events|
    requires forall k: nat | i < k < j :: Undisturbed(r, f, i, k)
    ensures TracksLast(r, f, i, j)
  {
    if j > i + 1 {
      StaysTracked(r, f, i, j - 1);
      TracksLastStep(r, f, i, j - 1);
    } else {
      FlowsStep(r, i);
    }
  }

  /**
   Once a packet passed and left its flow tracked, every packet of the flow passes, up to and including the
   first FIN or RST, whatever becomes of the grant, as long as the port stays protected,
   gaps stay under 120 seconds, nothing evicts the flow and writes succeed.
   */
  lemma GrantedConnectionOutlivesGrant(r: Run, f: FlowKey, i: nat, j: nat)
    requires r.Valid() && Starts(r, i, f) && i < j < |r.events|
    requires forall k: nat | i < k < j :: Undisturbed(r, f, i, k)
    requires NonBypass.Gated(r, j, f)
    requires r.events[j].at - r.events[LastPacket(r, f, i, j)].at < 120 * SECOND
    ensures NonBypass.Passes(r, j, f)
  {
    StaysTracked(r, f, i, j);
    assert r.Ordered(LastPacket(r, f, i, j), j);
  }
}
