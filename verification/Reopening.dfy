/**
 The one way eviction opens: a run in which the evicting gate passes a packet of a flow that
 the unbounded gate, on the same environment, has already seen closed.
 */
module Reopening {
  import opened Wire
  import opened Frame
  import opened DataPlane
  import opened System
  import opened Admission
  import opened Flows
  import NonBypass

  const SYN: Byte := 0x02
  const SYN_FIN: Byte := 0x03
  const ACK: Byte := 0x10

  /** A granted SYN, its eviction, a SYN with FIN of the same flow, and a bare data packet. */
  function Evicted(f: FlowKey, now: U64): seq<Event> {
    [Event(now, Receive(Tcp(f, SYN), true)), Event(now, EvictFlows({f})),
     Event(now, Receive(Tcp(f, SYN_FIN), true)), Event(now, Receive(Tcp(f, ACK), true))]
  }

  /** The same with the eviction left out. */
  function NotEvicted(f: FlowKey, now: U64): seq<Event> {
    Evicted(f, now)[1 := Event(now, EvictFlows({}))]
  }

  /** Only the flow table moves on these events. */
  lemma FlowEventStep(r: Run, i: nat)
    requires r.Valid() && i < |r.events|
    requires r.events[i].act.EvictFlows? || (r.events[i].act.Receive? && r.events[i].act.traffic.Tcp?)
    ensures var pl, pl', e := r.states[i].plane, r.states[i + 1].plane, r.events[i];
            pl' == pl.(established := if e.act.EvictFlows? then pl.established - e.act.flows
                                      else TcpGate(pl, e.act.traffic.flow, e.act.traffic.flags, e.at, e.act.stored).1)
  {
    assert r.Next(i);
  }

  /** A grant for the source of `f` and its port is live, and the port is protected. */
  predicate Reachable(pl: Plane, f: FlowKey, now: U64) {
    f.dport in pl.protectedPorts && SourceAllowed(pl.allow, f.saddr, f.dport, now)
  }

  /** Four flow events from event 6 on: how each table ends. */
  lemma FlowEvents(r: Run, f: FlowKey, now: U64, evicted: bool)
    requires r.Valid() && |r.events| == 10 && Reachable(r.states[6].plane, f, now)
    requires r.events[6..] == if evicted then Evicted(f, now) else NotEvicted(f, now)
    ensures Reachable(r.states[8].plane, f, now)
    ensures evicted ==> !Tracked(r.states[8].plane.established, f, now)
    ensures !evicted ==> Tracked(r.states[8].plane.established, f, now)
    ensures NonBypass.Gated(r, 8, f) && NonBypass.Gated(r, 9, f)
    ensures NonBypass.Passes(r, 9, f) <==> evicted
  {
    assert r.events[6] == r.events[6..][0] && r.events[7] == r.events[6..][1];
    assert r.events[8] == r.events[6..][2] && r.events[9] == r.events[6..][3];
    FlowEventStep(r, 6);
    FlowEventStep(r, 7);
    FlowEventStep(r, 8);
  }

  /** After the admit, the grant is live. */
  lemma AdmittedReaches(p: Params, s: State, packet: seq<Byte>, source: IpAddr, wall: U64, t: Times, f: FlowKey)
    requires Initial(s) && RefusalIn(p, s, packet, wall, t.decided).None?
    requires var ports := ChecksIn(p, s, packet, wall).value.0.auth.ports; |ports| <= 8 && f.dport in ports
    requires f.saddr == AddrKey(source) && f.dport in s.plane.protectedPorts && t.written < 0xFFFF_FFFF_FFFF_FFFF
    ensures Reachable(Admit(p, s, packet, source, wall, true, t).plane, f, t.written)
  {
    AdmitIsTheProgram(p, s, packet, source, wall, true, t);
  }

  /** A freshly started gate serves one knock, then sees the flow events. */
  function After(p: Params, s: State, packet: seq<Byte>, source: IpAddr, wall: U64, now: U64, flowEvents: seq<Event>): Run {
    RunOf(p, s, AdmitEvents(packet, source, wall, true, Times(now, now, now, now, now, now)) + flowEvents)
  }

  lemma AfterIsValid(
    p: Params, s: State, packet: seq<Byte>, source: IpAddr, wall: U64, now: U64, flowEvents: seq<Event>)
    requires Initial(s) && |flowEvents| == 4 && forall i | 0 <= i < 4 :: flowEvents[i].at == now
    ensures var r := After(p, s, packet, source, wall, now, flowEvents);
            && r.Valid() && r.params == p && |r.events| == 10 && r.states[0] == s
            && r.events[..6] == AdmitEvents(packet, source, wall, true, Times(now, now, now, now, now, now))
            && r.events[6..] == flowEvents
            && r.states[6] == Admit(p, s, packet, source, wall, true, Times(now, now, now, now, now, now))
  {
    var admit := AdmitEvents(packet, source, wall, true, Times(now, now, now, now, now, now));
    var es := admit + flowEvents;
    assert es[..6] == admit && es[6..] == flowEvents && es[..0] == [];
    assert forall i | 0 <= i < |es| :: es[i].at == now;
    RunOfIsValid(p, s, es);
  }

  /** Leaving out the eviction is what the unbounded gate's environment does. */
  lemma NotEvictedIsUnbounded(admit: seq<Event>, f: FlowKey, now: U64, i: nat)
    requires |admit| == 6 && forall k | 0 <= k < 6 :: KnockAction(admit[k].act)
    requires i < 10
    ensures (admit + NotEvicted(f, now))[i] == Unbounded((admit + Evicted(f, now))[i])
  {
  }

  /** The runs `q` and `r` differ in the eviction alone, and `r` passes at the end what `q` drops. */
  ghost predicate EvictionOpens(q: Run, r: Run, f: FlowKey) {
    && Shadows(q, r) && |r.events| == 10
    && BreaksAt(q, r, 8, f)
    && NonBypass.Gated(r, 9, f) && NonBypass.Gated(q, 9, f)
    && NonBypass.Passes(r, 9, f) && !NonBypass.Passes(q, 9, f)
  }

  lemma PairOpens(q: Run, r: Run, f: FlowKey, now: U64)
    requires Shadows(q, r) && |r.events| == 10
    requires r.events[6..] == Evicted(f, now) && q.events[6..] == NotEvicted(f, now)
    requires Reachable(r.states[6].plane, f, now) && Reachable(q.states[6].plane, f, now)
    ensures EvictionOpens(q, r, f)
  {
    FlowEvents(r, f, now, true);
    FlowEvents(q, f, now, false);
    assert r.events[8] == r.events[6..][2];
  }

  /**
   Whatever knock a freshly started gate admits, and whatever flow it lets in: evicted and
   started again by a SYN with FIN, the flow is open in the evicting gate and closed in the
   unbounded one.
   */
  lemma EvictionCanOpenInARun(p: Params, s: State, packet: seq<Byte>, source: IpAddr, wall: U64, now: U64, f: FlowKey)
    requires Initial(s) && RefusalIn(p, s, packet, wall, now).None?
    requires var ports := ChecksIn(p, s, packet, wall).value.0.auth.ports; |ports| <= 8 && f.dport in ports
    requires f.saddr == AddrKey(source) && f.dport in s.plane.protectedPorts && now < 0xFFFF_FFFF_FFFF_FFFF
    ensures EvictionOpens(After(p, s, packet, source, wall, now, NotEvicted(f, now)),
                          After(p, s, packet, source, wall, now, Evicted(f, now)), f)
  {
    var t := Times(now, now, now, now, now, now);
    AfterIsValid(p, s, packet, source, wall, now, Evicted(f, now));
    AfterIsValid(p, s, packet, source, wall, now, NotEvicted(f, now));
    AdmittedReaches(p, s, packet, source, wall, t, f);
    forall i: nat | i < 10 {
      NotEvictedIsUnbounded(AdmitEvents(packet, source, wall, true, t), f, now, i);
    }
    PairOpens(After(p, s, packet, source, wall, now, NotEvicted(f, now)),
              After(p, s, packet, source, wall, now, Evicted(f, now)), f, now);
  }
}
