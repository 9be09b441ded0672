/**
 End-to-end non-bypass: whatever the interleaving of knocks, reloads, packets and
 evictions, a packet reaches a protected port only along a tracked flow that an
 authentic, permitted knock opened.
 */
module NonBypass {
  import opened Wire
  import opened Frame
  import opened DataPlane
  import opened Core
  import opened Adapters
  import opened System

  // ---- where a knock comes from ----------------------------------------------------------

  /** Event `a` received, decrypted and screened the knock `k`. */
  ghost predicate Arrived(r: Run, a: nat, k: Knock) {
    && a < |r.events| && r.events[a].act.Arrive?
    && r.events[a].act.source == k.source && r.events[a].act.wall == k.wall
    && Screen(r.params.Cfg(), r.params.crypto, r.events[a].act.packet, k.wall) == Ok(k.content)
  }

  /** At event `l` the trust store held `policy` for the knock's thumbprint. */
  ghost predicate LookedUp(r: Run, l: nat, k: Knock, policy: ClientPolicy)
    requires r.Valid()
  {
    && l < |r.events|
    && var id := k.content.auth.thumbprint;
       || (r.events[l].act.ReadClients? && id in r.states[l].clients
           && policy == ClientPolicyOf(r.states[l].clients[id], r.params.suite))
       || (r.events[l].act.ReadTokens? && id in r.states[l].tokens
           && policy == TokenPolicyOf(r.states[l].tokens[id], r.params.suite))
  }

  ghost predicate Traced(r: Run, a: nat, l: nat, k: Knock, policy: ClientPolicy)
    requires r.Valid()
  {
    a < l && Arrived(r, a, k) && LookedUp(r, l, k, policy)
  }

  /** The phase reached before event `i` has the history it claims. */
  ghost predicate PhaseSound(r: Run, i: nat)
    requires r.Valid() && i <= |r.events|
  {
    var ph := r.states[i].knock;
    && (!ph.Idle? ==> exists a: nat :: a < i && Arrived(r, a, ph.knock))
    && (ph.Vetting? || ph.Committed() ==> exists a: nat, l: nat :: l < i && Traced(r, a, l, ph.knock, ph.policy))
    && (ph.Committed() ==> Vetted(r.params.Cfg(), r.params.crypto, ph.knock, ph.policy))
  }

  lemma PhaseSoundStep(r: Run, i: nat)
    requires r.Valid() && i < |r.events| && PhaseSound(r, i)
    ensures PhaseSound(r, i + 1)
  {
    KnockPhaseStep(r, i);
    var ph, ph', e := r.states[i].knock, r.states[i + 1].knock, r.events[i];
    if ph'.Idle? || ph' == ph {
    } else if ph'.Screened? {
      assert Arrived(r, i, ph'.knock);
    } else {
      assert ph'.knock == ph.knock;
      var a: nat :| a < i && Arrived(r, a, ph.knock);
      if ph'.Vetting? {
        assert Traced(r, a, i, ph'.knock, ph'.policy);
      } else if ph'.Committed() {
        assert ph'.policy == ph.policy;
      }
    }
  }

  lemma {:induction false} PhasesAreSound(r: Run, i: nat)
    requires r.Valid() && i <= |r.events|
    ensures PhaseSound(r, i)
  {
    if i > 0 {
      PhasesAreSound(r, i - 1);
      PhaseSoundStep(r, i - 1);
    }
  }

  /**
   Every opening stems from a packet that decrypted to a knock naming this gate, within
   the skew, authentic under a policy the trust store then held and permitting every port.
   */
  lemma OpeningIsAuthentic(r: Run, g: nat)
    requires r.Valid() && r.Opens(g)
    ensures exists a: nat, l: nat :: l < g && Traced(r, a, l, r.OpenedKnock(g), r.states[g].knock.policy)
    ensures Vetted(r.params.Cfg(), r.params.crypto, r.OpenedKnock(g), r.states[g].knock.policy)
  {
    PhasesAreSound(r, g);
    var ph := r.states[g].knock;
    var a: nat, l: nat :| l < g && Traced(r, a, l, ph.knock, ph.policy);
    assert Traced(r, a, l, r.OpenedKnock(g), ph.policy);
  }

  /**
   The same in the tables' and primitives' own terms: the packet decrypted to this content, which
   named this gate within the skew, and some later lookup, before the opening, met an entry whose
   own key verified the authenticator and whose own list held every port.
   */
  lemma OpeningIsVouchedFor(r: Run, g: nat)
    requires r.Valid() && r.Opens(g)
    ensures var k, p := r.OpenedKnock(g), r.params;
            var o := k.content;
            var id := o.auth.thumbprint;
            && o.auth.gateId == p.gateId
            && k.wall <= o.auth.timestamp + p.skewSeconds * 1_000_000_000
            && o.auth.timestamp <= k.wall + p.skewSeconds * 1_000_000_000
            && exists a: nat, l: nat ::
                 && a < l < g && r.events[a].act.Arrive? && r.events[a].act.source == k.source && r.events[a].act.wall == k.wall
                 && p.crypto.open(r.events[a].act.packet) == Some(o)
                 && (|| (&& r.events[l].act.ReadClients? && id in r.states[l].clients
                         && p.crypto.verify(p.suite, r.states[l].clients[id].key, o.signingBytes, o.auth.signature)
                         && forall i | 0 <= i < |o.auth.ports| :: o.auth.ports[i] in r.states[l].clients[id].ports)
                     || (&& r.events[l].act.ReadTokens? && id in r.states[l].tokens
                         && p.crypto.verifyMac(r.states[l].tokens[id].key, o.signingBytes, o.auth.signature)
                         && forall i | 0 <= i < |o.auth.ports| :: o.auth.ports[i] in r.states[l].tokens[id].ports))
  {
    OpeningIsAuthentic(r, g);
    var k := r.OpenedKnock(g);
    var a: nat, l: nat :| l < g && Traced(r, a, l, k, r.states[g].knock.policy);
  }

  // ---- where a grant comes from ------------------------------------------------------------

  /** The opening at event `g` accounts for `grant` under `key`. */
  ghost predicate GrantedBy(r: Run, g: nat, key: Addr, grant: Grant)
    requires r.Valid()
  {
    && r.Opens(g)
    && AddrKey(r.OpenedKnock(g).source) == key
    && grant.expiry <= r.events[g].at + PINHOLE_NANOS
    && forall p | p in grant.Granted() :: p in r.OpenedKnock(g).content.auth.ports
  }

  lemma {:induction false} GrantIsSound(r: Run, i: nat, key: Addr)
    requires r.Valid() && i <= |r.events| && key in r.states[i].plane.allow
    ensures exists g: nat :: g < i && GrantedBy(r, g, key, r.states[i].plane.allow[key])
  {
    if i > 0 {
      AllowStep(r, i - 1);
      var allow, allow' := r.states[i - 1].plane.allow, r.states[i].plane.allow;
      if key in allow && allow'[key] == allow[key] {
        GrantIsSound(r, i - 1, key);
      } else {
        assert GrantedBy(r, i - 1, key, allow'[key]);
      }
    }
  }

  // ---- where a passed packet comes from ------------------------------------------------------

  /** Event `i` is a TCP packet of flow `f` to a port protected at that moment. */
  ghost predicate Gated(r: Run, i: nat, f: FlowKey)
    requires r.Valid()
  {
    && i < |r.events| && r.events[i].act.Receive?
    && r.events[i].act.traffic.Tcp? && r.events[i].act.traffic.flow == f
    && f.dport in r.states[i].plane.protectedPorts
  }

  ghost function FlagsAt(r: Run, i: nat, f: FlowKey): Byte
    requires r.Valid() && Gated(r, i, f)
  {
    r.events[i].act.traffic.flags
  }

  ghost predicate Passes(r: Run, i: nat, f: FlowKey)
    requires r.Valid() && Gated(r, i, f)
  {
    Gate(r.states[i].plane, r.events[i].act.traffic, r.events[i].at, r.events[i].act.stored).0 == Pass
  }

  /** The opening at event `g` lets the source of `f` reach its port at event `i`. */
  ghost predicate EarnedFrom(r: Run, g: nat, i: nat, f: FlowKey)
    requires r.Valid()
  {
    && g < i < |r.events| && r.Opens(g)
    && AddrKey(r.OpenedKnock(g).source) == f.saddr
    && f.dport in r.OpenedKnock(g).content.auth.ports
    && r.events[i].at - r.events[g].at < 30 * SECOND
  }

  /**
   Packet `i` opens flow `f` on its own merit: a SYN without ACK, less than 30 seconds
   after an opening for its source that requested its port.
   */
  ghost predicate Earned(r: Run, i: nat, f: FlowKey)
    requires r.Valid() && Gated(r, i, f)
  {
    Opening(FlagsAt(r, i, f)) && exists g: nat :: EarnedFrom(r, g, i, f)
  }

  ghost predicate Follows(r: Run, i: nat, j: nat) {
    i < j < |r.events| && r.events[j].at - r.events[i].at < 120 * SECOND
  }

  /** Passed packets of `f`, each within the idle limit of the one before, from one that earned its passage. */
  ghost predicate Trail(r: Run, f: FlowKey, c: seq<nat>)
    requires r.Valid()
  {
    && c != []
    && (forall k | 0 <= k < |c| :: Gated(r, c[k], f) && Passes(r, c[k], f))
    && (forall j, k | 0 <= j < k < |c| && k == j + 1 :: Follows(r, c[j], c[k]))
    && Earned(r, c[0], f)
  }

  /** Strictly between `i` and `j`, every gated packet of `f` passed and none carried FIN or RST. */
  ghost predicate Unbroken(r: Run, f: FlowKey, i: nat, j: nat)
    requires r.Valid()
  {
    forall k: nat | i < k < j && Gated(r, k, f) :: Passes(r, k, f) && !Closing(FlagsAt(r, k, f))
  }

  /** The tracked entry for `f` before event `i` is the end of an unbroken trail. */
  ghost predicate TrackedBy(r: Run, f: FlowKey, c: seq<nat>, i: nat)
    requires r.Valid() && i <= |r.events| && f in r.states[i].plane.established
  {
    && Trail(r, f, c) && c[|c| - 1] < i
    && r.states[i].plane.established[f] == r.events[c[|c| - 1]].at
    && Unbroken(r, f, c[0], i)
  }

  /** A packet of another flow, or no gated packet at all, leaves the entry of `f` alone or removes it. */
  lemma OtherEventsKeepFlow(r: Run, i: nat, f: FlowKey)
    requires r.Valid() && i < |r.events| && f in r.states[i + 1].plane.established
    requires !Gated(r, i, f)
    ensures f in r.states[i].plane.established
    ensures r.states[i + 1].plane.established[f] == r.states[i].plane.established[f]
  {
    FlowsStep(r, i);
  }

  lemma TrailExtends(r: Run, f: FlowKey, c: seq<nat>, i: nat)
    requires r.Valid() && Trail(r, f, c)
    requires Gated(r, i, f) && Passes(r, i, f) && Follows(r, c[|c| - 1], i)
    ensures Trail(r, f, c + [i]) && (c + [i])[0] == c[0] && (c + [i])[|c|] == i
  {
    var d := c + [i];
    assert forall k | 0 <= k < |c| :: d[k] == c[k];
    assert d[|c|] == i;
  }

  lemma EarnedNow(r: Run, i: nat, f: FlowKey)
    requires r.Valid() && Gated(r, i, f)
    requires Opening(FlagsAt(r, i, f))
    requires SourceAllowed(r.states[i].plane.allow, f.saddr, f.dport, r.events[i].at)
    ensures Earned(r, i, f) && Trail(r, f, [i])
  {
    GrantIsSound(r, i, f.saddr);
    var g: nat :| g < i && GrantedBy(r, g, f.saddr, r.states[i].plane.allow[f.saddr]);
    assert EarnedFrom(r, g, i, f);
    assert Passes(r, i, f);
  }

  ghost predicate HasTrail(r: Run, f: FlowKey, i: nat)
    requires r.Valid() && i <= |r.events|
  {
    f in r.states[i].plane.established ==> exists c: seq<nat> :: TrackedBy(r, f, c, i)
  }

  /** What a packet of a tracked flow does to its entry. */
  lemma TrackedPacketKept(r: Run, f: FlowKey, i: nat)
    requires r.Valid() && Gated(r, i, f) && Tracked(r.states[i].plane.established, f, r.events[i].at)
    ensures Passes(r, i, f)
    ensures f in r.states[i + 1].plane.established <==> !Closing(FlagsAt(r, i, f))
    ensures var last := if r.events[i].act.stored then r.events[i].at else r.states[i].plane.established[f];
            !Closing(FlagsAt(r, i, f)) ==> r.states[i + 1].plane.established[f] == last
  {
    FlowsStep(r, i);
  }

  /** A passed packet that leaves its flow tracked continues the flow's trail. */
  lemma TrackedPacketExtends(r: Run, f: FlowKey, c: seq<nat>, i: nat)
    requires r.Valid() && Gated(r, i, f)
    requires Tracked(r.states[i].plane.established, f, r.events[i].at) && TrackedBy(r, f, c, i)
    ensures HasTrail(r, f, i + 1)
  {
    TrackedPacketKept(r, f, i);
    if f in r.states[i + 1].plane.established {
      assert r.Ordered(c[|c| - 1], i);
      UnbrokenExtends(r, f, c[0], i);
      if r.events[i].act.stored {
        TrailExtends(r, f, c, i);
        assert TrackedBy(r, f, c + [i], i + 1);
      } else {
        assert TrackedBy(r, f, c, i + 1);
      }
    }
  }

  /** A packet of an untracked flow leaves it untracked or starts a trail of its own. */
  lemma UntrackedPacketStarts(r: Run, f: FlowKey, i: nat)
    requires r.Valid() && Gated(r, i, f)
    requires !Tracked(r.states[i].plane.established, f, r.events[i].at)
    ensures HasTrail(r, f, i + 1)
  {
    FlowsStep(r, i);
    if f in r.states[i + 1].plane.established {
      EarnedNow(r, i, f);
      assert TrackedBy(r, f, [i], i + 1);
    }
  }

  lemma UnbrokenExtends(r: Run, f: FlowKey, start: nat, i: nat)
    requires r.Valid() && Unbroken(r, f, start, i)
    requires Gated(r, i, f) ==> Passes(r, i, f) && !Closing(FlagsAt(r, i, f))
    ensures Unbroken(r, f, start, i + 1)
  {
  }

  lemma OtherEventKeepsTrail(r: Run, f: FlowKey, i: nat)
    requires r.Valid() && i < |r.events| && !Gated(r, i, f) && HasTrail(r, f, i)
    ensures HasTrail(r, f, i + 1)
  {
    if f in r.states[i + 1].plane.established {
      OtherEventsKeepFlow(r, i, f);
      var c: seq<nat> :| TrackedBy(r, f, c, i);
      UnbrokenExtends(r, f, c[0], i);
      assert TrackedBy(r, f, c, i + 1);
    }
  }

  lemma FlowSoundStep(r: Run, f: FlowKey, i: nat)
    requires r.Valid() && i < |r.events| && HasTrail(r, f, i)
    ensures HasTrail(r, f, i + 1)
  {
    if !Gated(r, i, f) {
      OtherEventKeepsTrail(r, f, i);
    } else if Tracked(r.states[i].plane.established, f, r.events[i].at) {
      var c: seq<nat> :| TrackedBy(r, f, c, i);
      TrackedPacketExtends(r, f, c, i);
    } else {
      UntrackedPacketStarts(r, f, i);
    }
  }

  lemma {:induction false} FlowIsSound(r: Run, i: nat, f: FlowKey)
    requires r.Valid() && i <= |r.events|
    ensures HasTrail(r, f, i)
  {
    if i > 0 {
      FlowIsSound(r, i - 1, f);
      FlowSoundStep(r, f, i - 1);
    }
  }

  /**
   Every packet passed to a protected port ends a trail of passed packets of its flow,
   with gaps under 120 seconds and no FIN or RST in between, that starts at a SYN earned
   by an opening less than 30 seconds old.  TrailsAreAuthorized says what that opening took.
   */
  lemma NothingBypassesTheGate(r: Run, i: nat, f: FlowKey)
    requires r.Valid() && Gated(r, i, f) && Passes(r, i, f)
    ensures exists c: seq<nat> :: Trail(r, f, c) && c[|c| - 1] == i && Unbroken(r, f, c[0], i)
  {
    if Tracked(r.states[i].plane.established, f, r.events[i].at) {
      FlowIsSound(r, i, f);
      var c: seq<nat> :| TrackedBy(r, f, c, i);
      assert r.Ordered(c[|c| - 1], i);
      TrailExtends(r, f, c, i);
      var d := c + [i];
      assert Trail(r, f, d) && d[|d| - 1] == i && Unbroken(r, f, d[0], i);
    } else {
      EarnedNow(r, i, f);
      var d := [i];
      assert Trail(r, f, d) && d[|d| - 1] == i && Unbroken(r, f, d[0], i);
    }
  }

  /** The close of a tracked flow ends it if and only if its port is protected when the FIN or RST arrives. */
  lemma CloseCountsIffProtected(r: Run, i: nat, f: FlowKey)
    requires r.Valid() && i < |r.events| && r.events[i].act.Receive?
    requires r.events[i].act.traffic.Tcp? && r.events[i].act.traffic.flow == f && Closing(r.events[i].act.traffic.flags)
    requires Tracked(r.states[i].plane.established, f, r.events[i].at)
    ensures f !in r.states[i + 1].plane.established <==> f.dport in r.states[i].plane.protectedPorts
  {
    FlowsStep(r, i);
  }

  /** The knock that arrived at `a` and was looked up at `l` opened the gate at `g`, and so earned packet `i` of `f`. */
  ghost predicate AuthorizedBy(r: Run, a: nat, l: nat, g: nat, i: nat, f: FlowKey)
    requires r.Valid()
  {
    && EarnedFrom(r, g, i, f) && l < g
    && Traced(r, a, l, r.OpenedKnock(g), r.states[g].knock.policy)
    && Vetted(r.params.Cfg(), r.params.crypto, r.OpenedKnock(g), r.states[g].knock.policy)
  }

  /** Every trail leads back to one authentic, permitted knock. */
  lemma TrailsAreAuthorized(r: Run, f: FlowKey, c: seq<nat>)
    requires r.Valid() && Trail(r, f, c)
    ensures exists a: nat, l: nat, g: nat :: AuthorizedBy(r, a, l, g, c[0], f)
  {
    var g: nat :| EarnedFrom(r, g, c[0], f);
    OpeningIsAuthentic(r, g);
    var a: nat, l: nat :| l < g && Traced(r, a, l, r.OpenedKnock(g), r.states[g].knock.policy);
    assert AuthorizedBy(r, a, l, g, c[0], f);
  }

  /** The same from the wire: whatever frame carries a TCP packet of `f` past the gate, a trail led to it. */
  lemma NoFrameBypassesTheGate(r: Run, i: nat, frame: seq<Byte>, f: FlowKey, flags: Byte)
    requires r.Valid() && i < |r.events| && r.events[i].act.Receive?
    requires f.dport in r.states[i].plane.protectedPorts
    ensures r.events[i].act.traffic == Classify(frame) && FramesTcp(frame, f, flags)
            && Gate(r.states[i].plane, Classify(frame), r.events[i].at, r.events[i].act.stored).0 == Pass ==>
              exists c: seq<nat> :: Trail(r, f, c) && c[|c| - 1] == i && Unbroken(r, f, c[0], i)
  {
    TcpSeenIffFramed(frame, f, flags);
    if Gated(r, i, f) && Passes(r, i, f) {
      NothingBypassesTheGate(r, i, f);
    }
  }
}
