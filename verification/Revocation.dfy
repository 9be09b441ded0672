/**
 Revocation with anti-rollback, and the protected-port set under reloads.
 */
module Revocation {
  import opened Wire
  import opened DataPlane
  import opened Core
  import opened Adapters
  import opened Gatekeeper
  import opened System

  // ---- generations ----------------------------------------------------------------------

  predicate NewerPending(s: State) {
    !s.watch.Watching? ==> s.watch.bundle.generation > s.applied
  }

  /** Event `i` finishes applying a bundle. */
  ghost predicate Commits(r: Run, i: nat)
    requires r.Valid()
  {
    && i < |r.events| && r.events[i].act.Commit? && r.states[i].watch.Porting?
    && r.states[i].watch.add == {} && r.states[i].watch.drop == {}
  }

  lemma {:induction false} PendingIsNewer(r: Run, i: nat)
    requires r.Valid() && i <= |r.events|
    ensures NewerPending(r.states[i])
  {
    if i > 0 {
      PendingIsNewer(r, i - 1);
      WatchingStep(r, i - 1);
    }
  }

  lemma {:induction false} AppliedNeverDecreases(r: Run, i: nat, j: nat)
    requires r.Valid() && i <= j <= |r.events|
    ensures r.states[i].applied <= r.states[j].applied
  {
    if i < j {
      AppliedNeverDecreases(r, i, j - 1);
      PendingIsNewer(r, j - 1);
      WatchingStep(r, j - 1);
    }
  }

  /** Applied generations strictly increase, and change only by committing the bundle they belong to. */
  lemma GenerationsStrictlyIncrease(r: Run, i: nat, j: nat)
    requires r.Valid() && i < j < |r.events| && Commits(r, j)
    ensures r.states[i].applied < r.states[j + 1].applied == r.states[j].watch.bundle.generation
    ensures !Commits(r, i) ==> r.states[i + 1].applied == r.states[i].applied
  {
    AppliedNeverDecreases(r, i, j);
    PendingIsNewer(r, j);
    WatchingStep(r, j);
    WatchingStep(r, i);
  }

  // ---- revocation -----------------------------------------------------------------------

  /** Once its clients are swapped in, a bundle's clients are the client table. */
  predicate ClientsInstalled(s: State) {
    s.watch.SettingTokens? || s.watch.Porting? ==> s.clients == Installed(s.watch.bundle.clients)
  }

  lemma {:induction false} ClientsFollowBundle(r: Run, i: nat)
    requires r.Valid() && i <= |r.events|
    ensures ClientsInstalled(r.states[i])
  {
    if i > 0 {
      ClientsFollowBundle(r, i - 1);
      assert r.Next(i - 1);
      if WatchAction(r.events[i - 1].act) {
        SwapInstallsClients(r.states[i - 1], r.events[i - 1].act);
      } else {
        WatchingStep(r, i - 1);
        TrustStep(r, i - 1);
      }
    }
  }

  lemma SwapInstallsClients(s: State, a: Action)
    requires ClientsInstalled(s) && WatchAction(a)
    ensures ClientsInstalled(WatchStep(s, a))
  {
  }

  /** Event `c` completes both trust swaps of a bundle that does not authorize `id`. */
  ghost predicate Revokes(r: Run, id: Thumbprint, c: nat)
    requires r.Valid()
  {
    && c < |r.events| && r.events[c].act.SetTokens? && r.states[c].watch.SettingTokens?
    && !r.states[c].watch.bundle.Authorizes(id)
  }

  /** No bundle taken up between `c` and `g` authorizes `id`; bundles the watcher refuses may. */
  ghost predicate NeverReauthorized(r: Run, id: Thumbprint, c: nat, g: nat)
    requires r.Valid() && g <= |r.events|
  {
    forall j: nat | c < j < g && TakesUp(r.states[j], r.events[j].act) ::
      !r.events[j].act.loaded.value.Authorizes(id)
  }

  /** `id` is in neither table, and the bundle the watcher holds cannot bring it back. */
  predicate Absent(s: State, id: Thumbprint) {
    id !in s.clients && id !in s.tokens && (!s.watch.Watching? ==> !s.watch.bundle.Authorizes(id))
  }

  lemma AbsentStep(r: Run, id: Thumbprint, i: nat)
    requires r.Valid() && i < |r.events| && Absent(r.states[i], id)
    requires TakesUp(r.states[i], r.events[i].act) ==> !r.events[i].act.loaded.value.Authorizes(id)
    ensures Absent(r.states[i + 1], id)
  {
    WatchingStep(r, i);
    TrustStep(r, i);
  }

  lemma {:induction false} StaysAbsent(r: Run, id: Thumbprint, c: nat, i: nat)
    requires r.Valid() && Revokes(r, id, c) && c < i <= |r.events|
    requires NeverReauthorized(r, id, c, i)
    ensures Absent(r.states[i], id)
  {
    if i > c + 1 {
      StaysAbsent(r, id, c, i - 1);
      AbsentStep(r, id, i - 1);
    } else {
      ClientsFollowBundle(r, c);
      WatchingStep(r, c);
      TrustStep(r, c);
    }
  }

  /** After event `c` no bundle as old as the one installed there is taken up again. */
  lemma OldBundlesAreRefused(r: Run, c: nat, j: nat)
    requires r.Valid() && c < j < |r.events|
    requires r.events[c].act.SetTokens? && r.states[c].watch.SettingTokens?
    requires TakesUp(r.states[j], r.events[j].act)
    ensures r.events[j].act.loaded.value.generation > r.states[c].watch.bundle.generation
  {
    HeldOrApplied(r, c, j);
  }

  /** The bundle of event `c` is the one still being applied, or its generation is behind us. */
  lemma {:induction false} HeldOrApplied(r: Run, c: nat, i: nat)
    requires r.Valid() && c < i <= |r.events|
    requires r.events[c].act.SetTokens? && r.states[c].watch.SettingTokens?
    ensures var s, b := r.states[i], r.states[c].watch.bundle;
            s.applied >= b.generation || (s.watch.Porting? && s.watch.bundle == b)
  {
    WatchingStep(r, i - 1);
    PendingIsNewer(r, i - 1);
    if i > c + 1 {
      HeldOrApplied(r, c, i - 1);
    }
  }

  /** The trust store has not vouched for `id` to the knock in progress. */
  predicate NotVouched(ph: Phase, id: Thumbprint) {
    ph.Vetting? || ph.Committed() ==> ph.Thumb() != id
  }

  lemma {:induction false} StaysUnvouched(r: Run, id: Thumbprint, c: nat, l: nat, i: nat)
    requires r.Valid() && Revokes(r, id, c) && c < l <= i <= |r.events|
    requires NeverReauthorized(r, id, c, i)
    requires NotVouched(r.states[l].knock, id)
    ensures NotVouched(r.states[i].knock, id)
  {
    if i > l {
      StaysUnvouched(r, id, c, l, i - 1);
      StaysAbsent(r, id, c, i - 1);
      KnockPhaseStep(r, i - 1);
    }
  }

  /**
   After a revoking bundle's swaps, no knock whose lookup had not already succeeded opens
   for the revoked credential, as long as no bundle taken up before that lists it.  Bundles as
   old as the revoking one are never applied (OldBundlesAreRefused), so they may reappear.
   */
  lemma RevokedNeverOpens(r: Run, id: Thumbprint, c: nat, l: nat, g: nat)
    requires r.Valid() && Revokes(r, id, c) && c < l <= g
    requires r.Opens(g) && NeverReauthorized(r, id, c, g)
    requires NotVouched(r.states[l].knock, id)
    ensures r.OpenedKnock(g).content.auth.thumbprint != id
  {
    StaysUnvouched(r, id, c, l, g);
  }

  /**
   The condition on the lookup is needed: a knock already vouched for opens even if both
   trust tables are emptied before it is decided.
   */
  lemma VouchedKnockOutlivesRevocation(p: Params, s: State, now: U64)
    requires s.knock.Vetting? && Vet(p.crypto, s.knock.policy, s.knock.knock.content).None?
    requires s.knock.knock.content.auth.nonce !in Prune(s.seen, now, p.Window())
    ensures var revoked := s.(clients := map[], tokens := map[]);
            var burned := Steps(p, revoked, [Event(now, Decide), Event(now, Burn)]);
            Outcome(p, burned, Event(now, OpenGate(true))) == Some(OpenedFor(s.knock.knock.content.auth.ports))
  {
    var revoked := s.(clients := map[], tokens := map[]);
    var decided := Step(p, revoked, Event(now, Decide));
    assert decided.knock == Accepted(s.knock.knock, s.knock.policy, now);
    assert [Event(now, Decide), Event(now, Burn)][1..] == [Event(now, Burn)];
    assert Steps(p, decided, [Event(now, Burn)]) == Step(p, decided, Event(now, Burn));
  }

  // ---- protected ports ------------------------------------------------------------------

  /** Every bundle taken up before event `i` fits PROTECTED together with the ports it replaces. */
  ghost predicate ReloadsFit(r: Run, i: nat)
    requires r.Valid() && i <= |r.events|
  {
    forall j: nat | j < i && TakesUp(r.states[j], r.events[j].act) ::
      |r.states[j].known + r.events[j].act.loaded.value.Ports()| <= PROTECTED_CAPACITY
  }

  /** PROTECTED during a reload: nothing dropped before everything is added. */
  ghost predicate PortsTrack(s: State) {
    match s.watch
    case Watching => s.plane.protectedPorts == s.known
    case Porting(b, add, drop) =>
      && add <= b.Ports() - s.known && drop <= s.known - b.Ports()
      && (add != {} ==> drop == s.known - b.Ports())
      && s.plane.protectedPorts == s.known + b.Ports() - add - (s.known - b.Ports() - drop)
      && |s.known + b.Ports()| <= PROTECTED_CAPACITY
    case _ =>
      && s.plane.protectedPorts == s.known
      && |s.known + s.watch.bundle.Ports()| <= PROTECTED_CAPACITY
  }

  lemma InsertTracks(s: State, p: U16)
    requires PortsTrack(s)
    ensures PortsTrack(WatchStep(s, InsertPort(p)))
  {
    if s.watch.Porting? && p in s.watch.add {
      InsertHasRoom(s, p);
      var whole, b := s.known + s.watch.bundle.Ports(), s.watch.bundle;
      assert whole - (s.watch.add - {p}) - (s.known - b.Ports() - s.watch.drop)
          == whole - s.watch.add - (s.known - b.Ports() - s.watch.drop) + {p};
    }
  }

  lemma RemoveTracks(s: State, p: U16)
    requires PortsTrack(s)
    ensures PortsTrack(WatchStep(s, RemovePort(p)))
  {
    if s.watch.Porting? && s.watch.add == {} && p in s.watch.drop {
      var whole, b := s.known + s.watch.bundle.Ports(), s.watch.bundle;
      assert whole - (s.known - b.Ports() - (s.watch.drop - {p}))
          == whole - (s.known - b.Ports() - s.watch.drop) - {p};
    }
  }

  lemma OtherWatchStepTracks(s: State, a: Action)
    requires PortsTrack(s)
    requires a.LoadBundle? || a.SetClients? || a.SetTokens? || a.Commit?
    requires TakesUp(s, a) ==> |s.known + a.loaded.value.Ports()| <= PROTECTED_CAPACITY
    ensures PortsTrack(WatchStep(s, a))
  {
    if a.SetTokens? && s.watch.SettingTokens? {
      var newPorts := s.watch.bundle.Ports();
      assert s.known + newPorts - (newPorts - s.known) == s.known;
    }
  }

  lemma PortsTrackStep(r: Run, i: nat)
    requires r.Valid() && i < |r.events| && ReloadsFit(r, i + 1) && PortsTrack(r.states[i])
    ensures PortsTrack(r.states[i + 1])
  {
    WatchingStep(r, i);
    var s, a := r.states[i], r.events[i].act;
    if !WatchAction(a) {
    } else if a.InsertPort? {
      InsertTracks(s, a.port);
    } else if a.RemovePort? {
      RemoveTracks(s, a.port);
    } else {
      OtherWatchStepTracks(s, a);
    }
  }

  /** While reloads fit, an insertion never meets a full map. */
  lemma InsertHasRoom(s: State, p: U16)
    requires PortsTrack(s) && s.watch.Porting? && p in s.watch.add
    ensures ProtectPort(s.plane.protectedPorts, p) == s.plane.protectedPorts + {p}
  {
    var whole := s.known + s.watch.bundle.Ports();
    if p !in s.plane.protectedPorts {
      SubsetSize(s.plane.protectedPorts + {p}, whole);
      assert |s.plane.protectedPorts + {p}| == |s.plane.protectedPorts| + 1;
    }
  }

  lemma {:induction false} PortsTrackAlways(r: Run, i: nat)
    requires r.Valid() && i <= |r.events| && ReloadsFit(r, i)
    ensures PortsTrack(r.states[i])
  {
    if i > 0 {
      PortsTrackAlways(r, i - 1);
      PortsTrackStep(r, i - 1);
    }
  }

  /** With or without room: no port neither bundle lists, nothing shared scheduled for removal. */
  ghost predicate PortsBounded(s: State) {
    match s.watch
    case Porting(b, add, drop) =>
      && add <= b.Ports()
      && s.plane.protectedPorts <= s.known + b.Ports()
      && s.plane.protectedPorts * (s.known - b.Ports()) <= drop <= s.known - b.Ports()
    case _ => s.plane.protectedPorts <= s.known
  }

  lemma PortsBoundedInsert(s: State, p: U16)
    requires PortsBounded(s)
    ensures PortsBounded(WatchStep(s, InsertPort(p)))
  {
    if s.watch.Porting? && p in s.watch.add {
      assert ProtectPort(s.plane.protectedPorts, p) <= s.plane.protectedPorts + {p};
    }
  }

  lemma PortsBoundedRemove(s: State, p: U16)
    requires PortsBounded(s)
    ensures PortsBounded(WatchStep(s, RemovePort(p)))
    ensures s.watch.Porting? && p in s.watch.bundle.Ports() ==> WatchStep(s, RemovePort(p)) == s
  {
  }

  lemma PortsBoundedOther(s: State, a: Action)
    requires PortsBounded(s)
    requires a.LoadBundle? || a.SetClients? || a.SetTokens? || a.Commit?
    ensures PortsBounded(WatchStep(s, a))
  {
  }

  lemma PortsBoundedStep(s: State, a: Action)
    requires PortsBounded(s) && WatchAction(a)
    ensures PortsBounded(WatchStep(s, a))
    ensures a.RemovePort? && s.watch.Porting? && a.port in s.watch.bundle.Ports() ==> WatchStep(s, a) == s
  {
    if a.InsertPort? {
      PortsBoundedInsert(s, a.port);
    } else if a.RemovePort? {
      PortsBoundedRemove(s, a.port);
    } else {
      PortsBoundedOther(s, a);
    }
  }

  /** Only removals take ports away. */
  lemma ProtectedOnlyRemovedByRemoval(s: State, a: Action, p: U16)
    requires WatchAction(a) && p in s.plane.protectedPorts && p !in WatchStep(s, a).plane.protectedPorts
    ensures a.RemovePort? && a.port == p && s.watch.Porting?
  {
  }

  lemma {:induction false} PortsAlwaysBounded(r: Run, i: nat)
    requires r.Valid() && i <= |r.events|
    ensures PortsBounded(r.states[i])
  {
    if i > 0 {
      PortsAlwaysBounded(r, i - 1);
      WatchingStep(r, i - 1);
      if WatchAction(r.events[i - 1].act) {
        PortsBoundedStep(r.states[i - 1], r.events[i - 1].act);
      }
    }
  }

  /**
   Whatever fits: PROTECTED never holds a port that neither the applied nor the incoming
   bundle lists, and no event stops protecting a port that both list (or, between reloads, any).
   */
  lemma ReloadNeverStrays(r: Run, i: nat, p: U16)
    requires r.Valid() && i < |r.events|
    ensures var s := r.states[i];
            && s.plane.protectedPorts <= (if s.watch.Watching? then s.known else s.known + s.watch.bundle.Ports())
            && (p in s.plane.protectedPorts && (s.watch.Watching? || p in s.watch.bundle.Ports()) ==>
                  p in r.states[i + 1].plane.protectedPorts)
  {
    PortsAlwaysBounded(r, i);
    WatchingStep(r, i);
    if WatchAction(r.events[i].act) {
      PortsBoundedStep(r.states[i], r.events[i].act);
      if p in r.states[i].plane.protectedPorts && p !in r.states[i + 1].plane.protectedPorts {
        ProtectedOnlyRemovedByRemoval(r.states[i], r.events[i].act, p);
      }
    }
  }

  predicate NeverBlinks(s: State) {
    if s.watch.Watching? then s.plane.protectedPorts == s.known
    else s.known * s.watch.bundle.Ports() <= s.plane.protectedPorts <= s.known + s.watch.bundle.Ports()
  }

  lemma TrackingNeverBlinks(s: State)
    requires PortsTrack(s)
    ensures NeverBlinks(s)
  {
  }

  /**
   While reloads so far fit, PROTECTED is exactly the applied port set between reloads, holds all
   that old and new bundle share during one, and ends as the new set.
   */
  lemma ReloadNeverBlinks(r: Run, i: nat)
    requires r.Valid() && i <= |r.events| && ReloadsFit(r, i)
    ensures NeverBlinks(r.states[i])
    ensures i > 0 && Commits(r, i - 1) ==> r.states[i].plane.protectedPorts == r.states[i - 1].watch.bundle.Ports()
  {
    PortsTrackAlways(r, i);
    TrackingNeverBlinks(r.states[i]);
    if i > 0 && Commits(r, i - 1) {
      WatchingStep(r, i - 1);
    }
  }

  // ---- one reload, exactly -----------------------------------------------------------------

  /** Nothing of `first` is lost, and `now` is all of `whole`, or it is full and something did not fit. */
  predicate AllOrFull(first: set<U16>, now: set<U16>, whole: set<U16>) {
    first <= now <= whole && |now| <= PROTECTED_CAPACITY && (now == whole || |whole| > PROTECTED_CAPACITY)
  }

  lemma OneMoreInsertion(first: set<U16>, now: set<U16>, whole: set<U16>, p: U16)
    requires AllOrFull(first, now, whole)
    ensures AllOrFull(first, ProtectPort(now, p), whole + {p})
  {
    SubsetSize(whole, whole + {p});
    if p !in now {
      assert |now + {p}| == |now| + 1;
    }
  }

  /** PROTECTED, found at `first`, is on its way from `known` to `goal`, with `add` still to insert. */
  predicate Adding(ports: set<U16>, add: set<U16>, first: set<U16>, known: set<U16>, goal: set<U16>) {
    add <= goal - known && AllOrFull(first, ports, first + (goal - known - add))
  }

  /** ... with everything inserted that fits, and `drop` still to remove. */
  predicate Dropping(ports: set<U16>, drop: set<U16>, first: set<U16>, known: set<U16>, goal: set<U16>) {
    var removed := known - goal - drop;
    && drop <= known - goal && ports !! removed
    && AllOrFull(first, ports + first * removed, first + (goal - known))
  }

  lemma AddingStarts(first: set<U16>, known: set<U16>, goal: set<U16>)
    requires |first| <= PROTECTED_CAPACITY
    ensures Adding(first, goal - known, first, known, goal)
  {
    assert first + (goal - known - (goal - known)) == first;
  }

  lemma InsertProgresses(ports: set<U16>, add: set<U16>, first: set<U16>, known: set<U16>, goal: set<U16>, p: U16)
    requires Adding(ports, add, first, known, goal) && p in add
    ensures Adding(ProtectPort(ports, p), add - {p}, first, known, goal)
  {
    OneMoreInsertion(first, ports, first + (goal - known - add), p);
    assert first + (goal - known - (add - {p})) == first + (goal - known - add) + {p};
  }

  lemma DroppingStarts(ports: set<U16>, first: set<U16>, known: set<U16>, goal: set<U16>)
    requires Adding(ports, {}, first, known, goal)
    ensures Dropping(ports, known - goal, first, known, goal)
  {
    assert ports + first * (known - goal - (known - goal)) == ports;
    assert goal - known - {} == goal - known;
  }

  lemma RemoveProgresses(ports: set<U16>, drop: set<U16>, first: set<U16>, known: set<U16>, goal: set<U16>, p: U16)
    requires Dropping(ports, drop, first, known, goal) && p in drop
    ensures Dropping(ports - {p}, drop - {p}, first, known, goal)
  {
    var removed, removed' := known - goal - drop, known - goal - (drop - {p});
    assert removed' == removed + {p};
    assert ports - {p} + first * removed' == ports + first * removed;
  }

  /** What this comes to when all is done. */
  lemma DoneExactly(ports: set<U16>, first: set<U16>, known: set<U16>, goal: set<U16>)
    requires Dropping(ports, {}, first, known, goal) && first <= known
    ensures ports == goal <==> known * goal <= first && |first + (goal - known)| <= PROTECTED_CAPACITY
  {
    var removed, added := known - goal, goal - known;
    var kept := ports + first * removed;
    assert known - goal - {} == removed;
    if kept == first + added {
      assert ports == first * goal + added;
      assert known * goal <= first ==> first * goal + added == goal;
      if ports == goal {
        forall p | p in known * goal ensures p in first {
          assert p in goal && p !in added;
        }
      }
    } else {
      var p :| p in first + added && p !in kept;
      assert p in added && p !in ports;
    }
  }

  /** The watcher is applying `b`, having found PROTECTED at `first` and known of `known`. */
  ghost predicate OnItsWay(s: State, b: Bundle, first: set<U16>, known: set<U16>) {
    && s.known == known
    && match s.watch
       case Watching => false
       case Porting(b', add, drop) =>
         && b' == b
         && (add != {} ==> drop == known - b.Ports() && Adding(s.plane.protectedPorts, add, first, known, b.Ports()))
         && (add == {} ==> Dropping(s.plane.protectedPorts, drop, first, known, b.Ports()))
       case _ => s.watch.bundle == b && s.plane.protectedPorts == first
  }

  lemma InsertOnItsWay(s: State, b: Bundle, first: set<U16>, known: set<U16>, p: U16)
    requires OnItsWay(s, b, first, known)
    ensures OnItsWay(WatchStep(s, InsertPort(p)), b, first, known)
  {
    if s.watch.Porting? && p in s.watch.add {
      InsertProgresses(s.plane.protectedPorts, s.watch.add, first, known, b.Ports(), p);
      if s.watch.add - {p} == {} {
        DroppingStarts(ProtectPort(s.plane.protectedPorts, p), first, known, b.Ports());
      }
    }
  }

  lemma RemoveOnItsWay(s: State, b: Bundle, first: set<U16>, known: set<U16>, p: U16)
    requires OnItsWay(s, b, first, known)
    ensures OnItsWay(WatchStep(s, RemovePort(p)), b, first, known)
  {
    if s.watch.Porting? && s.watch.add == {} && p in s.watch.drop {
      RemoveProgresses(s.plane.protectedPorts, s.watch.drop, first, known, b.Ports(), p);
    }
  }

  lemma SwapOnItsWay(s: State, a: Action, b: Bundle, first: set<U16>, known: set<U16>)
    requires OnItsWay(s, b, first, known) && |first| <= PROTECTED_CAPACITY
    requires a.LoadBundle? || a.SetClients? || a.SetTokens?
    ensures OnItsWay(WatchStep(s, a), b, first, known)
  {
    if a.SetTokens? && s.watch.SettingTokens? {
      AddingStarts(first, known, b.Ports());
      if b.Ports() - known == {} {
        DroppingStarts(first, first, known, b.Ports());
      }
    }
  }

  lemma OnItsWayStep(r: Run, i: nat, b: Bundle, first: set<U16>, known: set<U16>)
    requires r.Valid() && i < |r.events| && OnItsWay(r.states[i], b, first, known) && |first| <= PROTECTED_CAPACITY
    ensures OnItsWay(r.states[i + 1], b, first, known) || Commits(r, i)
  {
    WatchingStep(r, i);
    var s, a := r.states[i], r.events[i].act;
    if a.InsertPort? {
      InsertOnItsWay(s, b, first, known, a.port);
    } else if a.RemovePort? {
      RemoveOnItsWay(s, b, first, known, a.port);
    } else if WatchAction(a) && !a.Commit? {
      SwapOnItsWay(s, a, b, first, known);
    }
  }

  /** PROTECTED never exceeds its capacity. */
  lemma {:induction false} ProtectedFits(r: Run, i: nat)
    requires r.Valid() && i <= |r.events|
    ensures |r.states[i].plane.protectedPorts| <= PROTECTED_CAPACITY
  {
    if i > 0 {
      ProtectedFits(r, i - 1);
      WatchingStep(r, i - 1);
      var before, after := r.states[i - 1].plane.protectedPorts, r.states[i].plane.protectedPorts;
      if after <= before {
        SubsetSize(after, before);
      }
    }
  }

  /** The reload that event `i` starts is the one under way, or done, at event `j`; nothing commits in between. */
  lemma {:induction false} ReloadIsOnItsWay(r: Run, i: nat, j: nat)
    requires r.Valid() && i < j <= |r.events| && TakesUp(r.states[i], r.events[i].act)
    requires forall k: nat | i < k < j :: !Commits(r, k)
    ensures OnItsWay(r.states[j], r.events[i].act.loaded.value, r.states[i].plane.protectedPorts, r.states[i].known)
  {
    var b, first, known := r.events[i].act.loaded.value, r.states[i].plane.protectedPorts, r.states[i].known;
    if j > i + 1 {
      ReloadIsOnItsWay(r, i, j - 1);
      ProtectedFits(r, i);
      OnItsWayStep(r, j - 1, b, first, known);
    } else {
      WatchingStep(r, i);
    }
  }

  /**
   A reload that event `i` starts and event `j` commits, whatever goes on in between, ends with
   PROTECTED equal to the new set if and only if no port still listed was missed before and
   the new ports fit beside the old entries: the condition of `Watcher.Reload`.
   */
  lemma ReloadEndsAsNewSetIff(r: Run, i: nat, j: nat)
    requires r.Valid() && i < j < |r.events| && TakesUp(r.states[i], r.events[i].act)
    requires Commits(r, j) && forall k: nat | i < k < j :: !Commits(r, k)
    ensures var s, b := r.states[i], r.events[i].act.loaded.value;
            && r.states[j + 1].known == b.Ports()
            && (r.states[j + 1].plane.protectedPorts == b.Ports() <==>
                  && s.known * b.Ports() <= s.plane.protectedPorts
                  && |s.plane.protectedPorts + (b.Ports() - s.known)| <= 64)
  {
    ReloadIsOnItsWay(r, i, j);
    PortsAlwaysBounded(r, i);
    DoneExactly(r.states[j].plane.protectedPorts, r.states[i].plane.protectedPorts, r.states[i].known,
                r.events[i].act.loaded.value.Ports());
    WatchingStep(r, j);
  }

  /** `p` is listed, unprotected, and nothing pending would insert it. */
  predicate Missed(s: State, p: U16) {
    && p in s.known && p !in s.plane.protectedPorts
    && (!s.watch.Watching? ==> p in s.watch.bundle.Ports())
    && (s.watch.Porting? ==> p !in s.watch.add)
  }

  lemma MissedStep(r: Run, i: nat, p: U16)
    requires r.Valid() && i < |r.events| && Missed(r.states[i], p)
    requires TakesUp(r.states[i], r.events[i].act) ==> p in r.events[i].act.loaded.value.Ports()
    ensures Missed(r.states[i + 1], p)
  {
    WatchingStep(r, i);
    match r.events[i].act
    case InsertPort(_) =>
    case RemovePort(_) =>
    case Commit =>
    case _ =>
  }

  /** A listed port that missed its insertion stays uncloaked for as long as bundles keep listing it. */
  lemma {:induction false} MissedPortStaysUncloaked(r: Run, i: nat, j: nat, p: U16)
    requires r.Valid() && i <= j <= |r.events| && Missed(r.states[i], p)
    requires forall k: nat | i <= k < j && TakesUp(r.states[k], r.events[k].act) :: p in r.events[k].act.loaded.value.Ports()
    ensures Missed(r.states[j], p)
  {
    if i < j {
      MissedPortStaysUncloaked(r, i, j - 1, p);
      MissedStep(r, j - 1, p);
    }
  }
}
