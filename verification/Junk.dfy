/**
 Junk erasure: a refused knock leaves no trace.  Deleting every refused knock from a
 schedule, interleavings included, changes no other decision and no other state.
 */
module Junk {
  import opened Wire
  import opened Core
  import opened Adapters
  import opened System

  /** The decision the knock in progress will meet in `es`, if it meets one. */
  function Fate(p: Params, s: State, es: seq<Event>): Option<Decision>
    decreases |es|
  {
    if es == [] then None
    else if Outcome(p, s, es[0]).Some? then Outcome(p, s, es[0])
    else Fate(p, Step(p, s, es[0]), es[1..])
  }

  predicate Refused(d: Option<Decision>) {
    d.Some? && d.value.Rejected?
  }

  /** The knock in progress is going to be refused. */
  predicate Doomed(p: Params, s: State, es: seq<Event>) {
    !s.knock.Idle? && Refused(Fate(p, s, es))
  }

  /** The first event belongs to a knock that is refused, at once or later. */
  predicate IsJunk(p: Params, s: State, es: seq<Event>)
    requires es != []
  {
    KnockAction(es[0].act) &&
    (Doomed(p, s, es)
     || (s.knock.Idle? && (Refused(Outcome(p, s, es[0])) || Doomed(p, Step(p, s, es[0]), es[1..]))))
  }

  /** The schedule without the events of refused knocks. */
  function Erase(p: Params, s: State, es: seq<Event>): seq<Event>
    decreases |es|
  {
    if es == [] then []
    else
      var rest := Erase(p, Step(p, s, es[0]), es[1..]);
      if IsJunk(p, s, es) then rest else [es[0]] + rest
  }

  /** The openings a schedule decides, in order. */
  function Openings(p: Params, s: State, es: seq<Event>): seq<Decision>
    decreases |es|
  {
    if es == [] then []
    else
      var d := Outcome(p, s, es[0]);
      (if d.Some? && d.value.OpenedFor? then [d.value] else []) + Openings(p, Step(p, s, es[0]), es[1..])
  }

  predicate InTimeOrder(es: seq<Event>) {
    forall i, j | 0 <= i <= j < |es| :: es[i].at <= es[j].at
  }

  // ---- caches that agree on recent nonces ------------------------------------------------------

  /** From time `now` on, no query can tell the two caches apart. */
  predicate SameRecent(a: map<Nonce, U64>, b: map<Nonce, U64>, now: U64, window: nat) {
    Prune(a, now, window) == Prune(b, now, window)
  }

  lemma PruneTwice(a: map<Nonce, U64>, now: U64, future: U64, window: nat)
    requires now <= future
    ensures Prune(Prune(a, now, window), future, window) == Prune(a, future, window)
  {
  }

  lemma SameRecentLater(a: map<Nonce, U64>, b: map<Nonce, U64>, now: U64, future: U64, window: nat)
    requires SameRecent(a, b, now, window) && now <= future
    ensures SameRecent(a, b, future, window)
  {
    PruneTwice(a, now, future, window);
    PruneTwice(b, now, future, window);
  }

  /** `t` is `s` but for its phase and a cache that agrees from `now` on. */
  ghost predicate Twin(p: Params, s: State, t: State, phase: Phase, now: U64) {
    t == s.(knock := phase, seen := t.seen) && SameRecent(s.seen, t.seen, now, p.Window())
  }

  // ---- one event -----------------------------------------------------------------------------------

  /** The watcher and the data plane do not see the knock loop. */
  lemma OtherThreadsStep(p: Params, s: State, t: State, e: Event)
    requires !KnockAction(e.act)
    requires t == s.(knock := t.knock, seen := t.seen)
    ensures var s', t' := Step(p, s, e), Step(p, t, e);
            t' == s'.(knock := t.knock, seen := t.seen) && s'.knock == s.knock && s'.seen == s.seen
    ensures Outcome(p, s, e).None? && Outcome(p, t, e).None?
  {
  }

  /** A knock event does the same to a twin in the same phase. */
  lemma KnockStepOnTwin(p: Params, s: State, t: State, e: Event)
    requires KnockAction(e.act) && Twin(p, s, t, s.knock, e.at)
    ensures Twin(p, Step(p, s, e), Step(p, t, e), Step(p, s, e).knock, e.at)
    ensures Outcome(p, s, e) == Outcome(p, t, e)
  {
    assert PhaseAfter(p, s, e) == PhaseAfter(p, t, e);
    assert SeenAfter(p, s, e) == SeenAfter(p, t, e) || (SeenAfter(p, s, e) == s.seen && SeenAfter(p, t, e) == t.seen);
  }

  /** A committed knock cannot be refused any more. */
  lemma {:induction false} CommittedIsNotDoomed(p: Params, s: State, es: seq<Event>)
    requires s.knock.Committed()
    ensures !Refused(Fate(p, s, es))
    decreases |es|
  {
    if es != [] && Outcome(p, s, es[0]).None? {
      CommittedStays(p, s, es[0]);
      CommittedIsNotDoomed(p, Step(p, s, es[0]), es[1..]);
    }
  }

  lemma CommittedStays(p: Params, s: State, e: Event)
    requires s.knock.Committed() && Outcome(p, s, e).None?
    ensures Step(p, s, e).knock.Committed()
  {
    if !KnockAction(e.act) {
      OtherThreadsStep(p, s, s, e);
    }
  }

  /** An event of a doomed knock changes only its phase and forgets expired nonces. */
  lemma DoomedStep(p: Params, s: State, e: Event)
    requires KnockAction(e.act) && !s.knock.Committed() && !Step(p, s, e).knock.Committed()
    ensures Twin(p, s, Step(p, s, e), Step(p, s, e).knock, e.at)
    ensures Outcome(p, s, e).Some? ==> Step(p, s, e).knock.Idle? && Outcome(p, s, e).value.Rejected?
  {
    PruneTwice(s.seen, e.at, e.at, p.Window());
  }

  // ---- whole schedules ---------------------------------------------------------------------------------

  /** The phase an erased schedule is in: idle while the original serves a doomed knock. */
  function ErasedPhase(p: Params, s: State, es: seq<Event>): Phase {
    if Doomed(p, s, es) then Idle else s.knock
  }

  ghost predicate Related(p: Params, s: State, t: State, es: seq<Event>, now: U64) {
    Twin(p, s, t, ErasedPhase(p, s, es), now)
  }

  lemma TwinLater(p: Params, s: State, t: State, phase: Phase, now: U64, future: U64)
    requires Twin(p, s, t, phase, now) && now <= future
    ensures Twin(p, s, t, phase, future)
  {
    SameRecentLater(s.seen, t.seen, now, future, p.Window());
  }

  /** Skipping a junk event keeps the schedules related. */
  lemma JunkSkips(p: Params, s: State, t: State, es: seq<Event>)
    requires es != [] && IsJunk(p, s, es) && Related(p, s, t, es, es[0].at)
    ensures Related(p, Step(p, s, es[0]), t, es[1..], es[0].at)
    ensures !(Outcome(p, s, es[0]).Some? && Outcome(p, s, es[0]).value.OpenedFor?)
  {
    var s' := Step(p, s, es[0]);
    if s.knock.Committed() {
      CommittedIsNotDoomed(p, s, es);
    } else if s'.knock.Committed() {
      CommittedIsNotDoomed(p, s', es[1..]);
    } else {
      DoomedStep(p, s, es[0]);
    }
  }

  /** Playing any other event on both keeps them related, with the same outcome. */
  lemma KeptStep(p: Params, s: State, t: State, es: seq<Event>)
    requires es != [] && !IsJunk(p, s, es) && Related(p, s, t, es, es[0].at)
    ensures Related(p, Step(p, s, es[0]), Step(p, t, es[0]), es[1..], es[0].at)
    ensures Outcome(p, s, es[0]) == Outcome(p, t, es[0])
  {
    var e := es[0];
    if KnockAction(e.act) {
      KnockStepOnTwin(p, s, t, e);
    } else {
      OtherThreadsStep(p, s, t, e);
    }
  }

  /**
   Erasing every refused knock leaves the trust store, the data plane, the watcher and
   every opening as they were; caches differ at most in nonces no query can reach.
   */
  lemma {:induction false} JunkLeavesNoTrace(p: Params, s: State, t: State, es: seq<Event>, now: U64)
    requires InTimeOrder(es) && (es != [] ==> now <= es[0].at) && Related(p, s, t, es, now)
    ensures var u, v := Steps(p, s, es), Steps(p, t, Erase(p, s, es));
            v == u.(seen := v.seen) && SameRecent(u.seen, v.seen, if es == [] then now else es[|es| - 1].at, p.Window())
    ensures Openings(p, t, Erase(p, s, es)) == Openings(p, s, es) == Decisions(p, t, Erase(p, s, es))
    decreases |es|
  {
    if es != [] {
      TwinLater(p, s, t, ErasedPhase(p, s, es), now, es[0].at);
      if IsJunk(p, s, es) {
        JunkSkips(p, s, t, es);
        JunkLeavesNoTrace(p, Step(p, s, es[0]), t, es[1..], es[0].at);
      } else {
        KeptStep(p, s, t, es);
        JunkLeavesNoTrace(p, Step(p, s, es[0]), Step(p, t, es[0]), es[1..], es[0].at);
      }
    }
  }

  /** For any schedule from an idle knock loop: the refused knocks might as well never have arrived. */
  lemma RefusedKnocksMightNeverHaveArrived(p: Params, s: State, es: seq<Event>)
    requires s.knock.Idle? && InTimeOrder(es) && es != []
    ensures var u, v := Steps(p, s, es), Steps(p, s, Erase(p, s, es));
            && v == u.(seen := v.seen)
            && SameRecent(u.seen, v.seen, es[|es| - 1].at, p.Window())
    ensures Decisions(p, s, Erase(p, s, es)) == Openings(p, s, es)
  {
    JunkLeavesNoTrace(p, s, s, es, es[0].at);
  }
}
