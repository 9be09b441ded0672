/**
 Replay safety across two clocks.  Freshness is judged by the wall clock, forgetting by
 the monotonic clock; the replay window of 2·skew + 1 seconds outlasts the acceptance
 span of 2·skew as long as the clocks drift apart by less than a second.
 */
module ReplaySafety {
  import opened Wire
  import opened DataPlane
  import opened Core
  import opened Adapters
  import opened System
  import NonBypass

  /** Event `d` accepts the knock's nonce. */
  ghost predicate Accepts(r: Run, d: nat)
    requires r.Valid()
  {
    d < |r.events| && r.events[d].act.Decide? && r.states[d].knock.Vetting? && r.states[d + 1].knock.Accepted?
  }

  ghost function NonceAt(r: Run, d: nat): Nonce
    requires r.Valid() && Accepts(r, d)
  {
    r.states[d].knock.knock.content.auth.nonce
  }

  /** The cache changes only by pruning, and by recording what it accepts. */
  lemma SeenStep(r: Run, i: nat)
    requires r.Valid() && i < |r.events|
    ensures var pruned := Prune(r.states[i].seen, r.events[i].at, r.params.Window());
            if Accepts(r, i) then
              NonceAt(r, i) !in pruned && r.states[i + 1].seen == pruned[NonceAt(r, i) := r.events[i].at]
            else r.states[i + 1].seen == r.states[i].seen || r.states[i + 1].seen == pruned
  {
    KnockPhaseStep(r, i);
  }

  /** Before event `i`, the acceptance at `d` is still in the cache or a full window has gone by. */
  ghost predicate Remembered(r: Run, d: nat, i: nat)
    requires r.Valid() && Accepts(r, d) && d < i <= |r.events|
  {
    var n, seen := NonceAt(r, d), r.states[i].seen;
    || (n in seen && seen[n] >= r.events[d].at)
    || r.events[i - 1].at >= r.events[d].at + r.params.Window()
  }

  lemma {:induction false} AcceptanceIsRemembered(r: Run, d: nat, i: nat)
    requires r.Valid() && Accepts(r, d) && d < i <= |r.events|
    ensures Remembered(r, d, i)
  {
    SeenStep(r, i - 1);
    assert r.Ordered(d, i - 1);
    if i > d + 1 {
      AcceptanceIsRemembered(r, d, i - 1);
      assert r.Ordered(i - 2, i - 1);
    }
  }

  /** A nonce is accepted again only a full window later. */
  lemma AcceptancesAreSpaced(r: Run, d: nat, e: nat)
    requires r.Valid() && Accepts(r, d) && Accepts(r, e) && d < e
    requires NonceAt(r, d) == NonceAt(r, e)
    ensures r.events[e].at >= r.events[d].at + r.params.Window()
  {
    AcceptanceIsRemembered(r, d, e);
    SeenStep(r, e);
    assert r.Ordered(e - 1, e);
  }

  /** The acceptance behind a committed knock; nothing opens between the two. */
  lemma {:induction false} AcceptanceOf(r: Run, i: nat) returns (d: nat)
    requires r.Valid() && i <= |r.events| && r.states[i].knock.Committed()
    ensures d < i && Accepts(r, d)
    ensures r.states[d].knock.knock == r.states[i].knock.knock && r.events[d].at == r.states[i].knock.at
    ensures forall j: nat | d < j <= i :: r.states[j].knock.Committed()
  {
    KnockPhaseStep(r, i - 1);
    if r.states[i - 1].knock.Committed() {
      d := AcceptanceOf(r, i - 1);
    } else {
      d := i - 1;
    }
  }

  /** Every cached nonce was accepted at its recorded time. */
  lemma {:induction false} SeenIsEarned(r: Run, i: nat, n: Nonce)
    requires r.Valid() && i <= |r.events| && n in r.states[i].seen
    ensures exists d: nat :: d < i && Accepts(r, d) && NonceAt(r, d) == n && r.events[d].at == r.states[i].seen[n]
  {
    if i > 0 {
      SeenStep(r, i - 1);
      if Accepts(r, i - 1) && n == NonceAt(r, i - 1) {
      } else {
        SeenIsEarned(r, i - 1, n);
      }
    }
  }

  /** The nonce of the knock being decided was accepted less than a window ago. */
  ghost predicate RecentlyAccepted(r: Run, i: nat, n: Nonce)
    requires r.Valid() && i < |r.events|
  {
    exists d: nat :: d < i && Accepts(r, d) && NonceAt(r, d) == n && r.events[i].at - r.events[d].at < r.params.Window()
  }

  /**
   A knock without a flaw is refused as a replay if and only if its nonce was accepted less
   than a window before: pruning forgets nothing too early and keeps nothing too long.
   */
  lemma RefusedAsReplayIff(r: Run, i: nat)
    requires r.Valid() && i < |r.events| && r.events[i].act.Decide? && r.states[i].knock.Vetting?
    requires Vet(r.params.crypto, r.states[i].knock.policy, r.states[i].knock.knock.content).None?
    ensures Outcome(r.params, r.states[i], r.events[i]) == Some(Rejected(Replay))
            <==> RecentlyAccepted(r, i, r.states[i].knock.knock.content.auth.nonce)
  {
    var n, now := r.states[i].knock.knock.content.auth.nonce, r.events[i].at;
    if n in r.states[i].seen {
      SeenIsEarned(r, i, n);
    }
    if RecentlyAccepted(r, i, n) {
      var d: nat :| d < i && Accepts(r, d) && NonceAt(r, d) == n && now - r.events[d].at < r.params.Window();
      AcceptanceIsRemembered(r, d, i);
      assert r.Ordered(i - 1, i);
    }
  }

  /** How far the monotonic clock gains on the wall clock between the readings of two openings. */
  ghost function Drift(r: Run, g: nat, h: nat): int
    requires r.Valid() && r.Opens(g) && r.Opens(h)
  {
    (r.states[h].knock.at - r.states[g].knock.at) - (r.OpenedKnock(h).wall - r.OpenedKnock(g).wall)
  }

  /** The most that two wall readings within the skew of one timestamp can differ. */
  function Span(p: Params): nat {
    if p.SkewNanos() * 2 < 0x1_0000_0000_0000_0000 then p.SkewNanos() * 2 else 0xFFFF_FFFF_FFFF_FFFF
  }

  ghost predicate SameAuthorization(r: Run, g: nat, h: nat)
    requires r.Valid() && r.Opens(g) && r.Opens(h)
  {
    var a, b := r.OpenedKnock(g).content.auth, r.OpenedKnock(h).content.auth;
    a.nonce == b.nonce && a.timestamp == b.timestamp
  }

  /** Opening twice takes a window that the monotonic clock can outlast, and a drift of all it exceeds the span by. */
  lemma OpeningTwiceTakesDrift(r: Run, g: nat, h: nat)
    requires r.Valid() && r.Opens(g) && r.Opens(h) && g < h && SameAuthorization(r, g, h)
    ensures r.params.Window() < 0x1_0000_0000_0000_0000
    ensures Drift(r, g, h) >= r.params.Window() - Span(r.params)
  {
    var d := AcceptanceOf(r, g);
    var e := AcceptanceOf(r, h);
    KnockPhaseStep(r, g);
    assert e > g;
    AcceptancesAreSpaced(r, d, e);
    NonBypass.OpeningIsAuthentic(r, g);
    NonBypass.OpeningIsAuthentic(r, h);
  }

  /**
   No authorization (nonce and timestamp) opens the gate twice while the drift stays under a
   second, if the window was computed without wrapping or came out longer than any u64 time.
   */
  lemma NoAuthorizationOpensTwice(r: Run, g: nat, h: nat)
    requires r.Valid() && (r.params.WindowInRange() || r.params.Window() >= 0x1_0000_0000_0000_0000)
    requires r.Opens(g) && r.Opens(h) && g < h
    requires Drift(r, g, h) < SECOND
    ensures !SameAuthorization(r, g, h)
  {
    if SameAuthorization(r, g, h) {
      OpeningTwiceTakesDrift(r, g, h);
      assert false;
    }
  }

  /** So it is for every skew a configuration file can hold. */
  lemma LoadedGateOpensOnce(r: Run, g: nat, h: nat)
    requires r.Valid() && r.params.Loadable()
    requires r.Opens(g) && r.Opens(h) && g < h
    requires Drift(r, g, h) < SECOND
    ensures !SameAuthorization(r, g, h)
  {
    LoadableNeverWraps(r.params);
    NoAuthorizationOpensTwice(r, g, h);
  }

  lemma LoadableNeverWraps(p: Params)
    requires p.Loadable()
    ensures p.WindowInRange()
  {
  }
}
