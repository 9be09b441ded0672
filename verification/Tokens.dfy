/**
 Conservation of one-time credentials: however watcher steps fall between a knock's
 lookup, its consumption of the token and its opening of the gate, a token is never
 spent more often than it was installed.
 */
module Tokens {
  import opened Wire
  import opened Core
  import opened Adapters
  import opened System

  function Count(b: bool): nat {
    if b then 1 else 0
  }

  /** Event `i` installs token `id`. */
  ghost predicate InstallsToken(r: Run, id: Thumbprint, i: nat)
    requires r.Valid()
  {
    && i < |r.events| && r.events[i].act.SetTokens? && r.states[i].watch.SettingTokens?
    && Lists(r.states[i].watch.bundle.tokens, id)
  }

  /** Times `id` was installed before event `i`, the initial table included. */
  ghost function Installs(r: Run, id: Thumbprint, i: nat): nat
    requires r.Valid() && i <= |r.events|
  {
    if i == 0 then Count(id in r.states[0].tokens)
    else Installs(r, id, i - 1) + Count(InstallsToken(r, id, i - 1))
  }

  /** Event `i` opens the gate on the strength of the one-time token `id`. */
  ghost predicate Spends(r: Run, id: Thumbprint, i: nat)
    requires r.Valid()
  {
    r.Opens(i) && r.states[i].knock.policy.singleUse && r.states[i].knock.Thumb() == id
  }

  ghost function Spendings(r: Run, id: Thumbprint, i: nat): nat
    requires r.Valid() && i <= |r.events|
  {
    if i == 0 then 0 else Spendings(r, id, i - 1) + Count(Spends(r, id, i - 1))
  }

  /** The knock in progress holds `id` as a one-time credential it has not yet burned. */
  predicate Holds(ph: Phase, id: Thumbprint) {
    (ph.Vetting? || ph.Accepted?) && ph.policy.singleUse && ph.Thumb() == id
  }

  /** The knock in progress has burned `id` and is about to open. */
  predicate Spending(ph: Phase, id: Thumbprint) {
    ph.Burned? && ph.policy.singleUse && ph.Thumb() == id
  }

  /** Openings made or certain, plus the one the token may still yield, never exceed the installs. */
  ghost predicate Conserved(r: Run, id: Thumbprint, i: nat)
    requires r.Valid() && i <= |r.events|
  {
    var s := r.states[i];
    Spendings(r, id, i) + Count(Spending(s.knock, id)) + Count(id in s.tokens || Holds(s.knock, id)) <= Installs(r, id, i)
  }

  lemma ConservedStep(r: Run, id: Thumbprint, i: nat)
    requires r.Valid() && i < |r.events| && Conserved(r, id, i)
    ensures Conserved(r, id, i + 1)
  {
    TrustStep(r, i);
    KnockPhaseStep(r, i);
  }

  /** For every token and every schedule, openings credited to it never exceed its installs. */
  lemma {:induction false} TokensAreConserved(r: Run, id: Thumbprint, i: nat)
    requires r.Valid() && i <= |r.events|
    ensures Conserved(r, id, i)
    ensures Spendings(r, id, i) <= Installs(r, id, i)
  {
    if i > 0 {
      TokensAreConserved(r, id, i - 1);
      ConservedStep(r, id, i - 1);
    }
  }

  lemma {:induction false} SpendingsCount(r: Run, id: Thumbprint, g: nat, h: nat, i: nat)
    requires r.Valid() && g < h < i <= |r.events|
    requires Spends(r, id, g) && Spends(r, id, h)
    ensures Spendings(r, id, i) >= 2
  {
    if i > h + 1 {
      SpendingsCount(r, id, g, h, i - 1);
    } else {
      SpentOnce(r, id, g, h);
    }
  }

  lemma {:induction false} SpentOnce(r: Run, id: Thumbprint, g: nat, i: nat)
    requires r.Valid() && g < i <= |r.events| && Spends(r, id, g)
    ensures Spendings(r, id, i) >= 1
  {
    if i > g + 1 {
      SpentOnce(r, id, g, i - 1);
    }
  }

  lemma {:induction false} NoInstallNoCount(r: Run, id: Thumbprint, i: nat)
    requires r.Valid() && i <= |r.events|
    requires forall j: nat | j < i :: !InstallsToken(r, id, j)
    ensures Installs(r, id, i) <= 1
  {
    if i > 0 {
      NoInstallNoCount(r, id, i - 1);
    }
  }

  /** A token that no bundle installs again opens the gate at most once. */
  lemma WithoutReinstallOpensOnce(r: Run, id: Thumbprint, g: nat, h: nat)
    requires r.Valid() && Spends(r, id, g) && Spends(r, id, h)
    requires forall j: nat | j < g || j < h :: !InstallsToken(r, id, j)
    ensures g == h
  {
    var lo, hi := if g < h then g else h, if g < h then h else g;
    if g != h {
      SpendingsCount(r, id, lo, hi, hi + 1);
      TokensAreConserved(r, id, hi + 1);
      NoInstallNoCount(r, id, hi + 1);
      assert false;
    }
  }
}
