/**
 One `admit` spread over a run: exactly when a knock opens the gate while watcher and data
 plane go on between any two of its steps.
 */
module Serving {
  import opened Wire
  import opened Frame
  import opened Core
  import opened Adapters
  import opened System

  /** Where in a run the six steps of an `admit` lie. */
  datatype Visit = Visit(arrive: nat, clients: nat, tokens: nat, decide: nat, burn: nat, open: nat)

  /** The knock loop does nothing from event `i` on and before event `j`. */
  ghost predicate Quiet(r: Run, i: nat, j: nat)
    requires r.Valid() && j <= |r.events|
  {
    forall k: nat | i <= k < j :: !KnockAction(r.events[k].act)
  }

  /** The knock loop serves this packet, and nothing else, over the visit. */
  ghost predicate Serves(r: Run, v: Visit, packet: seq<Byte>, source: IpAddr, wall: U64, wrote: bool)
    requires r.Valid()
  {
    && v.arrive < v.clients < v.tokens < v.decide < v.burn < v.open < |r.events|
    && r.states[v.arrive].knock.Idle? && r.events[v.arrive].act == Arrive(packet, source, wall)
    && r.events[v.clients].act.ReadClients? && r.events[v.tokens].act.ReadTokens? && r.events[v.decide].act.Decide?
    && r.events[v.burn].act.Burn? && r.events[v.open].act == OpenGate(wrote)
    && Quiet(r, v.arrive + 1, v.clients) && Quiet(r, v.clients + 1, v.tokens) && Quiet(r, v.tokens + 1, v.decide)
    && Quiet(r, v.decide + 1, v.burn) && Quiet(r, v.burn + 1, v.open)
  }

  /** The policy the visit finds, each table read at its own moment. */
  function PolicyAt(r: Run, v: Visit, id: Thumbprint): Option<ClientPolicy>
    requires v.clients < |r.states| && v.tokens < |r.states|
  {
    PolicyFor(r.states[v.clients].clients, r.states[v.tokens].tokens, r.params.suite, id)
  }

  /** The knock passes every check at the moment the visit makes it. */
  ghost predicate Welcome(r: Run, v: Visit, packet: seq<Byte>, source: IpAddr, wall: U64, wrote: bool)
    requires r.Valid() && Serves(r, v, packet, source, wall, wrote)
  {
    var screened := Screen(r.params.Cfg(), r.params.crypto, packet, wall);
    && screened.Ok?
    && var o := screened.value;
       var policy := PolicyAt(r, v, o.auth.thumbprint);
       && policy.Some? && Vet(r.params.crypto, policy.value, o).None?
       && o.auth.nonce !in Prune(r.states[v.arrive].seen, r.events[v.decide].at, r.params.Window())
  }

  /** Each check in the tables' and primitives' own terms, at the moment it is made. */
  lemma WelcomeExactly(r: Run, v: Visit, packet: seq<Byte>, source: IpAddr, wall: U64, wrote: bool)
    requires r.Valid() && Serves(r, v, packet, source, wall, wrote)
    ensures var p, clients, tokens := r.params, r.states[v.clients].clients, r.states[v.tokens].tokens;
            Welcome(r, v, packet, source, wall, wrote) <==>
              && p.crypto.open(packet).Some?
              && var o := p.crypto.open(packet).value;
                 var id, ts, n := o.auth.thumbprint, o.auth.timestamp, o.auth.nonce;
                 && o.auth.gateId == p.gateId
                 && wall <= ts + p.skewSeconds * 1_000_000_000 && ts <= wall + p.skewSeconds * 1_000_000_000
                 && (if id in clients then
                       && p.crypto.verify(p.suite, clients[id].key, o.signingBytes, o.auth.signature)
                       && forall q | q in o.auth.ports :: q in clients[id].ports
                     else
                       && id in tokens
                       && p.crypto.verifyMac(tokens[id].key, o.signingBytes, o.auth.signature)
                       && forall q | q in o.auth.ports :: q in tokens[id].ports)
                 && (n in r.states[v.arrive].seen ==>
                       r.events[v.decide].at - r.states[v.arrive].seen[n] >= r.params.Window())
  {
    if r.params.crypto.open(packet).Some? {
      SkewExactly(r.params, wall, r.params.crypto.open(packet).value.auth.timestamp);
    }
  }

  lemma {:induction false} QuietKeepsKnock(r: Run, i: nat, j: nat)
    requires r.Valid() && i <= j <= |r.events| && Quiet(r, i, j)
    ensures r.states[j].knock == r.states[i].knock && r.states[j].seen == r.states[i].seen
  {
    if i < j {
      QuietKeepsKnock(r, i, j - 1);
      KnockPhaseStep(r, j - 1);
    }
  }

  /** Up to the decision: the knock is being vetted exactly if it passed screening and a policy was found. */
  lemma VisitReachesVetting(r: Run, v: Visit, packet: seq<Byte>, source: IpAddr, wall: U64, wrote: bool)
    requires r.Valid() && Serves(r, v, packet, source, wall, wrote)
    ensures r.states[v.decide].seen == r.states[v.arrive].seen
    ensures var screened := Screen(r.params.Cfg(), r.params.crypto, packet, wall);
            var policy := if screened.Ok? then PolicyAt(r, v, screened.value.auth.thumbprint) else None;
            r.states[v.decide].knock == if policy.Some? then Vetting(Knock(screened.value, source, wall), policy.value) else Idle
  {
    KnockPhaseStep(r, v.arrive);
    QuietKeepsKnock(r, v.arrive + 1, v.clients);
    KnockPhaseStep(r, v.clients);
    QuietKeepsKnock(r, v.clients + 1, v.tokens);
    KnockPhaseStep(r, v.tokens);
    QuietKeepsKnock(r, v.tokens + 1, v.decide);
  }

  /** From the decision on: an accepted knock opens, and no other. */
  lemma DecisionStands(r: Run, v: Visit, packet: seq<Byte>, source: IpAddr, wall: U64, wrote: bool)
    requires r.Valid() && Serves(r, v, packet, source, wall, wrote)
    requires r.states[v.decide].knock.Vetting? || r.states[v.decide].knock.Idle?
    ensures var ph := r.states[v.decide + 1].knock;
            r.states[v.open].knock == if ph.Accepted? then Burned(ph.knock, ph.policy, ph.at) else Idle
  {
    KnockPhaseStep(r, v.decide);
    QuietKeepsKnock(r, v.decide + 1, v.burn);
    KnockPhaseStep(r, v.burn);
    QuietKeepsKnock(r, v.burn + 1, v.open);
  }

  /**
   Whatever the other threads do in between, a visit opens the gate exactly if its knock
   passes every check at the moment that check is made.
   */
  lemma VisitOpensIffWelcome(r: Run, v: Visit, packet: seq<Byte>, source: IpAddr, wall: U64, wrote: bool)
    requires r.Valid() && Serves(r, v, packet, source, wall, wrote)
    ensures r.Opens(v.open) <==> Welcome(r, v, packet, source, wall, wrote)
    ensures Welcome(r, v, packet, source, wall, wrote) ==>
              var o := Screen(r.params.Cfg(), r.params.crypto, packet, wall).value;
              r.states[v.open].knock
              == Burned(Knock(o, source, wall), PolicyAt(r, v, o.auth.thumbprint).value, r.events[v.decide].at)
  {
    VisitReachesVetting(r, v, packet, source, wall, wrote);
    KnockPhaseStep(r, v.decide);
    DecisionStands(r, v, packet, source, wall, wrote);
  }
}
