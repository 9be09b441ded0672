/**
 One whole reload: the watcher's steps, run without interruption, do what its program does.
 */
module Reload {
  import opened Wire
  import opened Adapters
  import opened Gatekeeper
  import opened System

  function Inserts(order: seq<U16>): seq<Action> {
    seq(|order|, i requires 0 <= i < |order| => InsertPort(order[i]))
  }

  function Removes(order: seq<U16>): seq<Action> {
    seq(|order|, i requires 0 <= i < |order| => RemovePort(order[i]))
  }

  function WithPorts(s: State, ports: set<U16>, watch: Watch): State {
    s.(plane := s.plane.(protectedPorts := ports), watch := watch)
  }

  lemma {:induction false} Inserting(p: Params, s: State, es: seq<Event>, order: seq<U16>, added: set<U16>)
    requires s.watch.Porting? && added <= s.watch.add
    requires Enumerates(order, added) && Does(es, Inserts(order))
    ensures Steps(p, s, es)
            == WithPorts(s, InsertAll(s.plane.protectedPorts, order), s.watch.(add := s.watch.add - added))
  {
    if order == [] {
      assert added == {};
    } else {
      var n := |order| - 1;
      EnumeratesPrefix(order, added);
      assert order[n] in order;
      Inserting(p, s, es[..n], order[..n], added - {order[n]});
      StepsLast(p, s, es);
      assert s.watch.add - (added - {order[n]}) - {order[n]} == s.watch.add - added;
    }
  }

  lemma {:induction false} Removing(p: Params, s: State, es: seq<Event>, order: seq<U16>, dropped: set<U16>)
    requires s.watch.Porting? && s.watch.add == {} && dropped <= s.watch.drop
    requires Enumerates(order, dropped) && Does(es, Removes(order))
    ensures Steps(p, s, es)
            == WithPorts(s, s.plane.protectedPorts - dropped, s.watch.(drop := s.watch.drop - dropped))
  {
    if order == [] {
      assert dropped == {};
    } else {
      var n := |order| - 1;
      EnumeratesPrefix(order, dropped);
      assert order[n] in order;
      Removing(p, s, es[..n], order[..n], dropped - {order[n]});
      StepsLast(p, s, es);
      assert s.watch.drop - (dropped - {order[n]}) - {order[n]} == s.watch.drop - dropped;
      assert s.plane.protectedPorts - (dropped - {order[n]}) - {order[n]} == s.plane.protectedPorts - dropped;
    }
  }

  function Swapped(s: State, b: Bundle): State {
    s.(clients := Installed(b.clients), tokens := Installed(b.tokens),
       watch := Porting(b, b.Ports() - s.known, s.known - b.Ports()))
  }

  /** The first three steps: newer bundle taken up, both tables swapped, both port lists worked out. */
  lemma Swapping(p: Params, s: State, es: seq<Event>, b: Bundle)
    requires s.watch.Watching? && b.generation > s.applied
    requires Does(es, [LoadBundle(Some(b)), SetClients, SetTokens])
    ensures Steps(p, s, es) == Swapped(s, b)
  {
    var s1 := Step(p, s, es[0]);
    var s2 := Step(p, s1, es[1]);
    var s3 := Step(p, s2, es[2]);
    assert Steps(p, s2, es[2..]) == s3;
    assert es[1..][0] == es[1] && es[1..][1..] == es[2..];
    assert Steps(p, s1, es[1..]) == s3;
  }

  lemma StepsInStretches(p: Params, s: State, a: seq<Event>, b: seq<Event>, c: seq<Event>, e: Event)
    ensures Steps(p, s, a + b + c + [e]) == Step(p, Steps(p, Steps(p, Steps(p, s, a), b), c), e)
  {
    StepsConcat(p, s, a, b);
    StepsConcat(p, s, a + b, c);
    StepsConcat(p, s, a + b + c, [e]);
  }

  /** The state the program leaves, for the insertion order given. */
  function Reloaded(s: State, b: Bundle, added: seq<U16>): State {
    s.(clients := Installed(b.clients), tokens := Installed(b.tokens), known := b.Ports(), applied := b.generation,
       plane := s.plane.(protectedPorts := InsertAll(s.plane.protectedPorts, added) - (s.known - b.Ports())))
  }

  /** Both port lists worked off, then the commit. */
  lemma PortingAndCommit(
    p: Params, s: State, adding: seq<Event>, dropping: seq<Event>, commit: Event, added: seq<U16>, dropped: seq<U16>)
    requires s.watch.Porting? && commit.act == Commit
    requires Enumerates(added, s.watch.add) && Does(adding, Inserts(added))
    requires Enumerates(dropped, s.watch.drop) && Does(dropping, Removes(dropped))
    ensures Step(p, Steps(p, Steps(p, s, adding), dropping), commit)
            == WithPorts(s, InsertAll(s.plane.protectedPorts, added) - s.watch.drop, Watching)
               .(known := s.watch.bundle.Ports(), applied := s.watch.bundle.generation)
  {
    var none: set<U16> := {};
    Inserting(p, s, adding, added, s.watch.add);
    assert s.watch.add - s.watch.add == none && s.watch.drop - s.watch.drop == none;
    var s2 := WithPorts(s, InsertAll(s.plane.protectedPorts, added), s.watch.(add := none));
    Removing(p, s2, dropping, dropped, s.watch.drop);
  }

  /**
   The watcher's steps for a newer bundle, uninterrupted, leave exactly what
   `Watcher.Reload` promises for the same insertion order.
   */
  lemma ReloadIsTheProgram(
    p: Params, s: State, swapping: seq<Event>, adding: seq<Event>, dropping: seq<Event>, commit: Event,
    b: Bundle, added: seq<U16>, dropped: seq<U16>)
    requires s.watch.Watching? && b.generation > s.applied
    requires Enumerates(added, b.Ports() - s.known) && Enumerates(dropped, s.known - b.Ports())
    requires Does(swapping, [LoadBundle(Some(b)), SetClients, SetTokens])
    requires Does(adding, Inserts(added)) && Does(dropping, Removes(dropped)) && commit.act == Commit
    ensures Steps(p, s, swapping + adding + dropping + [commit]) == Reloaded(s, b, added)
  {
    StepsInStretches(p, s, swapping, adding, dropping, commit);
    Swapping(p, s, swapping, b);
    PortingAndCommit(p, Swapped(s, b), adding, dropping, commit, added, dropped);
  }

  /** A watcher that does not take the bundle up does nothing at all, whatever steps are scheduled. */
  lemma {:induction false} OtherwiseNothingHappens(p: Params, s: State, es: seq<Event>)
    requires s.watch.Watching?
    requires forall i | 0 <= i < |es| :: WatchAction(es[i].act)
    requires forall i | 0 <= i < |es| ::
               es[i].act.LoadBundle? && es[i].act.loaded.Some? ==> es[i].act.loaded.value.generation <= s.applied
    ensures Steps(p, s, es) == s
    decreases |es|
  {
    if es != [] {
      assert WatchAction(es[0].act) && Step(p, s, es[0]) == s;
      OtherwiseNothingHappens(p, s, es[1..]);
    }
  }
}
