/**
 The daemon's stateful adapters: the pruned replay cache, the hot-swappable trust store
 and the writer of the kernel allow-list.  Mirrors spa-gated/src/adapters.rs.
 */
module Adapters {
  import opened Wire
  import opened Frame
  import opened DataPlane
  import opened Core

  // ---- replay cache --------------------------------------------------------------

  /** Forget every nonce recorded `window` or longer ago. */
  function Prune(seen: map<Nonce, U64>, now: U64, window: nat): map<Nonce, U64> {
    map n | n in seen && now - seen[n] < window :: seen[n]
  }

  function ReplayAdmit(seen: map<Nonce, U64>, n: Nonce, now: U64, window: nat): (bool, map<Nonce, U64>) {
    var kept := Prune(seen, now, window);
    if n in kept then (false, kept) else (true, kept[n := now])
  }

  /** An accepted call of the replay guard. */
  datatype Call = Call(nonce: Nonce, at: U64)

  /** The accepted calls less than `window` old at `now`. */
  function Recent(calls: seq<Call>, now: U64, window: nat): seq<Call> {
    if calls == [] then []
    else
      var last := calls[|calls| - 1];
      Recent(calls[..|calls| - 1], now, window) + if now - last.at < window then [last] else []
  }

  /** The same calls as a table from nonce to time. */
  function RecentTable(calls: seq<Call>, now: U64, window: nat): map<Nonce, U64> {
    if calls == [] then map[]
    else
      var last := calls[|calls| - 1];
      var before := RecentTable(calls[..|calls| - 1], now, window);
      if now - last.at < window then before[last.nonce := last.at] else before
  }

  /** Two accepted calls of one nonce lie at least a window apart. */
  predicate Spaced(a: Call, b: Call, window: nat) {
    a.nonce == b.nonce ==> b.at - a.at >= window
  }

  /** A full, never-pruned history: nothing in the future, and no nonce accepted twice within a window. */
  ghost predicate IsHistory(calls: seq<Call>, now: U64, window: nat) {
    && (forall i | 0 <= i < |calls| :: calls[i].at <= now)
    && (forall i, j | 0 <= i < j < |calls| :: Spaced(calls[i], calls[j], window))
  }

  /** Every table entry is an accepted call of the last window. */
  lemma {:induction false} RecentTableSound(calls: seq<Call>, now: U64, window: nat)
    ensures forall n | n in RecentTable(calls, now, window) ::
              now - RecentTable(calls, now, window)[n] < window
              && exists i :: 0 <= i < |calls| && calls[i] == Call(n, RecentTable(calls, now, window)[n])
  {
    if calls != [] {
      var m := |calls| - 1;
      RecentTableSound(calls[..m], now, window);
      var t, before := RecentTable(calls, now, window), RecentTable(calls[..m], now, window);
      forall n | n in t ensures now - t[n] < window && exists i :: 0 <= i < |calls| && calls[i] == Call(n, t[n]) {
        if n in before && t[n] == before[n] {
          var i :| 0 <= i < m && calls[..m][i] == Call(n, t[n]);
          assert calls[i] == Call(n, t[n]);
        } else {
          assert calls[m] == Call(n, t[n]);
        }
      }
    }
  }

  /** Every accepted call of the last window is in the table, at its own time. */
  lemma {:induction false} RecentTableComplete(calls: seq<Call>, now: U64, window: nat, i: nat)
    requires IsHistory(calls, now, window)
    requires i < |calls| && now - calls[i].at < window
    ensures calls[i].nonce in RecentTable(calls, now, window)
    ensures RecentTable(calls, now, window)[calls[i].nonce] == calls[i].at
  {
    var m := |calls| - 1;
    if i < m {
      RecentTableComplete(calls[..m], now, window, i);
    }
  }

  /** The newest call, if recent, is for a nonce with no earlier recent call. */
  lemma NewestIsAlone(calls: seq<Call>, now: U64, window: nat)
    requires IsHistory(calls, now, window)
    requires calls != [] && now - calls[|calls| - 1].at < window
    ensures calls[|calls| - 1].nonce !in RecentTable(calls[..|calls| - 1], now, window)
  {
    var m := |calls| - 1;
    RecentTableSound(calls[..m], now, window);
    assert forall i | 0 <= i < m :: Spaced(calls[..m][i], calls[m], window);
  }

  /** No two recent calls share a nonce, so the table is as large as their number. */
  lemma {:induction false} RecentTableSize(calls: seq<Call>, now: U64, window: nat)
    requires IsHistory(calls, now, window)
    ensures |RecentTable(calls, now, window)| == |Recent(calls, now, window)|
  {
    if calls != [] {
      RecentTableSize(calls[..|calls| - 1], now, window);
      if now - calls[|calls| - 1].at < window {
        NewestIsAlone(calls, now, window);
      }
    }
  }

  /** Accepting a nonce with no recent call extends the history and the table together. */
  lemma HistoryExtends(calls: seq<Call>, n: Nonce, now: U64, window: nat)
    requires IsHistory(calls, now, window) && window > 0
    requires forall i | 0 <= i < |calls| :: Spaced(calls[i], Call(n, now), window)
    ensures IsHistory(calls + [Call(n, now)], now, window)
    ensures RecentTable(calls + [Call(n, now)], now, window) == RecentTable(calls, now, window)[n := now]
  {
    var more := calls + [Call(n, now)];
    assert more[..|calls|] == calls;
  }

  /** Pruning the recent table of one moment gives the recent table of any later one. */
  lemma PruneIsRecent(calls: seq<Call>, past: U64, now: U64, window: nat)
    requires IsHistory(calls, past, window) && past <= now
    ensures IsHistory(calls, now, window)
    ensures Prune(RecentTable(calls, past, window), now, window) == RecentTable(calls, now, window)
  {
    RecentTableSound(calls, past, window);
    RecentTableSound(calls, now, window);
    var p, r := Prune(RecentTable(calls, past, window), now, window), RecentTable(calls, now, window);
    forall n | n in p ensures n in r && r[n] == p[n] {
      var i :| 0 <= i < |calls| && calls[i] == Call(n, p[n]);
      RecentTableComplete(calls, now, window, i);
    }
    forall n | n in r ensures n in p {
      var i :| 0 <= i < |calls| && calls[i] == Call(n, r[n]);
      RecentTableComplete(calls, past, window, i);
    }
  }

  /** A nonce is refused by the pruned table exactly when the full history holds a recent call for it. */
  lemma FreshIffNoRecentCall(calls: seq<Call>, n: Nonce, now: U64, window: nat)
    requires IsHistory(calls, now, window)
    ensures n !in RecentTable(calls, now, window)
            <==> forall i | 0 <= i < |calls| :: Spaced(calls[i], Call(n, now), window)
  {
    RecentTableSound(calls, now, window);
    forall i | 0 <= i < |calls| && !Spaced(calls[i], Call(n, now), window)
      ensures n in RecentTable(calls, now, window)
    {
      RecentTableComplete(calls, now, window, i);
    }
  }

  /** One call of the guard on the recent table: right about the full history, and in step with it afterwards. */
  lemma GuardFollowsHistory(calls: seq<Call>, n: Nonce, past: U64, now: U64, window: nat)
    requires IsHistory(calls, past, window) && past <= now && window > 0
    ensures var (novel, table) := ReplayAdmit(RecentTable(calls, past, window), n, now, window);
            var calls' := calls + if novel then [Call(n, now)] else [];
            && (novel <==> forall i | 0 <= i < |calls| :: Spaced(calls[i], Call(n, now), window))
            && IsHistory(calls', now, window) && table == RecentTable(calls', now, window)
            && |table| == |Recent(calls', now, window)|
  {
    PruneIsRecent(calls, past, now, window);
    FreshIffNoRecentCall(calls, n, now, window);
    if n !in RecentTable(calls, now, window) {
      HistoryExtends(calls, n, now, window);
      RecentTableSize(calls + [Call(n, now)], now, window);
    } else {
      RecentTableSize(calls, now, window);
      assert calls + [] == calls;
    }
  }

  /**
   The pruned cache, with the full history of accepted calls as its ghost specification:
   it forgets, and behaves as if it never did.
   */
  class MemReplay {
    var seen: map<Nonce, U64>
    const window: nat
    ghost var calls: seq<Call>
    ghost var last: U64

    ghost predicate Valid()
      reads this
    {
      IsHistory(calls, last, window) && seen == RecentTable(calls, last, window)
    }

    constructor (window: nat)
      ensures Valid() && this.window == window && calls == [] && last == 0 && seen == map[]
    {
      this.window := window;
      seen := map[];
      calls := [];
      last := 0;
    }

    method Admit(n: Nonce, now: U64) returns (novel: bool)
      requires Valid() && last <= now && window > 0
      modifies this
      ensures Valid() && last == now
      ensures novel <==> forall i | 0 <= i < |old(calls)| :: Spaced(old(calls)[i], Call(n, now), window)
      ensures calls == old(calls) + if novel then [Call(n, now)] else []
      ensures |seen| == |Recent(calls, now, window)|
      ensures (novel, seen) == ReplayAdmit(old(seen), n, now, window)
    {
      GuardFollowsHistory(calls, n, last, now, window);
      seen := map k | k in seen && now - seen[k] < window :: seen[k];
      assert seen == Prune(old(seen), now, window);
      last := now;
      novel := n !in seen;
      if novel {
        seen := seen[n := now];
      }
      calls := calls + if novel then [Call(n, now)] else [];
    }
  }

  // ---- trust store --------------------------------------------------------------------

  /** A bundle's client (thumbprint, public key) or one-time token (id, shared secret). */
  datatype Credential = Credential(id: Thumbprint, key: seq<Byte>, ports: seq<U16>)

  datatype Entry = Entry(key: seq<Byte>, ports: seq<U16>)

  predicate Lists(cs: seq<Credential>, id: Thumbprint) {
    exists i | 0 <= i < |cs| :: cs[i].id == id
  }

  /** The table a credential list installs; a later duplicate id overrides an earlier one. */
  function Installed(cs: seq<Credential>): (m: map<Thumbprint, Entry>)
    ensures forall id :: id in m <==> Lists(cs, id)
  {
    if cs == [] then map[]
    else
      var last := cs[|cs| - 1];
      var m := Installed(cs[..|cs| - 1])[last.id := Entry(last.key, last.ports)];
      assert forall id | Lists(cs[..|cs| - 1], id) :: Lists(cs, id);
      assert forall id | Lists(cs, id) && id != last.id :: Lists(cs[..|cs| - 1], id);
      m
  }

  /** The table holds each credential's own key and ports; of a repeated id the last credential's. */
  lemma {:induction false} LastCredentialWins(cs: seq<Credential>, i: nat)
    requires i < |cs| && forall j | i < j < |cs| :: cs[j].id != cs[i].id
    ensures cs[i].id in Installed(cs) && Installed(cs)[cs[i].id] == Entry(cs[i].key, cs[i].ports)
  {
    assert Lists(cs, cs[i].id);
    var n := |cs| - 1;
    if i < n {
      LastCredentialWins(cs[..n], i);
    }
  }

  /** `m` holds exactly the listed ids, each with the key and ports of its last credential. */
  ghost predicate HoldsLast(m: map<Thumbprint, Entry>, cs: seq<Credential>) {
    && (forall id | id in m :: exists i :: 0 <= i < |cs| && cs[i].id == id)
    && (forall i | 0 <= i < |cs| :: cs[i].id in m)
    && (forall i | 0 <= i < |cs| && (forall j | i < j < |cs| :: cs[j].id != cs[i].id) ::
          m[cs[i].id] == Entry(cs[i].key, cs[i].ports))
  }

  lemma InstalledHolds(cs: seq<Credential>)
    ensures HoldsLast(Installed(cs), cs)
  {
    forall i | 0 <= i < |cs| ensures cs[i].id in Installed(cs) {
      assert Lists(cs, cs[i].id);
    }
    forall i | 0 <= i < |cs| && (forall j | i < j < |cs| :: cs[j].id != cs[i].id)
      ensures Installed(cs)[cs[i].id] == Entry(cs[i].key, cs[i].ports)
    {
      LastCredentialWins(cs, i);
    }
  }

  function ClientPolicyOf(e: Entry, suite: Suite): ClientPolicy {
    ClientPolicy(e.key, suite, e.ports, BySignature, false)
  }

  function TokenPolicyOf(e: Entry, suite: Suite): ClientPolicy {
    ClientPolicy(e.key, suite, e.ports, ByPsk, true)
  }

  /** Clients take precedence over tokens with the same id. */
  function PolicyFor(clients: map<Thumbprint, Entry>, tokens: map<Thumbprint, Entry>, suite: Suite, id: Thumbprint):
    Option<ClientPolicy>
  {
    if id in clients then Some(ClientPolicyOf(clients[id], suite))
    else if id in tokens then Some(TokenPolicyOf(tokens[id], suite))
    else None
  }

  class SharedTrust {
    var clients: map<Thumbprint, Entry>
    var tokens: map<Thumbprint, Entry>
    const suite: Suite

    constructor (suite: Suite)
      ensures clients == map[] && tokens == map[] && this.suite == suite
    {
      clients, tokens := map[], map[];
      this.suite := suite;
    }

    method Set(cs: seq<Credential>)
      modifies this`clients
      ensures clients == Installed(cs)
      ensures forall i | 0 <= i < |cs| && (forall j | i < j < |cs| :: cs[j].id != cs[i].id) ::
                cs[i].id in clients && clients[cs[i].id] == Entry(cs[i].key, cs[i].ports)
    {
      clients := map[];
      for i := 0 to |cs|
        invariant clients == Installed(cs[..i])
      {
        assert cs[..i + 1][..i] == cs[..i];
        clients := clients[cs[i].id := Entry(cs[i].key, cs[i].ports)];
      }
      assert cs[..|cs|] == cs;
      InstalledHolds(cs);
    }

    method SetTokens(cs: seq<Credential>)
      modifies this`tokens
      ensures tokens == Installed(cs)
      ensures forall i | 0 <= i < |cs| && (forall j | i < j < |cs| :: cs[j].id != cs[i].id) ::
                cs[i].id in tokens && tokens[cs[i].id] == Entry(cs[i].key, cs[i].ports)
    {
      tokens := map[];
      for i := 0 to |cs|
        invariant tokens == Installed(cs[..i])
      {
        assert cs[..i + 1][..i] == cs[..i];
        tokens := tokens[cs[i].id := Entry(cs[i].key, cs[i].ports)];
      }
      assert cs[..|cs|] == cs;
      InstalledHolds(cs);
    }

    method Lookup(id: Thumbprint) returns (p: Option<ClientPolicy>)
      ensures p == PolicyFor(clients, tokens, suite, id)
    {
      if id in clients { return Some(ClientPolicyOf(clients[id], suite)); }
      if id in tokens { return Some(TokenPolicyOf(tokens[id], suite)); }
      p := None;
    }

    method Consume(id: Thumbprint)
      modifies this`tokens
      ensures tokens == old(tokens) - {id}
    {
      tokens := tokens - {id};
    }
  }

  // ---- allow-list writer ----------------------------------------------------------------

  function SaturatingAdd(a: U64, b: U64): (r: U64)
    ensures a + b <= 0xFFFF_FFFF_FFFF_FFFF ==> r == a + b
    ensures a + b > 0xFFFF_FFFF_FFFF_FFFF ==> r == 0xFFFF_FFFF_FFFF_FFFF
  {
    if a + b >= 0x1_0000_0000_0000_0000 then 0xFFFF_FFFF_FFFF_FFFF else a + b
  }

  function Padded(ports: seq<U16>): PortSlots
    requires |ports| <= MAX_GRANT_PORTS
  {
    ports + seq(MAX_GRANT_PORTS - |ports|, _ => 0)
  }

  /** The grant written for an opening: its first eight ports, expiring `ttl` from now. */
  function GrantFor(ports: seq<U16>, now: U64, ttl: U64): (g: Grant)
    ensures |ports| <= 8 ==> g.Granted() == ports
    ensures |ports| > 8 ==> g.Granted() == ports[..8]
    ensures forall i | |ports| <= i < 8 :: g.ports[i] == 0
    ensures forall p | p in g.Granted() :: p in ports
    ensures g.expiry <= now + ttl
    ensures now + ttl < 0x1_0000_0000_0000_0000 ==> g.expiry == now + ttl
    ensures now + ttl >= 0x1_0000_0000_0000_0000 ==> g.expiry == 0xFFFF_FFFF_FFFF_FFFF
  {
    var kept := if |ports| <= MAX_GRANT_PORTS then ports else ports[..MAX_GRANT_PORTS];
    Grant(SaturatingAdd(now, ttl), Padded(kept), |kept|)
  }

  /** A bounded hash map takes a new key only while it has room. */
  predicate HasRoom(allow: map<Addr, Grant>, key: Addr) {
    key in allow || |allow| < ALLOW_CAPACITY
  }

  function AllowAfter(allow: map<Addr, Grant>, key: Addr, g: Grant, wrote: bool): map<Addr, Grant> {
    if wrote && HasRoom(allow, key) then allow[key := g] else allow
  }

  /** A write takes exactly while 1024 entries are not exceeded, and touches no other source. */
  lemma AllowAfterExactly(allow: map<Addr, Grant>, key: Addr, g: Grant, wrote: bool)
    ensures wrote && (key in allow || |allow| < 1024) ==> AllowAfter(allow, key, g, wrote) == allow[key := g]
    ensures !wrote || (key !in allow && |allow| >= 1024) ==> AllowAfter(allow, key, g, wrote) == allow
  {
  }

  class BpfGateWriter {
    var allow: map<Addr, Grant>

    method Open(source: IpAddr, ports: seq<U16>, ttl: U64, now: U64, wrote: bool)
      modifies this`allow
      ensures allow == AllowAfter(old(allow), AddrKey(source), GrantFor(ports, now, ttl), wrote)
    {
      var slots := new U16[MAX_GRANT_PORTS](_ => 0);
      var count := 0;
      var n := if |ports| <= MAX_GRANT_PORTS then |ports| else MAX_GRANT_PORTS;
      while count < n
        invariant 0 <= count <= n
        invariant slots[..] == Padded(ports[..count])
        invariant allow == old(allow)
      {
        slots[count] := ports[count];
        count := count + 1;
      }
      assert |ports| <= MAX_GRANT_PORTS ==> ports[..n] == ports;
      var grant := Grant(SaturatingAdd(now, ttl), slots[..], count);
      assert grant == GrantFor(ports, now, ttl);
      if wrote && HasRoom(allow, AddrKey(source)) {
        allow := allow[AddrKey(source) := grant];
      }
    }
  }
}
