/**
 The per-source knock limiter over whole runs: what any interval of time can let through,
 and what a drop proves.
 */
module RateBound {
  import opened Wire
  import opened Frame
  import opened DataPlane
  import opened Core
  import opened System

  /** Event `i` is a correctly sized knock packet from `src`, so it reaches the limiter. */
  ghost predicate Knocks(r: Run, i: nat, src: Addr)
    requires r.Valid()
  {
    && i < |r.events| && r.events[i].act.Receive? && r.events[i].act.traffic.Udp?
    && r.events[i].act.traffic.saddr == src
    && r.states[i].plane.knockPort == Some(r.events[i].act.traffic.dport)
    && SizeOk(r.events[i].act.traffic.payload)
  }

  /** ... and is let through. */
  ghost predicate GetsThrough(r: Run, i: nat, src: Addr)
    requires r.Valid()
  {
    Knocks(r, i, src) && Gate(r.states[i].plane, r.events[i].act.traffic, r.events[i].at, r.events[i].act.stored).0 == Pass
  }

  /** Knocks from `src` let through before event `i` at times in [from, to). */
  ghost function Count(r: Run, src: Addr, from: int, to: int, i: nat): nat
    requires r.Valid() && i <= |r.events|
  {
    if i == 0 then 0
    else Count(r, src, from, to, i - 1)
         + if GetsThrough(r, i - 1, src) && from <= r.events[i - 1].at < to then 1 else 0
  }

  /** What one event does to the limiter entry of `src`. */
  lemma EntryStep(r: Run, i: nat, src: Addr)
    requires r.Valid() && i < |r.events|
    ensures var rate, rate', e := r.states[i].plane.rate, r.states[i + 1].plane.rate, r.events[i];
            if Knocks(r, i, src) then
              var (ok, after) := RateOk(rate, src, e.at, e.act.stored);
              rate' == after && (GetsThrough(r, i, src) <==> ok)
            else if e.act.EvictRates? && src in e.act.sources then src !in rate'
            else (src in rate' <==> src in rate) && (src in rate ==> rate'[src] == rate[src])
  {
    RateStep(r, i);
  }

  // ---- what a drop proves -------------------------------------------------------------------

  /** The entry's count is earned: that many knocks got through since its window began. */
  ghost predicate CountEarned(r: Run, src: Addr, i: nat)
    requires r.Valid() && i <= |r.events|
  {
    src in r.states[i].plane.rate ==>
      var w := r.states[i].plane.rate[src];
      && i > 0 && w.window <= r.events[i - 1].at
      && 1 <= w.count <= RATE_LIMIT
      && w.count <= Count(r, src, w.window, r.events[i - 1].at + 1, i)
  }

  lemma {:induction false} CountWidens(r: Run, src: Addr, from: int, to: int, to': int, i: nat)
    requires r.Valid() && i <= |r.events| && to <= to'
    ensures Count(r, src, from, to, i) <= Count(r, src, from, to', i)
  {
    if i > 0 {
      CountWidens(r, src, from, to, to', i - 1);
    }
  }

  lemma CountEarnedStep(r: Run, src: Addr, i: nat)
    requires r.Valid() && i < |r.events| && CountEarned(r, src, i)
    ensures CountEarned(r, src, i + 1)
  {
    EntryStep(r, i, src);
    if i > 0 {
      assert r.Ordered(i - 1, i);
      if src in r.states[i].plane.rate {
        CountWidens(r, src, r.states[i].plane.rate[src].window, r.events[i - 1].at + 1, r.events[i].at + 1, i);
      }
    }
  }

  lemma {:induction false} CountsAreEarned(r: Run, src: Addr, i: nat)
    requires r.Valid() && i <= |r.events|
    ensures CountEarned(r, src, i)
  {
    if i > 0 {
      CountsAreEarned(r, src, i - 1);
      CountEarnedStep(r, src, i - 1);
    }
  }

  lemma {:induction false} CountShifts(r: Run, src: Addr, from: int, from': int, to: int, i: nat)
    requires r.Valid() && i <= |r.events| && from' <= from
    ensures Count(r, src, from, to, i) <= Count(r, src, from', to, i)
  {
    if i > 0 {
      CountShifts(r, src, from, from', to, i - 1);
    }
  }

  /**
   The limiter drops a correctly sized knock only if ten from the same source got through
   within the preceding second, evictions and failed writes notwithstanding.
   */
  lemma DroppedOnlyAfterTen(r: Run, src: Addr, i: nat)
    requires r.Valid() && Knocks(r, i, src) && !GetsThrough(r, i, src)
    ensures Count(r, src, r.events[i].at - SECOND + 1, r.events[i].at + 1, i) >= 10
  {
    CountsAreEarned(r, src, i);
    EntryStep(r, i, src);
    assert r.Ordered(i - 1, i);
    var w := r.states[i].plane.rate[src].window;
    CountWidens(r, src, w, r.events[i - 1].at + 1, r.events[i].at + 1, i);
    CountShifts(r, src, w, r.events[i].at - SECOND + 1, r.events[i].at + 1, i);
  }

  // ---- the bound over an interval -----------------------------------------------------------------

  /** At times in [from, to) no eviction hits the entry of `src` and its writes are stored. */
  ghost predicate SteadyDuring(r: Run, src: Addr, from: int, to: int, i: nat)
    requires r.Valid() && i <= |r.events|
  {
    forall k: nat | k < i && from <= r.events[k].at < to :: SteadyAt(r, src, k)
  }

  ghost predicate SteadyAt(r: Run, src: Addr, k: nat)
    requires r.Valid() && k < |r.events|
  {
    && (r.events[k].act.EvictRates? ==> src !in r.events[k].act.sources)
    && (Knocks(r, k, src) ==> r.events[k].act.stored)
  }

  /** The most that can get through before a window opens `d` nanoseconds into the interval. */
  function Before(d: nat): nat {
    RATE_LIMIT * (d / SECOND) + if d % SECOND == 0 then 0 else RATE_LIMIT - 1
  }

  /**
   `n` knocks of an interval from `from` on fit the current window: if it opened earlier, that
   was under a second before, and the knock that opened it is not among them.
   */
  predicate Fits(w: RateState, from: int, n: nat) {
    if w.window < from then n > 0 ==> w.window > from - SECOND && n < w.count
    else n <= Before(w.window - from) + w.count
  }

  ghost predicate WithinAllowance(r: Run, src: Addr, from: int, t: nat, i: nat)
    requires r.Valid() && i <= |r.events|
  {
    var n := Count(r, src, from, from + t, i);
    if src in r.states[i].plane.rate then Fits(r.states[i].plane.rate[src], from, n) else n == 0
  }

  lemma BeforeGrows(d: nat, d': nat)
    requires d + SECOND <= d'
    ensures Before(d) + RATE_LIMIT <= Before(d')
  {
    assert d / SECOND + 1 <= d' / SECOND;
  }

  /** Opening a new window, at least a second after the last, makes room for what the last one let through. */
  lemma NewWindowFits(w: RateState, now: U64, from: int, n: nat)
    requires w.count <= RATE_LIMIT && now - w.window >= SECOND && now >= from && Fits(w, from, n)
    ensures Fits(RateState(now, 1), from, n + 1)
  {
    if w.window >= from {
      BeforeGrows(w.window - from, now - from);
    }
  }

  lemma {:induction false} NoneBefore(r: Run, src: Addr, from: int, to: int, i: nat)
    requires r.Valid() && i <= |r.events|
    requires i > 0 ==> r.events[i - 1].at < from
    ensures Count(r, src, from, to, i) == 0
  {
    if i > 1 {
      assert r.Ordered(i - 2, i - 1);
      NoneBefore(r, src, from, to, i - 1);
    }
  }

  lemma WithinAllowanceStep(r: Run, src: Addr, from: int, t: nat, i: nat)
    requires r.Valid() && i < |r.events| && WithinAllowance(r, src, from, t, i)
    requires from <= r.events[i].at < from + t && SteadyAt(r, src, i)
    ensures WithinAllowance(r, src, from, t, i + 1)
  {
    EntryStep(r, i, src);
    CountsAreEarned(r, src, i);
    if i > 0 {
      assert r.Ordered(i - 1, i);
    }
    if Knocks(r, i, src) && src in r.states[i].plane.rate && !InWindow(r.states[i].plane.rate, src, r.events[i].at) {
      NewWindowFits(r.states[i].plane.rate[src], r.events[i].at, from, Count(r, src, from, from + t, i));
    }
  }

  /** Before the interval nothing counts, so whatever happened to the entry is within its allowance. */
  lemma NothingYet(r: Run, src: Addr, from: int, t: nat, i: nat)
    requires r.Valid() && i <= |r.events|
    requires i > 0 ==> r.events[i - 1].at < from
    ensures WithinAllowance(r, src, from, t, i)
  {
    NoneBefore(r, src, from, from + t, i);
    CountsAreEarned(r, src, i);
  }

  lemma {:induction false} AlwaysWithinAllowance(r: Run, src: Addr, from: int, t: nat, i: nat)
    requires r.Valid() && i <= |r.events| && SteadyDuring(r, src, from, from + t, i)
    requires i > 0 ==> r.events[i - 1].at < from + t
    ensures WithinAllowance(r, src, from, t, i)
  {
    if i == 0 || r.events[i - 1].at < from {
      NothingYet(r, src, from, t, i);
    } else {
      if i > 1 {
        assert r.Ordered(i - 2, i - 1);
      }
      AlwaysWithinAllowance(r, src, from, t, i - 1);
      assert SteadyAt(r, src, i - 1);
      WithinAllowanceStep(r, src, from, t, i - 1);
    }
  }

  /**
   The most an interval of `t` nanoseconds can let through: ten for each full second and ten
   more, and nine of a window that opened before it unless the seconds come out even.
   */
  function MostIn(t: nat): nat {
    if t == 0 then 0 else Before(t - 1) + RATE_LIMIT
  }

  lemma BeforeIsMost(d: nat, t: nat)
    requires d < t
    ensures Before(d) + RATE_LIMIT <= MostIn(t)
  {
    assert d / SECOND <= (t - 1) / SECOND;
  }

  /** No interval during which the entry of `src` is left alone lets more of its knocks through. */
  lemma {:induction false} IntervalBound(r: Run, src: Addr, from: int, t: nat, i: nat)
    requires r.Valid() && i <= |r.events| && SteadyDuring(r, src, from, from + t, i)
    ensures Count(r, src, from, from + t, i) <= MostIn(t)
  {
    if i > 0 && r.events[i - 1].at >= from + t {
      IntervalBound(r, src, from, t, i - 1);
    } else if t == 0 {
      NoneBefore(r, src, from, from, i);
    } else {
      AlwaysWithinAllowance(r, src, from, t, i);
      CountsAreEarned(r, src, i);
      if src in r.states[i].plane.rate && from <= r.states[i].plane.rate[src].window {
        BeforeIsMost(r.states[i].plane.rate[src].window - from, t);
      }
    }
  }

  // ---- the bound is attained --------------------------------------------------------------------------

  /**
   Ten knocks a second from time 1 on, of which the first second's last nine wait until just
   before the next window if `late`.
   */
  function KnockTime(i: nat, late: bool): nat {
    1 + i / 10 * SECOND + if late && 0 < i < 10 then SECOND - 1 else 0
  }

  lemma KnockTimesOrdered(i: nat, j: nat, late: bool)
    requires i <= j
    ensures KnockTime(i, late) <= KnockTime(j, late)
  {
    assert i / 10 <= j / 10;
    if i / 10 < j / 10 {
      assert i / 10 * SECOND + SECOND <= j / 10 * SECOND;
    }
  }

  /** A gate that sees `n` such knocks from `src` to its knock port, and nothing else. */
  ghost predicate Bursts(r: Run, src: Addr, n: nat, late: bool) {
    && r.Valid() && |r.events| == n && r.states[0].plane.knockPort == Some(1)
    && forall i: nat | i < n :: KnockTime(i, late) < 0x1_0000_0000_0000_0000
         && r.events[i] == Event(KnockTime(i, late), Receive(Udp(src, 1, KNOCK_MIN), true))
  }

  lemma BurstsExist(src: Addr, n: nat, late: bool) returns (r: Run)
    requires n > 0 && KnockTime(n - 1, late) < 0x1_0000_0000_0000_0000
    ensures Bursts(r, src, n, late)
  {
    forall i: nat | i < n ensures KnockTime(i, late) <= KnockTime(n - 1, late) {
      KnockTimesOrdered(i, n - 1, late);
    }
    var es := seq(n, i requires 0 <= i < n => Event(KnockTime(i, late), Receive(Udp(src, 1, KNOCK_MIN), true)));
    forall i, j | 0 <= i <= j < n ensures es[i].at <= es[j].at {
      KnockTimesOrdered(i, j, late);
    }
    var p := Params(seq(16, _ => 0), 0, Modern, Crypto(_ => None, (_, _, _, _) => false, (_, _, _) => false));
    var s := State(Plane(map[], {}, map[], map[], Some(1)), map[], map[], map[], Idle, Watching, {}, 0);
    RunOfIsValid(p, s, es);
    r := RunOf(p, s, es);
  }

  lemma {:induction false} AllAreKnocks(r: Run, src: Addr, n: nat, late: bool, i: nat)
    requires Bursts(r, src, n, late) && i <= n
    ensures r.states[i].plane.knockPort == Some(1)
    ensures i < n ==> Knocks(r, i, src)
  {
    if i > 0 {
      AllAreKnocks(r, src, n, late, i - 1);
      RateStep(r, i - 1);
    }
  }

  /** The limiter's entry before the `i`th knock. */
  ghost predicate EntryAt(r: Run, src: Addr, i: nat)
    requires r.Valid() && i <= |r.events|
  {
    var rate := r.states[i].plane.rate;
    if i == 0 then src !in rate
    else src in rate && rate[src].window == 1 + (i - 1) / 10 * SECOND && rate[src].count == (i - 1) % 10 + 1
  }

  /** Each knock falls into the window of the one before it, unless ten already did. */
  lemma KnockTimeInWindow(i: nat, late: bool)
    requires i > 0
    ensures var age := KnockTime(i, late) - (1 + (i - 1) / 10 * SECOND);
            if i % 10 == 0 then age == SECOND && KnockTime(i, late) == 1 + i / 10 * SECOND
            else 0 <= age < SECOND && (i - 1) / 10 == i / 10 && (i - 1) % 10 + 1 == i % 10
  {
  }

  lemma BurstStep(r: Run, src: Addr, n: nat, late: bool, i: nat)
    requires Bursts(r, src, n, late) && i < n && EntryAt(r, src, i)
    ensures GetsThrough(r, i, src) && EntryAt(r, src, i + 1)
  {
    AllAreKnocks(r, src, n, late, i);
    EntryStep(r, i, src);
    if i > 0 {
      KnockTimeInWindow(i, late);
    }
  }

  /** Every one of them gets through. */
  lemma {:induction false} BurstsGetThrough(r: Run, src: Addr, n: nat, late: bool, i: nat)
    requires Bursts(r, src, n, late) && i <= n
    ensures EntryAt(r, src, i)
    ensures i < n ==> GetsThrough(r, i, src)
  {
    if i > 0 {
      BurstsGetThrough(r, src, n, late, i - 1);
      BurstStep(r, src, n, late, i - 1);
    }
    if i < n {
      BurstStep(r, src, n, late, i);
    }
  }

  lemma BurstsCountStep(r: Run, src: Addr, n: nat, late: bool, from: int, to: int, i: nat)
    requires Bursts(r, src, n, late) && i < n && from == KnockTime(1, late) && KnockTime(i, late) < to
    ensures Count(r, src, from, to, i + 1) == Count(r, src, from, to, i) + if late && i == 0 then 0 else 1
  {
    BurstsGetThrough(r, src, n, late, i);
    if i > 0 {
      KnockTimesOrdered(1, i, late);
    }
    assert r.events[i].at == KnockTime(i, late);
  }

  lemma {:induction false} BurstsCount(r: Run, src: Addr, n: nat, late: bool, from: int, to: int, i: nat)
    requires Bursts(r, src, n, late) && i <= n
    requires from == KnockTime(1, late)
    requires i > 0 ==> KnockTime(i - 1, late) < to
    ensures Count(r, src, from, to, i) == if late && i > 0 then i - 1 else i
  {
    if i > 0 {
      if i > 1 {
        KnockTimesOrdered(i - 2, i - 1, late);
      }
      BurstsCount(r, src, n, late, from, to, i - 1);
      BurstsCountStep(r, src, n, late, from, to, i - 1);
    }
  }

  /** For every length there is a run in which some such interval lets exactly that many through. */
  lemma IntervalBoundIsAttained(src: Addr, t: nat) returns (r: Run, from: int)
    requires 0 < t < 0x8000_0000_0000_0000
    ensures r.Valid() && SteadyDuring(r, src, from, from + t, |r.events|)
    ensures Count(r, src, from, from + t, |r.events|) == MostIn(t)
  {
    var late, seconds := (t - 1) % SECOND != 0, (t - 1) / SECOND;
    var n := 10 * (seconds + if late then 2 else 1);
    from := KnockTime(1, late);
    assert (n - 1) / 10 == seconds + if late then 1 else 0;
    assert KnockTime(n - 1, late) < from + t;
    r := BurstsExist(src, n, late);
    BurstsCount(r, src, n, late, from, from + t, n);
  }
}
