/** How far ahead the gate may be booked: exactly as far as every slot fits the
    key lifetime. Beyond that a run of a few 429s and a burst of reservations
    makes it forget a slot. */
module GateLimits {
  import opened Prelude
  import opened RateGate

  /** Any two slots of the run are the earlier one's interval apart. */
  ghost predicate Spaced(c: Config, es: seq<Event>) {
    forall i, j :: 0 <= i < j < |Grants(c, es)| ==>
      Grants(c, es)[i].start + Grants(c, es)[i].interval <= Grants(c, es)[j].start
  }

  function Penalties(k: nat): (es: seq<Event>)
    ensures |es| == k && forall i :: 0 <= i < k ==> es[i] == Event(Penalize, 0.0)
  {
    if k == 0 then [] else Penalties(k - 1) + [Event(Penalize, 0.0)]
  }

  function Asks(m: nat, t: real): (es: seq<Event>)
    ensures |es| == m && forall i :: 0 <= i < m ==> es[i] == Event(Reserve, t)
  {
    if m == 0 then [] else Asks(m - 1, t) + [Event(Reserve, t)]
  }

  /** k 429s at once, a burst of m reservations, and one more later. */
  function Burst(k: nat, m: nat, t: real, u: real): seq<Event> {
    Penalties(k) + Asks(m, t) + [Event(Reserve, u)]
  }

  // ---- Backing off to the maximum ----

  /** The interval after k 429s. */
  function Backed(c: Config, k: nat): real {
    if k == 0 then c.base else Min(Backed(c, k - 1) * BACKOFF_FACTOR, c.maxi)
  }

  function Grown(base: real, k: nat): real {
    if k == 0 then base else Grown(base, k - 1) + base / 2.0
  }

  lemma {:induction false} BackedGrows(c: Config, k: nat)
    requires c.Valid()
    ensures c.base <= Backed(c, k) <= c.maxi && Backed(c, k) >= Min(Grown(c.base, k), c.maxi)
  {
    if k > 0 { BackedGrows(c, k - 1); }
  }

  lemma {:induction false} GrownIsLinear(base: real, k: nat)
    ensures Grown(base, k) == base + k as real * (base / 2.0)
  {
    if k > 0 {
      GrownIsLinear(base, k - 1);
      assert k as real * (base / 2.0) == (k - 1) as real * (base / 2.0) + base / 2.0;
    }
  }

  /** Enough 429s reach the maximum interval. */
  lemma EnoughPenalties(c: Config) returns (k: nat)
    requires c.Valid() && 0.0 < c.base
    ensures k >= 1 && Backed(c, k) == c.maxi
  {
    var half := c.base / 2.0;
    k := (c.maxi / half).Floor + 1;
    GrownIsLinear(c.base, k);
    assert k as real >= c.maxi / half;
    Times(half, c.maxi / half, k as real);
    assert half * (c.maxi / half) == c.maxi;
    assert Grown(c.base, k) == c.base + k as real * half >= c.maxi;
    BackedGrows(c, k);
  }

  lemma Times(x: real, y: real, z: real)
    requires 0.0 <= x && y <= z
    ensures x * y <= z * x
  {
  }

  // ---- The burst, step by step ----

  lemma {:induction false} AfterPenalties(c: Config, k: nat)
    requires c.Valid() && k >= 1
    ensures var g := Run(c, Penalties(k));
            && g.interval == Key(Backed(c, k), TTL)
            && g.cooldown == Key(c.cooldown, (Ceil(c.cooldown) + 10) as real)
            && g.next == (if c.cooldown > 0.0 then Key(c.cooldown, TTL) else Absent)
    ensures Grants(c, Penalties(k)) == []
  {
    var before := Penalties(k - 1);
    assert Penalties(k)[..k - 1] == before;
    BackedGrows(c, k);
    if k > 1 { AfterPenalties(c, k - 1); }
  }

  /** The slots of the burst: one maximum interval apart, from the cooldown's end. */
  ghost predicate Booked(c: Config, grants: seq<Grant>, m: nat, t: real) {
    |grants| == m && forall j :: 0 <= j < m ==> grants[j] == Grant(t, c.cooldown + Slots(j, c.maxi), c.maxi)
  }

  lemma CeilAbove(x: real)
    ensures x <= Ceil(x) as real
  {
  }

  /** The gate after m reservations of the burst. */
  predicate Midway(c: Config, g: Gate, m: nat, t: real) {
    && g.interval == Key(c.maxi, TTL)
    && g.cooldown == Key(c.cooldown, (Ceil(c.cooldown) + 10) as real)
    && g.next == if m > 0 then Key(c.cooldown + Slots(m, c.maxi), t + TTL)
                 else if c.cooldown > 0.0 then Key(c.cooldown, TTL) else Absent
  }

  /** One reservation of the burst. */
  lemma AskOnce(c: Config, g: Gate, m: nat, t: real)
    requires c.Valid() && 0.0 <= t <= c.cooldown && t < TTL && Midway(c, g, m, t)
    ensures Start(g, t) == c.cooldown + Slots(m, c.maxi) && Interval(c, g, t) == c.maxi
    ensures Midway(c, AfterReserve(c, g, t), m + 1, t)
  {
    CeilAbove(c.cooldown);
    SlotsMonotone(0, m, c.maxi);
    SlotsStep(m, c.maxi);
  }

  lemma {:induction false} AfterAsks(c: Config, k: nat, m: nat, t: real)
    requires c.Valid() && k >= 1 && Backed(c, k) == c.maxi && 0.0 <= t <= c.cooldown && t < TTL
    ensures Midway(c, Run(c, Penalties(k) + Asks(m, t)), m, t)
    ensures Booked(c, Grants(c, Penalties(k) + Asks(m, t)), m, t)
  {
    if m == 0 {
      AfterPenalties(c, k);
      assert Penalties(k) + Asks(m, t) == Penalties(k);
    } else {
      var before := Penalties(k) + Asks(m - 1, t);
      AfterAsks(c, k, m - 1, t);
      assert Penalties(k) + Asks(m, t) == before + [Event(Reserve, t)];
      BookedOnce(c, before, m - 1, t);
    }
  }

  lemma BookedOnce(c: Config, es: seq<Event>, m: nat, t: real)
    requires c.Valid() && 0.0 <= t <= c.cooldown && t < TTL
    requires Midway(c, Run(c, es), m, t) && Booked(c, Grants(c, es), m, t)
    ensures Midway(c, Run(c, es + [Event(Reserve, t)]), m + 1, t)
    ensures Booked(c, Grants(c, es + [Event(Reserve, t)]), m + 1, t)
  {
    AskOnce(c, Run(c, es), m, t);
    OneMoreEvent(c, es, Event(Reserve, t));
  }

  lemma OneMoreEvent(c: Config, es: seq<Event>, e: Event)
    requires e.op.Reserve?
    ensures Run(c, es + [e]) == AfterReserve(c, Run(c, es), e.now)
    ensures Grants(c, es + [e])
            == Grants(c, es) + [Grant(e.now, Start(Run(c, es), e.now), Interval(c, Run(c, es), e.now))]
  {
    assert (es + [e])[..|es|] == es;
  }

  lemma {:induction false} PastSlotsDoNotCount(grants: seq<Grant>, now: real, past: nat)
    requires past <= |grants| && forall i :: 0 <= i < past ==> grants[i].start <= now
    ensures Outstanding(grants, now) <= |grants| - past
  {
    if grants != [] {
      PastSlotsDoNotCount(grants[..|grants| - 1], now, if past < |grants| then past else past - 1);
    }
  }

  /** The last reservation comes when the booking has lapsed. */
  lemma LateAsk(c: Config, k: nat, m: nat, t: real, u: real)
    requires c.Valid() && k >= 1 && Backed(c, k) == c.maxi && 0.0 <= t <= c.cooldown && t < TTL
    requires m >= 1 && c.cooldown <= u && t + TTL <= u < c.cooldown + Slots(m, c.maxi)
    ensures WellTimed(Burst(k, m, t, u)) && !Spaced(c, Burst(k, m, t, u))
  {
    var before, es := Penalties(k) + Asks(m, t), Burst(k, m, t, u);
    AfterAsks(c, k, m, t);
    assert es[..|es| - 1] == before && es[|es| - 1] == Event(Reserve, u);
    var g := Run(c, before);
    assert Start(g, u) == u;
    SlotsStep(m - 1, c.maxi);
    var grants := Grants(c, es);
    assert grants[m - 1] == Grant(t, c.cooldown + Slots(m - 1, c.maxi), c.maxi) && grants[m].start == u;
    forall i, j | 0 <= i <= j < |es| ensures 0.0 <= es[i].now <= es[j].now {}
  }

  /** How many slots are ahead when the burst asks again. */
  lemma AheadInBurst(c: Config, k: nat, j: nat, t: real, now: nat)
    requires c.Valid() && k >= 1 && Backed(c, k) == c.maxi && 0.0 <= t <= c.cooldown && t < TTL
    requires now <= 1 && (now == 1 ==> c.cooldown <= t)
    ensures Outstanding(Grants(c, Penalties(k) + Asks(j, t)), t) <= if j == 0 then 0 else j - now
  {
    AfterAsks(c, k, j, t);
    BookedAhead(c, Grants(c, Penalties(k) + Asks(j, t)), j, t, now);
  }

  lemma NoSlots(width: real)
    ensures Slots(0, width) == 0.0
  {
  }

  lemma BookedAhead(c: Config, grants: seq<Grant>, j: nat, t: real, now: nat)
    requires Booked(c, grants, j, t) && now <= 1 && (now == 1 ==> c.cooldown <= t)
    ensures Outstanding(grants, t) <= if j == 0 then 0 else j - now
  {
    NoSlots(c.maxi);
    PastSlotsDoNotCount(grants, t, if j == 0 then 0 else now);
  }

  /** And when the late reservation is made. */
  lemma AheadAtLast(c: Config, k: nat, m: nat, t: real, u: real, later: nat)
    requires c.Valid() && k >= 1 && Backed(c, k) == c.maxi && 0.0 <= t <= c.cooldown && t < TTL
    requires later <= m && forall j :: 0 <= j < later ==> c.cooldown + Slots(j, c.maxi) <= u
    ensures Outstanding(Grants(c, Penalties(k) + Asks(m, t)), u) <= m - later
  {
    AfterAsks(c, k, m, t);
    PastSlotsDoNotCount(Grants(c, Penalties(k) + Asks(m, t)), u, later);
  }

  /** Never more than n slots ahead, when the first `now` of them are past
      during the burst and the first `later` at the end. */
  lemma BurstAhead(c: Config, k: nat, m: nat, t: real, u: real, n: nat, now: nat, later: nat)
    requires c.Valid() && k >= 1 && Backed(c, k) == c.maxi && 0.0 <= t <= c.cooldown && t < TTL
    requires now <= 1 && later <= m && m - 1 <= n + now && m <= n + later
    requires now == 1 ==> c.cooldown <= t
    requires forall j :: 0 <= j < later ==> c.cooldown + Slots(j, c.maxi) <= u
    ensures AtMostAhead(c, Burst(k, m, t, u), n)
  {
    var es := Burst(k, m, t, u);
    forall i | 0 <= i < |es| && es[i].op.Reserve? ensures Outstanding(Grants(c, es[..i]), es[i].now) <= n {
      var j := i - k;
      assert es[..i] == Penalties(k) + Asks(j, t);
      if i < k + m {
        assert es[i] == Asks(m, t)[j];
        AheadInBurst(c, k, j, t, now);
      } else {
        AheadAtLast(c, k, m, t, u, later);
      }
    }
  }

  // ---- The exact limit ----

  /** A cooldown at least as long as the maximum interval, or the lifetime: the
      burst comes at once. */
  lemma BurstAtOnce(c: Config, n: nat, k: nat) returns (es: seq<Event>)
    requires c.Valid() && 0.0 < c.maxi && !FitsTtl(c, n) && k >= 1 && Backed(c, k) == c.maxi
    requires c.cooldown >= c.maxi || c.cooldown >= TTL
    ensures WellTimed(es) && AtMostAhead(c, es, n) && !Spaced(c, es)
  {
    var u := Max(TTL, c.cooldown);
    SlotsMonotone(0, n, c.maxi);
    SlotsStep(n, c.maxi);
    LateAsk(c, k, n + 1, 0.0, u);
    BurstAhead(c, k, n + 1, 0.0, u, n, 0, 1);
    es := Burst(k, n + 1, 0.0, u);
  }

  lemma OneAhead(c: Config, k: nat, u: real, n: nat)
    requires c.Valid() && k >= 1 && Backed(c, k) == c.maxi && c.cooldown < TTL && c.cooldown <= u
    ensures AtMostAhead(c, Burst(k, 1, c.cooldown, u), n)
  {
    NoSlots(c.maxi);
    BurstAhead(c, k, 1, c.cooldown, u, n, 1, 1);
  }

  /** A maximum interval beyond the lifetime: one slot is enough. */
  lemma BurstOfOne(c: Config, n: nat, k: nat) returns (es: seq<Event>)
    requires c.Valid() && k >= 1 && Backed(c, k) == c.maxi && c.cooldown < TTL < c.maxi
    ensures WellTimed(es) && AtMostAhead(c, es, n) && !Spaced(c, es)
  {
    var u := c.cooldown + TTL;
    assert Slots(0, c.maxi) == 0.0 && Slots(1, c.maxi) == c.maxi;
    LateAsk(c, k, 1, c.cooldown, u);
    OneAhead(c, k, u, n);
    es := Burst(k, 1, c.cooldown, u);
  }

  /** A short cooldown: the burst comes when it is over. */
  lemma BurstAfterCooldown(c: Config, n: nat, k: nat) returns (es: seq<Event>)
    requires c.Valid() && !FitsTtl(c, n) && k >= 1 && Backed(c, k) == c.maxi
    requires c.cooldown < c.maxi <= TTL && c.cooldown < TTL
    ensures WellTimed(es) && AtMostAhead(c, es, n) && !Spaced(c, es)
  {
    var t := c.cooldown;
    SlotsStep(0, c.maxi);
    SlotsStep(n, c.maxi);
    SlotsStep(n + 1, c.maxi);
    assert Slots(n + 2, c.maxi) > TTL;
    LateAsk(c, k, n + 2, t, t + TTL);
    BurstAhead(c, k, n + 2, t, t + TTL, n, 1, 2);
    es := Burst(k, n + 2, t, t + TTL);
  }

  /** Beyond the limit some run with at most n slots ahead is not spaced. */
  lemma BeyondTheLimit(c: Config, n: nat) returns (es: seq<Event>)
    requires c.Valid() && 0.0 < c.base && !FitsTtl(c, n)
    ensures WellTimed(es) && AtMostAhead(c, es, n) && !Spaced(c, es)
  {
    var k := EnoughPenalties(c);
    if c.cooldown >= c.maxi || c.cooldown >= TTL {
      es := BurstAtOnce(c, n, k);
    } else if c.maxi > TTL {
      es := BurstOfOne(c, n, k);
    } else {
      es := BurstAfterCooldown(c, n, k);
    }
  }

  lemma WithinTheLimit(c: Config, n: nat, es: seq<Event>)
    requires c.Valid() && FitsTtl(c, n) && WellTimed(es) && AtMostAhead(c, es, n)
    ensures Spaced(c, es)
  {
    forall i, j | 0 <= i < j < |Grants(c, es)|
      ensures Grants(c, es)[i].start + Grants(c, es)[i].interval <= Grants(c, es)[j].start
    {
      SlotsAreSpaced(c, es, n, i, j);
    }
  }

  /** Runs with at most n slots ahead are spaced, all of them, exactly when a
      booking n slots out still fits the key lifetime. */
  lemma SpacedIff(c: Config, n: nat)
    requires c.Valid() && 0.0 < c.base
    ensures (forall es :: WellTimed(es) && AtMostAhead(c, es, n) ==> Spaced(c, es)) <==> FitsTtl(c, n)
  {
    if FitsTtl(c, n) {
      forall es | WellTimed(es) && AtMostAhead(c, es, n) ensures Spaced(c, es) { WithinTheLimit(c, n, es); }
    } else {
      var es := BeyondTheLimit(c, n);
    }
  }

  /** At the default settings the limit is 76 slots ahead. */
  lemma DefaultsSpacedIff(n: nat)
    ensures (forall es :: WellTimed(es) && AtMostAhead(DEFAULTS, es, n) ==> Spaced(DEFAULTS, es)) <==> n <= 76
  {
    SpacedIff(DEFAULTS, n);
    DefaultBacklog(n);
  }

  /** At 77: six 429s, 78 reservations at once, and one an hour later, which
      starts before the last of the burst is over. */
  lemma DefaultsBreakAt77()
    ensures var es := Burst(6, 78, 0.0, 3600.0);
            WellTimed(es) && AtMostAhead(DEFAULTS, es, 77) && !Spaced(DEFAULTS, es)
  {
    assert Backed(DEFAULTS, 3) == 16.875;
    assert Backed(DEFAULTS, 6) == 45.0;
    assert Slots(78, 45.0) == 78 as real * 45.0;
    LateAsk(DEFAULTS, 6, 78, 0.0, 3600.0);
    BurstAhead(DEFAULTS, 6, 78, 0.0, 3600.0, 77, 0, 1);
  }
}
