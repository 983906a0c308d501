/** The adaptive download gate: three Redis keys that expire, and the three Lua
    scripts that read and set them, each one atomic step.

    Times are seconds as reals. The clock is the caller's and never goes back. */
module RateGate {
  import opened Prelude

  const BACKOFF_FACTOR := 1.5
  const RECOVER_FACTOR := 0.9
  const TTL := 3600.0

  /** A Redis key holding a number. GET sees it only before its expiry. */
  datatype Key = Absent | Key(value: real, expires: real)
  {
    predicate Live(now: real) {
      this.Key? && now < expires
    }
    function GetOr(now: real, default: real): real {
      if Live(now) then value else default
    }
  }

  /** Minimum interval, maximum interval and cooldown length. */
  datatype Config = Config(base: real, maxi: real, cooldown: real)
  {
    predicate Valid() {
      0.0 <= base <= maxi && 0.0 <= cooldown
    }
  }

  const DEFAULTS := Config(5.0, 45.0, 120.0)

  /** The three keys. */
  datatype Gate = Gate(next: Key, interval: Key, cooldown: Key)

  const FRESH := Gate(Absent, Absent, Absent)

  function Ceil(x: real): int {
    -((-x).Floor)
  }

  function Interval(c: Config, g: Gate, now: real): real {
    g.interval.GetOr(now, c.base)
  }

  function Start(g: Gate, now: real): real {
    Max(Max(now, g.next.GetOr(now, 0.0)), g.cooldown.GetOr(now, 0.0))
  }

  function AfterReserve(c: Config, g: Gate, now: real): Gate {
    g.(next := Key(Start(g, now) + Interval(c, g, now), now + TTL))
  }

  function AfterPenalize(c: Config, g: Gate, now: real): Gate {
    var until := now + c.cooldown;
    Gate(if until > g.next.GetOr(now, 0.0) then Key(until, now + TTL) else g.next,
         Key(Min(Interval(c, g, now) * BACKOFF_FACTOR, c.maxi), now + TTL),
         Key(until, now + (Ceil(c.cooldown) + 10) as real))
  }

  function AfterReward(c: Config, g: Gate, now: real): Gate {
    if !g.interval.Live(now) then g
    else g.(interval := Key(Max(g.interval.value * RECOVER_FACTOR, c.base), now + TTL))
  }

  /** The gate as the workers share it. Each method is one script. */
  class YtdlpRateGate {
    const config: Config
    var next: Key
    var interval: Key
    var cooldown: Key

    function Keys(): Gate
      reads this
    {
      Gate(next, interval, cooldown)
    }

    constructor (config: Config)
      ensures this.config == config && Keys() == FRESH
    {
      this.config := config;
      next, interval, cooldown := Absent, Absent, Absent;
    }

    method Reserve(now: real) returns (start: real, paused: bool)
      modifies this`next
      ensures start == Start(old(Keys()), now)
      ensures paused <==> old(cooldown).GetOr(now, 0.0) > now
      ensures Keys() == AfterReserve(config, old(Keys()), now)
    {
      var step := interval.GetOr(now, config.base);
      var pause := cooldown.GetOr(now, 0.0);
      var nxt := next.GetOr(now, 0.0);
      start := now;
      if nxt > start { start := nxt; }
      if pause > start { start := pause; }
      paused := pause > now;
      next := Key(start + step, now + TTL);
    }

    method Penalize(now: real)
      modifies this
      ensures Keys() == AfterPenalize(config, old(Keys()), now)
    {
      var step := interval.GetOr(now, config.base) * BACKOFF_FACTOR;
      if step > config.maxi { step := config.maxi; }
      interval := Key(step, now + TTL);
      var until := now + config.cooldown;
      cooldown := Key(until, now + (Ceil(config.cooldown) + 10) as real);
      if until > next.GetOr(now, 0.0) {
        next := Key(until, now + TTL);
      }
    }

    method Reward(now: real)
      modifies this`interval
      ensures Keys() == AfterReward(config, old(Keys()), now)
    {
      if interval.Live(now) {
        var step := interval.value * RECOVER_FACTOR;
        if step < config.base { step := config.base; }
        interval := Key(step, now + TTL);
      }
    }
  }

  // ---- Runs ----

  datatype Op = Reserve | Penalize | Reward

  datatype Event = Event(op: Op, now: real)

  /** A slot handed out: when, for when, and the interval in force. */
  datatype Grant = Grant(at: real, start: real, interval: real)

  predicate WellTimed(es: seq<Event>) {
    && (forall i :: 0 <= i < |es| ==> 0.0 <= es[i].now)
    && forall i, j :: 0 <= i <= j < |es| ==> es[i].now <= es[j].now
  }

  function Step(c: Config, g: Gate, e: Event): Gate {
    match e.op
    case Reserve => AfterReserve(c, g, e.now)
    case Penalize => AfterPenalize(c, g, e.now)
    case Reward => AfterReward(c, g, e.now)
  }

  /** The gate after a run from an empty Redis. */
  function Run(c: Config, es: seq<Event>): Gate {
    if es == [] then FRESH
    else Step(c, Run(c, es[..|es| - 1]), es[|es| - 1])
  }

  /** The slots handed out by a run, in order. */
  function Grants(c: Config, es: seq<Event>): seq<Grant> {
    if es == [] then []
    else
      var before, e := es[..|es| - 1], es[|es| - 1];
      var g := Run(c, before);
      Grants(c, before) +
      if e.op.Reserve? then [Grant(e.now, Start(g, e.now), Interval(c, g, e.now))] else []
  }

  /** How many slots already handed out start after `now`. */
  function Outstanding(grants: seq<Grant>, now: real): nat {
    if grants == [] then 0
    else Outstanding(grants[..|grants| - 1], now) + if grants[|grants| - 1].start > now then 1 else 0
  }

  function Slots(n: nat, width: real): real {
    n as real * width
  }

  lemma SlotsStep(n: nat, width: real)
    ensures Slots(n + 1, width) == Slots(n, width) + width
  {
  }

  lemma WellTimedPrefix(es: seq<Event>)
    requires WellTimed(es) && es != []
    ensures WellTimed(es[..|es| - 1])
  {
  }

  // ---- The interval ----

  /** Over every run, whatever expires, the interval in force stays between the
      configured minimum and maximum. */
  lemma {:induction false} IntervalWithinBounds(c: Config, es: seq<Event>, now: real)
    requires c.Valid()
    ensures c.base <= Interval(c, Run(c, es), now) <= c.maxi
    ensures Run(c, es).interval.Key? ==> c.base <= Run(c, es).interval.value <= c.maxi
  {
    if es != [] {
      var e := es[|es| - 1];
      IntervalWithinBounds(c, es[..|es| - 1], e.now);
    }
  }

  function Pow(x: real, k: nat): real {
    if k == 0 then 1.0 else x * Pow(x, k - 1)
  }

  /** The cap eased by `k` successes. */
  function Eased(cap: real, k: nat): real {
    if k == 0 then cap else Eased(cap, k - 1) * RECOVER_FACTOR
  }

  lemma {:induction false} EasedIsGeometric(cap: real, k: nat)
    ensures Eased(cap, k) == cap * Pow(RECOVER_FACTOR, k)
  {
    if k > 0 { EasedIsGeometric(cap, k - 1); }
  }

  function Rewards(es: seq<Event>): nat {
    if es == [] then 0
    else Rewards(es[..|es| - 1]) + if es[|es| - 1].op.Reward? then 1 else 0
  }

  predicate Quiet(es: seq<Event>) {
    forall e :: e in es ==> !e.op.Penalize?
  }

  lemma {:induction false} PowPositive(k: nat)
    ensures 0.0 < Pow(RECOVER_FACTOR, k)
  {
    if k > 0 { PowPositive(k - 1); }
  }

  lemma EaseStep(c: Config, g: Gate, e: Event, now: real, bound: real)
    requires c.Valid() && e.now <= now && !e.op.Penalize?
    requires Interval(c, g, e.now) <= Max(c.base, bound) && Interval(c, g, now) <= Max(c.base, bound)
    ensures Interval(c, Step(c, g, e), now) <= Max(c.base, if e.op.Reward? then bound * RECOVER_FACTOR else bound)
  {
  }

  lemma LaterEvent(es: seq<Event>, more: seq<Event>)
    requires WellTimed(es + more) && more != []
    ensures WellTimed(es + more[..|more| - 1])
    ensures forall x :: x in more[..|more| - 1] ==> x.now <= more[|more| - 1].now
    ensures es + more == (es + more[..|more| - 1]) + [more[|more| - 1]]
  {
    var before, e := more[..|more| - 1], more[|more| - 1];
    assert (es + more)[..|es + more| - 1] == es + before;
    WellTimedPrefix(es + more);
    forall x | x in before ensures x.now <= e.now {
      var i :| 0 <= i < |before| && before[i] == x;
      assert (es + more)[|es| + i] == x && (es + more)[|es + more| - 1] == e;
    }
  }

  lemma RunSnoc(c: Config, es: seq<Event>, e: Event)
    ensures Run(c, es + [e]) == Step(c, Run(c, es), e)
  {
    assert (es + [e])[..|es|] == es;
  }

  /** After any run, a stretch without a 429 eases the interval at least
      geometrically towards the minimum, whatever expires in between. */
  lemma {:induction false} RewardsEase(c: Config, es: seq<Event>, more: seq<Event>, now: real)
    requires c.Valid() && WellTimed(es + more) && Quiet(more)
    requires forall e :: e in more ==> e.now <= now
    ensures Interval(c, Run(c, es + more), now) <= Max(c.base, Eased(c.maxi, Rewards(more)))
    decreases |more|
  {
    if more == [] {
      assert es + more == es;
      IntervalWithinBounds(c, es, now);
    } else {
      var before, e := more[..|more| - 1], more[|more| - 1];
      LaterEvent(es, more);
      assert e in more && forall x :: x in before ==> x in more;
      RewardsEase(c, es, before, now);
      RewardsEase(c, es, before, e.now);
      RunSnoc(c, es + before, e);
      EaseStep(c, Run(c, es + before), e, now, Eased(c.maxi, Rewards(before)));
    }
  }

  /** Bernoulli: nine successes per unit of (x - base) / base are enough. */
  lemma {:induction false} PowShrinks(k: nat)
    ensures Pow(RECOVER_FACTOR, k) * (1.0 + k as real / 9.0) <= 1.0
  {
    if k > 0 {
      PowShrinks(k - 1);
      PowPositive(k - 1);
      var p, q := Pow(RECOVER_FACTOR, k - 1), (k - 1) as real;
      assert Pow(RECOVER_FACTOR, k) * (1.0 + k as real / 9.0) == p * (1.0 + q / 10.0);
      assert p * (q / 10.0) <= p * (q / 9.0);
    }
  }

  lemma MulOrder(x: real, y: real, z: real)
    requires 0.0 <= x && y <= z
    ensures x * y <= x * z
  {
  }

  lemma ShrinksBelow(base: real, maxi: real, k: nat)
    requires 0.0 < base && 9.0 * (maxi - base) <= k as real * base
    ensures Eased(maxi, k) <= base
  {
    EasedIsGeometric(maxi, k);
    PowShrinks(k);
    PowPositive(k);
    var p, r := Pow(RECOVER_FACTOR, k), 1.0 + k as real / 9.0;
    assert maxi <= base * r;
    MulOrder(p, maxi, base * r);
    MulOrder(base, p * r, 1.0);
    assert p * (base * r) == base * (p * r);
  }

  /** Enough consecutive successes bring the interval back exactly to the
      minimum: 9 (max - min) / min of them suffice from any state. */
  lemma EnoughRewardsRestoreMinimum(c: Config, es: seq<Event>, more: seq<Event>, now: real)
    requires c.Valid() && 0.0 < c.base && WellTimed(es + more) && Quiet(more)
    requires forall e :: e in more ==> e.now <= now
    requires 9.0 * (c.maxi - c.base) <= Rewards(more) as real * c.base
    ensures Interval(c, Run(c, es + more), now) == c.base
  {
    ShrinksBelow(c.base, c.maxi, Rewards(more));
    RewardsEase(c, es, more, now);
    IntervalWithinBounds(c, es + more, now);
  }

  /** At the default 5 s and 45 s, 21 successes undo any back-off. */
  lemma DefaultsRecoverIn21(es: seq<Event>, more: seq<Event>, now: real)
    requires WellTimed(es + more) && Quiet(more) && Rewards(more) >= 21
    requires forall e :: e in more ==> e.now <= now
    ensures Interval(DEFAULTS, Run(DEFAULTS, es + more), now) == DEFAULTS.base
  {
    RewardsEase(DEFAULTS, es, more, now);
    IntervalWithinBounds(DEFAULTS, es + more, now);
    EasedIsGeometric(45.0, Rewards(more));
    PowDecreases(21, Rewards(more));
    Powers();
  }

  lemma {:induction false} PowSplit(j: nat, k: nat)
    ensures Pow(RECOVER_FACTOR, j + k) == Pow(RECOVER_FACTOR, j) * Pow(RECOVER_FACTOR, k)
  {
    if j > 0 { PowSplit(j - 1, k); }
  }

  lemma {:induction false} PowDecreases(j: nat, k: nat)
    requires j <= k
    ensures Pow(RECOVER_FACTOR, k) <= Pow(RECOVER_FACTOR, j)
  {
    if j < k {
      PowDecreases(j, k - 1);
      PowPositive(k - 1);
    }
  }

  /** The interval's key is there at every event and still at `now`. */
  ghost predicate StaysLive(c: Config, es: seq<Event>, more: seq<Event>, now: real)
    decreases |more|
  {
    && Run(c, es + more).interval.Live(now)
    && (more == [] || StaysLive(c, es, more[..|more| - 1], more[|more| - 1].now))
  }

  lemma EaseStepExactly(c: Config, g: Gate, e: Event, now: real, bound: real)
    requires c.Valid() && !e.op.Penalize? && g.interval.Live(e.now) && Step(c, g, e).interval.Live(now)
    requires Interval(c, g, e.now) == Max(c.base, bound)
    ensures Interval(c, Step(c, g, e), now) == Max(c.base, if e.op.Reward? then bound * 0.9 else bound)
  {
  }

  lemma {:induction false} EasesStepByStep(c: Config, es: seq<Event>, more: seq<Event>, now: real)
    requires c.Valid() && WellTimed(es + more) && Quiet(more) && StaysLive(c, es, more, now)
    ensures Run(c, es).interval.Key?
    ensures Interval(c, Run(c, es + more), now) == Max(c.base, Eased(Run(c, es).interval.value, Rewards(more)))
    decreases |more|
  {
    if more == [] {
      assert es + more == es;
      IntervalWithinBounds(c, es, now);
    } else {
      var before, e := more[..|more| - 1], more[|more| - 1];
      LaterEvent(es, more);
      assert e in more && forall x :: x in before ==> x in more;
      EasesStepByStep(c, es, before, e.now);
      RunSnoc(c, es + before, e);
      EaseStepExactly(c, Run(c, es + before), e, now, Eased(Run(c, es).interval.value, Rewards(before)));
    }
  }

  /** No faster either: while the key lives, k successes without a 429 bring an
      interval i to exactly i * 0.9^k, or to the minimum. */
  lemma EasesExactly(c: Config, es: seq<Event>, more: seq<Event>, now: real, i: real, k: nat)
    requires c.Valid() && WellTimed(es + more) && Quiet(more) && StaysLive(c, es, more, now)
    requires Run(c, es).interval.Key? && i == Run(c, es).interval.value && k == Rewards(more)
    ensures Interval(c, Run(c, es + more), now) == Max(c.base, i * Pow(0.9, k))
  {
    EasesStepByStep(c, es, more, now);
    EasedIsGeometric(i, k);
  }

  /** A 429, or a success while the key lives, keeps it for an hour; a
      reservation leaves it alone. */
  lemma KeyLivesAnHour(c: Config, g: Gate, e: Event, now: real)
    requires e.op.Penalize? || g.interval.Live(e.now)
    ensures Step(c, g, e).interval.Live(now) <==>
      now < if e.op.Reserve? then g.interval.expires else e.now + 3600.0
  {
  }

  /** So within an hour of a 429 the hypothesis of exact easing is met. */
  lemma {:induction false} LivesWithinTheHour(c: Config, es: seq<Event>, more: seq<Event>, now: real)
    requires WellTimed(es + more) && es != [] && es[|es| - 1].op.Penalize?
    requires now < es[|es| - 1].now + 3600.0 && forall e :: e in more ==> e.now < es[|es| - 1].now + 3600.0
    ensures StaysLive(c, es, more, now)
    ensures Run(c, es + more).interval.Key? && Run(c, es + more).interval.expires >= es[|es| - 1].now + 3600.0
    decreases |more|
  {
    if more == [] {
      assert es + more == es;
    } else {
      var before, e := more[..|more| - 1], more[|more| - 1];
      LaterEvent(es, more);
      assert e in more && forall x :: x in before ==> x in more;
      LivesWithinTheHour(c, es, before, e.now);
      RunSnoc(c, es + before, e);
      assert (es + more)[|es| - 1] == es[|es| - 1] && (es + more)[|es + more| - 1] == e;
    }
  }

  /** At the defaults, from the cap, 21 is exact: 20 successes do not do. */
  lemma DefaultsNeed21(es: seq<Event>, more: seq<Event>, now: real)
    requires WellTimed(es + more) && Quiet(more) && StaysLive(DEFAULTS, es, more, now)
    requires Run(DEFAULTS, es).interval.Key? && Run(DEFAULTS, es).interval.value == 45.0
    ensures Interval(DEFAULTS, Run(DEFAULTS, es + more), now) == 5.0 <==> Rewards(more) >= 21
  {
    EasesExactly(DEFAULTS, es, more, now, 45.0, Rewards(more));
    Powers();
    if Rewards(more) >= 21 { PowDecreases(21, Rewards(more)); } else { PowDecreases(Rewards(more), 20); }
  }

  lemma Powers()
    ensures 45.0 * Pow(0.9, 21) < 5.0 < 45.0 * Pow(0.9, 20)
  {
    assert Pow(RECOVER_FACTOR, 5) == 0.59049;
    assert Pow(RECOVER_FACTOR, 10) == 0.59049 * Pow(RECOVER_FACTOR, 5) by { PowSplit(5, 5); }
    assert Pow(RECOVER_FACTOR, 20) == Pow(RECOVER_FACTOR, 10) * Pow(RECOVER_FACTOR, 10) by { PowSplit(10, 10); }
    assert Pow(RECOVER_FACTOR, 21) == 0.9 * Pow(RECOVER_FACTOR, 20);
  }

  // ---- The cooldown ----

  /** No reservation made after a 429 starts before that 429's cooldown ends,
      expiring keys included. */
  lemma {:induction false} CooldownIsHonoured(c: Config, es: seq<Event>, i: nat, now: real)
    requires c.Valid() && WellTimed(es) && i < |es| && es[i].op.Penalize?
    requires es[|es| - 1].now <= now
    ensures es[i].now + c.cooldown <= Start(Run(c, es), now)
    ensures var k := Run(c, es).cooldown; k.Key? && es[i].now + c.cooldown <= k.value <= k.expires
  {
    var e := es[|es| - 1];
    if i < |es| - 1 {
      WellTimedPrefix(es);
      CooldownIsHonoured(c, es[..|es| - 1], i, e.now);
    }
  }

  // ---- The backlog ----

  /** What one worker may wait while `n` other slots are still ahead. */
  function Backlog(c: Config, n: nat): real {
    Max(c.cooldown, c.maxi) + Slots(n, c.maxi)
  }

  /** Counting from the slot before index `i`: nothing booked lies further out
      than a cooldown from now, or `i`'s predecessor, plus one maximum interval
      per slot since. */
  predicate BookedWithin(c: Config, grants: seq<Grant>, next: real, now: real, i: nat)
    requires i <= |grants|
  {
    next <= Max(now + Max(c.cooldown, c.maxi), Anchor(c, grants, i)) + Slots(|grants| - i, c.maxi)
  }

  function Anchor(c: Config, grants: seq<Grant>, i: nat): real
    requires i <= |grants|
  {
    if i == 0 then 0.0 else grants[i - 1].start + c.maxi
  }

  /** One script moves the booking horizon by at most one maximum interval. */
  lemma HorizonStep(c: Config, g: Gate, e: Event, now: real, limit: real)
    requires c.Valid() && 0.0 <= e.now <= now
    requires c.base <= Interval(c, g, e.now) <= c.maxi
    requires e.now + c.cooldown <= limit && 0.0 <= limit
    requires g.next.GetOr(e.now, 0.0) <= limit && g.cooldown.GetOr(e.now, 0.0) <= e.now + c.cooldown
    ensures Step(c, g, e).next.GetOr(now, 0.0) <= if e.op.Reserve? then limit + c.maxi else limit
    ensures e.op.Reserve? ==> Step(c, g, e).next.GetOr(now, 0.0) <= Max(0.0, Start(g, e.now) + c.maxi)
    ensures Step(c, g, e).cooldown.GetOr(now, 0.0) <= now + c.cooldown
  {
  }

  /** What one more event does to the limit counted from slot `i`. */
  lemma LimitGrows(c: Config, grants: seq<Grant>, more: seq<Grant>, i: nat, then_: real, now: real)
    requires c.Valid() && then_ <= now && i <= |grants| <= |more| <= |grants| + 1 && grants == more[..|grants|]
    ensures var limit := Max(then_ + Max(c.cooldown, c.maxi), Anchor(c, grants, i)) + Slots(|grants| - i, c.maxi);
            (if |more| > |grants| then limit + c.maxi else limit)
            <= Max(now + Max(c.cooldown, c.maxi), Anchor(c, more, i)) + Slots(|more| - i, c.maxi)
  {
    SlotsStep(|grants| - i, c.maxi);
  }

  lemma GrantsGrow(c: Config, es: seq<Event>)
    requires es != []
    ensures var before, e := es[..|es| - 1], es[|es| - 1];
            Grants(c, es) == Grants(c, before)
              + if e.op.Reserve?
                then [Grant(e.now, Start(Run(c, before), e.now), Interval(c, Run(c, before), e.now))] else []
  {
  }

  lemma {:induction false} BookedWithinRun(c: Config, es: seq<Event>, i: nat, now: real)
    requires c.Valid() && WellTimed(es) && i <= |Grants(c, es)|
    requires 0.0 <= now && (es != [] ==> es[|es| - 1].now <= now)
    ensures BookedWithin(c, Grants(c, es), Run(c, es).next.GetOr(now, 0.0), now, i)
    ensures Run(c, es).cooldown.GetOr(now, 0.0) <= now + c.cooldown
    decreases |es|
  {
    if es != [] {
      var before, e := es[..|es| - 1], es[|es| - 1];
      WellTimedPrefix(es);
      GrantsGrow(c, es);
      var grants := Grants(c, before);
      var j := if i <= |grants| then i else |grants|;
      IntervalWithinBounds(c, before, e.now);
      BookedWithinRun(c, before, j, e.now);
      SlotsMonotone(0, |grants| - j, c.maxi);
      var limit := Max(e.now + Max(c.cooldown, c.maxi), Anchor(c, grants, j)) + Slots(|grants| - j, c.maxi);
      HorizonStep(c, Run(c, before), e, now, limit);
      LimitGrows(c, grants, Grants(c, es), j, e.now, now);
      SlotsMonotone(0, 0, c.maxi);
    }
  }

  /** Some slot starts by `now`, and everything granted after it is still ahead. */
  lemma {:induction false} OutstandingSuffix(grants: seq<Grant>, now: real) returns (i: nat)
    ensures i <= |grants| && |grants| - i <= Outstanding(grants, now)
    ensures i > 0 ==> grants[i - 1].start <= now
  {
    if grants == [] || grants[|grants| - 1].start <= now {
      i := |grants|;
    } else {
      i := OutstandingSuffix(grants[..|grants| - 1], now);
    }
  }

  lemma SlotsMonotone(m: nat, n: nat, width: real)
    requires m <= n && 0.0 <= width
    ensures Slots(m, width) <= Slots(n, width)
  {
    assert Slots(n, width) - Slots(m, width) == (n - m) as real * width;
  }

  /** Over any run of reservations, 429s and successes, a reservation made while
      `n` earlier slots are still ahead waits at most
      max(cooldown, maximum interval) + n * maximum interval. */
  lemma WaitIsBounded(c: Config, es: seq<Event>, now: real)
    requires c.Valid() && WellTimed(es)
    requires 0.0 <= now && (es != [] ==> es[|es| - 1].now <= now)
    ensures Start(Run(c, es), now) - now <= Backlog(c, Outstanding(Grants(c, es), now))
  {
    var grants := Grants(c, es);
    var i := OutstandingSuffix(grants, now);
    BookedWithinRun(c, es, i, now);
    SlotsMonotone(|grants| - i, Outstanding(grants, now), c.maxi);
    SlotsMonotone(0, Outstanding(grants, now), c.maxi);
  }

  // ---- Expiry ----

  /** The simple gate: `next` and the cooldown end never expire. */
  datatype Ideal = Ideal(next: real, cooldown: real)

  function IdealStart(g: Ideal, now: real): real {
    Max(Max(now, g.next), g.cooldown)
  }

  function IdealStep(c: Config, g: Ideal, e: Event, interval: real): Ideal {
    match e.op
    case Reserve => g.(next := IdealStart(g, e.now) + interval)
    case Penalize => Ideal(Max(g.next, e.now + c.cooldown), e.now + c.cooldown)
    case Reward => g
  }

  function IdealRun(c: Config, es: seq<Event>): Ideal {
    if es == [] then Ideal(0.0, 0.0)
    else
      var before, e := es[..|es| - 1], es[|es| - 1];
      IdealStep(c, IdealRun(c, before), e, Interval(c, Run(c, before), e.now))
  }

  /** Forgetting a booked slot is harmless exactly when the slot ends within the
      key's lifetime. */
  lemma ExpiryHarmlessIff(value: real, setAt: real)
    requires 0.0 <= setAt
    ensures (forall now :: setAt <= now ==> Max(now, Key(value, setAt + TTL).GetOr(now, 0.0)) == Max(now, value))
            <==> value <= setAt + TTL
  {
    var lapse := setAt + TTL;
    if lapse < value {
      assert Max(lapse, Key(value, setAt + TTL).GetOr(lapse, 0.0)) != Max(lapse, value);
    }
  }

  /** Every slot booked by the run ends within the key lifetime. */
  predicate BooksWithinTtl(c: Config, es: seq<Event>) {
    && c.cooldown <= TTL
    && forall g :: g in Grants(c, es) ==> g.start + g.interval <= g.at + TTL
  }

  /** Both gates show the same booked time and the same cooldown. */
  predicate Agree(g: Gate, ideal: Ideal, now: real) {
    && Max(now, g.next.GetOr(now, 0.0)) == Max(now, ideal.next)
    && Max(now, g.cooldown.GetOr(now, 0.0)) == Max(now, ideal.cooldown)
  }

  /** One script on either gate, if what it books ends within the key lifetime. */
  lemma StepAgrees(c: Config, g: Gate, ideal: Ideal, e: Event, now: real)
    requires c.Valid() && c.cooldown <= TTL && 0.0 <= e.now <= now
    requires Agree(g, ideal, e.now) && Agree(g, ideal, now)
    requires e.op.Reserve? ==> Start(g, e.now) + Interval(c, g, e.now) <= e.now + TTL
    ensures Agree(Step(c, g, e), IdealStep(c, ideal, e, Interval(c, g, e.now)), now)
  {
  }

  /** Under that hypothesis the expiring gate refines the simple one: at every
      later moment both hand out the same start. */
  lemma {:induction false} ExpiryInvisible(c: Config, es: seq<Event>, now: real)
    requires c.Valid() && WellTimed(es) && BooksWithinTtl(c, es)
    requires 0.0 <= now && (es != [] ==> es[|es| - 1].now <= now)
    ensures Start(Run(c, es), now) == IdealStart(IdealRun(c, es), now)
    ensures Agree(Run(c, es), IdealRun(c, es), now)
  {
    if es != [] {
      var before, e := es[..|es| - 1], es[|es| - 1];
      WellTimedPrefix(es);
      assert forall g :: g in Grants(c, before) ==> g in Grants(c, es);
      ExpiryInvisible(c, before, e.now);
      ExpiryInvisible(c, before, now);
      if e.op.Reserve? {
        var g := Grant(e.now, Start(Run(c, before), e.now), Interval(c, Run(c, before), e.now));
        assert Grants(c, es)[|Grants(c, before)|] == g;
        assert g in Grants(c, es);
      }
      StepAgrees(c, Run(c, before), IdealRun(c, before), e, now);
    }
  }

  lemma {:induction false} IdealNextPassesGrants(c: Config, es: seq<Event>)
    requires c.Valid() && WellTimed(es) && BooksWithinTtl(c, es)
    ensures forall g :: g in Grants(c, es) ==> g.start + g.interval <= IdealRun(c, es).next
    ensures forall i, j :: 0 <= i < j < |Grants(c, es)| ==>
              Grants(c, es)[i].start + Grants(c, es)[i].interval <= Grants(c, es)[j].start
  {
    if es != [] {
      var before, e := es[..|es| - 1], es[|es| - 1];
      WellTimedPrefix(es);
      assert forall g :: g in Grants(c, before) ==> g in Grants(c, es);
      IdealNextPassesGrants(c, before);
      ExpiryInvisible(c, before, e.now);
      IntervalWithinBounds(c, before, e.now);
    }
  }

  /** The largest number of slots ahead for which every booking fits the TTL. */
  predicate FitsTtl(c: Config, n: nat) {
    Backlog(c, n) + c.maxi <= TTL
  }

  /** Never more than `n` slots ahead when one more is asked for. */
  predicate AtMostAhead(c: Config, es: seq<Event>, n: nat) {
    forall k :: 0 <= k < |es| && es[k].op.Reserve? ==> Outstanding(Grants(c, es[..k]), es[k].now) <= n
  }

  lemma {:induction false} BacklogFitsTtl(c: Config, es: seq<Event>, n: nat)
    requires c.Valid() && WellTimed(es) && FitsTtl(c, n) && AtMostAhead(c, es, n)
    ensures BooksWithinTtl(c, es)
  {
    SlotsMonotone(0, n, c.maxi);
    if es != [] {
      var before, e := es[..|es| - 1], es[|es| - 1];
      WellTimedPrefix(es);
      assert forall k :: 0 <= k <= |before| ==> es[..k] == before[..k];
      BacklogFitsTtl(c, before, n);
      if e.op.Reserve? {
        WaitIsBounded(c, before, e.now);
        assert before == es[..|es| - 1];
        SlotsMonotone(Outstanding(Grants(c, before), e.now), n, c.maxi);
        IntervalWithinBounds(c, before, e.now);
      }
    }
  }

  /** Slots are handed out at least the interval in force apart, hence at least
      the minimum, over any run that never has more than `n` slots ahead. */
  lemma SlotsAreSpaced(c: Config, es: seq<Event>, n: nat, i: nat, j: nat)
    requires c.Valid() && WellTimed(es) && FitsTtl(c, n) && AtMostAhead(c, es, n)
    requires i < j < |Grants(c, es)|
    ensures Grants(c, es)[i].start + Grants(c, es)[i].interval <= Grants(c, es)[j].start
    ensures c.base <= Grants(c, es)[i].interval
  {
    BacklogFitsTtl(c, es, n);
    IdealNextPassesGrants(c, es);
    GrantsUseMinimum(c, es);
  }

  lemma {:induction false} GrantsUseMinimum(c: Config, es: seq<Event>)
    requires c.Valid()
    ensures forall g :: g in Grants(c, es) ==> c.base <= g.interval <= c.maxi
  {
    if es != [] {
      GrantsUseMinimum(c, es[..|es| - 1]);
      IntervalWithinBounds(c, es[..|es| - 1], es[|es| - 1].now);
    }
  }

  /** With the default settings 76 slots ahead are safe and 77 are not covered. */
  lemma DefaultBacklog(n: nat)
    ensures FitsTtl(DEFAULTS, n) <==> n <= 76
  {
    assert Slots(n, 45.0) == n as real * 45.0;
  }
}
