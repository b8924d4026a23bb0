/** The gateway's fixed-window limiter over shared Redis counters: one client's counters, with any
    number of gateways asking at once. */
module RateLimit {
  import opened Text

  /** Nanoseconds on one clock. */
  type Time = nat

  const SECOND := 1_000_000_000

  /** A counter that is not there, or has expired, counts from one again; without a deadline it stays. */
  datatype Counter = Counter(n: nat, expires: Option<Time>)

  /** `grants`: the requests let through under the quota, by the time read for their bucket. */
  datatype State = State(now: Time, counters: map<nat, Counter>, grants: seq<Time>)

  /** `lag`: how long after reading the clock the INCR may reach Redis. */
  datatype Config = Config(window: nat, max: nat, lag: nat)

  /** The two commands of a pipeline, any time apart; `heard` when the pipeline as a whole will succeed. An
      EXPIRE may also never come. */
  datatype Action = Tick(d: nat) | Incr(c: Time, heard: bool) | Expire(b: nat)

  ghost predicate ValidConfig(k: Config) {
    k.window > 0 && k.max > 0
  }

  function WindowSecs(window: nat): (w: nat)
    ensures w > 0
  {
    if window / SECOND == 0 then 1 else window / SECOND
  }

  /** EXPIRE of twice the window: whole seconds, at least one. */
  function Life(window: nat): (life: nat)
    ensures life > 0
  {
    (if window * 2 < SECOND then 1 else window * 2 / SECOND) * SECOND
  }

  function Span(window: nat): (span: nat)
    ensures span > 0
  {
    WindowSecs(window) * SECOND
  }

  function Bucket(window: nat, c: Time): nat {
    c / SECOND / WindowSecs(window)
  }

  /** EXPIRE gives a counter that is there twice the window, in whole seconds and no less than one. */
  lemma Expires(k: Config, s: State, b: nat)
    requires b in s.counters
    ensures var t := Apply(k, s, Expire(b));
            var life := if 2 * k.window < 1_000_000_000 then 1 else 2 * k.window / 1_000_000_000;
            && b in t.counters && t.counters[b].expires.Some?
            && (t.counters[b].expires.value == t.now + life * 1_000_000_000 || t.counters[b].expires.value <= t.now)
  {
    assert 2 * k.window == k.window * 2;
  }

  lemma BucketIs(window: nat, c: Time)
    ensures Bucket(window, c) == c / 1_000_000_000 / (if window < 1_000_000_000 then 1 else window / 1_000_000_000)
  {
    assert window < SECOND <==> window / SECOND == 0;
  }

  function Live(s: State, b: nat): Option<Counter> {
    if b in s.counters && (s.counters[b].expires.None? || s.now < s.counters[b].expires.value)
    then Some(s.counters[b]) else None
  }

  /** INCR */
  function Count(s: State, b: nat): (n: nat)
    ensures n > 0
  {
    (if Live(s, b).Some? then Live(s, b).value.n else 0) + 1
  }

  predicate Enabled(k: Config, s: State, a: Action) {
    match a
    case Tick(_) => true
    case Incr(c, _) => c <= s.now <= c + k.lag
    case Expire(b) => b in s.counters
  }

  /** INCR keeps the deadline of a counter that is there; a new one has none. */
  function Incremented(s: State, b: nat): State {
    s.(counters := s.counters[b := Counter(Count(s, b), if Live(s, b).Some? then Live(s, b).value.expires else None)])
  }

  function Apply(k: Config, s: State, a: Action): State {
    match a
    case Tick(d) => s.(now := s.now + d)
    case Incr(c, heard) =>
      var b := Bucket(k.window, c);
      var t := Incremented(s, b);
      if heard && Count(s, b) <= k.max then t.(grants := s.grants + [c]) else t
    case Expire(b) =>
      if Live(s, b).None? then s
      else s.(counters := s.counters[b := Live(s, b).value.(expires := Some(s.now + Life(k.window)))])
  }

  ghost predicate IsRun(k: Config, s: State, run: seq<Action>, t: State)
    decreases |run|
  {
    if run == [] then s == t else Enabled(k, s, run[0]) && IsRun(k, Apply(k, s, run[0]), run[1..], t)
  }

  ghost predicate Reachable(k: Config, t: State) {
    exists now: Time, run: seq<Action> :: IsRun(k, State(now, map[], []), run, t)
  }

  // ----- Grants of a bucket -----

  function InBucket(window: nat, grants: seq<Time>, b: nat): nat {
    if grants == [] then 0
    else InBucket(window, grants[..|grants| - 1], b) + if Bucket(window, grants[|grants| - 1]) == b then 1 else 0
  }

  lemma OneMore(window: nat, grants: seq<Time>, c: Time, b: nat)
    ensures InBucket(window, grants + [c], b) == InBucket(window, grants, b) + if Bucket(window, c) == b then 1 else 0
  {
    assert (grants + [c])[..|grants|] == grants;
  }

  lemma MulOrder(a: nat, b: nat, c: nat)
    ensures a <= b ==> a * c <= b * c
  {
  }

  lemma DivBounds(q: nat, w: nat)
    requires w > 0
    ensures q / w * w <= q < q / w * w + w
  {
  }

  lemma MulAssociates(b: nat, w: nat)
    ensures b * (w * SECOND) == b * w * SECOND
  {
  }

  lemma Scaled(x: nat, w: nat, q: nat, c: Time)
    requires x <= q < x + w && q == c / SECOND
    ensures x * SECOND <= c < x * SECOND + w * SECOND
  {
  }

  lemma BucketBounds(window: nat, c: Time)
    ensures Bucket(window, c) * Span(window) <= c < Bucket(window, c) * Span(window) + Span(window)
  {
    hide WindowSecs;
    var w := WindowSecs(window);
    var b := c / SECOND / w;
    DivBounds(c / SECOND, w);
    Scaled(b * w, w, c / SECOND, c);
    MulAssociates(b, w);
  }

  /** A counter is younger than its bucket, and counts every grant of the bucket. */
  ghost predicate Inv(k: Config, s: State) {
    && (forall b :: b in s.counters ==> b * Span(k.window) <= s.now)
    && (forall b :: b in s.counters && s.counters[b].expires.Some? ==>
          b * Span(k.window) + Life(k.window) <= s.counters[b].expires.value)
    && (forall b :: InBucket(k.window, s.grants, b) <= k.max)
    && (forall b :: InBucket(k.window, s.grants, b) > 0 ==>
          b in s.counters && InBucket(k.window, s.grants, b) <= s.counters[b].n)
  }

  /** How long a request may linger without finding its bucket's counter expired. */
  function Slack(window: nat): int {
    Life(window) - Span(window)
  }

  /** There is always some slack, a whole window of it when the window is whole seconds. */
  lemma SlackIsNotNegative(window: nat)
    requires window > 0
    ensures Slack(window) >= 0
    ensures window >= SECOND && window % SECOND == 0 ==> Slack(window) == window
    ensures Slack(window) == if window < 1_000_000_000 then 0
                             else (window * 2 / 1_000_000_000 - window / 1_000_000_000) * 1_000_000_000
  {
    var q, r := window / SECOND, window % SECOND;
    assert window == q * SECOND + r;
    if q > 0 {
      assert window * 2 / SECOND >= 2 * q && (r == 0 ==> window * 2 / SECOND == 2 * q);
    }
  }

  /** While requests are within the slack, expiry never resets a counter its bucket still uses. */
  lemma LiveBucketKeepsItsCounter(k: Config, s: State, c: Time)
    requires Inv(k, s) && k.lag <= Slack(k.window) && c <= s.now <= c + k.lag && Bucket(k.window, c) in s.counters
    ensures Live(s, Bucket(k.window, c)).Some?
  {
    hide Bucket, Span, Life, InBucket;
    BucketBounds(k.window, c);
  }

  lemma StepKeepsInv(k: Config, s: State, a: Action)
    requires ValidConfig(k) && Inv(k, s) && Enabled(k, s, a) && k.lag <= Slack(k.window)
    ensures Inv(k, Apply(k, s, a))
  {
    hide Bucket, Span, Life, InBucket;
    if a.Incr? {
      var b := Bucket(k.window, a.c);
      BucketBounds(k.window, a.c);
      if b in s.counters {
        LiveBucketKeepsItsCounter(k, s, a.c);
      }
      forall b': nat
        ensures InBucket(k.window, s.grants + [a.c], b') == InBucket(k.window, s.grants, b') + if b' == b then 1 else 0
      {
        OneMore(k.window, s.grants, a.c, b');
      }
    }
  }

  lemma {:induction false} RunKeepsInv(k: Config, s: State, run: seq<Action>, t: State)
    requires ValidConfig(k) && Inv(k, s) && IsRun(k, s, run, t) && k.lag <= Slack(k.window)
    ensures Inv(k, t)
    decreases |run|
  {
    hide Inv, Apply, Enabled, Slack;
    if run != [] {
      StepKeepsInv(k, s, run[0]);
      RunKeepsInv(k, Apply(k, s, run[0]), run[1..], t);
    }
  }

  lemma ReachableInv(k: Config, t: State)
    requires ValidConfig(k) && Reachable(k, t) && k.lag <= Slack(k.window)
    ensures Inv(k, t)
  {
    hide Slack, Span, Life, Apply;
    var now: Time, run: seq<Action> :| IsRun(k, State(now, map[], []), run, t);
    RunKeepsInv(k, State(now, map[], []), run, t);
  }

  // ----- Grants of an interval -----

  /** Grants at times from `t` to `t + d`, both included. */
  function Within(grants: seq<Time>, t: Time, d: nat): nat {
    if grants == [] then 0
    else Within(grants[..|grants| - 1], t, d) + if t <= grants[|grants| - 1] <= t + d then 1 else 0
  }

  lemma NearOrder(b: nat, b': nat, span: nat, t: Time, c: Time, d: nat)
    requires b * span <= t < b * span + span && b' * span <= c < b' * span + span
    requires t <= c <= t + d && d < 2 * span
    ensures b <= b' <= b + 2 && (d <= span ==> b' <= b + 1)
  {
    MulOrder(b' + 1, b, span);
    MulOrder(b + 3, b', span);
    MulOrder(b + 2, b', span);
    assert (b' + 1) * span == b' * span + span && (b + 2) * span == b * span + 2 * span
      && (b + 3) * span == b * span + 3 * span;
  }

  lemma BucketOfNear(window: nat, t: Time, c: Time, d: nat)
    requires t <= c <= t + d && d < 2 * Span(window)
    ensures var b := Bucket(window, t); b <= Bucket(window, c) <= b + 2
    ensures d <= Span(window) ==> Bucket(window, c) <= Bucket(window, t) + 1
  {
    hide *;
    BucketBounds(window, t);
    BucketBounds(window, c);
    NearOrder(Bucket(window, t), Bucket(window, c), Span(window), t, c, d);
  }

  lemma {:induction false} WithinTouches(window: nat, grants: seq<Time>, t: Time, d: nat)
    requires d < 2 * Span(window)
    ensures var b := Bucket(window, t);
            && Within(grants, t, d) <= InBucket(window, grants, b) + InBucket(window, grants, b + 1)
              + InBucket(window, grants, b + 2)
            && (d <= Span(window) ==>
                  Within(grants, t, d) <= InBucket(window, grants, b) + InBucket(window, grants, b + 1))
  {
    hide Bucket, Span;
    if grants != [] {
      var c := grants[|grants| - 1];
      WithinTouches(window, grants[..|grants| - 1], t, d);
      if t <= c <= t + d {
        BucketOfNear(window, t, c, d);
      }
    }
  }

  lemma WindowIsShort(window: nat)
    requires window > 0
    ensures window < 2 * Span(window) && (window <= Span(window) <==> window < SECOND || window % SECOND == 0)
  {
  }

  /** In every run whose requests linger no longer than the slack: no more than `max` grants in a bucket,
      no more than three times that in any interval of one window, and no more than twice that when the
      window is whole seconds or less than one. */
  lemma QuotaHolds(k: Config, s: State, b: nat, t: Time)
    requires ValidConfig(k) && Reachable(k, s) && k.lag <= Slack(k.window)
    ensures InBucket(k.window, s.grants, b) <= k.max
    ensures Within(s.grants, t, k.window) <= 3 * k.max
    ensures k.window < SECOND || k.window % SECOND == 0 ==> Within(s.grants, t, k.window) <= 2 * k.max
  {
    hide Slack, Span, Life, InBucket, Within;
    ReachableInv(k, s);
    WindowIsShort(k.window);
    WithinTouches(k.window, s.grants, t, k.window);
    var b0 := Bucket(k.window, t);
    assert InBucket(k.window, s.grants, b0) <= k.max;
    assert InBucket(k.window, s.grants, b0 + 1) <= k.max && InBucket(k.window, s.grants, b0 + 2) <= k.max;
  }

  // ----- Where the bounds end -----

  lemma {:induction false} RunSnoc(k: Config, s: State, run: seq<Action>, t: State, a: Action)
    requires IsRun(k, s, run, t) && Enabled(k, t, a)
    ensures IsRun(k, s, run + [a], Apply(k, t, a))
    decreases |run|
  {
    hide Apply, Enabled;
    if run == [] {
      assert [a][1..] == [];
      assert IsRun(k, Apply(k, t, a), [], Apply(k, t, a));
    } else {
      RunSnoc(k, Apply(k, s, run[0]), run[1..], t, a);
      assert (run + [a])[1..] == run[1..] + [a];
    }
  }

  lemma Do(k: Config, s: State, a: Action) returns (t: State)
    requires Reachable(k, s) && Enabled(k, s, a)
    ensures Reachable(k, t) && t == Apply(k, s, a)
  {
    hide Apply, Enabled;
    var now: Time, run: seq<Action> :| IsRun(k, State(now, map[], []), run, s);
    RunSnoc(k, State(now, map[], []), run, s, a);
    t := Apply(k, s, a);
  }

  lemma Start(k: Config, now: Time) returns (s: State)
    ensures Reachable(k, s) && s == State(now, map[], [])
  {
    s := State(now, map[], []);
    assert IsRun(k, s, [], s);
  }

  /** A pipeline executed at once, the counter under the quota. */
  lemma OneGrant(k: Config, s: State, c: Time)
    requires c <= s.now <= c + k.lag && Count(s, Bucket(k.window, c)) <= k.max
    ensures var b := Bucket(k.window, c); var t := Apply(k, s, Incr(c, true));
            && Enabled(k, s, Incr(c, true)) && Enabled(k, t, Expire(b))
            && var counter := Counter(Count(s, b), Some(s.now + Life(k.window)));
               Apply(k, t, Expire(b)) == State(s.now, s.counters[b := counter], s.grants + [c])
  {
    hide Bucket, Life;
    var b, s' := Bucket(k.window, c), Apply(k, s, Incr(c, true));
    assert s'.counters[b].n == Count(s, b) && Live(s', b) == Some(s'.counters[b]);
    var done := Apply(k, s', Expire(b));
    assert done.counters == s.counters[b := Counter(Count(s, b), Some(s.now + Life(k.window)))];
  }

  /** `n` requests read the clock at `c` and reach Redis now, where their bucket has no counter. */
  lemma {:induction false} Burst(k: Config, s: State, c: Time, n: nat) returns (t: State)
    requires Reachable(k, s) && n <= k.max && c <= s.now <= c + k.lag && Live(s, Bucket(k.window, c)).None?
    ensures Reachable(k, t) && t.now == s.now && t.grants == s.grants + seq(n, i => c)
    ensures var b := Bucket(k.window, c);
            t.counters == if n == 0 then s.counters else s.counters[b := Counter(n, Some(s.now + Life(k.window)))]
  {
    hide Reachable, Bucket, Life, Apply, Enabled;
    if n == 0 {
      t := s;
      assert s.grants + seq(0, i => c) == s.grants;
    } else {
      var m := Burst(k, s, c, n - 1);
      assert Count(m, Bucket(k.window, c)) == n;
      OneGrant(k, m, c);
      t := Do(k, m, Incr(c, true));
      t := Do(k, t, Expire(Bucket(k.window, c)));
      assert seq(n - 1, i => c) + [c] == seq(n, i => c);
      assert t.grants == s.grants + (seq(n - 1, i => c) + [c]);
    }
  }

  lemma {:induction false} CountRepeated(window: nat, grants: seq<Time>, c: Time, n: nat, b: nat, t: Time, d: nat)
    ensures InBucket(window, grants + seq(n, i => c), b)
         == InBucket(window, grants, b) + if Bucket(window, c) == b then n else 0
    ensures Within(grants + seq(n, i => c), t, d) == Within(grants, t, d) + if t <= c <= t + d then n else 0
  {
    hide Bucket;
    if n == 0 {
      assert grants + seq(0, i => c) == grants;
    } else {
      CountRepeated(window, grants, c, n - 1, b, t, d);
      var all := grants + seq(n, i => c);
      assert all[..|all| - 1] == grants + seq(n - 1, i => c) && all[|all| - 1] == c;
    }
  }

  lemma BucketOf(window: nat, c: Time, b: nat)
    requires b * Span(window) <= c < b * Span(window) + Span(window)
    ensures Bucket(window, c) == b
  {
    hide *;
    BucketBounds(window, c);
    NearOrder(b, Bucket(window, c), Span(window), b * Span(window), c, Span(window) - 1);
    NearOrder(Bucket(window, c), b, Span(window), Bucket(window, c) * Span(window), c, Span(window) - 1);
  }

  /** One request lingers until its bucket's counter is gone. */
  lemma LingeringRequestOverruns(k: Config) returns (s: State)
    requires ValidConfig(k) && k.lag > Slack(k.window)
    ensures Reachable(k, s) && InBucket(k.window, s.grants, 0) > k.max
  {
    hide Reachable, Bucket, Span, Life, InBucket, Within;
    var span, life := Span(k.window), Life(k.window);
    s := Start(k, 0);
    BucketOf(k.window, 0, 0);
    s := Burst(k, s, 0, k.max);
    CountRepeated(k.window, [], 0, k.max, 0, 0, 0);
    var last: nat := span - 1;
    s := Do(k, s, Tick(if life < last then last else life));
    BucketOf(k.window, last, 0);
    OneMore(k.window, s.grants, last, 0);
    s := Do(k, s, Incr(last, true));
    assert [] + seq(k.max, i => 0) == seq(k.max, i => 0);
    NoneInEmpty(k.window);
  }

  lemma NoneInEmpty(window: nat)
    ensures forall b :: InBucket(window, [], b) == 0
    ensures forall t: Time, d: nat :: Within([], t, d) == 0
  {
  }

  /** The quota of a bucket holds in every run, exactly when requests linger no longer than the slack. */
  lemma BucketQuotaExactly(k: Config)
    requires ValidConfig(k)
    ensures (forall s: State, b: nat :: Reachable(k, s) ==> InBucket(k.window, s.grants, b) <= k.max)
      <==> k.lag <= Slack(k.window)
  {
    hide Reachable, InBucket, Slack;
    if k.lag <= Slack(k.window) {
      forall s: State, b: nat | Reachable(k, s)
        ensures InBucket(k.window, s.grants, b) <= k.max
      {
        QuotaHolds(k, s, b, 0);
      }
    } else {
      var s := LingeringRequestOverruns(k);
    }
  }

  /** With a fraction of a second in the window, three full buckets fit into one window. */
  lemma FractionOverruns(k: Config) returns (s: State, t: Time)
    requires ValidConfig(k) && k.window >= SECOND && k.window % SECOND != 0
    ensures Reachable(k, s) && Within(s.grants, t, k.window) == 3 * k.max
  {
    hide Reachable, Bucket, Span, Life, InBucket, Within;
    WindowIsShort(k.window);
    var span, life := Span(k.window), Life(k.window);
    t := span - 1;
    s := Start(k, t);
    BucketOf(k.window, span - 1, 0);
    BucketOf(k.window, span, 1);
    BucketOf(k.window, 2 * span, 2);
    NoneInEmpty(k.window);
    s := Fill(k, s, span - 1, t);
    s := Do(k, s, Tick(1));
    s := Fill(k, s, span, t);
    s := Do(k, s, Tick(span));
    s := Fill(k, s, 2 * span, t);
  }

  lemma Fill(k: Config, s: State, c: Time, t: Time) returns (r: State)
    requires Reachable(k, s) && c == s.now && Bucket(k.window, c) !in s.counters && t <= c <= t + k.window
    ensures Reachable(k, r) && r.now == s.now && Within(r.grants, t, k.window) == Within(s.grants, t, k.window) + k.max
    ensures r.counters.Keys <= s.counters.Keys + {Bucket(k.window, c)}
  {
    hide Reachable, Bucket, Life, Within;
    r := Burst(k, s, c, k.max);
    CountRepeated(k.window, s.grants, c, k.max, 0, t, k.window);
  }

  /** Twice the quota bounds every interval of one window, exactly when the window is whole seconds or
      less than one. */
  lemma WindowQuotaExactly(k: Config)
    requires ValidConfig(k) && k.lag <= Slack(k.window)
    ensures (forall s: State, t: Time :: Reachable(k, s) ==> Within(s.grants, t, k.window) <= 2 * k.max)
       <==> k.window < SECOND || k.window % SECOND == 0
  {
    hide Reachable, Within, Slack;
    if k.window < SECOND || k.window % SECOND == 0 {
      forall s: State, t: Time | Reachable(k, s)
        ensures Within(s.grants, t, k.window) <= 2 * k.max
      {
        QuotaHolds(k, s, 0, t);
      }
    } else {
      var s, t := FractionOverruns(k);
    }
  }

  // ----- The limiter as it runs -----

  /** How a pipeline ends: with its replies, or with an error after so many commands were executed. */
  datatype Outcome = Works | Fails(after: nat)

  /** `redisRateLimiter` asking for one client, the other gateways acting before every command. */
  class Limiter {
    const k: Config
    const others: nat -> seq<Action>
    const outcomes: nat -> Outcome
    var st: State
    var tick: nat

    ghost predicate Valid()
      reads this
    {
      k.window > 0 && (k.max > 0 && k.lag <= Slack(k.window) ==> Inv(k, st))
    }

    /** `newRedisRateLimiter`: a window of a second unless a positive one is given. */
    constructor (window: int, max: nat, lag: nat, others: nat -> seq<Action>, outcomes: nat -> Outcome, now: Time)
      ensures Valid() && k == Config(if window <= 0 then 1_000_000_000 else window, max, lag)
      ensures this.others == others && this.outcomes == outcomes && st == State(now, map[], [])
    {
      this.k := Config(if window <= 0 then SECOND else window, max, lag);
      this.others := others;
      this.outcomes := outcomes;
      this.st := State(now, map[], []);
      this.tick := 0;
    }

    method Step(a: Action)
      requires Valid() && Enabled(k, st, a)
      modifies this`st
      ensures Valid() && st == Apply(k, old(st), a)
    {
      hide Inv, Apply, Enabled, Slack;
      if k.max > 0 && k.lag <= Slack(k.window) {
        StepKeepsInv(k, st, a);
      }
      st := Apply(k, st, a);
    }

    /** What the others do and how long it takes, up to `deadline`. */
    method LetOthersAct(deadline: Time)
      requires Valid() && st.now <= deadline
      modifies this
      ensures Valid() && old(st.now) <= st.now <= deadline && tick == old(tick) + 1
      ensures old(st.counters.Keys) <= st.counters.Keys && old(st.grants) <= st.grants
    {
      hide Inv, Slack, Life, Bucket;
      var script := others(tick);
      tick := tick + 1;
      for i := 0 to |script|
        invariant Valid() && old(st.now) <= st.now <= deadline && tick == old(tick) + 1
        invariant old(st.counters.Keys) <= st.counters.Keys && old(st.grants) <= st.grants
      {
        if Enabled(k, st, script[i]) && (script[i].Tick? ==> st.now + script[i].d <= deadline) {
          Step(script[i]);
        }
      }
    }

    /** `allow`: open when the quota is off or Redis fails; otherwise yes exactly when the counter of the
        bucket of the time read, as the INCR found it, has not passed the quota. `pause` bounds the time
        between the two commands. */
    method Allow(maxCount: int, pause: nat) returns (ok: bool, failed: bool)
      requires Valid() && (maxCount > 0 ==> maxCount == k.max)
      modifies this
      ensures Valid()
      ensures maxCount <= 0 ==> ok && !failed && st == old(st)
      ensures maxCount > 0 ==> (failed <==> outcomes(old(tick) + 1).Fails?) && (failed ==> ok)
      ensures maxCount > 0 && !failed ==>
        var bucket := old(st.now) / 1_000_000_000 / (if k.window < 1_000_000_000 then 1 else k.window / 1_000_000_000);
        var life := if 2 * k.window < 1_000_000_000 then 1 else 2 * k.window / 1_000_000_000;
        && bucket in st.counters && st.counters[bucket].expires.Some?
        && (st.counters[bucket].expires.value == st.now + life * 1_000_000_000
            || st.counters[bucket].expires.value <= st.now)
      ensures maxCount > 0 && !failed ==> exists found: State, c: Time ::
        && old(st.now) == c <= found.now <= c + k.lag && old(st.grants) <= found.grants
        && (var bucket := c / 1_000_000_000 / (if k.window < 1_000_000_000 then 1 else k.window / 1_000_000_000);
            ok <==> Count(found, bucket) <= maxCount)
        && (ok ==> found.grants + [c] <= st.grants)
    {
      hide Inv, Slack, Life, Bucket;
      if maxCount <= 0 {
        return true, false;
      }
      var c := st.now;
      BucketIs(k.window, c);
      LetOthersAct(c + k.lag);
      var outcome := outcomes(tick);
      failed := outcome.Fails?;
      ghost var found := st;
      var n := Count(st, Bucket(k.window, c));
      if outcome == Fails(0) {
        return true, true;
      }
      Step(Incr(c, outcome.Works?));
      LetOthersAct(st.now + pause);
      if outcome == Fails(1) {
        return true, true;
      }
      ghost var before := st;
      Step(Expire(Bucket(k.window, c)));
      Expires(k, before, Bucket(k.window, c));
      ok := failed || n <= maxCount;
      assert ok && !failed ==> found.grants + [c] <= st.grants;
    }
  }
}
