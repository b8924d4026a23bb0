/** `presence.RedisStore`: the methods as they run, each pipeline or command one step on a key, with
    everyone else free to act, and time to pass, before every one. */
module Presence {
  import opened Text
  import opened PresenceLog

  /** The answer of ZRANGE 0 k-1: members by score, then by name. */
  predicate Before(m: map<User, nat>, u: User, v: User)
    requires u in m && v in m
  {
    m[u] < m[v] || (m[u] == m[v] && u < v)
  }

  ghost predicate Sorted(m: map<User, nat>, users: seq<User>) {
    && (forall i :: 0 <= i < |users| ==> users[i] in m)
    && (forall i, j :: 0 <= i < j < |users| ==> Before(m, users[i], users[j]))
  }

  /** The first users of `m`: at most `k`, all of them when fewer, nobody left out before one listed. */
  ghost predicate Lists(m: map<User, nat>, users: seq<User>, k: nat) {
    && Sorted(m, users) && |users| <= k
    && (forall v :: v in m && v !in users ==> |users| == k && forall i :: 0 <= i < |users| ==> Before(m, users[i], v))
  }

  /** Of two users the one seen longer ago comes first, of two seen in the same second the one whose name
      does; and so does everyone listed before everyone not listed. */
  ghost predicate OldestFirst(m: map<User, nat>, users: seq<User>) {
    && (forall i :: 0 <= i < |users| ==> users[i] in m)
    && (forall i, j :: 0 <= i < j < |users| ==>
          m[users[i]] < m[users[j]] || (m[users[i]] == m[users[j]] && users[i] < users[j]))
    && forall u, i :: u in m && u !in users && 0 <= i < |users| ==>
         m[users[i]] < m[u] || (m[users[i]] == m[u] && users[i] < u)
  }

  function Listed(users: seq<User>): set<User> {
    set u | u in users
  }

  lemma ListsOldestFirst(m: map<User, nat>, users: seq<User>, k: nat)
    requires Lists(m, users, k)
    ensures OldestFirst(m, users) && |users| == Min(k, |m|)
  {
    var listed := Listed(users);
    DistinctSize(users);
    assert listed <= m.Keys;
    SubsetSize(listed, m.Keys);
    if listed == m.Keys {
      assert |users| == |m|;
    } else {
      var v :| v in m.Keys && v !in listed;
      assert |users| == k;
    }
  }

  lemma {:induction false} SubsetSize(a: set<User>, b: set<User>)
    requires a <= b
    ensures |a| <= |b|
  {
    if a != {} {
      var x :| x in a;
      SubsetSize(a - {x}, b - {x});
    }
  }

  lemma {:induction false} DistinctSize(users: seq<User>)
    requires forall i, j :: 0 <= i < j < |users| ==> users[i] != users[j]
    ensures |Listed(users)| == |users|
  {
    if users != [] {
      var init, last := users[..|users| - 1], users[|users| - 1];
      DistinctSize(init);
      assert users == init + [last];
      assert forall i :: 0 <= i < |init| ==> init[i] == users[i];
      assert Listed(users) == Listed(init) + {last};
      assert last !in Listed(init);
    }
  }

  method First(m: map<User, nat>, among: set<User>) returns (u: User)
    requires among != {} && among <= m.Keys
    ensures u in among && forall v :: v in among && v != u ==> Before(m, u, v)
  {
    u :| u in among;
    var rest := among - {u};
    while rest != {}
      invariant u in among && rest <= among
      invariant forall v :: v in among && v !in rest && v != u ==> Before(m, u, v)
      decreases rest
    {
      var v :| v in rest;
      if Before(m, v, u) {
        u := v;
      }
      rest := rest - {v};
    }
  }

  method Range(m: map<User, nat>, k: nat) returns (users: seq<User>)
    ensures Lists(m, users, k)
  {
    users := [];
    var rest := m.Keys;
    while rest != {} && |users| < k
      invariant Sorted(m, users) && |users| <= k && rest <= m.Keys
      invariant forall v :: v in m ==> (v in rest <==> v !in users)
      invariant forall v, i :: v in rest && 0 <= i < |users| ==> Before(m, users[i], v)
      decreases rest
    {
      var u := First(m, rest);
      rest := rest - {u};
      users := users + [u];
    }
  }

  /** How a pipeline ends: with its replies; executed, but the replies lost; cut off after so many commands. */
  datatype Outcome = Replied | ReplyLost | Broken(after: nat)

  /** What anyone but writer `me` may do, time and Redis included. */
  predicate Foreign(me: nat, a: Action) {
    (a.Add? || a.Cut? || a.Expire? || a.Break?) ==> a.w != me
  }

  /** Time goes on, nothing logged is taken back, and `me`'s pipeline stays where it is. */
  ghost predicate Onward(s: State, s': State, me: nat) {
    && s.now <= s'.now && s.log <= s'.log
    && (me in s'.pipes <==> me in s.pipes) && (me in s.pipes ==> s'.pipes[me] == s.pipes[me])
  }

  /** A step of writer `me` that no step of anyone else can forbid. */
  predicate Own(o: Options, s: State, me: nat, a: Action) {
    Enabled(o, s, a) && (!Foreign(me, a) || a.Leave? || a.Evict?)
  }

  lemma ForeignStep(o: Options, s: State, a: Action, me: nat)
    requires Enabled(o, s, a) && Foreign(me, a)
    ensures Onward(s, Apply(o, s, a), me)
  {
    hide Scores, Added, Expired;
  }

  lemma OwnStays(o: Options, s: State, s': State, me: nat, a: Action)
    requires Own(o, s, me, a) && Onward(s, s', me)
    ensures Enabled(o, s', a)
  {
  }

  lemma StepGrows(o: Options, s: State, a: Action)
    requires Enabled(o, s, a)
    ensures var t := Apply(o, s, a); s.now <= t.now && s.log <= t.log
  {
    hide Scores, Added, Expired;
  }

  /** One sorted set of Redis and everyone who uses it: `others(t)` acts before the command numbered `t`;
      `me` is this client. */
  class ZsetKey {
    const o: Options
    const me: nat
    const others: nat -> seq<Action>
    var st: State
    var tick: nat

    ghost predicate Valid()
      reads this
    {
      Inv(o, st) && o.breaks
    }

    ghost predicate Silent()
      reads this
    {
      forall t: nat :: tick <= t ==> others(t) == []
    }

    constructor (o: Options, me: nat, others: nat -> seq<Action>, now: Time)
      requires o.breaks
      ensures Valid() && this.o == o && this.me == me && this.others == others && st == Empty(now)
    {
      this.o := o;
      this.me := me;
      this.others := others;
      this.st := Empty(now);
      this.tick := 0;
    }

    method LetOthersAct(ghost cutoff: int, ghost from: nat)
      requires Valid() && from <= |st.log|
      modifies this
      ensures Valid() && Onward(old(st), st, me)
      ensures old(CountsAll(st, cutoff, from)) ==> CountsAll(st, cutoff, from)
      ensures old(Silent()) ==> st == old(st) && Silent()
    {
      hide Inv, CountsAll, Apply, Enabled;
      var script := others(tick);
      tick := tick + 1;
      for i := 0 to |script|
        invariant Valid() && Onward(old(st), st, me)
        invariant old(CountsAll(st, cutoff, from)) ==> CountsAll(st, cutoff, from)
        invariant tick == old(tick) + 1 && (i == 0 ==> st == old(st))
      {
        if Foreign(me, script[i]) && Enabled(o, st, script[i]) {
          ForeignStep(o, st, script[i], me);
          StepKeepsInv(o, st, script[i]);
          if old(CountsAll(st, cutoff, from)) {
            StepKeepsCounts(o, st, script[i], cutoff, from);
          }
          st := Apply(o, st, script[i]);
        }
      }
    }

    /** `time.Now().Unix()` */
    method Now() returns (now: nat)
      requires Valid()
      modifies this
      ensures Valid() && now == st.now / SECOND && Onward(old(st), st, me)
      ensures old(Silent()) ==> st == old(st) && Silent()
    {
      LetOthersAct(0, 0);
      now := st.now / SECOND;
    }

    /** One command of this client; `before` is what it found. */
    method Do(a: Action) returns (ghost before: State)
      requires Valid() && Own(o, st, me, a)
      modifies this
      ensures Valid() && Onward(old(st), before, me) && Inv(o, before) && Enabled(o, before, a)
        && st == Apply(o, before, a)
      ensures old(st.now) <= st.now && old(st.log) <= st.log && before.log <= st.log && before.now == st.now
      ensures old(Silent()) ==> before == old(st) && Silent()
    {
      hide Inv;
      LetOthersAct(0, 0);
      OwnStays(o, old(st), st, me, a);
      before := st;
      OwnTakesNoTime(o, st, me, a);
      StepGrows(o, st, a);
      StepKeepsInv(o, st, a);
      st := Apply(o, st, a);
    }

    /** A later command of the pipeline under way. */
    method Follow(a: Action) returns (ghost before: State)
      requires Valid() && me in st.pipes && (a == Cut(me) || a == Expire(me) || a == Break(me))
      requires a.Break? || (st.pipes[me].cut <==> a.Cut?)
      modifies this
      ensures Valid() && old(st.now) <= st.now && old(st.log) <= st.log
      ensures if a.Cut? then me in st.pipes && st.pipes[me] == old(st.pipes[me]).(cut := false) else me !in st.pipes
      ensures Enabled(o, before, a) && st == Apply(o, before, a)
      ensures old(Silent()) ==> before == old(st) && Silent()
    {
      hide Inv, Apply, Enabled;
      CutIsOwn(o, st, me, a);
      before := Do(a);
      PipeAfter(o, before, me, a);
    }

    /** ZADD, for a heartbeat ZREMRANGEBYSCORE, and EXPIRE: three commands with everyone else in between,
        and the connection may break after any of them. */
    method Pipeline(u: User, at: nat, beat: bool, outcome: Outcome) returns (ok: bool)
      requires Valid() && me !in st.pipes && at <= st.now / SECOND
      modifies this
      ensures Valid() && me !in st.pipes && old(st.now) <= st.now && old(st.log) <= st.log
      ensures (ok <==> outcome.Replied?) && (ok ==> Recorded(old(st.log), st.log, u, at))
      ensures old(Silent()) ==> Silent() && (!outcome.Broken? ==> st == Pipelined(o, old(st), u, at, beat))
    {
      hide Inv, Apply, Enabled, Scores, Added, Expired, Pipelined;
      if outcome == Broken(0) {
        LetOthersAct(0, 0);
        return false;
      }
      ghost var s0, silent := st, Silent();
      WholePipeline(o, s0, me, u, at, beat);
      AddIsOwn(o, st, me, u, at, beat);
      ghost var b := Do(Add(me, u, at, beat));
      AddRecords(o, b, me, u, at, beat);
      ghost var s1 := st;
      assert Recorded(old(st.log), s1.log, u, at) by {
        assert s1.log[|b.log|] == Seen(u, at);
      }
      if beat {
        if outcome == Broken(1) {
          b := Follow(Break(me));
          return false;
        }
        b := Follow(Cut(me));
      }
      ghost var s2 := st;
      assert silent ==> s2 == if beat then Apply(o, s1, Cut(me)) else s1;
      if outcome == Broken(if beat then 2 else 1) {
        b := Follow(Break(me));
        return false;
      }
      b := Follow(Expire(me));
      ok := outcome.Replied?;
      assert silent ==> st == Apply(o, s2, Expire(me));
      RecordStays(old(st.log), s1.log, st.log, u, at);
    }

    /** ZREMRANGEBYSCORE with the window ending at `at`. */
    method RemoveStale(at: nat)
      requires Valid() && at <= st.now / SECOND
      modifies this
      ensures Valid() && old(st.now) <= st.now && old(st.log) <= st.log && (me in st.pipes <==> me in old(st.pipes))
      ensures CountsAll(st, at - o.window, |st.log|)
      ensures old(Silent()) ==> st == Apply(o, old(st), Evict(at)) && Silent()
    {
      hide Sound;
      ghost var before := Do(Evict(at));
      EvictedCounts(o, before, at);
    }

    /** What a reader may take for the active users: nobody who was already stale, for the window ending at
        `at`, when the stale were removed; and all who are active but the shaken. */
    ghost predicate Answers(members: map<User, nat>, at: nat, from: nat)
      reads this
    {
      && (o.window <= o.ttl ==>
            forall u :: Active(st.log, u, st.now / SECOND - o.window) && u !in st.shaken ==> u in members)
      && (forall u :: u in members ==> LastIs(st.log, u, Seen(u, members[u])) && Counts(st.log, u, at - o.window, from))
    }

    /** ZCARD or ZRANGE right after: the members then in the key. */
    method Members(at: nat, ghost from: nat) returns (members: map<User, nat>)
      requires Valid() && from <= |st.log| && CountsAll(st, at - o.window, from)
      modifies this
      ensures Valid() && Answers(members, at, from)
      ensures old(st.now) <= st.now && old(st.log) <= st.log && (me in st.pipes <==> me in old(st.pipes))
      ensures members == Scores(st)
      ensures old(Silent()) ==> st == old(st)
    {
      LetOthersAct(at - o.window, from);
      members := Scores(st);
    }
  }

  lemma OwnTakesNoTime(o: Options, s: State, me: nat, a: Action)
    requires Enabled(o, s, a) && !a.Tick?
    ensures Apply(o, s, a).now == s.now
  {
    hide Scores, Added, Expired;
  }

  /** An appearance logged since, with the time `at`. */
  ghost predicate Recorded(before: seq<Entry>, after: seq<Entry>, user: User, at: nat) {
    exists i :: |before| <= i < |after| && after[i] == Seen(user, at)
  }

  lemma RecordStays(before: seq<Entry>, mid: seq<Entry>, after: seq<Entry>, user: User, at: nat)
    requires Recorded(before, mid, user, at) && mid <= after
    ensures Recorded(before, after, user, at)
  {
  }

  /** A pipeline nobody interferes with. */
  function Pipelined(o: Options, s: State, u: User, at: nat, beat: bool): State {
    var scores := if beat then Without(Scores(s)[u := at], at - o.window) else Scores(s)[u := at];
    var expires := if scores == map[] then Added(s, u, at).expires else Some(s.now + o.ttl * SECOND);
    var t := s.(key := Key(scores, expires), log := s.log + [Seen(u, at)]);
    t.(shaken := s.shaken - {u} - Scores(t).Keys)
  }

  lemma WholePipeline(o: Options, s: State, me: nat, u: User, at: nat, beat: bool)
    requires me !in s.pipes && at <= s.now / SECOND
    ensures var a := Apply(o, s, Add(me, u, at, beat));
            if beat then
              && Enabled(o, a, Cut(me)) && Enabled(o, Apply(o, a, Cut(me)), Expire(me))
              && Apply(o, Apply(o, a, Cut(me)), Expire(me)) == Pipelined(o, s, u, at, beat)
            else Enabled(o, a, Expire(me)) && Apply(o, a, Expire(me)) == Pipelined(o, s, u, at, beat)
  {
    var a := Apply(o, s, Add(me, u, at, beat));
    assert a.pipes - {me} == s.pipes;
    assert Scores(a) == a.key.scores && u in a.key.scores;
    if beat {
      var b := Apply(o, a, Cut(me));
      assert b.pipes - {me} == s.pipes && Scores(b) == b.key.scores;
    }
  }

  lemma AddIsOwn(o: Options, s: State, me: nat, u: User, at: nat, beat: bool)
    requires me !in s.pipes && at <= s.now / SECOND
    ensures Enabled(o, s, Add(me, u, at, beat)) && Own(o, s, me, Add(me, u, at, beat))
  {
  }

  lemma CutIsOwn(o: Options, s: State, me: nat, a: Action)
    requires me in s.pipes && (a == Cut(me) || a == Expire(me) || a == Break(me)) && o.breaks
    requires a.Break? || (s.pipes[me].cut <==> a.Cut?)
    ensures Enabled(o, s, a) && Own(o, s, me, a)
  {
  }

  lemma AddRecords(o: Options, s: State, me: nat, u: User, at: nat, beat: bool)
    requires Enabled(o, s, Add(me, u, at, beat))
    ensures var t := Apply(o, s, Add(me, u, at, beat));
            t.log == s.log + [Seen(u, at)] && me in t.pipes && t.pipes[me] == Pipe(u, at, beat)
  {
  }

  lemma PipeAfter(o: Options, s: State, me: nat, a: Action)
    requires Enabled(o, s, a) && (a == Cut(me) || a == Expire(me) || a == Break(me))
    ensures var t := Apply(o, s, a);
            && t.log == s.log
            && if a.Cut? then me in t.pipes && t.pipes[me] == s.pipes[me].(cut := false) else me !in t.pipes
  {
  }

  /** What entering is for: with nobody else about, the user is in, as long as the key lives at all; after a
      heartbeat, as long as the window is not empty, and nobody stale is left. Nobody in the key is shaken. */
  lemma PipelinedIsIn(o: Options, s: State, u: User, at: nat, beat: bool)
    requires at <= s.now / SECOND && o.ttl > 0
    ensures var t := Pipelined(o, s, u, at, beat);
            && (u in Scores(t) <==> !beat || o.window > 0)
            && (beat ==> forall v :: v in Scores(t) ==> Scores(t)[v] > at - o.window)
            && (Scores(t) != map[] ==> t.key.expires == Some(s.now + o.ttl * 1000))
            && u !in t.shaken && forall v :: v in Scores(t) ==> v !in t.shaken
  {
  }

  /** Options in milliseconds; what is not positive becomes the default. */
  function WindowSeconds(d: int, default: nat): nat {
    (if d <= 0 then default * SECOND else d) / SECOND
  }

  /** EXPIRE takes whole seconds and no less than one. */
  function LifeSeconds(d: int, default: nat): (life: nat)
    ensures default > 0 ==> life > 0
  {
    var life := if d <= 0 then default * SECOND else d;
    if 0 < life < SECOND then 1 else life / SECOND
  }

  function DefaultLimit(limit: int, default: nat): nat {
    if limit <= 0 then default else limit
  }

  /** Nothing keeps a deadline or a broken connection from falling into a pipeline. */
  function Given(window: nat, ttl: nat): Options {
    Options(window, ttl, true, true)
  }

  /** The conversation's two keys. */
  class RedisStore {
    const conv: ZsetKey
    const typing: ZsetKey

    /** No pipeline of this client is under way. */
    ghost predicate Valid()
      reads this, conv, typing
    {
      && conv != typing && conv.Valid() && typing.Valid()
      && conv.me !in conv.st.pipes && typing.me !in typing.st.pipes
    }

    constructor (activeWindow: int, keyTTL: int, typingWindow: int, typingTTL: int, me: nat,
                 convOthers: nat -> seq<Action>, typingOthers: nat -> seq<Action>, now: Time)
      ensures Valid() && fresh(conv) && fresh(typing)
      ensures conv.others == convOthers && typing.others == typingOthers && conv.me == typing.me == me
      ensures conv.o.window == if activeWindow <= 0 then 45 else activeWindow / 1000
      ensures conv.o.ttl == if keyTTL <= 0 then 120 else if keyTTL < 1000 then 1 else keyTTL / 1000
      ensures typing.o.window == if typingWindow <= 0 then 8 else typingWindow / 1000
      ensures typing.o.ttl == if typingTTL <= 0 then 15 else if typingTTL < 1000 then 1 else typingTTL / 1000
      ensures conv.o.gaps && conv.o.breaks && typing.o.gaps && typing.o.breaks
      ensures conv.st == Empty(now) && typing.st == Empty(now)
    {
      conv := new ZsetKey(Given(WindowSeconds(activeWindow, 45), LifeSeconds(keyTTL, 120)), me, convOthers, now);
      typing := new ZsetKey(Given(WindowSeconds(typingWindow, 8), LifeSeconds(typingTTL, 15)), me, typingOthers, now);
    }

    method EnterConversation(user: User, outcome: Outcome) returns (ok: bool, ghost at: nat)
      requires Valid()
      modifies conv
      ensures Valid() && old(conv.st.now) / SECOND <= at <= conv.st.now / SECOND
      ensures (ok <==> outcome.Replied?) && (ok ==> Recorded(old(conv.st.log), conv.st.log, user, at))
      ensures old(conv.Silent()) && !outcome.Broken? ==>
        conv.st == Pipelined(conv.o, old(conv.st), user, old(conv.st.now) / SECOND, false)
    {
      hide Pipelined;
      var now := conv.Now();
      at := now;
      ok := conv.Pipeline(user, now, false, outcome);
    }

    method HeartbeatConversation(user: User, outcome: Outcome) returns (ok: bool, ghost at: nat)
      requires Valid()
      modifies conv
      ensures Valid() && old(conv.st.now) / SECOND <= at <= conv.st.now / SECOND
      ensures (ok <==> outcome.Replied?) && (ok ==> Recorded(old(conv.st.log), conv.st.log, user, at))
      ensures old(conv.Silent()) && !outcome.Broken? ==>
        conv.st == Pipelined(conv.o, old(conv.st), user, old(conv.st.now) / SECOND, true)
    {
      hide Pipelined;
      var now := conv.Now();
      at := now;
      ok := conv.Pipeline(user, now, true, outcome);
    }

    /** A ZREM that fails may have been executed. */
    method LeaveConversation(user: User, outcome: Outcome) returns (ok: bool)
      requires Valid()
      modifies conv
      ensures Valid() && (ok <==> outcome.Replied?)
      ensures !outcome.Broken? ==> user !in Scores(conv.st)
      ensures !outcome.Broken? ==> conv.st.log != [] && conv.st.log[|conv.st.log| - 1] == Gone(user)
      ensures old(conv.Silent()) ==>
        conv.st == if outcome.Broken? then old(conv.st) else Apply(conv.o, old(conv.st), Leave(user))
    {
      hide Inv;
      ok := outcome.Replied?;
      if outcome.Broken? {
        conv.LetOthersAct(0, 0);
      } else {
        ghost var _ := conv.Do(Leave(user));
      }
    }

    /** The users listed are the first of a fair answer; either of the two calls may fail, and then there are
        none. With nobody else about and a key that lives long enough, the answer is the active users
        themselves, but for the shaken. */
    method ActiveUsers(limit: int, removal: Outcome, listed: bool)
      returns (users: seq<User>, ok: bool, ghost members: map<User, nat>, ghost at: nat, ghost from: nat)
      requires Valid()
      modifies conv
      ensures Valid() && (ok <==> removal.Replied? && listed)
      ensures if ok then OldestFirst(members, users) && |users| == Min(if limit <= 0 then 100 else limit, |members|)
              else users == []
      ensures ok ==> conv.Answers(members, at, from) && old(conv.st.now) / SECOND <= at && old(|conv.st.log|) <= from
      ensures old(conv.Silent()) && ok ==> AllButShaken(conv.o, old(conv.st), members)
    {
      users, ok, members, at, from := Read(conv, DefaultLimit(limit, 100), removal, listed);
    }

    method ActiveCount(removal: Outcome, counted: bool)
      returns (n: nat, ok: bool, ghost members: map<User, nat>, ghost at: nat, ghost from: nat)
      requires Valid()
      modifies conv
      ensures Valid() && (ok <==> removal.Replied? && counted) && n == if ok then |members| else 0
      ensures ok ==> conv.Answers(members, at, from) && old(conv.st.now) / SECOND <= at && old(|conv.st.log|) <= from
      ensures old(conv.Silent()) && ok ==> AllButShaken(conv.o, old(conv.st), members)
    {
      hide Active;
      var found;
      ok, found, at, from := ReadMembers(conv, removal, counted);
      n, members := if ok then |found| else 0, found;
    }

    method SetTyping(user: User, outcome: Outcome) returns (ok: bool, ghost at: nat)
      requires Valid()
      modifies typing
      ensures Valid() && old(typing.st.now) / SECOND <= at <= typing.st.now / SECOND
      ensures (ok <==> outcome.Replied?) && (ok ==> Recorded(old(typing.st.log), typing.st.log, user, at))
      ensures old(typing.Silent()) && !outcome.Broken? ==>
        typing.st == Pipelined(typing.o, old(typing.st), user, old(typing.st.now) / SECOND, true)
    {
      hide Pipelined;
      var now := typing.Now();
      at := now;
      ok := typing.Pipeline(user, now, true, outcome);
    }

    method TypingUsers(limit: int, removal: Outcome, listed: bool)
      returns (users: seq<User>, ok: bool, ghost members: map<User, nat>, ghost at: nat, ghost from: nat)
      requires Valid()
      modifies typing
      ensures Valid() && (ok <==> removal.Replied? && listed)
      ensures if ok then OldestFirst(members, users) && |users| == Min(if limit <= 0 then 20 else limit, |members|)
              else users == []
      ensures ok ==>
        typing.Answers(members, at, from) && old(typing.st.now) / SECOND <= at && old(|typing.st.log|) <= from
      ensures old(typing.Silent()) && ok ==> AllButShaken(typing.o, old(typing.st), members)
    {
      users, ok, members, at, from := Read(typing, DefaultLimit(limit, 20), removal, listed);
    }
  }

  /** The active users, but perhaps for those that are shaken. */
  ghost predicate AllButShaken(o: Options, s: State, members: map<User, nat>) {
    var cutoff := s.now / SECOND - o.window;
    && (forall u :: u in members ==> Active(s.log, u, cutoff))
    && (o.window <= o.ttl ==> forall u :: Active(s.log, u, cutoff) && u !in s.shaken ==> u in members)
  }

  lemma EvictedIsAllButShaken(o: Options, s: State)
    requires Inv(o, s)
    ensures AllButShaken(o, s, Scores(Apply(o, s, Evict(s.now / SECOND))))
  {
    hide Active, Inv, Scores, Apply;
    forall u: User
      ensures u in Scores(Apply(o, s, Evict(s.now / SECOND))) ==> Active(s.log, u, s.now / SECOND - o.window)
      ensures u !in s.shaken && o.window <= o.ttl && Active(s.log, u, s.now / SECOND - o.window) ==>
        u in Scores(Apply(o, s, Evict(s.now / SECOND)))
    {
      EvictedIsActive(o, s, u);
    }
  }

  /** Both reading commands: remove the stale, then look, with others in between; either may fail. */
  method ReadMembers(key: ZsetKey, removal: Outcome, looked: bool)
    returns (ok: bool, members: map<User, nat>, ghost at: nat, ghost from: nat)
    requires key.Valid() && key.me !in key.st.pipes
    modifies key
    ensures key.Valid() && key.me !in key.st.pipes && (ok <==> removal.Replied? && looked)
    ensures ok ==> key.Answers(members, at, from) && old(key.st.now) / SECOND <= at && old(|key.st.log|) <= from
    ensures old(key.Silent()) && ok ==> AllButShaken(key.o, old(key.st), members)
  {
    hide Active, Inv, Apply, Scores, CountsAll, AllButShaken;
    var now := key.Now();
    ghost var s := key.st;
    at, from, members, ok := now, 0, map[], false;
    if removal.Broken? {
      key.LetOthersAct(0, 0);
      return;
    }
    key.RemoveStale(now);
    if removal.ReplyLost? || !looked {
      return;
    }
    from := |key.st.log|;
    members := key.Members(now, from);
    ok := true;
    EvictedIsAllButShaken(key.o, s);
  }

  method Read(key: ZsetKey, k: nat, removal: Outcome, listed: bool)
    returns (users: seq<User>, ok: bool, ghost members: map<User, nat>, ghost at: nat, ghost from: nat)
    requires key.Valid() && key.me !in key.st.pipes
    modifies key
    ensures key.Valid() && key.me !in key.st.pipes && (ok <==> removal.Replied? && listed)
    ensures if ok then OldestFirst(members, users) && |users| == Min(k, |members|) else users == []
    ensures ok ==> key.Answers(members, at, from) && old(key.st.now) / SECOND <= at && old(|key.st.log|) <= from
    ensures old(key.Silent()) && ok ==> AllButShaken(key.o, old(key.st), members)
  {
    hide Active, Lists;
    var found;
    ok, found, at, from := ReadMembers(key, removal, listed);
    members, users := found, [];
    if ok {
      users := Range(found, k);
      ListsOldestFirst(found, users, k);
    }
  }
}
