/** One presence key in Redis, lazily evicted and garbage-collected, against a log that forgets
    nothing. Every command of every pipeline is a step of its own; a client reads its clock some time
    before its first command is executed. */
module PresenceLog {
  import opened Text

  /** Milliseconds on one clock; scores are whole seconds of it. */
  type Time = nat

  const SECOND := 1000

  /** User ids, in the order Redis gives to members of equal score. */
  type User = nat

  /** What happened in a conversation: somebody entered or sent a heartbeat, or left. */
  datatype Entry = Seen(user: User, at: nat) | Gone(user: User)

  /** A sorted set and the time it is collected, if it has one; an empty set is no key at all. */
  datatype Key = Key(scores: map<User, nat>, expires: Option<Time>)

  /** A pipeline whose ZADD has been executed: `cut` when ZREMRANGEBYSCORE is still to come before EXPIRE. */
  datatype Pipe = Pipe(user: User, at: nat, cut: bool)

  /** `shaken` records whose key was collected between their ZADD and its EXPIRE, or whose pipeline broke
      there; until they appear again or leave, or an EXPIRE finds them still in the key. */
  datatype State = State(now: Time, key: Key, log: seq<Entry>, pipes: map<nat, Pipe>, shaken: set<User>)

  /** The active window and the key's life, in whole seconds; whether a deadline may fall between a ZADD
      and its EXPIRE, and whether a connection may break there. */
  datatype Options = Options(window: nat, ttl: nat, gaps: bool, breaks: bool)

  datatype Action =
    | Tick(d: nat)
    | Add(w: nat, u: User, at: nat, beat: bool) | Cut(w: nat) | Expire(w: nat) | Break(w: nat)
    | Leave(u: User) | Evict(at: nat)

  predicate Collected(key: Key, now: Time) {
    key.expires.Some? && key.expires.value <= now
  }

  function Scores(s: State): map<User, nat> {
    if Collected(s.key, s.now) then map[] else s.key.scores
  }

  /** Some time in the next `d` milliseconds the key is collected. */
  predicate Lapses(s: State, d: nat) {
    !Collected(s.key, s.now) && Collected(s.key, s.now + d)
  }

  /** ZREMRANGEBYSCORE from zero to the cutoff. */
  function Without(m: map<User, nat>, cutoff: int): map<User, nat> {
    map u | u in m && m[u] > cutoff :: m[u]
  }

  predicate Enabled(o: Options, s: State, a: Action) {
    match a
    case Tick(d) => o.gaps || s.pipes == map[] || !Lapses(s, d)
    case Add(w, _, at, _) => w !in s.pipes && at <= s.now / SECOND
    case Cut(w) => w in s.pipes && s.pipes[w].cut
    case Expire(w) => w in s.pipes && !s.pipes[w].cut
    case Break(w) => o.breaks && w in s.pipes
    case Leave(_) => true
    case Evict(at) => at <= s.now / SECOND
  }

  /** ZADD keeps the deadline of a key that is there; a new key has none. */
  function Added(s: State, u: User, at: nat): Key {
    Key(Scores(s)[u := at], if Scores(s) == map[] then None else s.key.expires)
  }

  /** The users whose EXPIRE is still to come. */
  function Unexpired(s: State): set<User> {
    set w | w in s.pipes :: s.pipes[w].user
  }

  /** EXPIRE of a key that is not there does nothing. */
  function Expired(o: Options, s: State): Key {
    if Scores(s) == map[] then s.key else s.key.(expires := Some(s.now + o.ttl * SECOND))
  }

  function Apply(o: Options, s: State, a: Action): State
    requires Enabled(o, s, a)
  {
    match a
    case Tick(d) => s.(now := s.now + d, shaken := if Lapses(s, d) then s.shaken + Unexpired(s) else s.shaken)
    case Add(w, u, at, beat) =>
      s.(key := Added(s, u, at), log := s.log + [Seen(u, at)], pipes := s.pipes[w := Pipe(u, at, beat)],
         shaken := s.shaken - {u})
    case Cut(w) =>
      var p := s.pipes[w];
      s.(key := s.key.(scores := Without(Scores(s), p.at - o.window)), pipes := s.pipes[w := p.(cut := false)])
    case Expire(w) =>
      var t := s.(key := Expired(o, s), pipes := s.pipes - {w});
      t.(shaken := s.shaken - Scores(t).Keys)
    case Break(w) => s.(pipes := s.pipes - {w}, shaken := s.shaken + {s.pipes[w].user})
    case Leave(u) => s.(key := s.key.(scores := Scores(s) - {u}), log := s.log + [Gone(u)], shaken := s.shaken - {u})
    case Evict(at) => s.(key := s.key.(scores := Without(Scores(s), at - o.window)))
  }

  ghost predicate IsRun(o: Options, s: State, run: seq<Action>, t: State)
    decreases |run|
  {
    if run == [] then s == t else Enabled(o, s, run[0]) && IsRun(o, Apply(o, s, run[0]), run[1..], t)
  }

  function Empty(now: Time): State {
    State(now, Key(map[], None), [], map[], {})
  }

  ghost predicate Reachable(o: Options, t: State) {
    exists now: Time, run: seq<Action> :: IsRun(o, Empty(now), run, t)
  }

  // ----- The full log -----

  /** Entry `i` is the last one about `u`. */
  predicate IsLast(log: seq<Entry>, u: User, i: nat) {
    i < |log| && log[i].user == u && forall j :: i < j < |log| ==> log[j].user != u
  }

  ghost predicate LastIs(log: seq<Entry>, u: User, e: Entry) {
    exists i: nat :: IsLast(log, u, i) && log[i] == e
  }

  /** The last thing known of `u` is an appearance later than `cutoff`, or an appearance logged at
      `from` or after it. */
  ghost predicate Counts(log: seq<Entry>, u: User, cutoff: int, from: nat) {
    exists i: nat :: IsLast(log, u, i) && log[i].Seen? && (log[i].at > cutoff || i >= from)
  }

  /** The last thing known of `u` is an appearance later than `cutoff`. */
  ghost predicate Active(log: seq<Entry>, u: User, cutoff: int) {
    exists i: nat :: IsLast(log, u, i) && log[i].Seen? && log[i].at > cutoff
  }

  lemma LastIsUnique(log: seq<Entry>, u: User, i: nat, j: nat)
    requires IsLast(log, u, i) && IsLast(log, u, j)
    ensures i == j
  {
  }

  // ----- What every step keeps -----

  /** A member is in the key only with its last score, and nothing is from the future. */
  ghost predicate Sound(s: State) {
    && (forall u :: u in Scores(s) ==> LastIs(s.log, u, Seen(u, Scores(s)[u])) && Scores(s)[u] <= s.now / SECOND)
    && (forall i :: 0 <= i < |s.log| && s.log[i].Seen? ==> s.log[i].at <= s.now / SECOND)
    && forall w :: w in s.pipes ==> s.pipes[w].at <= s.now / SECOND
  }

  ghost predicate Pending(s: State, u: User) {
    exists w :: w in s.pipes && s.pipes[w].user == u
  }

  /** The key outlives the score of every member who is not shaken, or that member's EXPIRE is still to
      come. */
  ghost predicate Guarded(o: Options, s: State) {
    s.key.expires.Some? ==> forall u :: u in Scores(s) && u !in s.shaken ==>
      (Scores(s)[u] + o.ttl) * SECOND <= s.key.expires.value || Pending(s, u)
  }

  /** Every active user who is not shaken is in the key. */
  ghost predicate Complete(o: Options, s: State) {
    forall u :: Active(s.log, u, s.now / SECOND - o.window) && u !in s.shaken ==> u in Scores(s)
  }

  ghost predicate Inv(o: Options, s: State) {
    Sound(s) && Guarded(o, s) && (o.window <= o.ttl ==> Complete(o, s))
  }

  lemma LogGrows(log: seq<Entry>, e: Entry, u: User, i: nat)
    ensures u == e.user ==> (IsLast(log + [e], u, i) <==> i == |log|)
    ensures u != e.user ==> (IsLast(log + [e], u, i) <==> IsLast(log, u, i))
  {
    var log' := log + [e];
    assert log'[|log|] == e;
    if u != e.user && IsLast(log', u, i) {
      assert i < |log| && log'[i] == log[i];
      assert forall j :: i < j < |log| ==> log[j] == log'[j];
    }
  }

  lemma ActiveAfter(log: seq<Entry>, e: Entry, u: User, cutoff: int)
    ensures Active(log + [e], u, cutoff) <==> if u == e.user then e.Seen? && e.at > cutoff else Active(log, u, cutoff)
  {
    hide IsLast;
    var log' := log + [e];
    LogGrows(log, e, u, |log|);
    if u != e.user {
      forall i: nat
        ensures IsLast(log', u, i) <==> IsLast(log, u, i)
        ensures IsLast(log, u, i) ==> i < |log| && log'[i] == log[i]
      {
        LogGrows(log, e, u, i);
        LastIsInside(log, u, i);
      }
    } else {
      forall i: nat | IsLast(log', u, i)
        ensures i == |log|
      {
        LogGrows(log, e, u, i);
      }
    }
  }

  lemma LastIsInside(log: seq<Entry>, u: User, i: nat)
    ensures IsLast(log, u, i) ==> i < |log|
  {
  }

  lemma CountsAfter(log: seq<Entry>, e: Entry, u: User, cutoff: int, from: nat)
    requires from <= |log|
    ensures Counts(log + [e], u, cutoff, from) <==> if u == e.user then e.Seen? else Counts(log, u, cutoff, from)
  {
    hide IsLast;
    var log' := log + [e];
    LogGrows(log, e, u, |log|);
    if u != e.user {
      forall i: nat
        ensures IsLast(log', u, i) <==> IsLast(log, u, i)
        ensures IsLast(log, u, i) ==> i < |log| && log'[i] == log[i]
      {
        LogGrows(log, e, u, i);
        LastIsInside(log, u, i);
      }
    } else {
      forall i: nat | IsLast(log', u, i)
        ensures i == |log|
      {
        LogGrows(log, e, u, i);
      }
    }
  }

  lemma LastIsAfter(log: seq<Entry>, e: Entry, u: User, f: Entry)
    ensures u == e.user ==> LastIs(log + [e], u, e)
    ensures u != e.user && LastIs(log, u, f) ==> LastIs(log + [e], u, f)
  {
    if u == e.user {
      LogGrows(log, e, u, |log|);
    } else if LastIs(log, u, f) {
      var i: nat :| IsLast(log, u, i) && log[i] == f;
      LogGrows(log, e, u, i);
      assert (log + [e])[i] == f;
    }
  }

  predicate Logs(a: Action) {
    a.Add? || a.Leave?
  }

  /** Who is in the key after a step was there before with the same score, or has just been added. */
  lemma MembersAfter(o: Options, s: State, a: Action, u: User)
    requires Enabled(o, s, a) && u in Scores(Apply(o, s, a))
    ensures var t := Apply(o, s, a); var score := Scores(t)[u];
            if a.Add? && a.u == u then score == a.at <= s.now / SECOND
            else u in Scores(s) && Scores(s)[u] == score && (a.Leave? ==> u != a.u)
  {
  }

  lemma LogAfter(o: Options, s: State, a: Action)
    requires Enabled(o, s, a)
    ensures var t := Apply(o, s, a);
            && s.now <= t.now
            && (forall w :: w in t.pipes ==>
                  t.pipes[w].at == if a.Add? && w == a.w then a.at else if w in s.pipes then s.pipes[w].at else 0)
            && t.log == if a.Add? then s.log + [Seen(a.u, a.at)] else if a.Leave? then s.log + [Gone(a.u)] else s.log
  {
  }

  lemma KeepSound(o: Options, s: State, a: Action)
    requires Sound(s) && Enabled(o, s, a)
    ensures Sound(Apply(o, s, a))
  {
    hide LastIs, Apply, Scores;
    var t := Apply(o, s, a);
    LogAfter(o, s, a);
    forall u | u in Scores(t)
      ensures LastIs(t.log, u, Seen(u, Scores(t)[u])) && Scores(t)[u] <= t.now / SECOND
    {
      MembersAfter(o, s, a, u);
      if Logs(a) {
        LastIsAfter(s.log, if a.Add? then Seen(a.u, a.at) else Gone(a.u), u, Seen(u, Scores(t)[u]));
      }
    }
  }

  lemma PendingAfter(o: Options, s: State, a: Action, u: User)
    requires Enabled(o, s, a) && Pending(s, u) && !a.Expire? && u !in Apply(o, s, a).shaken
    ensures Pending(Apply(o, s, a), u)
  {
    hide Scores;
    var w :| w in s.pipes && s.pipes[w].user == u;
    assert w in Apply(o, s, a).pipes && Apply(o, s, a).pipes[w].user == u;
  }

  lemma AddIsPending(o: Options, s: State, a: Action)
    requires Enabled(o, s, a) && a.Add?
    ensures Pending(Apply(o, s, a), a.u)
  {
    assert a.w in Apply(o, s, a).pipes;
  }

  /** What a step does to the deadline. */
  lemma DeadlineAfter(o: Options, s: State, a: Action)
    requires Enabled(o, s, a)
    ensures var t := Apply(o, s, a);
            if a.Add? then t.key.expires == (if Scores(s) == map[] then None else s.key.expires)
            else if a.Expire? && Scores(s) != map[] then t.key.expires == Some(s.now + o.ttl * SECOND)
            else t.key.expires == s.key.expires
    ensures a.Expire? && Scores(s) == map[] ==> Scores(Apply(o, s, a)) == map[]
    ensures !a.Add? && !a.Leave? && !a.Expire? ==> s.shaken <= Apply(o, s, a).shaken
    ensures a.Add? || a.Leave? ==> Apply(o, s, a).shaken == s.shaken - {a.u}
  {
  }

  lemma KeepGuarded(o: Options, s: State, a: Action)
    requires Sound(s) && Guarded(o, s) && Enabled(o, s, a)
    ensures Guarded(o, Apply(o, s, a))
  {
    hide Apply, Scores, Pending;
    var t := Apply(o, s, a);
    DeadlineAfter(o, s, a);
    forall u | t.key.expires.Some? && u in Scores(t) && u !in t.shaken
      ensures (Scores(t)[u] + o.ttl) * SECOND <= t.key.expires.value || Pending(t, u)
    {
      MembersAfter(o, s, a, u);
      if a.Add? && u == a.u {
        AddIsPending(o, s, a);
      } else if !a.Expire? && Pending(s, u) {
        PendingAfter(o, s, a, u);
      }
    }
  }

  lemma ActiveEarlier(log: seq<Entry>, u: User, c: int, d: int)
    requires Active(log, u, d) && c <= d
    ensures Active(log, u, c)
  {
  }

  lemma SoundScore(s: State, u: User, cutoff: int)
    requires Sound(s) && u in Scores(s)
    ensures Active(s.log, u, cutoff) <==> Scores(s)[u] > cutoff
  {
    var i: nat :| IsLast(s.log, u, i) && s.log[i] == Seen(u, Scores(s)[u]);
    if Active(s.log, u, cutoff) {
      var j: nat :| IsLast(s.log, u, j) && s.log[j].Seen? && s.log[j].at > cutoff;
      LastIsUnique(s.log, u, i, j);
    }
  }

  /** An active member stays in the key through every step of others, and through its collection only
      when its EXPIRE was still to come. */
  lemma ActiveStays(o: Options, s: State, a: Action, u: User)
    requires Sound(s) && Guarded(o, s) && o.window <= o.ttl && Enabled(o, s, a)
    requires u in Scores(s) && u !in s.shaken && (a.Leave? ==> u != a.u)
    requires var t := Apply(o, s, a);
             u !in t.shaken && Active(t.log, u, t.now / SECOND - o.window) && (t.log == s.log || u != a.u)
    ensures u in Scores(Apply(o, s, a))
  {
    hide Active, LastIs;
    var t := Apply(o, s, a);
    LogAfter(o, s, a);
    var cutoff := t.now / SECOND - o.window;
    if Logs(a) {
      ActiveAfter(s.log, if a.Add? then Seen(a.u, a.at) else Gone(a.u), u, cutoff);
    }
    SoundScore(s, u, cutoff);
    if a.Tick? && Pending(s, u) {
      assert u in Unexpired(s);
    }
  }

  lemma KeepComplete(o: Options, s: State, a: Action)
    requires Sound(s) && Guarded(o, s) && Complete(o, s) && o.window <= o.ttl && Enabled(o, s, a)
    ensures Complete(o, Apply(o, s, a))
  {
    hide Active, Sound, Guarded, Apply, Scores;
    var t := Apply(o, s, a);
    LogAfter(o, s, a);
    DeadlineAfter(o, s, a);
    var cutoff := t.now / SECOND - o.window;
    forall u | Active(t.log, u, cutoff) && u !in t.shaken
      ensures u in Scores(t)
    {
      if Logs(a) {
        ActiveAfter(s.log, if a.Add? then Seen(a.u, a.at) else Gone(a.u), u, cutoff);
      }
      if a.Add? && u == a.u {
        AddedIsThere(o, s, a);
      } else {
        ActiveEarlier(s.log, u, s.now / SECOND - o.window, cutoff);
        if u in s.shaken {
          ExpireKeeps(o, s, a, u);
        } else {
          ActiveStays(o, s, a, u);
        }
      }
    }
  }

  /** Only an EXPIRE that finds a user in the key ends that user's being shaken, but for appearing and
      leaving. */
  lemma ExpireKeeps(o: Options, s: State, a: Action, u: User)
    requires Enabled(o, s, a) && u in s.shaken && u !in Apply(o, s, a).shaken && !(Logs(a) && u == a.u)
    ensures u in Scores(Apply(o, s, a))
  {
  }

  lemma AddedIsThere(o: Options, s: State, a: Action)
    requires Enabled(o, s, a) && a.Add?
    ensures a.u in Scores(Apply(o, s, a))
  {
  }

  lemma StepKeepsInv(o: Options, s: State, a: Action)
    requires Inv(o, s) && Enabled(o, s, a)
    ensures Inv(o, Apply(o, s, a))
  {
    hide Sound, Complete, Guarded, Scores;
    KeepSound(o, s, a);
    KeepGuarded(o, s, a);
    if o.window <= o.ttl {
      KeepComplete(o, s, a);
    }
  }

  lemma {:induction false} RunKeepsInv(o: Options, s: State, run: seq<Action>, t: State)
    requires Inv(o, s) && IsRun(o, s, run, t)
    ensures Inv(o, t)
    decreases |run|
  {
    hide Apply, Enabled, Inv;
    if run != [] {
      StepKeepsInv(o, s, run[0]);
      RunKeepsInv(o, Apply(o, s, run[0]), run[1..], t);
    }
  }

  lemma ReachableInv(o: Options, t: State)
    requires Reachable(o, t)
    ensures Inv(o, t)
  {
    hide Apply, Enabled;
    var now: Time, run: seq<Action> :| IsRun(o, Empty(now), run, t);
    RunKeepsInv(o, Empty(now), run, t);
  }

  // ----- Answers -----

  /** Nobody is active with an empty window. */
  lemma NobodyActive(s: State, u: User)
    requires Sound(s)
    ensures !Active(s.log, u, s.now / SECOND)
  {
  }

  /** Once the stale members are evicted, the key holds only users the log calls active; and all of them
      but the shaken. */
  lemma EvictedIsActive(o: Options, s: State, u: User)
    requires Inv(o, s)
    ensures u in Scores(Apply(o, s, Evict(s.now / SECOND))) ==> Active(s.log, u, s.now / SECOND - o.window)
    ensures (u !in s.shaken && o.window <= o.ttl) || o.window == 0 ==>
      (u in Scores(Apply(o, s, Evict(s.now / SECOND))) <==> Active(s.log, u, s.now / SECOND - o.window))
  {
    hide Active;
    if u in Scores(s) {
      SoundScore(s, u, s.now / SECOND - o.window);
    }
    if o.window == 0 {
      NobodyActive(s, u);
    }
  }

  /** The answer of a reader alone with the key. */
  ghost predicate Agrees(o: Options, s: State) {
    forall u :: u in Scores(Apply(o, s, Evict(s.now / SECOND))) <==> Active(s.log, u, s.now / SECOND - o.window)
  }

  lemma StateAgrees(o: Options, s: State)
    requires Inv(o, s) && ((s.shaken == {} && o.window <= o.ttl) || o.window == 0)
    ensures Agrees(o, s)
  {
    hide Apply, Scores, Active, Inv;
    forall u: User
      ensures u in Scores(Apply(o, s, Evict(s.now / SECOND))) <==> Active(s.log, u, s.now / SECOND - o.window)
    {
      EvictedIsActive(o, s, u);
    }
  }

  lemma {:induction false} NeverShaken(o: Options, s: State, run: seq<Action>, t: State)
    requires !o.gaps && !o.breaks && s.shaken == {} && IsRun(o, s, run, t)
    ensures t.shaken == {}
    decreases |run|
  {
    hide Added, Expired, Scores;
    if run != [] {
      NeverShaken(o, Apply(o, s, run[0]), run[1..], t);
    }
  }

  // ----- Where the agreement ends -----

  lemma {:induction false} RunSnoc(o: Options, s: State, run: seq<Action>, t: State, a: Action)
    requires IsRun(o, s, run, t) && Enabled(o, t, a)
    ensures IsRun(o, s, run + [a], Apply(o, t, a))
    decreases |run|
  {
    hide Apply, Enabled;
    if run == [] {
      assert [a][1..] == [];
      assert IsRun(o, Apply(o, t, a), [], Apply(o, t, a));
    } else {
      RunSnoc(o, Apply(o, s, run[0]), run[1..], t, a);
      assert (run + [a])[1..] == run[1..] + [a];
    }
  }

  lemma Do(o: Options, s: State, a: Action) returns (t: State)
    requires Reachable(o, s) && Enabled(o, s, a)
    ensures Reachable(o, t) && t == Apply(o, s, a)
  {
    hide Apply, Enabled;
    var now: Time, run: seq<Action> :| IsRun(o, Empty(now), run, s);
    RunSnoc(o, Empty(now), run, s, a);
    t := Apply(o, s, a);
  }

  /** One user enters at time `now` of the first second. */
  lemma OneEnters(o: Options, now: Time) returns (s: State)
    requires now < SECOND
    ensures Reachable(o, s)
    ensures s == State(now, Key(map[0 := 0], Some(now + o.ttl * SECOND)), [Seen(0, 0)], map[], {})
  {
    s := Empty(now);
    assert IsRun(o, s, [], s);
    hide Reachable;
    s := Do(o, s, Add(0, 0, 0, false));
    assert s.log == [Seen(0, 0)];
    s := Do(o, s, Expire(0));
    assert s.pipes == map[];
  }

  lemma LastSeenIsActive(log: seq<Entry>, u: User, at: nat, cutoff: int)
    requires at > cutoff
    ensures Active(log + [Seen(u, at)], u, cutoff)
  {
    ActiveAfter(log, Seen(u, at), u, cutoff);
  }

  /** The key is collected while its only member is still active. */
  lemma ShortLifeForgets(o: Options) returns (s: State)
    requires o.ttl < o.window
    ensures Reachable(o, s) && !Agrees(o, s)
  {
    hide Reachable, Active;
    s := OneEnters(o, 0);
    s := Do(o, s, Tick(o.ttl * SECOND));
    LastSeenIsActive([], 0, 0, o.ttl - o.window);
    assert [] + [Seen(0, 0)] == s.log && s.now / SECOND - o.window == o.ttl - o.window;
    assert 0 !in Scores(Apply(o, s, Evict(s.now / SECOND)));
  }

  /** A millisecond before the deadline of an old key a second user is added to it. */
  lemma AddedTooLate(o: Options) returns (s: State)
    requires 0 < o.ttl
    ensures Reachable(o, s) && s.now == o.ttl * SECOND && s.key.expires == Some(o.ttl * SECOND + 1)
    ensures s.log == [Seen(0, 0), Seen(1, o.ttl)] && s.pipes == map[1 := Pipe(1, o.ttl, false)]
  {
    hide Reachable;
    s := OneEnters(o, 1);
    s := Do(o, s, Tick(o.ttl * SECOND - 1));
    assert 0 in Scores(s) && s.now / SECOND == o.ttl;
    s := Do(o, s, Add(1, 1, o.ttl, false));
    assert s.log == [Seen(0, 0), Seen(1, o.ttl)];
    assert s.pipes == map[1 := Pipe(1, o.ttl, false)];
  }

  /** The key has been collected, and with it the second user, who is active. */
  lemma SecondIsForgotten(o: Options, s: State)
    requires 0 < o.window && s.now == o.ttl * SECOND + 1 && Collected(s.key, s.now)
    requires s.log == [Seen(0, 0), Seen(1, o.ttl)]
    ensures !Agrees(o, s)
  {
    hide Active;
    LastSeenIsActive([Seen(0, 0)], 1, o.ttl, o.ttl - o.window);
    assert [Seen(0, 0)] + [Seen(1, o.ttl)] == s.log && s.now / SECOND == o.ttl;
    assert 1 !in Scores(Apply(o, s, Evict(s.now / SECOND)));
  }

  /** The old key is collected before the EXPIRE arrives, which then finds nothing... */
  lemma GapForgets(o: Options) returns (s: State)
    requires 0 < o.window <= o.ttl && o.gaps
    ensures Reachable(o, s) && s.pipes == map[] && !Agrees(o, s)
  {
    hide Reachable, Agrees;
    s := AddedTooLate(o);
    s := Do(o, s, Tick(1));
    s := Do(o, s, Expire(1));
    assert s.pipes == map[];
    SecondIsForgotten(o, s);
  }

  /** ...or the EXPIRE never arrives. */
  lemma BreakForgets(o: Options) returns (s: State)
    requires 0 < o.window <= o.ttl && o.breaks
    ensures Reachable(o, s) && s.pipes == map[] && !Agrees(o, s)
  {
    hide Reachable, Agrees;
    s := AddedTooLate(o);
    s := Do(o, s, Break(1));
    assert s.pipes == map[];
    s := Do(o, s, Tick(1));
    SecondIsForgotten(o, s);
  }

  /** Reading agrees with the full log in every run, exactly when the window is empty, or the key lives at
      least as long as the window, and no key is collected and no connection breaks between a ZADD and
      its EXPIRE. */
  lemma AgreesExactly(o: Options)
    ensures (forall s: State :: Reachable(o, s) ==> Agrees(o, s))
       <==> o.window == 0 || (o.window <= o.ttl && !o.gaps && !o.breaks)
  {
    hide Apply, Scores, Active, Agrees, Inv, IsRun;
    if o.window == 0 || (o.window <= o.ttl && !o.gaps && !o.breaks) {
      forall s: State | Reachable(o, s)
        ensures Agrees(o, s)
      {
        ReachableInv(o, s);
        if o.window > 0 {
          var now: Time, run: seq<Action> :| IsRun(o, Empty(now), run, s);
          NeverShaken(o, Empty(now), run, s);
        }
        StateAgrees(o, s);
      }
    } else if o.ttl < o.window {
      var s := ShortLifeForgets(o);
    } else if o.gaps {
      var s := GapForgets(o);
    } else {
      var s := BreakForgets(o);
    }
  }

  // ----- Between two commands of a reader -----

  /** Everyone in the key appeared after `cutoff`, or was logged at `from` or later. */
  ghost predicate CountsAll(s: State, cutoff: int, from: nat) {
    forall u :: u in Scores(s) ==> Counts(s.log, u, cutoff, from)
  }

  lemma StepKeepsCounts(o: Options, s: State, a: Action, cutoff: int, from: nat)
    requires CountsAll(s, cutoff, from) && from <= |s.log| && Enabled(o, s, a)
    ensures CountsAll(Apply(o, s, a), cutoff, from)
  {
    hide Counts, Apply, Scores;
    var t := Apply(o, s, a);
    LogAfter(o, s, a);
    forall u | u in Scores(t)
      ensures Counts(t.log, u, cutoff, from)
    {
      MembersAfter(o, s, a, u);
      if Logs(a) {
        CountsAfter(s.log, if a.Add? then Seen(a.u, a.at) else Gone(a.u), u, cutoff, from);
      }
    }
  }

  lemma EvictedCounts(o: Options, s: State, at: nat)
    requires Sound(s) && at <= s.now / SECOND
    ensures CountsAll(Apply(o, s, Evict(at)), at - o.window, |s.log|)
  {
    hide Active;
    var t := Apply(o, s, Evict(at));
    forall u | u in Scores(t)
      ensures Counts(t.log, u, at - o.window, |s.log|)
    {
      SoundScore(s, u, at - o.window);
      ActiveCounts(s.log, u, at - o.window, |s.log|);
    }
  }

  lemma ActiveCounts(log: seq<Entry>, u: User, cutoff: int, from: nat)
    requires Active(log, u, cutoff)
    ensures Counts(log, u, cutoff, from)
  {
  }
}
