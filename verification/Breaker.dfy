/** `httpclient`: the circuit breaker against the history of its calls, one at a time and overlapping,
    and the retrying transport. */
module Breaker {

  type Time = nat

  datatype Answer = Response(status: nat) | Broken

  predicate Good(a: Answer) {
    a.Response? && a.status < 500
  }

  /** What became of a request: turned away, or answered at a time. */
  datatype Event = Rejected | Succeeded | Failed(at: Time)

  /** The three atomics; `openUntil` zero is closed. */
  datatype Core = Core(failures: int, openUntil: Time, halfOpen: bool)

  datatype Admission = TurnedAway | Normal | Probe

  /** The checks before the call. */
  function Admit(s: Core, now: Time): Admission {
    if s.openUntil > 0 then (if now < s.openUntil || s.halfOpen then TurnedAway else Probe) else Normal
  }

  function Admitted(s: Core, a: Admission): Core {
    if a.Probe? then s.(halfOpen := true) else s
  }

  /** The bookkeeping after it; `at` is the clock read then. */
  function Finish(threshold: int, timeout: nat, s: Core, ok: bool, at: Time): Core {
    if ok then Core(0, 0, false)
    else
      var n := s.failures + 1;
      Core(if n >= threshold then 0 else n, if n >= threshold || s.halfOpen then at + timeout else s.openUntil, false)
  }

  // ----- One call at a time -----

  /** Failures since the last success; requests turned away do not count. */
  function Trailing(h: seq<Event>): nat {
    if h == [] then 0
    else match h[|h| - 1]
      case Succeeded => 0
      case Failed(_) => Trailing(h[..|h| - 1]) + 1
      case Rejected => Trailing(h[..|h| - 1])
  }

  function LastFailure(h: seq<Event>): Time {
    if h == [] then 0 else if h[|h| - 1].Failed? then h[|h| - 1].at else LastFailure(h[..|h| - 1])
  }

  /** What the history says: open from the `threshold`-th failure without a success in between until a
      success, shut until `timeout` after the last failure. */
  ghost predicate Shut(threshold: int, timeout: nat, h: seq<Event>, now: Time) {
    Trailing(h) >= threshold && now < LastFailure(h) + timeout
  }

  /** The atomics tell that history. */
  ghost predicate Tells(threshold: int, timeout: nat, s: Core, h: seq<Event>) {
    && !s.halfOpen && 0 <= s.failures < threshold
    && (s.openUntil > 0 <==> Trailing(h) >= threshold)
    && (s.openUntil > 0 ==> s.openUntil == LastFailure(h) + timeout)
    && (s.openUntil == 0 ==> s.failures == Trailing(h))
  }

  lemma Append(h: seq<Event>, e: Event)
    ensures Trailing(h + [e]) == if e.Succeeded? then 0 else if e.Failed? then Trailing(h) + 1 else Trailing(h)
    ensures LastFailure(h + [e]) == if e.Failed? then e.at else LastFailure(h)
  {
    assert (h + [e])[..|h|] == h;
  }

  /** A whole call: admission, the request, the bookkeeping. */
  function Call(threshold: int, timeout: nat, s: Core, now: Time, ok: bool, at: Time): (Core, Event) {
    var a := Admit(s, now);
    if a.TurnedAway? then (s, Rejected)
    else (Finish(threshold, timeout, Admitted(s, a), ok, at), if ok then Succeeded else Failed(at))
  }

  /** In any history of calls, one after the other: a call is turned away exactly while the history says
      shut, and the atomics go on telling the history. */
  lemma CallFollowsHistory(threshold: int, timeout: nat, s: Core, h: seq<Event>, now: Time, ok: bool, at: Time)
    requires threshold > 0 && Tells(threshold, timeout, s, h) && at + timeout > 0
    ensures var (t, e) := Call(threshold, timeout, s, now, ok, at);
            (e == Rejected <==> Shut(threshold, timeout, h, now)) && Tells(threshold, timeout, t, h + [e])
  {
    hide Trailing, LastFailure;
    Append(h, Rejected);
    Append(h, Succeeded);
    Append(h, Failed(at));
  }

  class BreakerTransport {
    const threshold: int
    const timeout: nat
    const clock: nat -> Time
    const answers: nat -> Answer
    var core: Core
    var tick: nat
    ghost var history: seq<Event>

    ghost predicate Valid()
      reads this
    {
      threshold > 0 && timeout > 0 && Tells(threshold, timeout, core, history)
    }

    constructor (clock: nat -> Time, answers: nat -> Answer)
      ensures Valid() && history == [] && threshold == 5 && timeout == 30_000_000_000
      ensures this.clock == clock && this.answers == answers && tick == 0
    {
      this.threshold, this.timeout := 5, 30_000_000_000;
      this.clock, this.answers := clock, answers;
      this.core := Core(0, 0, false);
      this.tick := 0;
      this.history := [];
    }

    method Now() returns (now: Time)
      modifies this`tick
      ensures now == clock(old(tick)) && tick == old(tick) + 1
    {
      now := clock(tick);
      tick := tick + 1;
    }

    /** `RoundTrip`, with no other call in flight. */
    method RoundTrip() returns (event: Event, ghost now: Time)
      requires Valid()
      modifies this
      ensures Valid() && history == old(history) + [event] && now == clock(old(tick))
      ensures event == Rejected <==> Shut(threshold, timeout, old(history), now)
      ensures event != Rejected ==>
        var answer := answers(old(tick) + 1);
        event == if answer.Broken? || answer.status >= 500 then Failed(clock(old(tick) + 1)) else Succeeded
    {
      hide Shut, Tells;
      var begin := Now();
      now := begin;
      ghost var was, ok, at := core, Good(answers(tick)), clock(tick);
      CallFollowsHistory(threshold, timeout, was, history, now, ok, at);
      var openUntil := core.openUntil;
      if openUntil > 0 {
        if begin < openUntil || core.halfOpen {
          history := history + [Rejected];
          return Rejected, now;
        }
        core := core.(halfOpen := true);
      }
      var answered := Good(answers(tick));
      if !answered {
        var end := Now();
        var n := core.failures + 1;
        core := core.(failures := n);
        if n >= threshold {
          core := core.(openUntil := end + timeout);
          core := core.(failures := 0);
        }
        if core.halfOpen {
          core := core.(openUntil := end + timeout);
        }
        core := core.(halfOpen := false);
        history := history + [Failed(end)];
        return Failed(end), now;
      }
      core := core.(failures := 0);
      core := core.(openUntil := 0);
      core := core.(halfOpen := false);
      history := history + [Succeeded];
      return Succeeded, now;
    }
  }

  // ----- Overlapping calls -----

  /** Where a call is, each load, swap and store a step of its own. `Loaded`: it has found the breaker open
      and its deadline past, and is about to try for the probe. `Failing` and `Succeeding` count the steps of
      the bookkeeping. */
  datatype Phase = Loaded | Calling(probe: bool) | Failing(step: nat, probe: bool) | Succeeding(step: nat, probe: bool)

  datatype State = State(core: Core, calls: map<nat, Phase>)

  /** `stragglers`: another call may be under way when a call opens the breaker. `stale`: others may act
      between a call's load and its swap. `slow`: a probe may start while the bookkeeping of the call that
      opened the breaker is still under way. */
  datatype Config = Config(threshold: int, timeout: nat, stragglers: bool, stale: bool, slow: bool)

  datatype Action = Load(i: nat, now: Time) | Swap(i: nat) | Answer(i: nat, ok: bool) | Book(i: nat, at: Time)

  /** The calls that have been let through and are not done. */
  function UnderWay(s: State): set<nat> {
    set i | i in s.calls && !s.calls[i].Loaded?
  }

  predicate Opens(s: State, i: nat)
    requires i in s.calls
  {
    s.core.openUntil == 0 && s.calls[i].Failing? && (s.calls[i].step == 1 || s.calls[i].step == 4)
  }

  predicate Books(s: State, i: nat)
    requires i in s.calls
  {
    s.calls[i].Failing? || s.calls[i].Succeeding?
  }

  predicate Enabled(c: Config, s: State, a: Action) {
    && (!c.stale ==> forall j :: j in s.calls && s.calls[j].Loaded? ==> a == Swap(j))
    && match a
       case Load(i, _) => i !in s.calls
       case Swap(i) =>
         i in s.calls && s.calls[i].Loaded?
           && (!c.slow && !s.core.halfOpen ==> forall j :: j in s.calls ==> !Books(s, j))
       case Answer(i, _) => i in s.calls && s.calls[i].Calling?
       case Book(i, _) => i in s.calls && Books(s, i) && (!c.stragglers && Opens(s, i) ==> UnderWay(s) == {i})
  }

  function Loading(s: State, i: nat, now: Time): State {
    if s.core.openUntil == 0 then s.(calls := s.calls[i := Calling(false)])
    else if now < s.core.openUntil then s
    else s.(calls := s.calls[i := Loaded])
  }

  function Swapped(s: State, i: nat): State {
    if s.core.halfOpen then s.(calls := s.calls - {i})
    else State(s.core.(halfOpen := true), s.calls[i := Calling(true)])
  }

  function Booked(c: Config, s: State, i: nat, at: Time): State
    requires i in s.calls && Books(s, i)
  {
    var p, k := s.calls[i], s.core;
    if p.Failing? then
      if p.step == 0 then
        var n := k.failures + 1;
        State(k.(failures := n), s.calls[i := Failing(if n >= c.threshold then 1 else 3, p.probe)])
      else if p.step == 1 then State(k.(openUntil := at + c.timeout), s.calls[i := Failing(2, p.probe)])
      else if p.step == 2 then State(k.(failures := 0), s.calls[i := Failing(3, p.probe)])
      else if p.step == 3 then s.(calls := s.calls[i := Failing(if k.halfOpen then 4 else 5, p.probe)])
      else if p.step == 4 then State(k.(openUntil := at + c.timeout), s.calls[i := Failing(5, p.probe)])
      else State(k.(halfOpen := false), s.calls - {i})
    else
      if p.step == 0 then State(k.(failures := 0), s.calls[i := Succeeding(1, p.probe)])
      else if p.step == 1 then State(k.(openUntil := 0), s.calls[i := Succeeding(2, p.probe)])
      else State(k.(halfOpen := false), s.calls - {i})
  }

  function Apply(c: Config, s: State, a: Action): State
    requires Enabled(c, s, a)
  {
    match a
    case Load(i, now) => Loading(s, i, now)
    case Swap(i) => Swapped(s, i)
    case Answer(i, ok) =>
      s.(calls := s.calls[i := if ok then Succeeding(0, s.calls[i].probe) else Failing(0, s.calls[i].probe)])
    case Book(i, at) => Booked(c, s, i, at)
  }

  const CLOSED := State(Core(0, 0, false), map[])

  ghost predicate IsRun(c: Config, s: State, run: seq<Action>, t: State)
    decreases |run|
  {
    if run == [] then s == t else Enabled(c, s, run[0]) && IsRun(c, Apply(c, s, run[0]), run[1..], t)
  }

  ghost predicate Reachable(c: Config, t: State) {
    exists run: seq<Action> :: IsRun(c, CLOSED, run, t)
  }

  /** At most one probe's request is under way. */
  ghost predicate OneProbe(s: State) {
    forall i, j :: i in s.calls && j in s.calls && s.calls[i] == Calling(true) && s.calls[j] == Calling(true) ==> i == j
  }

  /** A call that may be seen while the breaker is closed: an ordinary one, or a probe about to finish. */
  predicate Harmless(p: Phase) {
    p.Loaded? || !p.probe || p == Succeeding(2, true)
  }

  /** The one call that may be seen while it is open: the probe, which holds the mark, or the call that
      opened it, in its bookkeeping. */
  predicate Sole(k: Core, p: Phase) {
    if p.Loaded? then true
    else if p.probe then k.halfOpen && (p.Succeeding? ==> p.step <= 1)
    else p.Failing? && p.step != 4 && p.step >= 2 && !k.halfOpen
  }

  ghost predicate Inv(s: State) {
    && (s.core.openUntil == 0 ==> forall i :: i in s.calls ==> Harmless(s.calls[i]) && !s.calls[i].Loaded?)
    && (s.core.openUntil > 0 ==> forall i :: i in s.calls ==> Sole(s.core, s.calls[i]))
    && (s.core.openUntil > 0 ==> forall i, j ::
      i in s.calls && j in s.calls && !s.calls[i].Loaded? && !s.calls[j].Loaded? ==> i == j)
    && (s.core.halfOpen ==> exists i :: i in s.calls && !s.calls[i].Loaded? && s.calls[i].probe)
  }

  predicate Orderly(c: Config) {
    !c.stragglers && !c.stale && !c.slow && c.timeout > 0
  }

  lemma BookKeepsInv(c: Config, s: State, i: nat, at: Time)
    requires Orderly(c) && Inv(s) && Enabled(c, s, Book(i, at))
    ensures Inv(Booked(c, s, i, at))
  {
    var t := Booked(c, s, i, at);
    if Opens(s, i) {
      assert forall j :: j in s.calls && !s.calls[j].Loaded? ==> j in UnderWay(s);
    }
    if t.core.halfOpen {
      var j :| j in s.calls && !s.calls[j].Loaded? && s.calls[j].probe;
      assert j in t.calls;
    }
  }

  lemma StepKeepsInv(c: Config, s: State, a: Action)
    requires Orderly(c) && Inv(s) && Enabled(c, s, a)
    ensures Inv(Apply(c, s, a))
  {
    match a
    case Book(i, at) => BookKeepsInv(c, s, i, at);
    case Load(i, now) =>
      if s.core.halfOpen {
        var j :| j in s.calls && !s.calls[j].Loaded? && s.calls[j].probe;
        assert j in Apply(c, s, a).calls;
      }
    case Swap(i) =>
      if s.core.halfOpen {
        var j :| j in s.calls && !s.calls[j].Loaded? && s.calls[j].probe;
        assert j in Apply(c, s, a).calls;
      } else {
        assert Apply(c, s, a).calls[i].probe;
      }
    case Answer(i, ok) =>
      if s.core.halfOpen {
        var j :| j in s.calls && !s.calls[j].Loaded? && s.calls[j].probe;
        assert j in Apply(c, s, a).calls;
      }
  }

  lemma {:induction false} RunKeepsInv(c: Config, s: State, run: seq<Action>, t: State)
    requires Orderly(c) && Inv(s) && IsRun(c, s, run, t)
    ensures Inv(t)
    decreases |run|
  {
    hide Apply, Enabled, Inv;
    if run != [] {
      StepKeepsInv(c, s, run[0]);
      RunKeepsInv(c, Apply(c, s, run[0]), run[1..], t);
    }
  }

  lemma OrderlyHasOneProbe(c: Config, s: State)
    requires Orderly(c) && Reachable(c, s)
    ensures OneProbe(s)
  {
    hide Apply, Enabled;
    var run: seq<Action> :| IsRun(c, CLOSED, run, s);
    RunKeepsInv(c, CLOSED, run, s);
  }

  // ----- Without the conditions -----

  lemma {:induction false} RunSnoc(c: Config, s: State, run: seq<Action>, t: State, a: Action)
    requires IsRun(c, s, run, t) && Enabled(c, t, a)
    ensures IsRun(c, s, run + [a], Apply(c, t, a))
    decreases |run|
  {
    hide Apply, Enabled;
    if run == [] {
      assert [a][1..] == [];
      assert IsRun(c, Apply(c, t, a), [], Apply(c, t, a));
    } else {
      RunSnoc(c, Apply(c, s, run[0]), run[1..], t, a);
      assert (run + [a])[1..] == run[1..] + [a];
    }
  }

  lemma Do(c: Config, s: State, a: Action) returns (t: State)
    requires Reachable(c, s) && Enabled(c, s, a)
    ensures Reachable(c, t) && t == Apply(c, s, a)
  {
    hide Apply, Enabled;
    var run: seq<Action> :| IsRun(c, CLOSED, run, s);
    RunSnoc(c, CLOSED, run, s, a);
    t := Apply(c, s, a);
  }

  lemma Start(c: Config) returns (s: State)
    ensures Reachable(c, s) && s == CLOSED
  {
    s := CLOSED;
    assert IsRun(c, s, [], s);
  }

  predicate NoneLoaded(s: State) {
    forall j :: j in s.calls ==> !s.calls[j].Loaded?
  }

  /** A call is let through, and its request fails. */
  lemma Fail(c: Config, s: State, i: nat) returns (t: State)
    requires Reachable(c, s) && NoneLoaded(s) && i !in s.calls && s.core.openUntil == 0
    ensures Reachable(c, t) && t == State(s.core, s.calls[i := Failing(0, false)])
  {
    hide Reachable;
    t := Do(c, s, Load(i, 0));
    t := Do(c, t, Answer(i, false));
    assert t.calls == s.calls[i := Failing(0, false)];
  }

  /** One step of bookkeeping. */
  lemma Note(c: Config, s: State, i: nat, at: Time) returns (t: State)
    requires Reachable(c, s) && (c.stale || NoneLoaded(s)) && i in s.calls && Books(s, i)
    requires c.stragglers || !Opens(s, i) || UnderWay(s) == {i}
    ensures Reachable(c, t) && t == Booked(c, s, i, at)
  {
    t := Do(c, s, Book(i, at));
  }

  /** A failure that is not the last one the threshold allows. */
  lemma FailOnce(c: Config, s: State, i: nat) returns (t: State)
    requires Reachable(c, s) && NoneLoaded(s) && i !in s.calls
    requires s.core.openUntil == 0 && !s.core.halfOpen && s.core.failures + 1 < c.threshold
    ensures Reachable(c, t) && t == State(s.core.(failures := s.core.failures + 1), s.calls)
  {
    hide Reachable;
    t := Fail(c, s, i);
    t := Note(c, t, i, 0);
    t := Note(c, t, i, 0);
    t := Note(c, t, i, 0);
    assert t.calls == s.calls;
  }

  /** The failure that opens the breaker, up to its first store of the deadline. */
  lemma FailLast(c: Config, s: State, i: nat) returns (t: State)
    requires Reachable(c, s) && NoneLoaded(s) && i !in s.calls && (c.stragglers || s.calls == map[])
    requires s.core == Core(c.threshold - 1, 0, false)
    ensures Reachable(c, t) && t == State(Core(c.threshold, c.timeout, false), s.calls[i := Failing(2, false)])
  {
    hide Reachable;
    t := Fail(c, s, i);
    t := Note(c, t, i, 0);
    assert s.calls == map[] ==> UnderWay(t) == {i};
    t := Note(c, t, i, 0);
    assert t.calls == s.calls[i := Failing(2, false)];
  }

  /** The rest of its bookkeeping. */
  lemma FinishLast(c: Config, s: State, i: nat, calls: map<nat, Phase>) returns (t: State)
    requires Reachable(c, s) && NoneLoaded(s) && i !in calls && c.timeout > 0
    requires s == State(Core(c.threshold, c.timeout, false), calls[i := Failing(2, false)])
    ensures Reachable(c, t) && t == State(Core(0, c.timeout, false), calls)
  {
    hide Reachable;
    t := Note(c, s, i, 0);
    t := Note(c, t, i, 0);
    t := Note(c, t, i, 0);
    assert t.calls == calls;
  }

  /** `n` failures one after the other, beside the calls that are there. */
  lemma {:induction false} FailTimes(c: Config, s: State, n: nat) returns (t: State)
    requires Reachable(c, s) && NoneLoaded(s) && 1 !in s.calls && s.core == Core(0, 0, false) && n < c.threshold
    ensures Reachable(c, t) && t == State(Core(n, 0, false), s.calls)
  {
    hide Reachable;
    if n == 0 {
      t := s;
    } else {
      t := FailTimes(c, s, n - 1);
      t := FailOnce(c, t, 1);
    }
  }

  /** Past the deadline, a call finds the breaker open and goes for the probe. */
  lemma GetProbe(c: Config, s: State, i: nat, now: Time) returns (t: State)
    requires Reachable(c, s) && NoneLoaded(s) && i !in s.calls && 0 < s.core.openUntil <= now && !s.core.halfOpen
    requires c.slow || forall j :: j in s.calls ==> !Books(s, j)
    ensures Reachable(c, t) && t == State(s.core.(halfOpen := true), s.calls[i := Calling(true)])
  {
    hide Reachable;
    t := Do(c, s, Load(i, now));
    t := Do(c, t, Swap(i));
    assert t.calls == s.calls[i := Calling(true)];
  }

  lemma TwoProbes(s: State, i: nat, j: nat)
    requires i != j && i in s.calls && j in s.calls && s.calls[i] == s.calls[j] == Calling(true)
    ensures !OneProbe(s)
  {
  }

  /** Call 0 is under way while others fail and open the breaker; the deadline passes and a probe starts;
      call 0 fails and takes the mark away; after the new deadline a second probe joins. */
  lemma StragglerAddsAProbe(c: Config) returns (s: State)
    requires c.threshold > 0 && c.timeout > 0 && c.stragglers
    ensures Reachable(c, s) && !OneProbe(s)
  {
    hide Reachable, OneProbe;
    s := Start(c);
    s := Do(c, s, Load(0, 0));
    var beside := map[0 := Calling(false)];
    assert s.calls == beside;
    s := FailTimes(c, s, c.threshold - 1);
    s := FailLast(c, s, 1);
    s := FinishLast(c, s, 1, beside);
    s := GetProbe(c, s, 2, c.timeout);
    s := Do(c, s, Answer(0, false));
    assert s == State(Core(0, c.timeout, true), map[0 := Failing(0, false), 2 := Calling(true)]);
    s := StragglerFails(c, s);
    s := GetProbe(c, s, 3, 2 * c.timeout);
    TwoProbes(s, 2, 3);
  }

  /** A straggler's bookkeeping ends with a new deadline and without the mark. */
  lemma StragglerFails(c: Config, s: State) returns (t: State)
    requires Reachable(c, s) && c.timeout > 0 && c.threshold > 0
    requires s == State(Core(0, c.timeout, true), map[0 := Failing(0, false), 2 := Calling(true)])
    ensures Reachable(c, t) && t.core.openUntil == 2 * c.timeout && !t.core.halfOpen
      && t.calls == map[2 := Calling(true)]
  {
    hide Reachable;
    t := Note(c, s, 0, c.timeout);
    if t.calls[0].step == 1 {
      t := Note(c, t, 0, c.timeout);
      t := Note(c, t, 0, c.timeout);
    }
    assert t.core.halfOpen && t.calls == map[0 := Failing(3, false), 2 := Calling(true)];
    t := Note(c, t, 0, c.timeout);
    t := Note(c, t, 0, c.timeout);
    t := Note(c, t, 0, c.timeout);
    assert t.calls == map[2 := Calling(true)];
  }

  /** Open, the deadline past, nobody under way. */
  lemma Opened(c: Config) returns (s: State)
    requires c.threshold > 0 && c.timeout > 0
    ensures Reachable(c, s) && s == State(Core(0, c.timeout, false), map[])
  {
    hide Reachable;
    s := Start(c);
    s := FailTimes(c, s, c.threshold - 1);
    s := FailLast(c, s, 1);
    s := FinishLast(c, s, 1, map[]);
  }

  /** A request succeeds and its call does its bookkeeping. */
  lemma Succeed(c: Config, s: State, i: nat) returns (t: State)
    requires Reachable(c, s) && c.stale && i in s.calls && s.calls[i].Calling?
    ensures Reachable(c, t) && t == State(Core(0, 0, false), s.calls - {i})
  {
    hide Reachable;
    t := Do(c, s, Answer(i, true));
    t := Note(c, t, i, 0);
    t := Note(c, t, i, 0);
    t := Note(c, t, i, 0);
    assert t.calls == s.calls - {i};
  }

  /** Two calls find the breaker open and stop there; a third probes and closes it; the first gets a probe
      all the same; an ordinary call succeeds and takes its mark away; the second gets one too. */
  lemma StaleLoadsAddAProbe(c: Config) returns (s: State)
    requires c.threshold > 0 && c.timeout > 0 && c.stale
    ensures Reachable(c, s) && !OneProbe(s)
  {
    hide Reachable, OneProbe;
    s := Opened(c);
    s := Do(c, s, Load(1, c.timeout));
    s := Do(c, s, Load(2, c.timeout));
    s := Do(c, s, Load(3, c.timeout));
    s := Do(c, s, Swap(3));
    s := Succeed(c, s, 3);
    assert s.calls == map[1 := Loaded, 2 := Loaded];
    s := Do(c, s, Swap(1));
    s := Do(c, s, Load(3, 0));
    s := Succeed(c, s, 3);
    assert s.calls == map[1 := Calling(true), 2 := Loaded];
    s := Do(c, s, Swap(2));
    TwoProbes(s, 1, 2);
  }

  /** The call that opened the breaker is still in its bookkeeping when the deadline passes and a probe
      starts; it takes that for its own, and takes its mark away. */
  lemma SlowBooksAddAProbe(c: Config) returns (s: State)
    requires c.threshold > 0 && c.timeout > 0 && c.slow
    ensures Reachable(c, s) && !OneProbe(s)
  {
    hide Reachable, OneProbe;
    s := Start(c);
    s := FailTimes(c, s, c.threshold - 1);
    s := FailLast(c, s, 1);
    s := GetProbe(c, s, 2, c.timeout);
    s := Note(c, s, 1, c.timeout);
    s := Note(c, s, 1, c.timeout);
    s := Note(c, s, 1, c.timeout);
    s := Note(c, s, 1, c.timeout);
    assert s.calls == map[2 := Calling(true)];
    s := GetProbe(c, s, 3, 2 * c.timeout);
    TwoProbes(s, 2, 3);
  }

  /** Overlapping calls never put two probes under way, exactly when nobody else is under way when a call
      opens the breaker, nobody comes between a call's load and its swap, and no probe starts before the
      call that opened the breaker is done. */
  lemma OneProbeExactly(c: Config)
    requires c.threshold > 0 && c.timeout > 0
    ensures (forall s: State :: Reachable(c, s) ==> OneProbe(s)) <==> !c.stragglers && !c.stale && !c.slow
  {
    hide OneProbe, Reachable;
    if c.stragglers {
      var s := StragglerAddsAProbe(c);
    } else if c.stale {
      var s := StaleLoadsAddAProbe(c);
    } else if c.slow {
      var s := SlowBooksAddAProbe(c);
    } else {
      forall s: State | Reachable(c, s)
        ensures OneProbe(s)
      {
        OrderlyHasOneProbe(c, s);
      }
    }
  }

  // ----- Retries -----

  datatype Outcome = Returned(answer: Answer) | Cancelled | NothingAtAll

  /** `retryTransport.RoundTrip`: after a request that failed or came back with 500 or more, GET and HEAD are
      sent again, at most `maxRetries` times, until the context is found cancelled in the pause before; the
      answer is the first good one or the last there was. A negative `maxRetries` sends nothing. */
  method Retry(verb: string, maxRetries: int, answers: nat -> Answer, cancelled: nat -> bool)
    returns (r: Outcome, sent: nat)
    ensures r.NothingAtAll? <==> maxRetries < 0
    ensures maxRetries >= 0 ==> 0 < sent <= maxRetries + 1
    ensures forall k :: 0 <= k < sent - 1 ==> answers(k).Broken? || answers(k).status >= 500
    ensures (sent > 1 ==> verb == "GET" || verb == "HEAD") && forall k :: 1 <= k < sent ==> !cancelled(k)
    ensures r.Returned? ==>
      && sent > 0 && r.answer == answers(sent - 1)
      && (answers(sent - 1).Broken? || answers(sent - 1).status >= 500 ==>
            sent == maxRetries + 1 || (!cancelled(sent) && verb != "GET" && verb != "HEAD"))
    ensures r.Cancelled? ==>
      && 0 < sent <= maxRetries && cancelled(sent)
      && (answers(sent - 1).Broken? || answers(sent - 1).status >= 500)
  {
    sent := 0;
    r := NothingAtAll;
    var safe := verb == "GET" || verb == "HEAD";
    var attempt := 0;
    while attempt <= maxRetries
      invariant 0 <= attempt && attempt == sent && (attempt > 0 ==> attempt <= maxRetries + 1)
      invariant sent > 1 ==> safe
      invariant forall k :: 1 <= k < sent ==> !cancelled(k)
      invariant forall k :: 0 <= k < sent ==> answers(k).Broken? || answers(k).status >= 500
      invariant r == if sent == 0 then NothingAtAll else Returned(answers(sent - 1))
    {
      if attempt > 0 {
        if cancelled(attempt) {
          return Cancelled, sent;
        }
        if !safe {
          break;
        }
      }
      var answer := answers(attempt);
      sent := sent + 1;
      r := Returned(answer);
      if Good(answer) {
        return;
      }
      attempt := attempt + 1;
    }
  }
}
