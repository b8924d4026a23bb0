/** From a committed outbox row to a handled message: the outbox, the log and the consumer group
    together, in every interleaving. */
module Pipeline {
  import opened Broker
  import Outbox
  import Group = ConsumerGroup

  datatype Config = Config(batch: nat, group: Group.Config)

  datatype State = State(outbox: Outbox.State, log: Log, group: Group.State)

  datatype Action = Publish(o: Outbox.Action) | Consume(g: Group.Action)

  predicate Enabled(c: Config, s: State, a: Action) {
    match a
    case Publish(o) => Outbox.Enabled(c.batch, s.log, s.outbox, o)
    case Consume(g) => Group.Enabled(c.group, s.log, s.group, g)
  }

  function Apply(c: Config, s: State, a: Action): State
    requires Enabled(c, s, a)
  {
    match a
    case Publish(o) =>
      State(Outbox.Apply(c.batch, s.log, s.outbox, o), Outbox.LogAfter(c.batch, s.log, s.outbox, o), s.group)
    case Consume(g) => s.(group := Group.Apply(c.group, s.log, s.group, g))
  }

  /** An empty outbox, empty partitions, no consumer yet. */
  ghost predicate Init(s: State) {
    && s.outbox.rows == map[] && s.outbox.published == {}
    && (forall w :: w in s.outbox.sweeps ==> s.outbox.sweeps[w].Asleep?)
    && (forall p :: p in s.log ==> s.log[p] == [])
    && s.group.committed.Keys == s.log.Keys && (forall p :: p in s.log ==> s.group.committed[p] == 0)
    && s.group == Group.State(s.group.committed, map[], {}, {}, {}, {}, {}, {}, {}, {}, {})
  }

  ghost predicate IsRun(c: Config, s: State, run: seq<Action>, t: State)
    decreases |run|
  {
    if run == [] then s == t
    else Enabled(c, s, run[0]) && IsRun(c, Apply(c, s, run[0]), run[1..], t)
  }

  ghost predicate Inv(c: Config, s: State) {
    Outbox.Inv(s.log, s.outbox) && Group.Inv(c.group, s.log, s.group)
  }

  lemma StepKeepsInv(c: Config, s: State, a: Action)
    requires Inv(c, s) && Enabled(c, s, a)
    ensures Inv(c, Apply(c, s, a))
  {
    match a
    case Publish(o) =>
      Outbox.StepKeepsInv(c.batch, s.log, s.outbox, o);
      Group.LogMayGrow(c.group, s.log, Outbox.LogAfter(c.batch, s.log, s.outbox, o), s.group);
    case Consume(g) =>
      Group.StepKeepsInv(c.group, s.log, s.group, g);
  }

  lemma {:induction false} RunKeepsInv(c: Config, s: State, run: seq<Action>, t: State)
    requires IsRun(c, s, run, t) && Inv(c, s)
    ensures Inv(c, t)
    decreases |run|
  {
    if run != [] {
      StepKeepsInv(c, s, run[0]);
      RunKeepsInv(c, Apply(c, s, run[0]), run[1..], t);
    }
  }

  lemma Reachable(c: Config, s: State, run: seq<Action>, t: State)
    requires Init(s) && IsRun(c, s, run, t)
    ensures Inv(c, t)
  {
    assert Inv(c, s);
    RunKeepsInv(c, s, run, t);
  }

  /** The group's committed offset has passed the message. */
  predicate Covered(s: State, q: Pos) {
    q.partition in s.group.committed && q.offset < s.group.committed[q.partition]
  }

  /** Every row marked published is in the log as it was inserted: after any crash, any partial
      batch write and any failed mark. */
  lemma PublishedIsLogged(c: Config, s: State, run: seq<Action>, t: State, id: nat)
    requires Init(s) && IsRun(c, s, run, t) && id in t.outbox.published
    ensures Outbox.Logged(t.log, t.outbox, id)
  {
    Reachable(c, s, run, t);
  }

  /** Every message the group's commit has passed was handled, dead-lettered, skipped as already claimed,
      or given up by a member whose context was cancelled: over any number of members, restarts, moves
      between partitions, lost replies and late fetches. The last happens only with late fetches. Without
      a dedup store nothing is skipped; without a dead-letter topic nothing dead-lettered. */
  lemma CoveredIsSettled(c: Config, s: State, run: seq<Action>, t: State, q: Pos)
    requires Init(s) && IsRun(c, s, run, t) && Covered(t, q)
    ensures Group.Settled(t.group, q) || (c.group.lateFetch && q in t.group.abandoned)
    ensures q in t.group.skipped ==> c.group.hasRedis && Has(t.log, q) && RowAt(t.log, q).eventId in t.group.everClaimed
    ensures q in t.group.deadLettered ==> c.group.hasDlq
  {
    hide IsRun;
    Reachable(c, s, run, t);
    var strict := !c.group.lateFetch;
    assert Group.ExcusedBelow(strict, t.group, q.partition, t.group.committed[q.partition]);
    assert q == Pos(q.partition, q.offset);
    assert Group.Excused(strict, t.group, Pos(q.partition, q.offset));
  }

  /** A message skipped as already claimed: the copy of its event that the claim was made for (perhaps itself,
      before it was delivered again) was handled or dead-lettered, or is being worked on, or was given up by
      a cancelled member, or was in hand when its member restarted; or its claim, sent again by the Redis
      client when no reply came, found itself. */
  lemma SkippedIsAccountedFor(c: Config, s: State, run: seq<Action>, t: State, q: Pos)
    requires Init(s) && IsRun(c, s, run, t) && q in t.group.skipped
    ensures c.group.hasRedis && Has(t.log, q)
    ensures exists r :: Group.Claimant(t.log, t.group, RowAt(t.log, q).eventId, r)
  {
    hide IsRun;
    Reachable(c, s, run, t);
  }

  /** End to end, without a dedup store: a published row is in the log, and wherever the group's commit
      has passed a copy of it, that very copy was handled or dead-lettered, or, with late fetches, given
      up by a cancelled member. */
  lemma EndToEnd(c: Config, s: State, run: seq<Action>, t: State, id: nat)
    requires !c.group.hasRedis && Init(s) && IsRun(c, s, run, t) && id in t.outbox.published
    ensures Outbox.Logged(t.log, t.outbox, id)
    ensures forall q: Pos :: Has(t.log, q) && RowAt(t.log, q).id == id && Covered(t, q) ==>
              || q in t.group.handled || (q in t.group.deadLettered && c.group.hasDlq)
              || (c.group.lateFetch && q in t.group.abandoned)
  {
    hide IsRun;
    PublishedIsLogged(c, s, run, t, id);
    forall q: Pos | Covered(t, q)
      ensures || q in t.group.handled || (q in t.group.deadLettered && c.group.hasDlq)
              || (c.group.lateFetch && q in t.group.abandoned)
    {
      CoveredIsSettled(c, s, run, t, q);
    }
  }

  lemma {:induction false} AckedForEver(c: Config, s: State, run: seq<Action>, t: State, q: Pos)
    requires IsRun(c, s, run, t) && q in s.group.acked && Group.Settled(s.group, q)
    ensures q in t.group.acked && Group.Settled(t.group, q)
    decreases |run|
  {
    if run != [] {
      if run[0].Consume? {
        Group.StepIsLater(c.group, s.log, s.group, run[0].g);
      }
      AckedForEver(c, Apply(c, s, run[0]), run[1..], t, q);
    }
  }

  /** A member that is neither shut down nor restarted keeps the message in hand, through any
      number of failing handler calls, dead-letter writes and commits, until its own commit of that
      message succeeds; and it commits only what is settled. */
  lemma {:induction false} NoLeapfrog(c: Config, s: State, run: seq<Action>, t: State, k: nat, q: Pos)
    requires Inv(c, s) && IsRun(c, s, run, t)
    requires Group.Holds(s.group, k, q) && !s.group.members[k].cancelled
    requires Consume(Group.Cancel(k)) !in run && Consume(Group.Restart(k)) !in run
    ensures Group.Holds(t.group, k, q) || (q in t.group.acked && Group.Settled(t.group, q))
    decreases |run|
  {
    if run != [] {
      var s' := Apply(c, s, run[0]);
      StepKeepsInv(c, s, run[0]);
      if run[0].Consume? {
        Group.StepBlocks(c.group, s.log, s.group, run[0].g, k, q);
      }
      if run[0] == Consume(Group.Local(k, Group.CommitDone)) {
        AckedForEver(c, s', run[1..], t, q);
      } else {
        NoLeapfrog(c, s', run[1..], t, k, q);
      }
    }
  }

  // ----- Where the promise ends -----

  lemma {:induction false} Extend(c: Config, s: State, run: seq<Action>, t: State, a: Action)
    requires IsRun(c, s, run, t) && Enabled(c, t, a)
    ensures IsRun(c, s, run + [a], Apply(c, t, a))
    decreases |run|
  {
    if run == [] {
      assert [a][1..] == [];
    } else {
      Extend(c, Apply(c, s, run[0]), run[1..], t, a);
      assert (run + [a])[1..] == run[1..] + [a];
    }
  }

  /** One more step of a run. */
  lemma Then(c: Config, s: State, run: seq<Action>, t: State, a: Action) returns (run': seq<Action>, t': State)
    requires IsRun(c, s, run, t) && Enabled(c, t, a)
    ensures IsRun(c, s, run', t') && t' == Apply(c, t, a) && run' == run + [a]
  {
    Extend(c, s, run, t, a);
    return run + [a], Apply(c, t, a);
  }

  /** The handler runs at all. */
  predicate Handles(c: Config) {
    c.group.retryForever || 0 <= c.group.maxRetries
  }

  /** Without a dedup store, a message in hand that can be handled, or be dead-lettered as unreadable, may
      be settled and committed. */
  lemma SettleAndCommit(c: Config, s: State, before: seq<Action>, m: State, k: nat, q: Pos)
    returns (run: seq<Action>, t: State)
    requires !c.group.hasRedis && IsRun(c, s, before, m)
    requires Group.Holds(m.group, k, q) && m.group.members[k].task.Decoding? && Has(m.log, q)
    requires if RowAt(m.log, q).decodes then Handles(c) else c.group.hasDlq
    ensures IsRun(c, s, run, t) && t.log == m.log
    ensures t.group.committed == m.group.committed[q.partition := q.offset + 1]
    ensures forall r :: r != q && Group.Settled(t.group, r) ==> Group.Settled(m.group, r)
  {
    hide IsRun;
    if RowAt(m.log, q).decodes {
      run, t := Then(c, s, before, m, Consume(Group.Local(k, Group.NoDedup)));
      run, t := Then(c, s, run, t, Consume(Group.Local(k, Group.HandlerDone)));
    } else {
      run, t := Then(c, s, before, m, Consume(Group.Local(k, Group.Undecodable)));
      run, t := Then(c, s, run, t, Consume(Group.Local(k, Group.DlqDone)));
    }
    run, t := Then(c, s, run, t, Consume(Group.Local(k, Group.CommitDone)));
  }

  /** If a fetch can still succeed after the shutdown, a member that gave up on an unsettled message
      reads the next one, and its commit covers both. */
  lemma LateFetchLeapfrogs(c: Config, s: State, before: seq<Action>, m: State, k: nat, p: nat)
    returns (run: seq<Action>, t: State)
    requires c.group.lateFetch && !c.group.hasRedis && IsRun(c, s, before, m)
    requires k in m.group.members && m.group.members[k].cancelled && p in m.group.members[k].next && p in m.log
    requires var o := m.group.members[k].next[p];
             && o > 0 && m.group.members[k].task == Group.DeadLettering(Pos(p, o - 1), true)
             && !Group.Settled(m.group, Pos(p, o - 1))
             && o < |m.log[p]| && if m.log[p][o].decodes then Handles(c) else c.group.hasDlq
    ensures IsRun(c, s, run, t)
    ensures var q := Pos(p, m.group.members[k].next[p] - 1); Covered(t, q) && !Group.Settled(t.group, q)
  {
    hide IsRun;
    var o := m.group.members[k].next[p];
    run, t := Then(c, s, before, m, Consume(Group.Local(k, Group.GiveUp)));
    run, t := Then(c, s, run, t, Consume(Group.Fetch(k, p)));
    run, t := SettleAndCommit(c, s, run, t, k, Pos(p, o));
  }

  const IDLE := Group.State(map[0 := 0], map[], {}, {}, {}, {}, {}, {}, {}, {}, {})

  /** One row, taken twice by the broker. */
  lemma TwoCopies(c: Config, row: Row) returns (s: State, run: seq<Action>, t: State)
    requires c.batch > 0 && row.id == 1
    ensures Init(s) && IsRun(c, s, run, t)
    ensures t.log == map[0 := [row, row]] && t.group == IDLE
  {
    s, run, t := OneCopy(c, row);
    hide IsRun, Init;
    run, t := Then(c, s, run, t, Publish(Outbox.Send(0, 0, 0)));
    assert [row] + [row] == [row, row];
  }

  lemma OneCopy(c: Config, row: Row) returns (s: State, run: seq<Action>, t: State)
    requires c.batch > 0 && row.id == 1
    ensures Init(s) && IsRun(c, s, run, t)
    ensures t.log == map[0 := [row]] && t.group == IDLE
    ensures 0 in t.outbox.sweeps && t.outbox.sweeps[0] == Outbox.Sending([row], {0})
  {
    s, run, t := OneSelected(c, row);
    hide IsRun, Init, Outbox.Selects;
    run, t := Then(c, s, run, t, Publish(Outbox.Send(0, 0, 0)));
    assert [] + [row] == [row];
    assert t.log == map[0 := [row]];
  }

  lemma OneSelected(c: Config, row: Row) returns (s: State, run: seq<Action>, t: State)
    requires c.batch > 0 && row.id == 1
    ensures Init(s) && IsRun(c, s, run, t)
    ensures t == State(Outbox.State(map[1 := row], {}, map[0 := Outbox.Sending([row], {})]), map[0 := []], IDLE)
  {
    s, run, t := OneRow(c, row);
    hide IsRun, Init, Outbox.Selects;
    run, t := Then(c, s, run, t, Publish(Outbox.Select(0, [row])));
    assert t.outbox.sweeps == map[0 := Outbox.Sending([row], {})];
  }

  lemma OneRow(c: Config, row: Row) returns (s: State, run: seq<Action>, t: State)
    requires c.batch > 0 && row.id == 1
    ensures Init(s) && IsRun(c, s, run, t)
    ensures t == State(Outbox.State(map[1 := row], {}, map[0 := Outbox.Asleep]), map[0 := []], IDLE)
    ensures Outbox.Selects(c.batch, t.outbox, [row])
  {
    s := State(Outbox.State(map[], {}, map[0 := Outbox.Asleep]), map[0 := []], IDLE);
    run, t := Then(c, s, [], s, Publish(Outbox.Insert(row)));
    assert map[][1 := row] == map[1 := row];
    assert [row][0] == row;
  }

  function OneMember(m: Group.Member): Group.State {
    IDLE.(members := map[0 := m])
  }

  /** A first member has joined and read the first message. */
  lemma FirstFetched(c: Config, s: State, before: seq<Action>, m: State) returns (run: seq<Action>, t: State)
    requires IsRun(c, s, before, m) && m.group == IDLE && Has(m.log, Pos(0, 0))
    ensures IsRun(c, s, run, t) && t.log == m.log
    ensures t.group == OneMember(Group.Member(map[0 := 1], Group.Decoding(Pos(0, 0)), false))
  {
    hide IsRun;
    run, t := Then(c, s, before, m, Consume(Group.Restart(0)));
    assert t.group.members == map[0 := Group.Member(map[0 := 0], Group.Ready, false)];
    assert t.group == OneMember(Group.Member(map[0 := 0], Group.Ready, false));
    run, t := Then(c, s, run, t, Consume(Group.Fetch(0, 0)));
    assert t.group.members[0].next == map[0 := 1];
    assert t.group.members == map[0 := Group.Member(map[0 := 1], Group.Decoding(Pos(0, 0)), false)];
  }

  /** A first member reads the first copy, finds it unprocessable, and is then shut down. */
  lemma ShutDownWhileDeadLettering(c: Config, row: Row) returns (s: State, run: seq<Action>, t: State)
    requires c.batch > 0 && !c.group.hasRedis && row.id == 1 && (row.decodes ==> Handles(c))
    ensures Init(s) && IsRun(c, s, run, t)
    ensures t.log == map[0 := [row, row]]
    ensures t.group == OneMember(Group.Member(map[0 := 1], Group.DeadLettering(Pos(0, 0), true), true))
  {
    s, run, t := TwoCopies(c, row);
    hide IsRun, Init;
    run, t := FirstFetched(c, s, run, t);
    if row.decodes {
      run, t := Then(c, s, run, t, Consume(Group.Local(0, Group.NoDedup)));
      assert t.group.members == map[0 := Group.Member(map[0 := 1], Group.Trying(Pos(0, 0), 0), false)];
      run, t := Then(c, s, run, t, Consume(Group.Local(0, Group.HandlerPermanent)));
    } else {
      run, t := Then(c, s, run, t, Consume(Group.Local(0, Group.Undecodable)));
    }
    assert t.group.members == map[0 := Group.Member(map[0 := 1], Group.DeadLettering(Pos(0, 0), true), false)];
    assert t.group == OneMember(Group.Member(map[0 := 1], Group.DeadLettering(Pos(0, 0), true), false));
    run, t := Then(c, s, run, t, Consume(Group.Cancel(0)));
  }

  /** No reachable state has a covered message that nobody settled. */
  ghost predicate NeverLoses(c: Config) {
    forall s, run, t, q :: Init(s) && IsRun(c, s, run, t) && Covered(t, q) ==> Group.Settled(t.group, q)
  }

  /** Some message can be committed: the handler runs, or there is a dead-letter topic. */
  predicate CanCommit(c: Config) {
    Handles(c) || c.group.hasDlq
  }

  /** Nobody is on the way to a commit, and nothing has been committed. */
  ghost predicate Stuck(s: State) {
    && (forall p :: p in s.group.committed ==> s.group.committed[p] == 0)
    && forall k :: k in s.group.members ==> !s.group.members[k].task.Trying? && !s.group.members[k].task.Committing?
  }

  lemma {:induction false} StuckForEver(c: Config, s: State, run: seq<Action>, t: State)
    requires !c.group.hasRedis && !CanCommit(c) && Stuck(s) && IsRun(c, s, run, t)
    ensures Stuck(t)
    decreases |run|
  {
    if run != [] {
      StuckForEver(c, Apply(c, s, run[0]), run[1..], t);
    }
  }

  /** Without a dedup store, a consumer group loses no message exactly when no fetch succeeds once its
      context is cancelled, or it can commit nothing at all. */
  lemma NeverLosesExactly(c: Config)
    requires c.batch > 0 && !c.group.hasRedis
    ensures NeverLoses(c) <==> !c.group.lateFetch || !CanCommit(c)
  {
    hide IsRun;
    if c.group.lateFetch && CanCommit(c) {
      var s, before, m := ShutDownWhileDeadLettering(c, Row(1, Handles(c), "e"));
      var run, t := LateFetchLeapfrogs(c, s, before, m, 0, 0);
      assert Init(s) && IsRun(c, s, run, t) && Covered(t, Pos(0, 0)) && !Group.Settled(t.group, Pos(0, 0));
    } else {
      forall s, run, t, q | Init(s) && IsRun(c, s, run, t) && Covered(t, q) ensures Group.Settled(t.group, q) {
        if c.group.lateFetch {
          StuckForEver(c, s, run, t);
        } else {
          CoveredIsSettled(c, s, run, t, q);
        }
      }
    }
  }

  /** No reachable state has a covered message that was neither handled nor dead-lettered. */
  ghost predicate NeverDrops(c: Config) {
    forall s, run, t, q :: Init(s) && IsRun(c, s, run, t) && Covered(t, q) ==>
      q in t.group.handled || q in t.group.deadLettered
  }

  /** Every covered message is handled or dead-lettered exactly when there is no dedup store, and either
      no fetch succeeds once the context is cancelled or nothing can be committed at all. */
  lemma NeverDropsExactly(c: Config)
    requires c.batch > 0
    ensures NeverDrops(c) <==> !c.group.hasRedis && (!c.group.lateFetch || !CanCommit(c))
  {
    hide IsRun, Init, Covered;
    if c.group.hasRedis {
      var s, run, t := FirstClaimDrops(c);
      assert !(Pos(0, 0) in t.group.handled || Pos(0, 0) in t.group.deadLettered);
    } else {
      NeverLosesExactly(c);
      if c.group.lateFetch && CanCommit(c) {
        var s, run, t, q :| Init(s) && IsRun(c, s, run, t) && Covered(t, q) && !Group.Settled(t.group, q);
        assert !(q in t.group.handled || q in t.group.deadLettered);
      } else {
        forall s, run, t, q | Init(s) && IsRun(c, s, run, t) && Covered(t, q)
          ensures q in t.group.handled || q in t.group.deadLettered
        {
          CoveredIsSettled(c, s, run, t, q);
        }
      }
    }
  }

  /** The first message of all, claimed by a member that then crashes. */
  lemma FirstClaimDrops(c: Config) returns (s: State, run: seq<Action>, t: State)
    requires c.batch > 0 && c.group.hasRedis
    ensures Init(s) && IsRun(c, s, run, t) && Covered(t, Pos(0, 0))
    ensures Pos(0, 0) !in t.group.handled && Pos(0, 0) !in t.group.deadLettered
  {
    s, run, t := OneCopy(c, Row(1, true, "e"));
    hide IsRun, Init;
    run, t := FirstFetched(c, s, run, t);
    run, t := ClaimThenCrash(c, s, run, t, 0, Pos(0, 0));
  }

  /** With a dedup store, a crash between the claim and the handler makes the redelivery commit a
      message that was neither handled nor dead-lettered. */
  lemma ClaimThenCrash(c: Config, s: State, before: seq<Action>, m: State, k: nat, q: Pos)
    returns (run: seq<Action>, t: State)
    requires c.group.hasRedis && IsRun(c, s, before, m)
    requires Group.Holds(m.group, k, q) && m.group.members[k].task.Decoding? && Has(m.log, q) && RowAt(m.log, q).decodes
    requires RowAt(m.log, q).eventId !in m.group.claims
    requires q !in m.group.handled && q !in m.group.deadLettered
    requires q.partition in m.group.committed && m.group.committed[q.partition] == q.offset
    ensures IsRun(c, s, run, t)
    ensures Covered(t, q) && q !in t.group.handled && q !in t.group.deadLettered
  {
    hide IsRun;
    run, t := before, m;
    run, t := Then(c, s, run, t, Consume(Group.Local(k, Group.Claim)));
    run, t := Then(c, s, run, t, Consume(Group.Restart(k)));
    run, t := Then(c, s, run, t, Consume(Group.Fetch(k, q.partition)));
    run, t := Then(c, s, run, t, Consume(Group.Local(k, Group.AlreadyClaimed)));
    run, t := Then(c, s, run, t, Consume(Group.Local(k, Group.CommitDone)));
  }

  /** A claim whose reply is lost and which the Redis client sends again finds itself: the message is committed
      and was never handled, with nobody cancelled or restarted. */
  lemma EchoedClaim(c: Config, s: State, before: seq<Action>, m: State, k: nat, q: Pos)
    returns (run: seq<Action>, t: State)
    requires c.group.hasRedis && IsRun(c, s, before, m)
    requires Group.Holds(m.group, k, q) && m.group.members[k].task.Decoding? && Has(m.log, q) && RowAt(m.log, q).decodes
    requires RowAt(m.log, q).eventId !in m.group.claims
    requires q !in m.group.handled && q !in m.group.deadLettered
    ensures IsRun(c, s, run, t)
    ensures run == before + [Consume(Group.Local(k, Group.ClaimUnheard)), Consume(Group.Local(k, Group.AlreadyClaimed)),
                             Consume(Group.Local(k, Group.CommitDone))]
    ensures Covered(t, q) && q !in t.group.handled && q !in t.group.deadLettered
  {
    hide IsRun;
    run, t := before, m;
    run, t := Then(c, s, run, t, Consume(Group.Local(k, Group.ClaimUnheard)));
    run, t := Then(c, s, run, t, Consume(Group.Local(k, Group.AlreadyClaimed)));
    run, t := Then(c, s, run, t, Consume(Group.Local(k, Group.CommitDone)));
  }
}
