/** `kafka.Consumer` as it runs: one member of the group, each outside call one step of the
    protocol, with everyone else free to act before every call. */
module KafkaConsumer {
  import opened Broker
  import opened ConsumerGroup
  import P = Pipeline

  /** How an outside call ends; a failing one may have been applied. */
  datatype Answer = Succeeds | Fails(applied: bool)

  datatype HandlerAnswer = HandledIt | Transient | Permanent

  /** How the calls made for one message end, attempt by attempt. */
  datatype Script = Script(setNx: seq<Answer>, handler: nat -> HandlerAnswer, dlq: nat -> Answer, commit: nat -> Answer)

  /** `Watching`: the calls looked at have run out and the member is still busy. `Panicked`: the process is
      about to die on a dead letter without an error to put into it. */
  datatype Verdict = Durable | Cancelled | Watching | Panicked

  /** What anyone but member `k` may do; being cancelled or moved comes from outside. */
  predicate Foreign(k: nat, a: P.Action) {
    a.Consume? ==> !((a.g.Fetch? || a.g.Local? || a.g.Restart?) && a.g.k == k)
  }

  /** A step that neither the dedup store nor a cancellation can forbid. */
  predicate Open(c: Config, t: Task, row: Row, x: Step) {
    !x.Claim? && !x.AlreadyClaimed? && !x.ClaimUnheard? && Allowed(c, Member(map[], t, false), row, false, x)
  }

  /** What a step that succeeds leaves behind for the message in hand. */
  ghost predicate Leaves(x: Step, q: Pos, s: State) {
    && (x.CommitDone? ==> q in s.acked && Settled(s, q))
    && (x.DlqDone? ==> q in s.deadLettered) && (x.HandlerDone? ==> q in s.handled)
    && (x.GiveUp? ==> q in s.abandoned) && (x.AlreadyClaimed? ==> q in s.skipped)
  }

  /** Nothing is taken back, and a cancelled member stays cancelled. */
  ghost predicate Onward(s: State, s': State, k: nat) {
    Later(s, s') && k in s.members && k in s'.members && (s.members[k].cancelled ==> s'.members[k].cancelled)
  }

  ghost predicate NeverSucceeds(answers: nat -> Answer, watch: nat) {
    forall i :: 0 <= i < watch ==> !answers(i).Succeeds?
  }

  /** A message to be parked and then committed: nothing but the two calls can keep it from that. */
  ghost predicate Parking(c: Config, script: Script, watch: nat, v: Verdict, parked: bool) {
    && (v.Durable? ==> parked)
    && (v.Watching? ==>
          if parked then NeverSucceeds(script.commit, watch) else !c.hasDlq || NeverSucceeds(script.dlq, watch))
  }

  /** How a message past the dedup check ends, by what the handler answered to each call: it is called again
      after a transient failure as long as there are retries, and parked when it says permanent or the
      retries are used up. */
  ghost predicate Followed(c: Config, script: Script, watch: nat, v: Verdict, parked: bool, calls: nat) {
    var handler := script.handler;
    && (forall i :: 0 <= i < calls - 1 ==> handler(i).Transient?)
    && (calls == 0 ==> (watch == 0 && v.Watching?) || (!c.retryForever && c.maxRetries < 0))
    && (calls > 0 ==>
          && (c.retryForever || calls <= c.maxRetries + 1)
          && match handler(calls - 1)
             case HandledIt => !parked && !v.Panicked? && (v.Watching? ==> NeverSucceeds(script.commit, watch))
             case Permanent => Parking(c, script, watch, v, parked) && !v.Panicked?
             case Transient =>
               if c.retryForever || calls <= c.maxRetries then
                 !parked && (v.Cancelled? || (v.Watching? && calls == watch))
               else Parking(c, script, watch, v, parked) && !v.Panicked?)
  }

  lemma FollowedToEnd(c: Config, script: Script, watch: nat, v: Verdict, parked: bool, n: nat)
    requires forall i :: 0 <= i < n ==> script.handler(i).Transient?
    requires (c.retryForever || n <= c.maxRetries) && !v.Panicked?
    requires match script.handler(n)
             case HandledIt => !parked && (v.Watching? ==> NeverSucceeds(script.commit, watch))
             case Permanent => Parking(c, script, watch, v, parked)
             case Transient =>
               if c.retryForever || n < c.maxRetries then !parked && v.Cancelled?
               else Parking(c, script, watch, v, parked)
    ensures Followed(c, script, watch, v, parked, n + 1)
  {
  }

  lemma NeverAsked(c: Config, script: Script, watch: nat, v: Verdict, parked: bool)
    requires !c.retryForever && c.maxRetries < 0
    ensures Followed(c, script, watch, v, parked, 0)
  {
  }

  lemma FollowedSoFar(c: Config, script: Script, watch: nat)
    requires (forall i :: 0 <= i < watch ==> script.handler(i).Transient?) && (c.retryForever || watch <= c.maxRetries)
    ensures Followed(c, script, watch, Watching, false, watch)
  {
  }

  /** Neither the log, nor where this member reads, nor whether it is cancelled has changed. */
  ghost predicate InPlace(s: P.State, t: P.State, k: nat) {
    && k in s.group.members && k in t.group.members && t.log == s.log
    && t.group.members[k].next == s.group.members[k].next
    && t.group.members[k].cancelled == s.group.members[k].cancelled
  }

  class Consumer {
    const c: P.Config
    const k: nat
    const others: nat -> seq<P.Action>
    var st: P.State
    var tick: nat

    ghost predicate Valid()
      reads this
    {
      P.Inv(c, st) && k in st.group.members
    }

    /** From now on nobody else does anything. */
    ghost predicate Silent()
      reads this
    {
      forall t: nat :: tick <= t ==> others(t) == []
    }

    /** The claim of this event does not run out. */
    ghost predicate Unexpiring(e: string) {
      forall t: nat :: P.Consume(ClaimExpires(e)) !in others(t)
    }

    function Me(): Member
      requires k in st.group.members
      reads this
    {
      st.group.members[k]
    }

    ghost predicate Has(q: Pos)
      reads this
    {
      Broker.Has(st.log, q)
    }

    /** The member joins with the group's committed offsets. */
    constructor (c: P.Config, k: nat, others: nat -> seq<P.Action>, st: P.State)
      requires P.Inv(c, st)
      ensures Valid() && Me() == Member(st.group.committed, Ready, false)
      ensures this.c == c && this.k == k && this.others == others
    {
      this.c, this.k, this.others, this.tick := c, k, others, 0;
      this.st := P.Apply(c, st, P.Consume(Restart(k)));
      new;
      P.StepKeepsInv(c, st, P.Consume(Restart(k)));
    }

    /** Everyone else gets a turn. */
    method LetOthersAct()
      requires Valid()
      modifies this
      ensures Valid() && Me().task == old(Me().task)
      ensures Grows(old(st.log), st.log) && Onward(old(st.group), st.group, k)
      ensures forall e :: Unexpiring(e) && e in old(st.group.claims) ==> e in st.group.claims
      ensures old(Silent()) ==> Silent() && st == old(st)
    {
      var script := others(tick);
      tick := tick + 1;
      for i := 0 to |script|
        invariant Valid() && Me().task == old(Me().task)
        invariant Grows(old(st.log), st.log) && Onward(old(st.group), st.group, k)
        invariant forall e :: Unexpiring(e) && e in old(st.group.claims) ==> e in st.group.claims
        invariant i == 0 ==> st == old(st)
        invariant tick == old(tick) + 1
      {
        if Foreign(k, script[i]) && P.Enabled(c, st, script[i]) {
          ForeignStep(c, st, k, script[i]);
          st := P.Apply(c, st, script[i]);
        }
      }
    }

    /** One step of this member, taken at once. */
    method Take(x: Step)
      requires Valid() && P.Enabled(c, st, P.Consume(Local(k, x)))
      modifies this
      ensures Valid() && st.log == old(st.log) && Me() == old(Me()).(task := NextTask(c.group, old(Me().task), x))
      ensures Onward(old(st.group), st.group, k) && old(st.group.claims) <= st.group.claims
      ensures old(Silent()) ==> Silent()
      ensures Leaves(x, old(Me().task.at), st.group)
    {
      var a := P.Consume(Local(k, x));
      P.StepKeepsInv(c, st, a);
      OwnStep(c.group, st.log, st.group, k, x);
      hide P.Inv, P.Enabled, Apply, Leaves, Later, NextTask;
      st := P.Apply(c, st, a);
    }

    /** One outside call of this member, after the others had their turn. */
    method Call(x: Step)
      requires Valid() && Busy(st.log, st.group, k) && Open(c.group, Me().task, Current(st.log, st.group, k), x)
      modifies this
      ensures Valid() && Grows(old(st.log), st.log) && Onward(old(st.group), st.group, k)
      ensures Me().task == NextTask(c.group, old(Me().task), x)
      ensures Leaves(x, old(Me().task.at), st.group)
      ensures old(Silent()) ==> Silent() && InPlace(old(st), st, k)
    {
      hide Silent, P.Inv, P.Apply;
      LetOthersAct();
      Take(x);
    }

    /** Shutdown: the message in hand is left where it is. */
    method LeaveMessage()
      requires Valid() && Me().cancelled
      requires Me().task.DeadLettering? || Me().task.Committing? || (Me().task.Trying? && Me().task.attempt > 0)
      requires !Panics(c.group, Me().task)
      modifies this
      ensures Valid() && Me().task.Ready? && Me().cancelled && old(Me().task.at) in st.group.abandoned
      ensures Onward(old(st.group), st.group, k)
      ensures old(Silent()) ==> Silent() && InPlace(old(st), st, k)
    {
      hide Silent, P.Inv, P.Apply;
      InHand(c, st, k);
      Take(GiveUp);
    }

    /** One try of a durable action; without a DLQ writer a dead letter cannot succeed. */
    method TryOnce(goal: Step, answer: Answer) returns (done: bool)
      requires Valid()
      requires (goal.DlqDone? && Me().task.DeadLettering? && !Panics(c.group, Me().task))
        || (goal.CommitDone? && Me().task.Committing?)
      modifies this
      ensures Valid() && Onward(old(st.group), st.group, k)
      ensures done <==> answer.Succeeds? && (goal.DlqDone? ==> c.group.hasDlq)
      ensures done ==> Leaves(goal, old(Me().task.at), st.group)
      ensures done ==> Me().task == if goal.CommitDone? then Ready else Committing(old(Me().task.at))
      ensures !done ==> Me().task == old(Me().task)
      ensures old(Silent()) ==> Silent() && InPlace(old(st), st, k)
    {
      hide Silent, P.Inv, P.Apply, Grows, Settled;
      InHand(c, st, k);
      var possible := goal.DlqDone? ==> c.group.hasDlq;
      done := answer.Succeeds? && possible;
      if done {
        Call(goal);
      } else {
        var applied := answer.Fails? && answer.applied && possible;
        Call(if goal.DlqDone? then DlqFails(applied) else CommitFails(applied));
      }
    }

    /** `retryDurable`: tries until the durable action succeeds or the context is cancelled. A
        failed try never lets the member move on. */
    method RetryDurable(goal: Step, answers: nat -> Answer, watch: nat) returns (v: Verdict)
      requires Valid()
      requires (goal.DlqDone? && Me().task.DeadLettering? && !Panics(c.group, Me().task))
        || (goal.CommitDone? && Me().task.Committing?)
      modifies this
      ensures Valid() && Onward(old(st.group), st.group, k)
      ensures match v
              case Durable => Me().task == if goal.CommitDone? then Ready else Committing(old(Me().task.at))
              case Cancelled => Me().task.Ready? && Me().cancelled && old(Me().task.at) in st.group.abandoned
              case Watching => Me().task == old(Me().task)
              case Panicked => false
      ensures v.Durable? ==> Leaves(goal, old(Me().task.at), st.group)
      ensures goal.DlqDone? && !c.group.hasDlq ==> !v.Durable?
      ensures v.Watching? && (goal.DlqDone? ==> c.group.hasDlq) ==> forall i :: 0 <= i < watch ==> !answers(i).Succeeds?
      ensures watch > 0 && answers(0).Succeeds? && (goal.DlqDone? ==> c.group.hasDlq) ==> v.Durable?
      ensures v.Watching? && watch > 0 ==> !Me().cancelled
      ensures old(Silent()) ==> Silent() && InPlace(old(st), st, k)
    {
      hide Silent, P.Inv, P.Apply, Grows, Settled, NextTask;
      for attempt := 0 to watch
        invariant Valid() && Onward(old(st.group), st.group, k)
        invariant Me().task == old(Me().task)
        invariant old(Silent()) ==> Silent() && InPlace(old(st), st, k)
        invariant (goal.DlqDone? ==> c.group.hasDlq) ==> forall i :: 0 <= i < attempt ==> !answers(i).Succeeds?
        invariant attempt > 0 ==> !Me().cancelled
      {
        var done := TryOnce(goal, answers(attempt));
        if done {
          return Durable;
        }
        if Me().cancelled {
          LeaveMessage();
          return Cancelled;
        }
      }
      return Watching;
    }

    /** Dead-letters the message in hand and then commits it; never the second without the first. */
    method DeadLetterAndCommit(script: Script, watch: nat) returns (v: Verdict, parked: bool)
      requires Valid() && Me().task.DeadLettering?
      modifies this
      ensures Valid() && Onward(old(st.group), st.group, k)
      ensures Ends(v, old(Me().task.at))
      ensures parked ==> c.group.hasDlq && old(Me().task.at) in st.group.deadLettered
      ensures Parking(c.group, script, watch, v, parked)
      ensures v.Panicked? <==> Panics(c.group, old(Me().task))
      ensures v.Watching? && watch > 0 ==> !Me().cancelled
      ensures var good := script.dlq(0).Succeeds? && script.commit(0).Succeeds?;
              c.group.hasDlq && old(Me().task.known) && watch > 0 && good ==> v.Durable?
      ensures old(Silent()) ==> Silent() && InPlace(old(st), st, k)
    {
      hide Silent, P.Inv, P.Apply;
      parked := false;
      if Panics(c.group, Me().task) {
        return Panicked, false;
      }
      v := RetryDurable(DlqDone, script.dlq, watch);
      parked := v.Durable?;
      if v.Durable? {
        v := RetryDurable(CommitDone, script.commit, watch);
      }
    }

    /** How handling a message may end: committed and settled; given up at shutdown; still held, with calls
        still to come or about to panic. */
    ghost predicate Ends(v: Verdict, q: Pos)
      requires k in st.group.members
      reads this
    {
      match v
      case Durable => Me().task.Ready? && q in st.group.acked && Settled(st.group, q)
      case Cancelled => Me().task.Ready? && Me().cancelled && q in st.group.abandoned
      case Watching => Holds(st.group, k, q)
      case Panicked => Holds(st.group, k, q) && Panics(c.group, Me().task)
    }

    /** The dedup check: false when the message was claimed before and is to be committed as it is. The Redis
        client sends SETNX again after a failure, as often as `setNx` has answers, and may find its own claim. */
    method Deduplicate(setNx: seq<Answer>) returns (isNew: bool)
      requires Valid() && Busy(st.log, st.group, k) && Me().task.Decoding? && Current(st.log, st.group, k).decodes
      modifies this
      ensures Valid() && Onward(old(st.group), st.group, k)
      ensures Me().task == var q := old(Me().task.at); if isNew then Begin(c.group, q) else Committing(q)
      ensures !c.group.hasRedis || (forall a :: a in setNx ==> a.Fails?) ==> isNew
      ensures !isNew ==> c.group.hasRedis && old(Me().task.at) in st.group.skipped
      ensures var e := old(Current(st.log, st.group, k)).eventId;
              && (c.group.hasRedis && Succeeds in setNx && Unexpiring(e) && e in old(st.group.claims) ==> !isNew)
              && (c.group.hasRedis && setNx != [] && setNx[0].Succeeds? && old(Silent()) ==>
                    (isNew <==> e !in old(st.group.claims)))
      ensures old(Silent()) ==> Silent() && InPlace(old(st), st, k)
    {
      hide Silent, P.Inv, P.Apply, Unexpiring;
      ghost var e := Current(st.log, st.group, k).eventId;
      if !c.group.hasRedis {
        LetOthersAct();
        Take(NoDedup);
        return true;
      }
      for i := 0 to |setNx|
        invariant Valid() && Onward(old(st.group), st.group, k) && Me().task == old(Me().task)
        invariant Busy(st.log, st.group, k) && Current(st.log, st.group, k).decodes
        invariant Current(st.log, st.group, k).eventId == e && Succeeds !in setNx[..i]
        invariant Unexpiring(e) && e in old(st.group.claims) ==> e in st.group.claims
        invariant old(Silent()) ==> Silent() && InPlace(old(st), st, k) && (i == 0 ==> st == old(st))
      {
        assert setNx[..i + 1] == setNx[..i] + [setNx[i]];
        var decided;
        decided, isNew := TryClaim(setNx[i]);
        if decided {
          assert setNx[i] in setNx;
          return;
        }
      }
      assert setNx[..|setNx|] == setNx;
      LetOthersAct();
      Take(ClaimFails(false));
      isNew := true;
    }

    /** One SETNX; a failing one may have been applied. */
    method TryClaim(answer: Answer) returns (decided: bool, isNew: bool)
      requires Valid() && Busy(st.log, st.group, k) && Me().task.Decoding? && Current(st.log, st.group, k).decodes
      requires c.group.hasRedis
      modifies this
      ensures Valid() && Onward(old(st.group), st.group, k) && (decided <==> answer.Succeeds?)
      ensures var t := old(Me().task);
              Me().task == if !decided then t else if isNew then Begin(c.group, t.at) else Committing(t.at)
      ensures !decided ==>
        Busy(st.log, st.group, k) && Current(st.log, st.group, k) == old(Current(st.log, st.group, k))
      ensures decided && !isNew ==> old(Me().task.at) in st.group.skipped
      ensures var e := old(Current(st.log, st.group, k)).eventId;
              && (Unexpiring(e) && e in old(st.group.claims) ==> e in st.group.claims && (decided ==> !isNew))
              && (old(Silent()) && decided ==> (isNew <==> e !in old(st.group.claims)))
      ensures old(Silent()) ==> Silent() && InPlace(old(st), st, k)
    {
      hide Silent, P.Inv, P.Apply, Allowed;
      decided, isNew := answer.Succeeds?, false;
      LetOthersAct();
      if decided {
        isNew := Claimed();
      } else if answer.applied && Current(st.log, st.group, k).eventId !in st.group.claims {
        TakeUnheard();
      }
    }

    /** The claim is made and the client does not hear of it. */
    method TakeUnheard()
      requires Valid() && Busy(st.log, st.group, k) && Me().task.Decoding? && Current(st.log, st.group, k).decodes
      requires c.group.hasRedis && Current(st.log, st.group, k).eventId !in st.group.claims
      modifies this
      ensures Valid() && st.log == old(st.log) && Me() == old(Me()) && Onward(old(st.group), st.group, k)
      ensures old(st.group.claims) <= st.group.claims && (old(Silent()) ==> Silent())
    {
      hide Silent, P.Inv, P.Apply;
      Take(ClaimUnheard);
    }

    /** A SETNX whose reply arrives. */
    method Claimed() returns (isNew: bool)
      requires Valid() && Busy(st.log, st.group, k) && Me().task.Decoding? && Current(st.log, st.group, k).decodes
      requires c.group.hasRedis
      modifies this
      ensures Valid() && Onward(old(st.group), st.group, k)
      ensures Me() == old(Me()).(task := Me().task) && st.log == old(st.log)
      ensures old(Silent()) ==> Silent()
      ensures Me().task == var q := old(Me().task.at); if isNew then Begin(c.group, q) else Committing(q)
      ensures !isNew ==> old(Me().task.at) in st.group.skipped
      ensures isNew <==> old(Current(st.log, st.group, k).eventId !in st.group.claims)
      ensures Onward(old(st.group), st.group, k) && old(st.group.claims) <= st.group.claims
    {
      hide Silent, P.Inv, P.Apply;
      isNew := Current(st.log, st.group, k).eventId !in st.group.claims;
      Take(if isNew then Claim else AlreadyClaimed);
    }

    /** One call of the handler. */
    method CallHandler(answer: HandlerAnswer)
      requires Valid() && Me().task.Trying?
      modifies this
      ensures Valid() && Onward(old(st.group), st.group, k)
      ensures var t := old(Me().task);
              Me().task == match answer
                           case HandledIt => Committing(t.at)
                           case Permanent => DeadLettering(t.at, true)
                           case Transient =>
                             if c.group.retryForever || t.attempt < c.group.maxRetries then Trying(t.at, t.attempt + 1)
                             else DeadLettering(t.at, true)
      ensures answer.HandledIt? ==> old(Me().task.at) in st.group.handled
      ensures old(Silent()) ==> Silent() && InPlace(old(st), st, k)
    {
      hide Silent, P.Inv, P.Apply;
      InHand(c, st, k);
      Call(match answer case HandledIt => HandlerDone case Permanent => HandlerPermanent
        case Transient => HandlerFails);
    }

    /** The retry loop around the handler. A launch-critical consumer, one that retries for ever,
        parks the message only when its handler calls it permanently bad; the others call the
        handler at most `maxRetries + 1` times, and not at all for a negative number. */
    method TryHandler(script: Script, watch: nat) returns (v: Verdict, parked: bool, calls: nat)
      requires Valid() && !Me().task.Ready? && Me().task == Begin(c.group, Me().task.at)
      modifies this
      ensures Valid() && Onward(old(st.group), st.group, k)
      ensures Ends(v, old(Me().task.at))
      ensures parked ==> c.group.hasDlq && old(Me().task.at) in st.group.deadLettered
      ensures parked ==> !c.group.retryForever || exists i :: script.handler(i).Permanent?
      ensures v.Durable? && !parked ==>
        old(Me().task.at) in st.group.handled && calls > 0 && script.handler(calls - 1).HandledIt?
      ensures !c.group.retryForever ==> calls <= if c.group.maxRetries < 0 then 0 else c.group.maxRetries + 1
      ensures Followed(c.group, script, watch, v, parked, calls)
      ensures v.Watching? && watch > 0 ==> !Me().cancelled
      ensures watch > 0 && calls > 0 && script.handler(0).HandledIt? && script.commit(0).Succeeds? ==> v.Durable?
      ensures old(Silent()) ==> Silent() && InPlace(old(st), st, k)
    {
      hide Silent, P.Inv, P.Apply, Allowed, NextTask, Followed, Grows, Settled, Leaves;
      ghost var q := Me().task.at;
      parked, calls := false, 0;
      if Me().task.DeadLettering? {
        v, parked := DeadLetterAndCommit(script, watch);
        NeverAsked(c.group, script, watch, v, parked);
        return;
      }
      for attempt := 0 to watch
        invariant Valid() && Onward(old(st.group), st.group, k)
        invariant Me().task == Trying(q, attempt)
        invariant attempt > 0 ==> !Me().cancelled
        invariant calls == attempt && !parked && forall i :: 0 <= i < attempt ==> script.handler(i).Transient?
        invariant old(Silent()) ==> Silent() && InPlace(old(st), st, k)
        invariant !c.group.retryForever ==> attempt <= c.group.maxRetries
      {
        calls := calls + 1;
        var over;
        over, v, parked := Attempt(script, watch, attempt);
        if over {
          FollowedToEnd(c.group, script, watch, v, parked, attempt);
          return;
        }
      }
      v := Watching;
      FollowedSoFar(c.group, script, watch);
    }

    /** One call of the handler and what comes of it: the message is done with, parked, given up or tried
        again. */
    method Attempt(script: Script, watch: nat, attempt: nat) returns (over: bool, v: Verdict, parked: bool)
      requires Valid() && Me().task.Trying? && Me().task.attempt == attempt
      requires !c.group.retryForever ==> attempt <= c.group.maxRetries
      modifies this
      ensures Valid() && Onward(old(st.group), st.group, k)
      ensures over ==> Ends(v, old(Me().task.at)) && !v.Panicked?
      ensures (!over || v.Watching?) && watch > 0 ==> !Me().cancelled
      ensures parked ==> c.group.hasDlq && old(Me().task.at) in st.group.deadLettered
      ensures var answer := script.handler(attempt); var more := c.group.retryForever || attempt < c.group.maxRetries;
              && (!over ==> answer.Transient? && more && !parked && Me().task == Trying(old(Me().task.at), attempt + 1))
              && (over ==> match answer
                           case HandledIt =>
                             && !parked && old(Me().task.at) in st.group.handled
                             && (v.Watching? ==> NeverSucceeds(script.commit, watch))
                           case Permanent => Parking(c.group, script, watch, v, parked)
                           case Transient =>
                             if more then !parked && v.Cancelled? else Parking(c.group, script, watch, v, parked))
              && (answer.HandledIt? && watch > 0 && script.commit(0).Succeeds? ==> over && v.Durable?)
      ensures old(Silent()) ==> Silent() && InPlace(old(st), st, k)
    {
      hide Silent, P.Inv, P.Apply, Allowed, NextTask, Grows, Settled;
      over, v, parked := true, Watching, false;
      CallHandler(script.handler(attempt));
      if Me().task.Committing? {
        v := RetryDurable(CommitDone, script.commit, watch);
        return;
      }
      if Me().task.DeadLettering? {
        v, parked := DeadLetterAndCommit(script, watch);
        return;
      }
      if Me().cancelled {
        LeaveMessage();
        v := Cancelled;
        return;
      }
      over := false;
    }

    /** `processWithRetry`: what cannot be read is dead-lettered without asking the handler; what was
        claimed before is committed; the rest is tried. */
    method ProcessWithRetry(script: Script, watch: nat) returns (v: Verdict, parked: bool, calls: nat)
      requires Valid() && Busy(st.log, st.group, k) && Me().task.Decoding?
      modifies this
      ensures Valid() && Onward(old(st.group), st.group, k)
      ensures v.Watching? && watch > 0 ==> !Me().cancelled
      ensures Ends(v, old(Me().task.at))
      ensures var row := old(Current(st.log, st.group, k));
              && (parked ==> c.group.hasDlq && old(Me().task.at) in st.group.deadLettered)
              && (parked ==> !row.decodes || !c.group.retryForever || exists i :: script.handler(i).Permanent?)
              && (!row.decodes ==> calls == 0 && Parking(c.group, script, watch, v, parked))
              && (row.decodes ==>
                    || Followed(c.group, script, watch, v, parked, calls)
                    || (c.group.hasRedis && calls == 0 && !parked && old(Me().task.at) in st.group.skipped
                        && (v.Watching? ==> NeverSucceeds(script.commit, watch))))
              && (Good(c.group, script, watch) && (row.decodes || c.group.hasDlq) ==> v.Durable?)
      ensures old(Silent()) ==> Silent() && InPlace(old(st), st, k)
      ensures !c.group.retryForever ==> calls <= if c.group.maxRetries < 0 then 0 else c.group.maxRetries + 1
    {
      hide Silent, P.Inv, P.Apply, P.Enabled;
      parked, calls := false, 0;
      var row := Current(st.log, st.group, k);
      if !row.decodes {
        Call(Undecodable);
        v, parked := DeadLetterAndCommit(script, watch);
        return;
      }
      var isNew := Deduplicate(script.setNx);
      if isNew {
        v, parked, calls := TryHandler(script, watch);
      } else {
        v := RetryDurable(CommitDone, script.commit, watch);
      }
    }

    /** `FetchMessage` on partition `p`: a message if there is one for this member; an error once the
        context is cancelled, unless, `late`, a buffered message comes first. */
    method FetchMessage(p: nat, late: bool) returns (got: bool, q: Pos)
      requires Valid() && Me().task.Ready?
      modifies this
      ensures Valid() && Onward(old(st.group), st.group, k)
      ensures got <==> (old(Me().cancelled) ==> late) && P.Enabled(c, old(st), P.Consume(Fetch(k, p)))
      ensures if got then Busy(st.log, st.group, k) && Me().task == Decoding(q) && q.partition == p else st == old(st)
      ensures got && Me().cancelled ==> c.group.lateFetch
      ensures var m := old(Me());
              got <==> (m.cancelled ==> late && c.group.lateFetch) && p in m.next && p in old(st.log)
                       && m.next[p] < |old(st.log)[p]|
      ensures got ==> p in old(Me().next) && q.offset == old(Me().next)[p] && st.log == old(st.log)
                      && Me() == old(Me()).(next := old(Me().next)[p := q.offset + 1], task := Me().task)
      ensures old(Silent()) ==> Silent()
    {
      got, q := (Me().cancelled ==> late) && P.Enabled(c, st, P.Consume(Fetch(k, p))), Pos(p, 0);
      if got {
        q := Pos(p, Me().next[p]);
        P.StepKeepsInv(c, st, P.Consume(Fetch(k, p)));
        st := P.Apply(c, st, P.Consume(Fetch(k, p)));
      }
    }

    ghost predicate Acked(q: Pos)
      reads this
    {
      q in st.group.acked && Settled(st.group, q)
    }

    /** Committed and settled; or given up, and then this member has been cancelled. */
    ghost predicate Dealt(q: Pos)
      requires k in st.group.members
      reads this
    {
      Acked(q) || (q in st.group.abandoned && Me().cancelled)
    }

    /** `Start`: up to `turns` turns of the fetch loop, reading partition `pick(turn)`; it ends with the
        first fetch that fails after cancellation. As long as the member is not cancelled, the messages it
        fetched are all committed and settled, except perhaps the last one, which it is still holding: no
        later commit can pass it. Afterwards some may have been given up; but for late fetches only the
        last. */
    method Start(turns: nat, pick: nat -> nat, late: nat -> bool, script: nat -> Script, watch: nat, ghost p: nat)
      returns (fetched: seq<Pos>)
      requires Valid() && Me().task.Ready? && !Me().cancelled
      modifies this
      ensures Valid()
      ensures forall i :: 0 <= i < |fetched| - 1 ==> Dealt(fetched[i])
      ensures !c.group.lateFetch ==> forall i :: 0 <= i < |fetched| - 1 ==> Acked(fetched[i])
      ensures fetched != [] ==> Dealt(fetched[|fetched| - 1]) || Holds(st.group, k, fetched[|fetched| - 1])
      ensures old(Silent()) && p in old(Me().next) && Smooth(c.group, old(st.log), turns, pick, script, watch, p) ==>
        Straight(p, old(Me().next)[p], |old(st.log)[p]|, turns, fetched) && forall q :: q in fetched ==> Acked(q)
    {
      hide Silent, P.Inv, Onward, Good, Straight, Acked, Dealt, Holds, OnTrack, Smooth;
      fetched := [];
      ghost var smooth := Silent() && p in Me().next && Smooth(c.group, st.log, turns, pick, script, watch, p);
      ghost var log, next := st.log, if p in Me().next then Me().next[p] else 0;
      if smooth {
        SmoothHas(c.group, log, turns, pick, script, watch, p);
        BeginTrack(log, p, next);
      }
      for turn := 0 to turns
        invariant Valid() && Me().task.Ready?
        invariant forall q :: q in fetched ==> Dealt(q)
        invariant !c.group.lateFetch ==> forall i :: 0 <= i < |fetched| - 1 ==> Acked(fetched[i])
        invariant fetched != [] && !Acked(fetched[|fetched| - 1]) ==> Me().cancelled
        invariant smooth ==> OnTrack(log, p, next, turn, fetched)
      {
        if smooth {
          SmoothTurn(c.group, log, turns, pick, script, watch, p, turn);
        }
        var got, q, v := Turn(pick(turn), late(turn), script(turn), watch, log, next, turn, fetched);
        if got {
          fetched := fetched + [q];
          if v.Watching? || v.Panicked? {
            return;
          }
        } else if Me().cancelled {
          OffTrack(smooth, log, p, next, turn + 1, fetched);
          return;
        }
      }
      if smooth {
        EndTrack(log, p, next, turns, fetched);
      }
    }

    /** So far every turn has brought the next message of partition `p`, and it has been dealt with. */
    ghost predicate OnTrack(log: Log, p: nat, next: nat, turn: nat, fetched: seq<Pos>)
      requires k in st.group.members
      reads this
    {
      && Silent() && st.log == log && !Me().cancelled && p in log && p in Me().next && Me().next[p] == next + |fetched|
      && Straight(p, next, |log[p]|, turn, fetched) && forall q :: q in fetched ==> Acked(q)
    }

    lemma BeginTrack(log: Log, p: nat, next: nat)
      requires k in st.group.members && Silent() && st.log == log && !Me().cancelled && p in log && p in Me().next
      requires Me().next[p] == next
      ensures OnTrack(log, p, next, 0, [])
    {
      NoTurns(p, next, |log[p]|);
    }

    lemma OffTrack(smooth: bool, log: Log, p: nat, next: nat, turn: nat, fetched: seq<Pos>)
      requires k in st.group.members && Me().cancelled
      requires smooth ==> OnTrack(log, p, next, turn, fetched)
      ensures !smooth
    {
    }

    lemma EndTrack(log: Log, p: nat, next: nat, turns: nat, fetched: seq<Pos>)
      requires k in st.group.members && OnTrack(log, p, next, turns, fetched)
      ensures Straight(p, next, |log[p]|, turns, fetched) && forall q :: q in fetched ==> Acked(q)
    {
    }

    /** One turn: a fetch, and what is to be done with the message it brings. */
    method Turn(p: nat, late: bool, script: Script, watch: nat, ghost log: Log, ghost next: nat, ghost turn: nat,
                ghost fetched: seq<Pos>)
      returns (got: bool, q: Pos, v: Verdict)
      requires Valid() && Me().task.Ready?
      modifies this
      ensures Valid() && Onward(old(st.group), st.group, k)
      ensures old(Me().cancelled) ==> Me().cancelled && (got ==> c.group.lateFetch)
      ensures forall r :: (old(Acked(r)) ==> Acked(r)) && (old(Dealt(r)) ==> Dealt(r))
      ensures if !got then Me().task.Ready?
              else if v.Durable? || v.Cancelled? then
                Me().task.Ready? && Dealt(q) && (if v.Durable? then Acked(q) else Me().cancelled)
              else Holds(st.group, k, q)
      ensures old(OnTrack(log, p, next, turn, fetched)) && Good(c.group, script, watch)
              && (c.group.hasDlq || forall i :: 0 <= i < |log[p]| ==> log[p][i].decodes) ==>
                OnTrack(log, p, next, turn + 1, if got then fetched + [q] else fetched) && (got ==> v.Durable?)
    {
      hide Silent, P.Inv, P.Apply, P.Enabled, Grows, Settled, Good, Straight;
      v := Watching;
      ghost var before := st.group;
      ghost var smooth := OnTrack(log, p, next, turn, fetched);
      if smooth {
        NextTurn(p, next, |log[p]|, turn, fetched);
      }
      LetOthersAct();
      AckedStays(before, st.group);
      ghost var ready := st.group;
      got, q := FetchMessage(p, late);
      AckedStays(ready, st.group);
      if got {
        ghost var busy := st.group;
        var parked, calls;
        v, parked, calls := ProcessWithRetry(script, watch);
        AckedStays(busy, st.group);
      }
    }
  }

  /** Every call made for the message succeeds at once, and the handler is called at all. */
  ghost predicate Good(c: Config, script: Script, watch: nat) {
    && watch > 0 && (c.retryForever || c.maxRetries >= 0)
    && script.handler(0).HandledIt? && script.dlq(0).Succeeds? && script.commit(0).Succeeds?
  }

  /** Every turn reads partition `p`, and every call succeeds at once. */
  ghost predicate Smooth(c: Config, log: Log, turns: nat, pick: nat -> nat, script: nat -> Script, watch: nat, p: nat) {
    && (forall t :: 0 <= t < turns ==> pick(t) == p && Good(c, script(t), watch))
    && p in log && (c.hasDlq || forall i :: 0 <= i < |log[p]| ==> log[p][i].decodes)
  }

  lemma SmoothHas(c: Config, log: Log, turns: nat, pick: nat -> nat, script: nat -> Script, watch: nat, p: nat)
    requires Smooth(c, log, turns, pick, script, watch, p)
    ensures p in log
  {
  }

  lemma SmoothTurn(c: Config, log: Log, turns: nat, pick: nat -> nat, script: nat -> Script, watch: nat, p: nat,
                   turn: nat)
    requires Smooth(c, log, turns, pick, script, watch, p) && turn < turns
    ensures pick(turn) == p && Good(c, script(turn), watch) && p in log
    ensures c.hasDlq || forall i :: 0 <= i < |log[p]| ==> log[p][i].decodes
  {
  }

  /** The next messages of the partition, one for every turn as long as there are any. */
  ghost predicate Straight(p: nat, next: nat, size: nat, turns: nat, fetched: seq<Pos>) {
    && |fetched| == (if size <= next then 0 else if size - next <= turns then size - next else turns)
    && forall i :: 0 <= i < |fetched| ==> fetched[i] == Pos(p, next + i)
  }

  lemma NoTurns(p: nat, next: nat, size: nat)
    ensures Straight(p, next, size, 0, [])
  {
  }

  lemma NextTurn(p: nat, next: nat, size: nat, turn: nat, fetched: seq<Pos>)
    requires Straight(p, next, size, turn, fetched)
    ensures if next + |fetched| < size then Straight(p, next, size, turn + 1, fetched + [Pos(p, next + |fetched|)])
            else Straight(p, next, size, turn + 1, fetched)
  {
  }

  lemma AckedStays(s: State, s': State)
    requires Later(s, s')
    ensures forall q :: q in s.acked && Settled(s, q) ==> q in s'.acked && Settled(s', q)
  {
  }

  /** What a step of this member changes. */
  lemma OwnStep(c: Config, log: Log, s: State, k: nat, x: Step)
    requires Positions(false, log, s) && Enabled(c, log, s, Local(k, x))
    ensures var t := Apply(c, log, s, Local(k, x));
            && k in t.members && t.members[k] == s.members[k].(task := NextTask(c, s.members[k].task, x))
            && Later(s, t) && s.claims <= t.claims && Leaves(x, s.members[k].task.at, t)
  {
    StepIsLater(c, log, s, Local(k, x));
    assert MemberInv(false, log, s, s.members[k]);
    hide Positions, MemberInv, Later;
  }

  lemma InHand(c: P.Config, s: P.State, k: nat)
    requires P.Inv(c, s) && k in s.group.members && !s.group.members[k].task.Ready?
    ensures Busy(s.log, s.group, k)
  {
    assert MemberInv(false, s.log, s.group, s.group.members[k]);
  }

  /** A step of anyone else leaves this member's message in hand alone. */
  lemma ForeignStep(c: P.Config, s: P.State, k: nat, a: P.Action)
    requires P.Inv(c, s) && k in s.group.members && P.Enabled(c, s, a) && Foreign(k, a)
    ensures var t := P.Apply(c, s, a);
            && P.Inv(c, t) && k in t.group.members && t.group.members[k].task == s.group.members[k].task
            && (s.group.members[k].cancelled ==> t.group.members[k].cancelled)
            && Grows(s.log, t.log) && Later(s.group, t.group)
            && forall e :: e in s.group.claims && a != P.Consume(ClaimExpires(e)) ==> e in t.group.claims
  {
    P.StepKeepsInv(c, s, a);
    hide P.Inv;
    match a
    case Publish(o) => PublishGrows(c, s, o);
    case Consume(g) => MemberUntouched(c.group, s.log, s.group, k, g);
  }

  lemma PublishGrows(c: P.Config, s: P.State, o: P.Outbox.Action)
    requires P.Inv(c, s) && P.Enabled(c, s, P.Publish(o))
    ensures Grows(s.log, P.Apply(c, s, P.Publish(o)).log)
  {
    P.Outbox.StepKeepsInv(c.batch, s.log, s.outbox, o);
  }

  /** What others do leaves a member's task alone. */
  lemma MemberUntouched(c: Config, log: Log, s: State, k: nat, g: Action)
    requires k in s.members && Enabled(c, log, s, g) && !((g.Fetch? || g.Local? || g.Restart?) && g.k == k)
    ensures var t := Apply(c, log, s, g);
            && k in t.members && t.members[k].task == s.members[k].task
            && (s.members[k].cancelled ==> t.members[k].cancelled) && Later(s, t)
            && forall e :: e in s.claims && g != ClaimExpires(e) ==> e in t.claims
  {
    StepIsLater(c, log, s, g);
    hide Allowed, NextTask, EffectOf, Later;
  }
}
