/** The resilient Kafka consumer as a protocol: any number of members of one group that fetch,
    retry, dead-letter and commit, and may be cancelled, crash, restart or be moved to another
    partition at any moment. */
module ConsumerGroup {
  import opened Broker

  /** `lateFetch`: FetchMessage may hand out a buffered message although its context is already
      cancelled, as Go's `select` permits when both are ready. */
  datatype Config = Config(maxRetries: int, retryForever: bool, hasDlq: bool, hasRedis: bool, lateFetch: bool)

  /** Where a member is with the message it fetched. `known`: there is an error to put into the dead
      letter; after a retry loop that never ran there is none, and writing it panics. */
  datatype Task =
    | Ready
    | Decoding(at: Pos)
    | Trying(at: Pos, attempt: nat)
    | DeadLettering(at: Pos, known: bool)
    | Committing(at: Pos)

  /** `next` is the read position in each partition. */
  datatype Member = Member(next: map<nat, nat>, task: Task, cancelled: bool)

  /** `acked` holds the messages whose commit call succeeded, `abandoned` those that a cancelled member
      gave up, `dropped` those that were in hand when their member restarted, `unheard` those a claim was
      applied for without its reply, which the Redis client then sends again. */
  datatype State = State(
    committed: map<nat, nat>, members: map<nat, Member>,
    handled: set<Pos>, deadLettered: set<Pos>, skipped: set<Pos>, acked: set<Pos>, abandoned: set<Pos>,
    dropped: set<Pos>, unheard: set<Pos>, claims: set<string>, everClaimed: set<string>)

  /** What a member does next with the message in hand. A call that fails may have been applied
      before its reply was lost. */
  datatype Step =
    | Undecodable
    | NoDedup
    | Claim
    | AlreadyClaimed
    | ClaimFails(applied: bool)
    | ClaimUnheard
    | HandlerDone
    | HandlerFails
    | HandlerPermanent
    | DlqDone
    | DlqFails(applied: bool)
    | CommitDone
    | CommitFails(applied: bool)
    | GiveUp

  datatype Action =
    | Fetch(k: nat, p: nat)
    | Local(k: nat, x: Step)
    | Cancel(k: nat)
    | Seek(k: nat, p: nat)
    | Restart(k: nat)
    | ClaimExpires(eventId: string)

  /** What the outside world keeps of a step. */
  datatype Effect = Nothing | Handle | DeadLetter | Skip | ClaimEvent | Unheard | Commit(acked: bool) | Abandon

  /** The steps open to a member holding a message with row `row`. */
  predicate Allowed(c: Config, m: Member, row: Row, claimed: bool, x: Step) {
    match x
    case Undecodable => m.task.Decoding? && !row.decodes
    case NoDedup => m.task.Decoding? && row.decodes && !c.hasRedis
    case Claim => m.task.Decoding? && row.decodes && c.hasRedis && !claimed
    case AlreadyClaimed => m.task.Decoding? && row.decodes && c.hasRedis && claimed
    case ClaimFails(_) => m.task.Decoding? && row.decodes && c.hasRedis
    case ClaimUnheard => m.task.Decoding? && row.decodes && c.hasRedis && !claimed
    case HandlerDone => m.task.Trying?
    case HandlerFails => m.task.Trying?
    case HandlerPermanent => m.task.Trying?
    case DlqDone => m.task.DeadLettering? && m.task.known && c.hasDlq
    case DlqFails(applied) => m.task.DeadLettering? && !Panics(c, m.task) && (applied ==> c.hasDlq)
    case CommitDone => m.task.Committing?
    case CommitFails(_) => m.task.Committing?
    case GiveUp =>
      m.cancelled && !Panics(c, m.task)
        && (m.task.DeadLettering? || m.task.Committing? || (m.task.Trying? && m.task.attempt > 0))
  }

  /** Writing a dead letter without an error to put into it. */
  predicate Panics(c: Config, t: Task) {
    t.DeadLettering? && !t.known && c.hasDlq
  }

  /** The retry loop begins, unless it has no attempts at all. */
  function Begin(c: Config, q: Pos): Task {
    if c.retryForever || 0 <= c.maxRetries then Trying(q, 0) else DeadLettering(q, false)
  }

  function NextTask(c: Config, t: Task, x: Step): Task
    requires !t.Ready? && (x.HandlerFails? ==> t.Trying?)
  {
    match x
    case Undecodable => DeadLettering(t.at, true)
    case NoDedup => Begin(c, t.at)
    case Claim => Begin(c, t.at)
    case AlreadyClaimed => Committing(t.at)
    case ClaimFails(_) => Begin(c, t.at)
    case ClaimUnheard => t
    case HandlerDone => Committing(t.at)
    case HandlerFails =>
      if c.retryForever || t.attempt < c.maxRetries then Trying(t.at, t.attempt + 1) else DeadLettering(t.at, true)
    case HandlerPermanent => DeadLettering(t.at, true)
    case DlqDone => Committing(t.at)
    case DlqFails(_) => t
    case CommitDone => Ready
    case CommitFails(_) => t
    case GiveUp => Ready
  }

  function EffectOf(x: Step): Effect {
    match x
    case Claim => ClaimEvent
    case AlreadyClaimed => Skip
    case ClaimFails(applied) => if applied then ClaimEvent else Nothing
    case ClaimUnheard => Unheard
    case HandlerDone => Handle
    case DlqDone => DeadLetter
    case DlqFails(applied) => if applied then DeadLetter else Nothing
    case CommitDone => Commit(true)
    case CommitFails(applied) => if applied then Commit(false) else Nothing
    case GiveUp => Abandon
    case _ => Nothing
  }

  function Perform(s: State, q: Pos, row: Row, e: Effect): State {
    match e
    case Nothing => s
    case Handle => s.(handled := s.handled + {q})
    case DeadLetter => s.(deadLettered := s.deadLettered + {q})
    case Skip => s.(skipped := s.skipped + {q})
    case Abandon => s.(abandoned := s.abandoned + {q})
    case ClaimEvent => s.(claims := s.claims + {row.eventId}, everClaimed := s.everClaimed + {row.eventId})
    case Unheard =>
      s.(claims := s.claims + {row.eventId}, everClaimed := s.everClaimed + {row.eventId}, unheard := s.unheard + {q})
    case Commit(acked) =>
      s.(committed := s.committed[q.partition := q.offset + 1], acked := if acked then s.acked + {q} else s.acked)
  }

  predicate Busy(log: Log, s: State, k: nat) {
    k in s.members && !s.members[k].task.Ready? && Has(log, s.members[k].task.at)
  }

  function Current(log: Log, s: State, k: nat): Row
    requires Busy(log, s, k)
  {
    RowAt(log, s.members[k].task.at)
  }

  predicate Enabled(c: Config, log: Log, s: State, a: Action) {
    match a
    case Fetch(k, p) =>
      k in s.members && s.members[k].task.Ready? && (s.members[k].cancelled ==> c.lateFetch)
      && p in s.members[k].next && Has(log, Pos(p, s.members[k].next[p]))
    case Local(k, x) =>
      Busy(log, s, k) && Allowed(c, s.members[k], Current(log, s, k), Current(log, s, k).eventId in s.claims, x)
    case Cancel(k) => k in s.members
    case Seek(k, p) => k in s.members && p in s.committed
    case Restart(_) => true
    case ClaimExpires(_) => true
  }

  function With(s: State, k: nat, m: Member): State {
    s.(members := s.members[k := m])
  }

  function Apply(c: Config, log: Log, s: State, a: Action): State
    requires Enabled(c, log, s, a)
  {
    match a
    case Fetch(k, p) =>
      var m := s.members[k];
      With(s, k, m.(next := m.next[p := m.next[p] + 1], task := Decoding(Pos(p, m.next[p]))))
    case Local(k, x) =>
      var m := s.members[k];
      Perform(With(s, k, m.(task := NextTask(c, m.task, x))), m.task.at, Current(log, s, k), EffectOf(x))
    case Cancel(k) => With(s, k, s.members[k].(cancelled := true))
    case Seek(k, p) => With(s, k, s.members[k].(next := s.members[k].next[p := s.committed[p]]))
    case Restart(k) =>
      var lost := if k in s.members && !s.members[k].task.Ready? then {s.members[k].task.at} else {};
      With(s, k, Member(s.committed, Ready, false)).(dropped := s.dropped + lost)
    case ClaimExpires(e) => s.(claims := s.claims - {e})
  }

  // ----- Invariants -----

  /** The message was handled, written to the dead-letter topic, or skipped as already claimed. */
  predicate Settled(s: State, q: Pos) {
    q in s.handled || q in s.deadLettered || q in s.skipped
  }

  /** Settled, or, unless `strict`, given up by a cancelled member. */
  predicate Excused(strict: bool, s: State, q: Pos) {
    Settled(s, q) || (!strict && q in s.abandoned)
  }

  ghost predicate ExcusedBelow(strict: bool, s: State, p: nat, o: nat) {
    forall i: nat :: i < o ==> Excused(strict, s, Pos(p, i))
  }

  /** Nothing before the read positions is unexcused but the message in hand. */
  ghost predicate ReadInv(strict: bool, s: State, m: Member) {
    forall p: nat, i: nat :: p in m.next && i < m.next[p] ==>
      Excused(strict, s, Pos(p, i)) || (!m.task.Ready? && m.task.at == Pos(p, i))
  }

  /** Every message before the one in hand is excused. Read strictly, a cancelled member with nothing in
      hand reads no more, so its positions no longer matter. */
  ghost predicate MemberInv(strict: bool, log: Log, s: State, m: Member) {
    && (!m.task.Ready? ==> Has(log, m.task.at) && ExcusedBelow(strict, s, m.task.at.partition, m.task.at.offset))
    && (m.task.Committing? ==> Settled(s, m.task.at))
    && ((strict && m.cancelled && m.task.Ready?) || ReadInv(strict, s, m))
  }

  ghost predicate Positions(strict: bool, log: Log, s: State) {
    && (forall p :: p in s.committed ==> ExcusedBelow(strict, s, p, s.committed[p]))
    && (forall k :: k in s.members ==> MemberInv(strict, log, s, s.members[k]))
  }

  ghost predicate Records(c: Config, log: Log, s: State) {
    && (!c.hasRedis ==> s.skipped == {})
    && (!c.hasDlq ==> s.deadLettered == {})
    && s.claims <= s.everClaimed
    && (forall q :: q in s.skipped ==> Has(log, q) && RowAt(log, q).eventId in s.everClaimed)
  }

  /** A member past its claim: at work, or about to send the claim again. */
  predicate Past(s: State, t: Task) {
    t.Trying? || t.DeadLettering? || (t.Decoding? && t.at in s.unheard)
  }

  /** A member is past the claim for the message. */
  ghost predicate InWork(s: State, q: Pos) {
    exists k :: k in s.members && Past(s, s.members[k].task) && s.members[k].task.at == q
  }

  /** What may have become of a message past its claim: the last is that the claim, sent again, found itself. */
  ghost predicate Ended(s: State, q: Pos) {
    || q in s.handled || q in s.deadLettered || q in s.abandoned || q in s.dropped
    || (q in s.unheard && q in s.skipped)
  }

  /** The message for which an event was claimed. */
  ghost predicate Claimant(log: Log, s: State, e: string, q: Pos) {
    Has(log, q) && RowAt(log, q).eventId == e && (Ended(s, q) || InWork(s, q))
  }

  /** Whatever was ever claimed was claimed for a message that was handled or dead-lettered, or that a
      member is at work on, gave up when cancelled, had in hand when it restarted, or skipped because of its
      own claim. */
  ghost predicate ClaimsKept(log: Log, s: State) {
    forall e :: e in s.everClaimed ==> exists q :: Claimant(log, s, e, q)
  }

  /** For every client; strictly when no fetch succeeds after cancellation. */
  ghost predicate Inv(c: Config, log: Log, s: State) {
    && Positions(false, log, s) && (!c.lateFetch ==> Positions(true, log, s))
    && Records(c, log, s) && ClaimsKept(log, s)
  }

  /** Nothing settled is ever unsettled, nothing acknowledged ever forgotten. */
  ghost predicate Later(s: State, s': State) {
    && s.handled <= s'.handled && s.deadLettered <= s'.deadLettered && s.skipped <= s'.skipped
    && s.acked <= s'.acked && s.abandoned <= s'.abandoned && s.dropped <= s'.dropped && s.unheard <= s'.unheard
    && s.everClaimed <= s'.everClaimed
  }

  lemma StepIsLater(c: Config, log: Log, s: State, a: Action)
    requires Enabled(c, log, s, a)
    ensures Later(s, Apply(c, log, s, a))
  {
  }

  lemma MemberStays(strict: bool, log: Log, log': Log, s: State, s': State, m: Member)
    requires Grows(log, log') && Later(s, s') && MemberInv(strict, log, s, m)
    ensures MemberInv(strict, log', s', m)
  {
  }

  lemma PositionsStay(strict: bool, log: Log, log': Log, s: State)
    requires Positions(strict, log, s) && Grows(log, log')
    ensures Positions(strict, log', s)
  {
    forall k | k in s.members ensures MemberInv(strict, log', s, s.members[k]) {
      MemberStays(strict, log, log', s, s, s.members[k]);
    }
  }

  /** Appends by the publishers disturb nobody. */
  lemma LogMayGrow(c: Config, log: Log, log': Log, s: State)
    requires Inv(c, log, s) && Grows(log, log')
    ensures Inv(c, log', s)
  {
    hide Positions;
    forall e | e in s.everClaimed ensures exists q :: Claimant(log', s, e, q) {
      var q :| Claimant(log, s, e, q);
      assert Claimant(log', s, e, q);
    }
    PositionsStay(false, log, log', s);
    if !c.lateFetch {
      PositionsStay(true, log, log', s);
    }
  }

  /** What a step does to the message in hand, and what it leaves behind. */
  lemma StepShape(c: Config, m: Member, row: Row, claimed: bool, x: Step)
    requires !m.task.Ready? && Allowed(c, m, row, claimed, x)
    ensures var t, e := NextTask(c, m.task, x), EffectOf(x);
            && (if x.CommitDone? || x.GiveUp? then t.Ready? else !t.Ready? && t.at == m.task.at)
            && (x.GiveUp? ==> m.cancelled) && (x.GiveUp? <==> e.Abandon?)
            && (t.Committing? ==> m.task.Committing? || e.Handle? || e.DeadLetter? || e.Skip?)
            && (e.Commit? ==> m.task.Committing?) && (e == Commit(true) <==> x.CommitDone?)
            && (e.Skip? ==> c.hasRedis && claimed) && (e.DeadLetter? ==> c.hasDlq)
            && (e.ClaimEvent? ==> t.Trying? || t.DeadLettering?) && (e.Unheard? ==> t == m.task && t.Decoding?)
            && (m.task.Trying? || m.task.DeadLettering? ==>
                  t.Trying? || t.DeadLettering? || e.Handle? || e.DeadLetter? || e.Abandon?)
            && (m.task.Decoding? ==> t == m.task || t.Trying? || t.DeadLettering? || e.Skip?)
  {
  }

  lemma LocalKeepsPositions(strict: bool, c: Config, log: Log, s: State, k: nat, x: Step)
    requires Positions(strict, log, s) && Enabled(c, log, s, Local(k, x))
    ensures Positions(strict, log, Apply(c, log, s, Local(k, x)))
  {
    hide Allowed, NextTask, EffectOf;
    var m, row, s' := s.members[k], Current(log, s, k), Apply(c, log, s, Local(k, x));
    StepShape(c, m, row, row.eventId in s.claims, x);
    StepIsLater(c, log, s, Local(k, x));
    assert MemberInv(strict, log, s, m);
    forall j | j in s'.members ensures MemberInv(strict, log, s', s'.members[j]) {
      MemberStays(strict, log, log, s, s', s.members[j]);
    }
    forall p | p in s'.committed ensures ExcusedBelow(strict, s', p, s'.committed[p]) {
      assert p in s.committed ==> ExcusedBelow(strict, s, p, s.committed[p]);
    }
  }

  lemma OtherKeepsPositions(strict: bool, c: Config, log: Log, s: State, a: Action)
    requires (strict ==> !c.lateFetch) && Positions(strict, log, s) && Enabled(c, log, s, a) && !a.Local?
    ensures Positions(strict, log, Apply(c, log, s, a))
  {
    var s' := Apply(c, log, s, a);
    StepIsLater(c, log, s, a);
    forall j | j in s'.members ensures MemberInv(strict, log, s', s'.members[j]) {
      if j in s.members {
        assert MemberInv(strict, log, s, s.members[j]);
      }
    }
    forall p | p in s'.committed ensures ExcusedBelow(strict, s', p, s'.committed[p]) {
      assert ExcusedBelow(strict, s, p, s.committed[p]);
    }
  }

  lemma StepKeepsPositions(strict: bool, c: Config, log: Log, s: State, a: Action)
    requires (strict ==> !c.lateFetch) && Positions(strict, log, s) && Enabled(c, log, s, a)
    ensures Positions(strict, log, Apply(c, log, s, a))
  {
    hide Positions, Apply;
    if a.Local? {
      LocalKeepsPositions(strict, c, log, s, a.k, a.x);
    } else {
      OtherKeepsPositions(strict, c, log, s, a);
    }
  }

  lemma StepKeepsRecords(c: Config, log: Log, s: State, a: Action)
    requires Records(c, log, s) && Enabled(c, log, s, a)
    ensures Records(c, log, Apply(c, log, s, a))
  {
    hide Allowed, NextTask, EffectOf;
    if a.Local? {
      var row := Current(log, s, a.k);
      StepShape(c, s.members[a.k], row, row.eventId in s.claims, a.x);
    }
  }

  lemma WorkGoesOn(c: Config, log: Log, s: State, a: Action, q: Pos)
    requires Enabled(c, log, s, a) && InWork(s, q)
    ensures InWork(Apply(c, log, s, a), q) || Ended(Apply(c, log, s, a), q)
  {
    hide Allowed, NextTask, EffectOf;
    var t := Apply(c, log, s, a);
    var j :| j in s.members && Past(s, s.members[j].task) && s.members[j].task.at == q;
    if a.Local? {
      var row := Current(log, s, a.k);
      StepShape(c, s.members[a.k], row, row.eventId in s.claims, a.x);
    }
    assert j in t.members;
  }

  lemma StepKeepsClaims(c: Config, log: Log, s: State, a: Action)
    requires ClaimsKept(log, s) && Enabled(c, log, s, a)
    ensures ClaimsKept(log, Apply(c, log, s, a))
  {
    hide Allowed, NextTask, EffectOf, InWork;
    var t := Apply(c, log, s, a);
    StepIsLater(c, log, s, a);
    forall e | e in t.everClaimed ensures exists q :: Claimant(log, t, e, q) {
      if e in s.everClaimed {
        var q :| Claimant(log, s, e, q);
        if InWork(s, q) {
          WorkGoesOn(c, log, s, a, q);
        }
        assert Claimant(log, t, e, q);
      } else {
        NewClaim(c, log, s, a, e);
      }
    }
  }

  lemma NewClaim(c: Config, log: Log, s: State, a: Action, e: string)
    requires Enabled(c, log, s, a) && e in Apply(c, log, s, a).everClaimed && e !in s.everClaimed
    ensures exists q :: Claimant(log, Apply(c, log, s, a), e, q)
  {
    hide Allowed, NextTask, EffectOf;
    var t, row, q := Apply(c, log, s, a), Current(log, s, a.k), s.members[a.k].task.at;
    StepShape(c, s.members[a.k], row, row.eventId in s.claims, a.x);
    assert a.k in t.members && Past(t, t.members[a.k].task) && t.members[a.k].task.at == q;
    assert InWork(t, q);
    assert Claimant(log, t, e, q);
  }

  /** Members may fetch, fail, be cancelled, crash, restart or be moved at any time, and a fetch may succeed
      after cancellation: whatever a commit covers was settled, or given up by a cancelled member. */
  lemma StepKeepsInv(c: Config, log: Log, s: State, a: Action)
    requires Inv(c, log, s) && Enabled(c, log, s, a)
    ensures Inv(c, log, Apply(c, log, s, a))
  {
    hide Positions, Records, ClaimsKept, Apply;
    StepKeepsClaims(c, log, s, a);
    StepKeepsPositions(false, c, log, s, a);
    if !c.lateFetch {
      StepKeepsPositions(true, c, log, s, a);
    }
    StepKeepsRecords(c, log, s, a);
  }

  // ----- Blocking -----

  predicate Holds(s: State, k: nat, q: Pos) {
    k in s.members && !s.members[k].task.Ready? && s.members[k].task.at == q
  }

  /** A member that is not cancelled keeps the message in hand until its commit call succeeds. */
  lemma StepBlocks(c: Config, log: Log, s: State, a: Action, k: nat, q: Pos)
    requires Positions(false, log, s) && Enabled(c, log, s, a) && Holds(s, k, q) && !s.members[k].cancelled
    requires a != Cancel(k) && a != Restart(k)
    ensures var t := Apply(c, log, s, a);
            if a == Local(k, CommitDone) then Settled(t, q) && q in t.acked
            else Holds(t, k, q) && !t.members[k].cancelled
  {
    hide Allowed, NextTask, EffectOf;
    assert MemberInv(false, log, s, s.members[k]);
    if a.Local? {
      var row := Current(log, s, a.k);
      StepShape(c, s.members[a.k], row, row.eventId in s.claims, a.x);
    }
  }
}
