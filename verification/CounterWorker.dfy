/** `counters`: the methods of `Counter` and `Worker` as they run, each Redis or database call one
    step of `CounterMachine`, with other writers and other replicas' workers free to act before every
    call. Everything that can fail may fail. */
module CounterWorker {
  import Text
  import opened CounterMachine

  /** How a call ends; a failing one may have been applied, or may still be later. */
  datatype Outcome = Done | Failed | FailedForNow | FailedButApplied

  /** How a pipeline ends: with its replies; executed, but the replies lost; cut off after so many commands. */
  datatype Pipe = Replied | ReplyLost | Broken(after: nat)

  /** Every fault may occur, workers may overlap, and any shard may be picked. */
  function Faulty(shards: nat): Config {
    Config(shards, true, true, true, true, true, true, true)
  }

  predicate ByOther(a: Action, me: nat) {
    if IsWriterAction(a) then a.w != me else a.Land? || a.k != me
  }

  /** What the steps of others leave alone. */
  ghost predicate KeepsOwn(s: State, s': State, me: nat) {
    && Work(s', me) == Work(s, me) && s.touched <= s'.touched
    && (me in s'.writers <==> me in s.writers) && (me in s.writers ==> s'.writers[me] == s.writers[me])
  }

  ghost predicate SameTotals(s: State, s': State) {
    s'.db.dirty == s.db.dirty && s'.stored == s.stored
  }

  /** Only what the worker has in hand differs. */
  ghost predicate SameBut(s: State, s': State) {
    s'.db == s.db && s'.stored == s.stored && s'.lost == s.lost
  }

  /** No other worker has any of this in hand. */
  ghost predicate Alone(s: State, me: nat, ids: seq<Id>) {
    forall id :: id in ids ==> !HeldByOther(s, me, id)
  }

  lemma OtherStep(c: Config, s: State, a: Action, me: nat)
    requires Inv(c, s) && Enabled(c, s, a) && ByOther(a, me)
    ensures KeepsOwn(s, Apply(c, s, a), me) && Inv(c, Apply(c, s, a))
  {
    StepKeepsInv(c, s, a);
    hide Cleared, Disturbed, Inv, HeldByOther, Held;
  }

  /** One counter kind: its Redis keys, its stored totals, and everyone who uses them.
      `others(t)` is what other writers and workers do before the call numbered `t`; `me` is the name of
      this writer and this worker. */
  class Counter {
    const c: Config
    const me: nat
    const others: nat -> seq<Action>
    var st: State
    var tick: nat

    ghost predicate Valid()
      reads this
    {
      c.shards > 0 && c == Faulty(c.shards) && Inv(c, st)
    }

    /** From now on nobody else does anything. */
    ghost predicate Silent()
      reads this
    {
      forall t: nat :: tick <= t ==> others(t) == []
    }

    /** `New`: no shard count below one; 32 by default. */
    constructor (n: int, me: nat, others: nat -> seq<Action>, stored: map<Id, int>)
      ensures Valid() && this.me == me && this.others == others && tick == 0 && st == INIT.(stored := stored)
      ensures c.shards == if n <= 0 then 32 else n
    {
      this.c := Faulty(if n <= 0 then 32 else n);
      this.me := me;
      this.others := others;
      this.st := INIT.(stored := stored);
      this.tick := 0;
    }

    /** The others get their turn. */
    method LetOthersAct()
      requires Valid()
      modifies this
      ensures Valid() && tick == old(tick) + 1 && KeepsOwn(old(st), st, me)
      ensures old(Silent()) ==> st == old(st) && Silent()
    {
      hide Inv, Enabled, Apply;
      var script := others(tick);
      tick := tick + 1;
      for i := 0 to |script|
        invariant Valid() && tick == old(tick) + 1 && KeepsOwn(old(st), st, me)
        invariant i == 0 ==> st == old(st)
      {
        if ByOther(script[i], me) && Enabled(c, st, script[i]) {
          OtherStep(c, st, script[i], me);
          st := Apply(c, st, script[i]);
        }
      }
    }

    /** This worker. */
    function Mine(): (job: Job)
      reads this
    {
      Work(st, me)
    }

    /** One command of this writer, taken at once. */
    method Take(a: Action)
      requires Valid() && IsWriterAction(a) && Enabled(c, st, a)
      modifies this`st
      ensures Valid() && st == Apply(c, old(st), a)
    {
      hide Inv, Enabled, Apply;
      WriterKeepsInv(c, st, a);
      st := Apply(c, st, a);
    }

    /** One call of this worker, after the others had their turn. */
    method Call(a: Action)
      requires Valid() && !IsWriterAction(a) && !a.Pop? && !a.PopLost? && !a.Land? && a.k == me && Enabled(c, st, a)
      modifies this
      ensures Valid()
      ensures !a.ReadShard? ==> Mine() == Work(Apply(c, old(st), a), me)
      ensures a.ReadShard? ==>
        var p := Work(old(st), me);
        p.Reading? && Mine().Reading? && Mine() == p.(next := p.next + 1, sum := Mine().sum)
      ensures a.Remark? ==> Elements(old(Mine()).failed) <= st.db.dirty
      ensures a.Write? ==> old(Mine()).id in st.stored && st.stored[old(Mine()).id] == old(Mine()).sum
      ensures old(Silent()) ==> st == Apply(c, old(st), a) && Silent()
    {
      hide Inv, HeldByOther;
      LetOthersAct();
      StepKeepsInv(c, st, a);
      st := Apply(c, st, a);
    }

    /** `Inc`: nothing for a zero delta. The Redis client sends the pipeline again after a failure, as often as
        `tries` has outcomes, and every try whose INCRBY gets through counts. */
    method Inc(id: Id, delta: int, shard: nat, tries: seq<Pipe>) returns (ok: bool)
      requires Valid() && me !in st.writers && shard < c.shards
      modifies this
      ensures Valid() && me !in st.writers && Mine() == old(Mine())
      ensures delta == 0 ==> ok && st == old(st)
      ensures delta != 0 ==> (ok <==> Replied in tries) && (ok ==> id in st.touched && id in st.db.dirty)
      ensures old(Silent()) && delta != 0 ==>
        && Silent() && st.stored == old(st.stored) && Untouched(old(st.db), st.db, id)
        && Sum(st.db, id, c.shards) == Sum(old(st.db), id, c.shards) + GotThrough(tries) * delta
        && old(st.db.dirty) <= st.db.dirty <= old(st.db.dirty) + {id}
    {
      hide Inv, Cleared, Disturbed, Sum;
      if delta == 0 {
        return true;
      }
      for i := 0 to |tries|
        invariant Valid() && me !in st.writers && Mine() == old(Mine()) && Replied !in tries[..i]
        invariant old(Silent()) ==> Silent() && st.stored == old(st.stored) && Untouched(old(st.db), st.db, id)
        invariant old(Silent()) ==>
          Sum(st.db, id, c.shards) + GotThrough(tries[i..]) * delta
          == Sum(old(st.db), id, c.shards) + GotThrough(tries) * delta
        invariant old(Silent()) ==> old(st.db.dirty) <= st.db.dirty <= old(st.db.dirty) + {id}
      {
        ghost var before := st.db;
        ok := IncOnce(id, delta, shard, tries[i]);
        TryAdds(before, id, shard, delta, c.shards, tries, i);
        assert tries[..i + 1] == tries[..i] + [tries[i]];
        if ok {
          return;
        }
      }
      assert tries[..|tries|] == tries;
      ok := false;
    }

    /** One try: two commands on a randomly picked shard, others in between. */
    method IncOnce(id: Id, delta: int, shard: nat, pipe: Pipe) returns (ok: bool)
      requires Valid() && me !in st.writers && shard < c.shards && delta != 0
      modifies this
      ensures Valid() && me !in st.writers && Mine() == old(Mine())
      ensures (ok <==> pipe.Replied?) && (ok ==> id in st.touched && id in st.db.dirty)
      ensures pipe == Broken(1) ==> id in st.lost
      ensures old(Silent()) ==>
        Silent() && st.stored == old(st.stored)
        && st.db == AfterTry(old(st.db), id, shard, delta, pipe)
    {
      hide Inv, Cleared, Disturbed;
      LetOthersAct();
      if pipe == Broken(0) {
        return false;
      }
      Take(Incr(me, id, shard, delta));
      LetOthersAct();
      if pipe == Broken(1) {
        Take(WriterDies(me));
        return false;
      }
      Take(WriterSAdd(me));
      ok := pipe.Replied?;
    }

    /** `Seed`: clears every shard but the first, writes the total there, marks the entity; others in
        between. */
    method Seed(id: Id, total: int, pipe: Pipe) returns (ok: bool)
      requires Valid() && me !in st.writers
      modifies this
      ensures Valid() && me !in st.writers && Mine() == old(Mine())
      ensures (ok <==> pipe.Replied?) && (ok ==> id in st.touched && id in st.db.dirty)
      ensures pipe.Broken? && 1 <= pipe.after <= c.shards ==> id in st.lost
      ensures old(Silent()) ==> Silent() && st.stored == old(st.stored) && Untouched(old(st.db), st.db, id)
      ensures old(Silent()) && (pipe.Broken? ==> pipe.after > c.shards) ==>
        Sum(st.db, id, c.shards) == total && st.db.dirty == old(st.db.dirty) + {id}
    {
      hide Inv, Cleared, Disturbed, Sum;
      LetOthersAct();
      if pipe == Broken(0) {
        return false;
      }
      Take(SeedStart(me, id, total));
      var cut := Clear(id, total, pipe);
      if cut {
        return false;
      }
      SetSums(st.db, id, total, c.shards);
      ok := PutTotal(id, total, pipe);
    }

    /** The last two commands of a seed. */
    method PutTotal(id: Id, total: int, pipe: Pipe) returns (ok: bool)
      requires Valid() && me in st.writers && st.writers[me] == Seeding(id, total, c.shards) && id in st.touched
      requires pipe.Broken? ==> pipe.after >= c.shards
      modifies this
      ensures Valid() && me !in st.writers && Mine() == old(Mine()) && id in st.touched && (ok <==> pipe.Replied?)
      ensures if pipe == Broken(c.shards) then id in st.lost else id in st.db.dirty
      ensures old(Silent()) ==>
        Silent() && st.stored == old(st.stored)
        && st.db == if pipe == Broken(c.shards) then Set(old(st.db), id, 0, total)
          else SAdd(Set(old(st.db), id, 0, total), {id})
    {
      hide Inv, Cleared, Disturbed, Sum, HeldByOther, Held;
      LetOthersAct();
      Take(SeedSet(me));
      LetOthersAct();
      if pipe == Broken(c.shards) {
        Take(WriterDies(me));
        return false;
      }
      Take(WriterSAdd(me));
      ok := pipe.Replied?;
    }

    /** The deletions of a seed. */
    method Clear(id: Id, total: int, pipe: Pipe) returns (cut: bool)
      requires Valid() && me in st.writers && st.writers[me] == Seeding(id, total, 1) && id in st.touched
        && pipe != Broken(0)
      modifies this
      ensures Valid() && Mine() == old(Mine()) && id in st.touched
      ensures cut <==> pipe.Broken? && pipe.after < c.shards
      ensures if cut then me !in st.writers && id in st.lost
              else me in st.writers && st.writers[me] == Seeding(id, total, c.shards)
      ensures old(Silent()) ==> Silent() && SameTotals(old(st), st) && Untouched(old(st.db), st.db, id)
      ensures old(Silent()) && !cut ==> ZeroUpTo(st.db, id, c.shards)
    {
      hide Inv, Cleared, Disturbed, Sum;
      for i := 1 to c.shards
        invariant Valid() && Mine() == old(Mine())
        invariant me in st.writers && st.writers[me] == Seeding(id, total, i) && id in st.touched
        invariant pipe.Broken? ==> pipe.after >= i - 1 && pipe.after > 0
        invariant old(Silent()) ==> Silent() && SameTotals(old(st), st) && Untouched(old(st.db), st.db, id)
        invariant old(Silent()) ==> ZeroUpTo(st.db, id, i)
      {
        if pipe == Broken(i - 1) {
          Take(WriterDies(me));
          return true;
        }
        LetOthersAct();
        DelZeroes(st.db, id, i);
        Take(SeedDel(me));
      }
      cut := pipe == Broken(c.shards - 1);
      if cut {
        Take(WriterDies(me));
      }
    }

    /** `PopDirty`. The Redis client sends the SPOP again after a failure, as often as `pops` has outcomes; what
        an SPOP without a reply took out is `gone` with the rest. */
    method PopDirty(limit: int, pops: seq<Outcome>) returns (ids: seq<Id>, ok: bool, ghost gone: set<Id>)
      requires Valid() && Mine().Idle?
      modifies this
      ensures Valid() && (ok <==> Done in pops) && Distinct(ids) && Elements(ids) <= gone && (!ok ==> ids == [])
      ensures Mine() == if ids == [] then Idle else Draining(ids, [])
      ensures old(Silent()) ==>
        Silent() && PopsTaken(old(st), st, me, ids, ok, gone, PopsThrough(pops), Limit(limit))
      ensures ok && PopsThrough(pops) == 1 ==> gone == Elements(ids)
    {
      hide Inv, Limit, PopsThrough, PopsTaken, OnePop, Work;
      ids, ok, gone := [], false, {};
      NonePopped(st, me, Limit(limit));
      ghost var reached := 0;
      for i := 0 to |pops|
        invariant Valid() && Mine().Idle? && Done !in pops[..i] && ids == [] && (reached == 0 ==> gone == {})
        invariant reached + PopsThrough(pops[i..]) == PopsThrough(pops)
        invariant pops[0..] == pops
        invariant old(Silent()) ==> Silent() && PopsTaken(old(st), st, me, [], false, gone, reached, Limit(limit))
      {
        assert pops[..i + 1] == pops[..i] + [pops[i]];
        PopOn(pops, i);
        ghost var taken, before := {}, st;
        ids, taken := PopOnce(limit, pops[i]);
        if old(Silent()) {
          PoppedOn(old(st), before, st, me, gone, ids, taken, reached, Limit(limit), pops[i]);
        }
        gone := gone + taken;
        reached := if Reaches(pops[i]) then reached + 1 else reached;
        if pops[i] == Done {
          ok := true;
          return;
        }
      }
      assert pops[..|pops|] == pops && pops[|pops|..] == [];
      NoPops();
    }

    /** One SPOP: up to `limit` entities out of the dirty set, whichever Redis picks; if the reply is lost, so
        are they. */
    method PopOnce(limit: int, pop: Outcome) returns (ids: seq<Id>, ghost gone: set<Id>)
      requires Valid() && Mine().Idle?
      modifies this
      ensures Valid() && Distinct(ids) && (if pop == Done then Elements(ids) == gone else ids == [])
      ensures Mine() == if ids == [] then Idle else Draining(ids, [])
      ensures pop == FailedButApplied ==> gone <= st.lost
      ensures !Reaches(pop) ==> gone == {}
      ensures old(Silent()) ==> Silent() && OnePop(old(st), st, me, ids, gone, pop, Limit(limit))
    {
      hide Inv, Limit, OnePop;
      LetOthersAct();
      if !Reaches(pop) {
        NoPop(st, me, pop, Limit(limit));
        return [], {};
      }
      var popped := Pick(st.db.dirty, Limit(limit));
      var a := if pop == Done then Pop(me, popped) else PopLost(me, popped);
      if pop == Done {
        PopShape(c, st, me, popped, Limit(limit));
      } else {
        PopLostShape(c, st, me, popped, Limit(limit));
      }
      StepKeepsInv(c, st, a);
      hide Apply, Enabled, Work, Distinct;
      st := Apply(c, st, a);
      ids, gone := if pop == Done then popped else [], Elements(popped);
    }

    /** `Read` inside the worker: the shards one by one, while others go on. */
    method ReadShards()
      requires Valid() && Mine().Reading? && Mine().next == 0 && Mine().sum == 0
      modifies this
      ensures Valid() && Mine().Reading? && Mine() == old(Mine()).(next := c.shards, sum := Mine().sum)
      ensures old(Silent()) ==> Silent() && SameBut(old(st), st) && Mine().sum == Sum(st.db, Mine().id, c.shards)
    {
      hide Inv, Cleared, Disturbed;
      for i := 0 to c.shards
        invariant Valid() && Mine().Reading? && Mine() == old(Mine()).(next := i, sum := Mine().sum)
        invariant old(Silent()) ==> Silent() && SameBut(old(st), st) && Mine().sum == Sum(st.db, Mine().id, i)
      {
        Call(ReadShard(me));
      }
    }

    /** The flush function, called with what was read. */
    method Store(write: Outcome)
      requires Valid() && Mine().Reading? && Mine().next == c.shards
      modifies this
      ensures Valid()
      ensures var p := old(Mine()); Mine() == Draining(p.todo, if write == Done then p.failed else p.failed + [p.id])
      ensures old(Silent()) ==>
        Silent() && st.db == old(st.db) && st.lost == old(st.lost)
        && st.stored == if Reaches(write) then old(st.stored)[old(Mine()).id := old(Mine()).sum] else old(st.stored)
    {
      hide Inv, HeldByOther, Held, Sum;
      match write
      case Done => Call(Write(me));
      case Failed => Call(WriteFails(me, false));
      case FailedForNow => Call(WriteLingers(me));
      case FailedButApplied => Call(WriteFails(me, true));
    }

    /** What failed is marked again. */
    method Finish(fails: bool)
      requires Valid() && Mine().Draining? && Mine().todo == []
      modifies this
      ensures Valid() && Mine().Idle?
      ensures var failed := Elements(old(Mine()).failed);
              && (!fails ==> failed <= st.db.dirty)
              && (old(Silent()) ==>
                    && Silent() && st.stored == old(st.stored) && st.db.keys == old(st.db.keys)
                    && st.db.dirty == old(st.db.dirty) + (if fails then {} else failed)
                    && (!fails ==> st.lost == old(st.lost)))
    {
      hide Inv, HeldByOther, Held, Sum;
      Call(if fails then RemarkFails(me) else Remark(me));
    }

    /** The next entity of the batch. */
    method TakeUp()
      requires Valid() && Mine().Draining? && Mine().todo != []
      modifies this
      ensures Valid() && var p := old(Mine()); Mine() == Reading(p.todo[0], 0, 0, p.todo[1..], p.failed)
      ensures old(Silent()) ==>
        Silent() && st.db == old(st.db) && st.stored == old(st.stored) && st.lost <= old(st.lost)
    {
      hide Inv, HeldByOther, Held, Sum;
      Call(NextId(me));
    }

    /** `Read`, by anyone, when nobody writes: the sum of all shards, or an error and nothing. */
    method Read(id: Id, fails: bool) returns (sum: int, ok: bool)
      ensures ok == !fails && sum == if fails then 0 else Sum(st.db, id, c.shards)
    {
      sum := 0;
      if fails {
        return 0, false;
      }
      for i := 0 to c.shards
        invariant sum == Sum(st.db, id, i)
      {
        sum := sum + Get(st.db, id, i);
      }
      ok := true;
    }
  }

  /** SPOP: any distinct members, as many as asked for and there. */
  method Pick(dirty: set<Id>, n: nat) returns (popped: seq<Id>)
    ensures Distinct(popped) && Elements(popped) <= dirty && |popped| == Text.Min(n, |dirty|)
  {
    popped := [];
    var rest := dirty;
    while |popped| < n && rest != {}
      invariant |popped| <= n && Distinct(popped) && rest == dirty - Elements(popped)
      invariant |rest| + |popped| == |dirty|
      invariant Elements(popped) <= dirty
      decreases |rest|
    {
      var id :| id in rest;
      assert Elements(popped + [id]) == Elements(popped) + {id};
      popped := popped + [id];
      rest := rest - {id};
    }
  }

  /** `gone` has been taken out of the dirty set, and `left` remain. */
  ghost predicate Popped(s: State, s': State, gone: set<Id>, left: int) {
    gone <= s.db.dirty && s'.db == SRem(s.db, gone) && s'.stored == s.stored && |s'.db.dirty| == left
  }

  lemma PoppedMeans(s: State, s': State, me: nat, ids: seq<Id>, ok: bool, gone: set<Id>, reached: nat, batch: nat)
    requires PopsTaken(s, s', me, ids, ok, gone, reached, batch)
    ensures gone <= s.db.dirty && s'.stored == s.stored && s'.db.keys == s.db.keys
    ensures s'.db.dirty == s.db.dirty - gone && |s.db.dirty - gone| == Left(|s.db.dirty|, reached, batch)
    ensures ok && Alone(s, me, ids) ==> s'.lost == s.lost + (gone - Elements(ids))
  {
  }

  lemma NothingStored(s: State, readFails: Id -> bool, write: Id -> Outcome, n: nat)
    ensures Stored(s, s.stored, [], readFails, write, n) && FailedOf([], readFails, write) == {}
  {
  }

  /** One SPOP by worker `me`, alone: as many as there are, up to a batch. */
  ghost predicate OnePop(s: State, s': State, me: nat, ids: seq<Id>, taken: set<Id>, pop: Outcome, batch: nat) {
    && Popped(s, s', taken, |s.db.dirty| - if Reaches(pop) then Text.Min(batch, |s.db.dirty|) else 0)
    && (pop == Done && Alone(s, me, ids) ==> s'.lost == s.lost)
    && (pop != Done ==> s'.lost == s.lost + taken && s'.workers == s.workers)
    && (pop == Done ==> Elements(ids) == taken)
  }

  /** So many SPOPs, alone, the last one answered if `ok`: what the others took out is lost. */
  ghost predicate PopsTaken(s: State, s': State, me: nat, ids: seq<Id>, ok: bool, gone: set<Id>, reached: nat,
                            batch: nat) {
    && Popped(s, s', gone, Left(|s.db.dirty|, reached, batch))
    && (ok && Alone(s, me, ids) ==> s'.lost == s.lost + (gone - Elements(ids)))
    && (!ok ==> s'.lost == s.lost + gone && s'.workers == s.workers)
  }

  lemma NonePopped(s: State, me: nat, batch: nat)
    ensures PopsTaken(s, s, me, [], false, {}, 0, batch)
  {
    assert SRem(s.db, {}) == s.db;
  }

  lemma NoPop(s: State, me: nat, pop: Outcome, batch: nat)
    requires !Reaches(pop)
    ensures OnePop(s, s, me, [], {}, pop, batch)
  {
    assert SRem(s.db, {}) == s.db;
  }

  lemma PoppedOn(s: State, m: State, t: State, me: nat, gone: set<Id>, ids: seq<Id>, taken: set<Id>, reached: nat,
                 batch: nat, pop: Outcome)
    requires PopsTaken(s, m, me, [], false, gone, reached, batch) && OnePop(m, t, me, ids, taken, pop, batch)
    ensures PopsTaken(s, t, me, ids, pop == Done, gone + taken, if Reaches(pop) then reached + 1 else reached, batch)
  {
    hide Alone, Left, Text.Min, Popped, Elements;
    var n := Left(|s.db.dirty|, reached, batch);
    LeftIs(s, m, gone, n);
    LeftNext(|s.db.dirty|, reached, batch);
    SameAlone(s, m, me, ids);
    PoppedTwice(s, m, t, gone, n, taken, n - if Reaches(pop) then Text.Min(batch, n) else 0);
    assert s.lost + gone + taken == s.lost + (gone + taken);
  }

  lemma LeftIs(s: State, m: State, gone: set<Id>, n: int)
    requires Popped(s, m, gone, n)
    ensures |m.db.dirty| == n
  {
  }

  lemma PoppedTwice(s: State, m: State, t: State, gone: set<Id>, n: int, taken: set<Id>, left: int)
    requires Popped(s, m, gone, n) && Popped(m, t, taken, left)
    ensures Popped(s, t, gone + taken, left) && (gone + taken) - taken == gone
  {
    SRemTwice(s.db, gone, taken);
  }

  lemma SRemTwice(db: Db, gone: set<Id>, taken: set<Id>)
    requires taken <= db.dirty - gone
    ensures SRem(SRem(db, gone), taken) == SRem(db, gone + taken) && (gone + taken) - taken == gone
  {
    assert db.dirty - gone - taken == db.dirty - (gone + taken);
  }

  lemma SameAlone(s: State, t: State, me: nat, ids: seq<Id>)
    requires s.workers == t.workers
    ensures Alone(s, me, ids) <==> Alone(t, me, ids)
  {
    assert forall id :: HeldByOther(s, me, id) <==> HeldByOther(t, me, id);
  }

  lemma PopShape(c: Config, s: State, me: nat, ids: seq<Id>, batch: nat)
    requires Distinct(ids) && Elements(ids) <= s.db.dirty && Work(s, me).Idle? && c.overlap
    requires |ids| == Text.Min(batch, |s.db.dirty|)
    ensures Enabled(c, s, Pop(me, ids))
    ensures var t := Apply(c, s, Pop(me, ids));
            && OnePop(s, t, me, ids, Elements(ids), Done, batch)
            && Work(t, me) == if ids != [] then Draining(ids, []) else Idle
  {
    PopApplied(c, s, me, ids);
    PopLeaves(s.db.dirty, ids);
    hide Apply, Enabled, Alone, Elements, Distinct, Text.Min, Work;
  }

  lemma PopApplied(c: Config, s: State, me: nat, ids: seq<Id>)
    requires Elements(ids) <= s.db.dirty && Work(s, me).Idle? && c.overlap
    ensures Enabled(c, s, Pop(me, ids))
    ensures var t := Apply(c, s, Pop(me, ids));
            && t.db == SRem(s.db, Elements(ids)) && t.stored == s.stored && (Alone(s, me, ids) ==> t.lost == s.lost)
            && Work(t, me) == if ids != [] then Draining(ids, []) else Idle
  {
    hide HeldByOther, Elements;
    assert forall id :: id in ids ==> id in s.db.dirty by {
      InElements(ids);
    }
    if Alone(s, me, ids) {
      assert (set id | id in ids && HeldByOther(s, me, id)) == {};
    }
  }

  lemma InElements(ids: seq<Id>)
    ensures forall id :: id in ids ==> id in Elements(ids)
  {
  }

  lemma PopLostShape(c: Config, s: State, me: nat, ids: seq<Id>, batch: nat)
    requires Distinct(ids) && Elements(ids) <= s.db.dirty && Work(s, me).Idle? && c.popLost
    requires |ids| == Text.Min(batch, |s.db.dirty|)
    ensures Enabled(c, s, PopLost(me, ids))
    ensures var t := Apply(c, s, PopLost(me, ids));
            OnePop(s, t, me, [], Elements(ids), FailedButApplied, batch) && Work(t, me).Idle? && Elements(ids) <= t.lost
  {
    PopLostApplied(c, s, me, ids);
    PopLeaves(s.db.dirty, ids);
    hide Apply, Enabled, Alone, Elements, Distinct, Text.Min, Work;
  }

  lemma PopLostApplied(c: Config, s: State, me: nat, ids: seq<Id>)
    requires Elements(ids) <= s.db.dirty && Work(s, me).Idle? && c.popLost
    ensures Enabled(c, s, PopLost(me, ids))
    ensures var t := Apply(c, s, PopLost(me, ids));
            && t.db == SRem(s.db, Elements(ids)) && t.stored == s.stored && t.workers == s.workers
            && t.lost == s.lost + Elements(ids) && Work(t, me).Idle?
  {
    hide Elements;
    InElements(ids);
  }

  lemma PopLeaves(dirty: set<Id>, ids: seq<Id>)
    requires Distinct(ids) && Elements(ids) <= dirty
    ensures |dirty - Elements(ids)| == |dirty| - |ids|
  {
    DistinctSize(ids);
  }

  /** How many tries get through to Redis, up to the first with replies. */
  function GotThrough(tries: seq<Pipe>): nat {
    if tries == [] then 0
    else (if tries[0] == Broken(0) then 0 else 1) + if tries[0].Replied? then 0 else GotThrough(tries[1..])
  }

  /** How many SPOPs are executed, up to the first with a reply. */
  function PopsThrough(pops: seq<Outcome>): nat {
    if pops == [] then 0
    else (if Reaches(pops[0]) then 1 else 0) + if pops[0] == Done then 0 else PopsThrough(pops[1..])
  }

  lemma NoPops()
    ensures PopsThrough([]) == 0
  {
  }

  lemma PopOn(pops: seq<Outcome>, i: nat)
    requires i < |pops|
    ensures PopsThrough(pops[i..])
         == (if Reaches(pops[i]) then 1 else 0) + if pops[i] == Done then 0 else PopsThrough(pops[i + 1..])
  {
    assert pops[i..][1..] == pops[i + 1..];
  }

  /** What one try leaves in Redis. */
  function AfterTry(db: Db, id: Id, shard: nat, delta: int, pipe: Pipe): Db {
    if pipe == Broken(0) then db
    else if pipe == Broken(1) then IncrBy(db, id, shard, delta)
    else SAdd(IncrBy(db, id, shard, delta), {id})
  }

  lemma TryAdds(db: Db, id: Id, shard: nat, delta: int, n: nat, tries: seq<Pipe>, i: nat)
    requires shard < n && i < |tries|
    ensures var db' := AfterTry(db, id, shard, delta, tries[i]);
            && (forall db0: Db :: Untouched(db0, db, id) ==> Untouched(db0, db', id))
            && Sum(db', id, n) + (if tries[i].Replied? then 0 else GotThrough(tries[i + 1..])) * delta
               == Sum(db, id, n) + GotThrough(tries[i..]) * delta
  {
    hide Sum;
    assert tries[i..][1..] == tries[i + 1..];
    SumOfIncr(db, id, shard, delta, n);
    IncAdds(db, id, shard, delta, n);
    var rest := if tries[i].Replied? then 0 else GotThrough(tries[i + 1..]);
    assert (1 + rest) * delta == delta + rest * delta;
  }

  /** What an increment is for: the entity's sum grows by the delta, whichever shard was picked. */
  lemma IncAdds(db: Db, id: Id, shard: nat, delta: int, n: nat)
    requires shard < n
    ensures Sum(SAdd(IncrBy(db, id, shard, delta), {id}), id, n) == Sum(db, id, n) + delta
  {
    SumOfIncr(db, id, shard, delta, n);
    SumFrame(IncrBy(db, id, shard, delta), SAdd(IncrBy(db, id, shard, delta), {id}), id, n);
  }

  ghost predicate Untouched(db: Db, db': Db, id: Id) {
    forall j, k: nat :: j != id ==> Get(db', j, k) == Get(db, j, k)
  }

  ghost predicate ZeroUpTo(db: Db, id: Id, n: nat) {
    forall k: nat :: 1 <= k < n ==> Get(db, id, k) == 0
  }

  lemma DelZeroes(db: Db, id: Id, i: nat)
    ensures ZeroUpTo(db, id, i) ==> ZeroUpTo(Del(db, id, i), id, i + 1)
    ensures forall db0: Db :: Untouched(db0, db, id) ==> Untouched(db0, Del(db, id, i), id)
  {
    assert forall j, k: nat :: j != id || k != i ==> Get(Del(db, id, i), j, k) == Get(db, j, k);
  }

  lemma SetSums(db: Db, id: Id, total: int, n: nat)
    requires n > 0
    ensures ZeroUpTo(db, id, n) ==> Sum(SAdd(Set(db, id, 0, total), {id}), id, n) == total
    ensures forall db0: Db :: Untouched(db0, db, id) ==>
      Untouched(db0, Set(db, id, 0, total), id) && Untouched(db0, SAdd(Set(db, id, 0, total), {id}), id)
  {
    var db' := SAdd(Set(db, id, 0, total), {id});
    assert forall j, k: nat :: j != id || k != 0 ==>
      Get(db', j, k) == Get(Set(db, id, 0, total), j, k) == Get(db, j, k);
    if ZeroUpTo(db, id, n) {
      SumOfOne(db', id, n);
    }
  }

  function Limit(limit: int): (n: nat)
    ensures n == if limit <= 0 then 1000 else limit
  {
    if limit <= 0 then 1000 else limit
  }

  ghost predicate Distinct(ids: seq<Id>) {
    forall i, j :: 0 <= i < j < |ids| ==> ids[i] != ids[j]
  }

  lemma {:induction false} DistinctSize(ids: seq<Id>)
    requires Distinct(ids)
    ensures |Elements(ids)| == |ids|
  {
    if ids != [] {
      var init, last := ids[..|ids| - 1], ids[|ids| - 1];
      DistinctSize(init);
      assert ids == init + [last];
      assert Elements(ids) == Elements(init) + {last};
      assert last !in Elements(init);
    }
  }

  /** The flush worker. `reads`, `writes` and `remark` say which of its calls fail. */
  class Worker {
    const counter: Counter
    const batch: nat

    /** `NewWorker`: 1000 entities a batch by default. */
    constructor (c: Counter, batchSize: int)
      ensures counter == c && batch == Limit(batchSize)
    {
      counter := c;
      batch := Limit(batchSize);
    }

    /** Reads and writes one entity, recording a failure. */
    method FlushOne(readFails: bool, write: Outcome)
      requires counter.Valid() && counter.Mine().Draining? && counter.Mine().todo != []
      modifies counter
      ensures counter.Valid()
      ensures var before := old(counter.Mine());
              var failed := if readFails || write != Done then before.failed + [before.todo[0]] else before.failed;
              counter.Mine() == Draining(before.todo[1..], failed)
      ensures old(counter.Silent()) ==>
        counter.Silent() && counter.st.db == old(counter.st.db) && counter.st.lost <= old(counter.st.lost)
        && var id := old(counter.Mine().todo[0]);
           counter.st.stored == if readFails || !Reaches(write) then old(counter.st.stored)
                                else old(counter.st.stored)[id := Sum(counter.st.db, id, counter.c.shards)]
    {
      hide Inv, HeldByOther, Held, Sum;
      counter.TakeUp();
      if readFails {
        counter.Call(ReadFails(counter.me));
        return;
      }
      counter.ReadShards();
      counter.Store(write);
    }

    /** The loop of `Flush` over a popped batch. */
    method FlushAll(ids: seq<Id>, readFails: Id -> bool, write: Id -> Outcome)
      requires counter.Valid() && counter.Mine() == Draining(ids, []) && Distinct(ids)
      modifies counter
      ensures counter.Valid() && counter.Mine().Draining? && counter.Mine().todo == []
      ensures Elements(counter.Mine().failed) == FailedOf(ids, readFails, write)
      ensures old(counter.Silent()) ==>
        counter.Silent() && counter.st.db == old(counter.st.db) && counter.st.lost <= old(counter.st.lost)
        && Stored(counter.st, old(counter.st.stored), ids, readFails, write, counter.c.shards)
    {
      ghost var silent := counter.Silent();
      ghost var stored := counter.st.stored;
      for i := 0 to |ids|
        invariant counter.Valid() && counter.Mine().Draining? && counter.Mine().todo == ids[i..]
        invariant Elements(counter.Mine().failed) == FailedOf(ids[..i], readFails, write)
        invariant silent ==>
          counter.Silent() && counter.st.db == old(counter.st.db) && counter.st.lost <= old(counter.st.lost)
        invariant silent ==> Stored(counter.st, stored, ids[..i], readFails, write, counter.c.shards)
      {
        ghost var before, mine := counter.st, counter.Mine();
        FlushOne(readFails(ids[i]), write(ids[i]));
        FailedSnoc(ids[..i], ids[i], readFails, write);
        ElementsSnoc(mine.failed, ids[i]);
        assert ids[..i + 1] == ids[..i] + [ids[i]];
        if silent {
          StoredSnoc(counter.st, stored, before.stored, ids[..i], ids[i], readFails, write, counter.c.shards);
        }
      }
      assert ids[..|ids|] == ids;
    }

    /** `Flush`: one batch; only a failing pop is an error. Others, workers too, may act at any moment; alone,
        exactly the popped entities whose calls succeed are stored, and the others are dirty again. */
    method Flush(pops: seq<Outcome>, readFails: Id -> bool, write: Id -> Outcome, remarkFails: bool)
      returns (ok: bool, ids: seq<Id>, ghost gone: set<Id>)
      requires counter.Valid() && counter.Mine().Idle? && batch > 0
      modifies counter
      ensures counter.Valid() && counter.Mine().Idle? && Distinct(ids) && Elements(ids) <= gone
      ensures (ok <==> Done in pops) && (!ok ==> ids == []) && (ok && PopsThrough(pops) == 1 ==> gone == Elements(ids))
      ensures ok && !remarkFails ==> FailedOf(ids, readFails, write) <= counter.st.db.dirty
      ensures old(counter.Silent()) ==>
        && counter.Silent() && gone <= old(counter.st.db.dirty)
        && |old(counter.st.db.dirty) - gone| == Left(|old(counter.st.db.dirty)|, PopsThrough(pops), batch)
        && counter.st.db.keys == old(counter.st.db.keys)
        && counter.st.db.dirty == old(counter.st.db.dirty) - gone
                                  + (if remarkFails then {} else FailedOf(ids, readFails, write))
        && Stored(counter.st, old(counter.st.stored), ids, readFails, write, counter.c.shards)
      ensures old(counter.Silent()) && ok && !remarkFails && Alone(old(counter.st), counter.me, ids) ==>
        counter.st.lost <= old(counter.st.lost) + (gone - Elements(ids))
    {
      hide Inv, Cleared, Disturbed, PopsTaken, PopsThrough, Left, Stored, HeldByOther, Held, Alone, FailedOf;
      ids, ok, gone := counter.PopDirty(batch, pops);
      ghost var popped := counter.st;
      if old(counter.Silent()) {
        PoppedMeans(old(counter.st), popped, counter.me, ids, ok, gone, PopsThrough(pops), batch);
      }
      if |ids| == 0 {
        NothingStored(counter.st, readFails, write, counter.c.shards);
        return;
      }
      FlushAll(ids, readFails, write);
      ghost var before := counter.st;
      counter.Finish(remarkFails);
      if old(counter.Silent()) {
        StoredFrame(before, counter.st, old(counter.st.stored), ids, readFails, write, counter.c.shards);
      }
    }

    /** `times` ticks of the worker with no failures and nobody else: as soon as `times`
        batches cover the dirty set it is empty, and every total that was due is the true sum. */
    method Drain(times: nat)
      requires counter.Valid() && counter.Mine().Idle? && counter.Silent() && batch > 0
      modifies counter
      ensures counter.Valid() && counter.Mine().Idle? && counter.st.db.keys == old(counter.st.db.keys)
      ensures |counter.st.db.dirty| == Left(|old(counter.st.db.dirty)|, times, batch)
      ensures forall id :: id in old(counter.st.db.dirty) - counter.st.db.dirty ==>
        id in counter.st.stored && counter.st.stored[id] == Sum(counter.st.db, id, counter.c.shards)
    {
      for t := 0 to times
        invariant counter.Valid() && counter.Mine().Idle? && counter.Silent()
        invariant counter.st.db.keys == old(counter.st.db.keys) && counter.st.db.dirty <= old(counter.st.db.dirty)
        invariant |counter.st.db.dirty| == Left(|old(counter.st.db.dirty)|, t, batch)
        invariant forall id :: id in old(counter.st.db.dirty) - counter.st.db.dirty ==>
          id in counter.st.stored && counter.st.stored[id] == Sum(counter.st.db, id, counter.c.shards)
      {
        ghost var before := counter.st;
        assert PopsThrough([Done]) == 1;
        var _, ids, gone := Flush([Done], _ => false, _ => Done, false);
        assert FailedOf(ids, _ => false, _ => Done) == {};
        DistinctSize(ids);
        LeftNext(|old(counter.st.db.dirty)|, t, batch);
        forall id ensures Sum(counter.st.db, id, counter.c.shards) == Sum(before.db, id, counter.c.shards) {
          SumFrame(before.db, counter.st.db, id, counter.c.shards);
        }
      }
    }
  }

  /** What is left of `size` entities after `times` batches. */
  function Left(size: nat, times: nat, batch: nat): nat {
    if times * batch >= size then 0 else size - times * batch
  }

  lemma LeftNext(size: nat, t: nat, batch: nat)
    ensures Left(size, t + 1, batch) == Left(size, t, batch) - Text.Min(batch, Left(size, t, batch))
  {
    assert (t + 1) * batch == t * batch + batch;
  }

  /** Ceiling many batches leave nothing, and one fewer leaves something. */
  lemma CeilingDrains(size: nat, batch: nat)
    requires batch > 0
    ensures Left(size, (size + batch - 1) / batch, batch) == 0
    ensures size > 0 ==> Left(size, (size + batch - 1) / batch - 1, batch) > 0
  {
    var q := (size + batch - 1) / batch;
    assert q * batch <= size + batch - 1 < q * batch + batch;
    if size > 0 {
      assert (q - 1) * batch == q * batch - batch;
    }
  }

  /** The write has got to the database when the call returns. */
  predicate Reaches(write: Outcome) {
    write == Done || write == FailedButApplied
  }

  predicate Fails(id: Id, readFails: Id -> bool, write: Id -> Outcome) {
    readFails(id) || write(id) != Done
  }

  function FailedOf(ids: seq<Id>, readFails: Id -> bool, write: Id -> Outcome): set<Id> {
    set id | id in ids && Fails(id, readFails, write)
  }

  /** Exactly the entities of `ids` whose write reached the database have their shard sum stored. */
  ghost predicate Stored(st: State, before: map<Id, int>, ids: seq<Id>, readFails: Id -> bool, write: Id -> Outcome,
                         n: nat) {
    forall id ::
      if id in ids && !readFails(id) && Reaches(write(id))
      then id in st.stored && st.stored[id] == Sum(st.db, id, n)
      else (id in st.stored <==> id in before) && (id in before ==> st.stored[id] == before[id])
  }

  lemma ElementsSnoc(ids: seq<Id>, id: Id)
    ensures Elements(ids + [id]) == Elements(ids) + {id}
  {
  }

  lemma StoredFrame(s: State, s': State, before: map<Id, int>, ids: seq<Id>, readFails: Id -> bool,
                    write: Id -> Outcome, n: nat)
    requires Stored(s, before, ids, readFails, write, n) && s'.stored == s.stored && s'.db.keys == s.db.keys
    ensures Stored(s', before, ids, readFails, write, n)
  {
    forall id ensures Sum(s'.db, id, n) == Sum(s.db, id, n) {
      SumFrame(s.db, s'.db, id, n);
    }
  }

  lemma FailedSnoc(ids: seq<Id>, id: Id, readFails: Id -> bool, write: Id -> Outcome)
    ensures FailedOf(ids + [id], readFails, write)
         == FailedOf(ids, readFails, write) + (if Fails(id, readFails, write) then {id} else {})
  {
  }

  lemma StoredSnoc(st: State, before: map<Id, int>, stored: map<Id, int>, ids: seq<Id>, id: Id,
                   readFails: Id -> bool, write: Id -> Outcome, n: nat)
    requires Stored(st.(stored := stored), before, ids, readFails, write, n) && id !in ids
    requires st.stored == if readFails(id) || !Reaches(write(id)) then stored else stored[id := Sum(st.db, id, n)]
    ensures Stored(st, before, ids + [id], readFails, write, n)
  {
  }
}
