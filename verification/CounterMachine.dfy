/** Sharded counters as an interleaved protocol: every Redis command of every writer and of every
    flush worker is one step, in any order. */
module CounterMachine {

  type Id = string

  datatype Key = Key(id: Id, shard: nat)

  // ----- Redis -----

  datatype Db = Db(keys: map<Key, int>, dirty: set<Id>)

  /** A shard that was never written reads as nothing and adds nothing. */
  function Get(db: Db, id: Id, shard: nat): int {
    if Key(id, shard) in db.keys then db.keys[Key(id, shard)] else 0
  }

  /** The sum of the first `n` shards. */
  function Sum(db: Db, id: Id, n: nat): int {
    if n == 0 then 0 else Sum(db, id, n - 1) + Get(db, id, n - 1)
  }

  function IncrBy(db: Db, id: Id, shard: nat, delta: int): Db {
    db.(keys := db.keys[Key(id, shard) := Get(db, id, shard) + delta])
  }

  function Set(db: Db, id: Id, shard: nat, value: int): Db {
    db.(keys := db.keys[Key(id, shard) := value])
  }

  function Del(db: Db, id: Id, shard: nat): Db {
    db.(keys := db.keys - {Key(id, shard)})
  }

  function SAdd(db: Db, ids: set<Id>): Db {
    db.(dirty := db.dirty + ids)
  }

  function SRem(db: Db, ids: set<Id>): Db {
    db.(dirty := db.dirty - ids)
  }

  // ----- The parties -----

  /** A pipeline under way. */
  datatype Writer =
    | Adding(id: Id)                                // value written, SADD still to come
    | Seeding(id: Id, total: int, next: nat)        // DEL of shard `next` to come; SET when none is left

  /** What a flush worker has in hand between two commands. */
  datatype Job =
    | Idle
    | Draining(todo: seq<Id>, failed: seq<Id>)
    | Reading(id: Id, next: nat, sum: int, todo: seq<Id>, failed: seq<Id>)

  datatype Total = Total(id: Id, value: int)

  /** Every replica may run a worker. `late` are the writes that were reported as failed and are still on
      their way. `touched`, `tally`, `torn` and `lost` record the history: what was ever written; the last
      seed plus all later increments; where an increment hit a shard that a running seed had cleared, or
      such a seed died; and what a fault dropped or two workers held since one worker alone last took it
      up. */
  datatype State = State(
    db: Db, stored: map<Id, int>, writers: map<nat, Writer>, workers: map<nat, Job>, late: set<Total>,
    touched: set<Id>, tally: map<Id, int>, torn: set<Id>, lost: set<Id>)

  /** The faults that may occur: a writer's connection breaks in the middle of its pipeline; the reply
      of an SPOP is lost; a worker crashes; re-marking fails; a write that was reported as failed reaches
      the database later. `overlap`: a worker may pop what another one still holds. `lateIncr`: an
      increment may pick a shard that a running seed of its entity has already cleared. */
  datatype Config = Config(
    shards: nat, writerDies: bool, popLost: bool, crash: bool, remarkFails: bool, lateWrite: bool, overlap: bool,
    lateIncr: bool)

  /** `w` is a writer, `k` a flush worker. */
  datatype Action =
    | Incr(w: nat, id: Id, shard: nat, delta: int)
    | SeedStart(w: nat, id: Id, total: int)
    | SeedDel(w: nat)
    | SeedSet(w: nat)
    | WriterSAdd(w: nat)
    | WriterDies(w: nat)
    | Pop(k: nat, ids: seq<Id>)
    | PopLost(k: nat, ids: seq<Id>)
    | NextId(k: nat)
    | ReadShard(k: nat)
    | ReadFails(k: nat)
    | Write(k: nat)
    | WriteFails(k: nat, applied: bool)
    | WriteLingers(k: nat)
    | Land(late: Total)
    | Remark(k: nat)
    | RemarkFails(k: nat)
    | Crash(k: nat)

  predicate IsWriterAction(a: Action) {
    a.Incr? || a.SeedStart? || a.SeedDel? || a.SeedSet? || a.WriterSAdd? || a.WriterDies?
  }

  predicate Enabled(c: Config, s: State, a: Action) {
    match a
    case Incr(w, id, shard, delta) =>
      w !in s.writers && shard < c.shards && delta != 0 && (!c.lateIncr ==> !Cleared(s, id, shard))
    case SeedStart(w, id, total) => w !in s.writers
    case SeedDel(w) => w in s.writers && s.writers[w].Seeding? && s.writers[w].next < c.shards
    case SeedSet(w) => w in s.writers && s.writers[w].Seeding? && s.writers[w].next >= c.shards
    case WriterSAdd(w) => w in s.writers && s.writers[w].Adding?
    case WriterDies(w) => c.writerDies && w in s.writers
    case Pop(k, ids) =>
      Work(s, k).Idle? && forall id :: id in ids ==> id in s.db.dirty && (!c.overlap ==> !HeldByOther(s, k, id))
    case PopLost(k, ids) => c.popLost && Work(s, k).Idle? && forall id :: id in ids ==> id in s.db.dirty
    case NextId(k) => Work(s, k).Draining? && Work(s, k).todo != []
    case ReadShard(k) => Work(s, k).Reading? && Work(s, k).next < c.shards
    case ReadFails(k) => Work(s, k).Reading?
    case Write(k) => Work(s, k).Reading? && Work(s, k).next >= c.shards
    case WriteFails(k, _) => Work(s, k).Reading? && Work(s, k).next >= c.shards
    case WriteLingers(k) => c.lateWrite && Work(s, k).Reading? && Work(s, k).next >= c.shards
    case Land(late) => late in s.late
    case Remark(k) => Work(s, k).Draining? && Work(s, k).todo == []
    case RemarkFails(k) => Work(s, k).Draining? && Work(s, k).todo == [] && (Work(s, k).failed == [] || c.remarkFails)
    case Crash(k) => Work(s, k).Idle? || c.crash
  }

  function Elements(ids: seq<Id>): set<Id> {
    set id | id in ids
  }

  function Held(job: Job): set<Id> {
    match job
    case Idle => {}
    case Draining(todo, failed) => Elements(todo) + Elements(failed)
    case Reading(id, _, _, todo, failed) => {id} + Elements(todo) + Elements(failed)
  }

  function Work(s: State, k: nat): Job {
    if k in s.workers then s.workers[k] else Idle
  }

  /** Some worker has popped `id` and is not done with it. */
  predicate InHands(s: State, id: Id) {
    exists k :: k in s.workers && id in Held(s.workers[k])
  }

  predicate HeldByOther(s: State, k: nat, id: Id) {
    exists j :: j in s.workers && j != k && id in Held(s.workers[j])
  }

  /** A writer has changed or is about to change `id`, and its SADD is still to come. */
  predicate Owes(s: State, id: Id) {
    exists w :: w in s.writers && s.writers[w].id == id
  }

  /** A seed of `id` under way has deleted this shard. */
  predicate Cleared(s: State, id: Id, shard: nat) {
    exists w :: w in s.writers && s.writers[w].Seeding? && s.writers[w].id == id && 1 <= shard < s.writers[w].next
  }

  /** A seed of `id` that has begun to delete. */
  predicate Deleting(p: Writer, id: Id) {
    p.Seeding? && p.id == id && p.next > 1
  }

  /** A seed of `id` under way has begun to delete. */
  predicate Disturbed(s: State, id: Id) {
    exists w :: w in s.writers && Deleting(s.writers[w], id)
  }

  function Tally(s: State, id: Id): int {
    if id in s.tally then s.tally[id] else 0
  }

  /** The entity just read could not be read or written; it will be marked again. */
  function GaveUp(p: Job): Job
    requires p.Reading?
  {
    Draining(p.todo, p.failed + [p.id])
  }

  function Apply(c: Config, s: State, a: Action): State
    requires Enabled(c, s, a)
  {
    match a
    case Incr(w, id, shard, delta) =>
      s.(db := IncrBy(s.db, id, shard, delta), writers := s.writers[w := Adding(id)], touched := s.touched + {id},
         tally := s.tally[id := Tally(s, id) + delta], torn := if Cleared(s, id, shard) then s.torn + {id} else s.torn)
    case SeedStart(w, id, total) =>
      s.(writers := s.writers[w := Seeding(id, total, 1)], touched := s.touched + {id})
    case SeedDel(w) =>
      var p := s.writers[w];
      s.(db := Del(s.db, p.id, p.next), writers := s.writers[w := p.(next := p.next + 1)],
         torn := if Disturbed(s, p.id) then s.torn else s.torn - {p.id})
    case SeedSet(w) =>
      var p := s.writers[w];
      s.(db := Set(s.db, p.id, 0, p.total), writers := s.writers[w := Adding(p.id)], tally := s.tally[p.id := p.total])
    case WriterSAdd(w) =>
      s.(db := SAdd(s.db, {s.writers[w].id}), writers := s.writers - {w})
    case WriterDies(w) =>
      var p := s.writers[w];
      s.(writers := s.writers - {w}, lost := s.lost + {p.id},
         torn := if p.Seeding? && p.next > 1 then s.torn + {p.id} else s.torn)
    case Pop(k, ids) =>
      s.(db := SRem(s.db, Elements(ids)), workers := s.workers[k := if ids == [] then Idle else Draining(ids, [])],
         lost := s.lost + set id | id in ids && HeldByOther(s, k, id))
    case PopLost(k, ids) =>
      s.(db := SRem(s.db, Elements(ids)), lost := s.lost + Elements(ids))
    case NextId(k) =>
      var id, p := Work(s, k).todo[0], Work(s, k);
      s.(workers := s.workers[k := Reading(id, 0, 0, p.todo[1..], p.failed)],
         lost := if HeldByOther(s, k, id) then s.lost else s.lost - {id})
    case ReadShard(k) =>
      var p := Work(s, k);
      s.(workers := s.workers[k := p.(next := p.next + 1, sum := p.sum + Get(s.db, p.id, p.next))])
    case ReadFails(k) =>
      s.(workers := s.workers[k := GaveUp(Work(s, k))])
    case Write(k) =>
      var p := Work(s, k);
      s.(stored := s.stored[p.id := p.sum], workers := s.workers[k := Draining(p.todo, p.failed)])
    case WriteFails(k, applied) =>
      var p := Work(s, k);
      s.(stored := if applied then s.stored[p.id := p.sum] else s.stored, workers := s.workers[k := GaveUp(p)])
    case WriteLingers(k) =>
      var p := Work(s, k);
      s.(late := s.late + {Total(p.id, p.sum)}, workers := s.workers[k := GaveUp(p)])
    case Land(t) =>
      s.(stored := s.stored[t.id := t.value], late := s.late - {t}, lost := s.lost + {t.id})
    case Remark(k) =>
      s.(db := SAdd(s.db, Elements(Work(s, k).failed)), workers := s.workers[k := Idle])
    case RemarkFails(k) =>
      s.(workers := s.workers[k := Idle], lost := s.lost + Elements(Work(s, k).failed))
    case Crash(k) =>
      s.(workers := s.workers[k := Idle], lost := s.lost + Held(Work(s, k)))
  }

  const INIT := State(Db(map[], {}), map[], map[], map[], {}, {}, map[], {}, {})

  /** Redis starts empty; the stored totals may be anything. */
  predicate Init(s: State) {
    s == INIT.(stored := s.stored)
  }

  ghost predicate IsRun(c: Config, s: State, run: seq<Action>, t: State)
    decreases |run|
  {
    if run == [] then s == t
    else Enabled(c, s, run[0]) && IsRun(c, Apply(c, s, run[0]), run[1..], t)
  }

  // ----- No write is ever lost -----

  /** The stored total of `id` is right, or something that is still alive remembers that it may not be. */
  predicate Remembered(n: nat, s: State, id: Id) {
    || (id in s.stored && s.stored[id] == Sum(s.db, id, n))
    || id in s.db.dirty
    || Owes(s, id)
    || InHands(s, id)
  }

  predicate Covered(n: nat, s: State, id: Id) {
    Remembered(n, s, id) || id in s.lost
  }

  /** What a worker has summed up is right, or will be redone. */
  predicate Fresh(n: nat, s: State, p: Job) {
    p.Reading? ==>
      p.next <= n && (p.id in s.db.dirty || Owes(s, p.id) || p.id in s.lost || p.sum == Sum(s.db, p.id, p.next))
  }

  ghost predicate Inv(c: Config, s: State) {
    && (forall k :: k in s.workers ==> Fresh(c.shards, s, s.workers[k]))
    && forall id :: id in s.touched ==> Covered(c.shards, s, id)
  }

  lemma {:induction false} SumFrame(db: Db, db': Db, id: Id, n: nat)
    requires forall i: nat :: i < n ==> Get(db', id, i) == Get(db, id, i)
    ensures Sum(db', id, n) == Sum(db, id, n)
  {
    if n > 0 {
      SumFrame(db, db', id, n - 1);
    }
  }

  /** A command on one entity leaves the sums of all others alone. */
  lemma SumOthers(s: State, s': State, id: Id, n: nat)
    requires forall k: Key :: k.id == id ==> (k in s'.db.keys <==> k in s.db.keys)
    requires forall k: Key :: k.id == id && k in s.db.keys ==> s'.db.keys[k] == s.db.keys[k]
    ensures Sum(s'.db, id, n) == Sum(s.db, id, n)
  {
    SumFrame(s.db, s'.db, id, n);
  }

  lemma OwesKept(s: State, s': State, w: nat)
    requires w in s'.writers && (w in s.writers ==> s'.writers[w].id == s.writers[w].id)
    requires s'.writers - {w} == s.writers - {w}
    ensures forall id :: Owes(s, id) ==> Owes(s', id)
    ensures Owes(s', s'.writers[w].id)
  {
    forall id | Owes(s, id) ensures Owes(s', id) {
      var v :| v in s.writers && s.writers[v].id == id;
      if v != w {
        assert v in s.writers - {w};
        assert v in (s'.writers - {w}) && (s'.writers - {w})[v] == (s.writers - {w})[v];
      }
      assert v in s'.writers && s'.writers[v].id == id;
    }
  }

  /** A writer's step changes the sums of one entity only, and then it owes an SADD for it. */
  lemma WriterOwes(c: Config, s: State, a: Action, id: Id)
    requires Enabled(c, s, a) && IsWriterAction(a)
    ensures var s' := Apply(c, s, a);
            && (Owes(s, id) ==> Owes(s', id) || id in s'.db.dirty || id in s'.lost)
            && (Owes(s', id) || id in s'.db.dirty || id in s'.lost
                || forall m: nat :: Sum(s'.db, id, m) == Sum(s.db, id, m))
            && (id in s'.touched ==> id in s.touched || Owes(s', id))
  {
    hide Cleared, Disturbed;
    var s' := Apply(c, s, a);
    if a.WriterSAdd? || a.WriterDies? {
      if Owes(s, id) {
        var v :| v in s.writers && s.writers[v].id == id;
        assert v != a.w ==> v in s'.writers && s'.writers[v].id == id;
      }
    } else {
      OwesKept(s, s', a.w);
    }
    if id != (if a.Incr? || a.SeedStart? then a.id else s.writers[a.w].id) {
      forall m: nat ensures Sum(s'.db, id, m) == Sum(s.db, id, m) {
        SumOthers(s, s', id, m);
      }
    }
  }

  lemma WriterKeepsInv(c: Config, s: State, a: Action)
    requires Inv(c, s) && Enabled(c, s, a) && IsWriterAction(a)
    ensures Inv(c, Apply(c, s, a)) && Apply(c, s, a).workers == s.workers
  {
    hide Cleared, Disturbed, Owes;
    var s' := Apply(c, s, a);
    assert s.db.dirty <= s'.db.dirty && s.lost <= s'.lost && s'.stored == s.stored && s'.workers == s.workers;
    assert forall id :: InHands(s, id) ==> InHands(s', id);
    hide Apply, InHands;
    forall k | k in s'.workers ensures Fresh(c.shards, s', s'.workers[k]) {
      assert Fresh(c.shards, s, s.workers[k]);
      if s.workers[k].Reading? {
        var p := s.workers[k];
        WriterOwes(c, s, a, p.id);
        assert p.id in s'.db.dirty || Owes(s', p.id) || p.id in s'.lost || Sum(s'.db, p.id, p.next) == p.sum;
      }
    }
    forall id | id in s'.touched ensures Covered(c.shards, s', id) {
      WriterOwes(c, s, a, id);
      assert id in s.touched ==> Covered(c.shards, s, id);
      assert id in s'.db.dirty || Owes(s', id) || id in s'.lost || Sum(s'.db, id, c.shards) == Sum(s.db, id, c.shards);
    }
  }

  /** The steps of a worker, and late writes, change no shard and no writer. */
  lemma WorkerFrame(c: Config, s: State, a: Action, id: Id)
    requires Enabled(c, s, a) && !IsWriterAction(a)
    ensures var s' := Apply(c, s, a);
            && Owes(s', id) == Owes(s, id) && s'.touched == s.touched
            && forall m: nat :: Sum(s'.db, id, m) == Sum(s.db, id, m)
  {
    var s' := Apply(c, s, a);
    assert s'.writers == s.writers && s'.touched == s.touched && s'.db.keys == s.db.keys;
    forall m: nat ensures Sum(s'.db, id, m) == Sum(s.db, id, m) {
      SumOthers(s, s', id, m);
    }
  }

  /** What one worker does leaves the others' sums right or to be redone. */
  lemma WorkersStayFresh(c: Config, s: State, a: Action, k: nat)
    requires Inv(c, s) && Enabled(c, s, a) && !IsWriterAction(a) && k in Apply(c, s, a).workers
    ensures Fresh(c.shards, Apply(c, s, a), Apply(c, s, a).workers[k])
  {
    hide Owes, Covered;
    var s' := Apply(c, s, a);
    var p := s'.workers[k];
    if p.Reading? {
      WorkerFrame(c, s, a, p.id);
      if a.Land? || k != a.k {
        assert k in s.workers && s.workers[k] == p && Fresh(c.shards, s, p);
        assert p.id in Held(s.workers[k]);
      } else {
        assert a.ReadShard? ==> Fresh(c.shards, s, Work(s, k));
      }
    }
  }

  /** Who holds an entity goes on holding it, or has put it down somewhere. */
  lemma WorkerStaysCovered(c: Config, s: State, a: Action, id: Id)
    requires Inv(c, s) && Enabled(c, s, a) && !IsWriterAction(a) && Covered(c.shards, s, id)
    ensures Covered(c.shards, Apply(c, s, a), id)
  {
    hide Owes;
    var s' := Apply(c, s, a);
    WorkerFrame(c, s, a, id);
    if InHands(s, id) {
      var j :| j in s.workers && id in Held(s.workers[j]);
      if a.Land? || j != a.k {
        assert j in s'.workers && s'.workers[j] == s.workers[j];
      } else if a.NextId? {
        assert s.workers[j].todo == [s.workers[j].todo[0]] + s.workers[j].todo[1..];
        assert id in Held(s'.workers[j]);
      }
    }
    if !a.Land? && !a.PopLost? {
      assert a.k in s'.workers;
    }
    assert (a.Write? || a.WriteFails?) ==> Fresh(c.shards, s, s.workers[a.k]);
  }

  lemma WorkerKeepsInv(c: Config, s: State, a: Action)
    requires Inv(c, s) && Enabled(c, s, a) && !IsWriterAction(a)
    ensures Inv(c, Apply(c, s, a))
  {
    hide Fresh, Covered;
    forall k | k in Apply(c, s, a).workers ensures Fresh(c.shards, Apply(c, s, a), Apply(c, s, a).workers[k]) {
      WorkersStayFresh(c, s, a, k);
    }
    forall id | id in Apply(c, s, a).touched ensures Covered(c.shards, Apply(c, s, a), id) {
      WorkerFrame(c, s, a, id);
      WorkerStaysCovered(c, s, a, id);
    }
  }

  lemma StepKeepsInv(c: Config, s: State, a: Action)
    requires Inv(c, s) && Enabled(c, s, a)
    ensures Inv(c, Apply(c, s, a))
  {
    if IsWriterAction(a) {
      WriterKeepsInv(c, s, a);
    } else {
      WorkerKeepsInv(c, s, a);
    }
  }

  /** Under every interleaving of any number of writers and workers, whatever fails: the stored total of
      everything ever written is its shard sum, or the entity is in the dirty set, or a writer under way
      has yet to add it, or a worker holds it, or a fault dropped it or two workers held it since one
      worker alone last took it up. */
  lemma {:induction false} EveryWriteIsCovered(c: Config, s: State, run: seq<Action>, t: State)
    requires Inv(c, s) && IsRun(c, s, run, t)
    ensures Inv(c, t)
    decreases |run|
  {
    hide Inv, Enabled, Apply;
    if run != [] {
      StepKeepsInv(c, s, run[0]);
      EveryWriteIsCovered(c, Apply(c, s, run[0]), run[1..], t);
    }
  }

  predicate Faultless(c: Config) {
    !c.writerDies && !c.popLost && !c.crash && !c.remarkFails && !c.lateWrite
  }

  lemma StepLosesNothing(c: Config, s: State, a: Action)
    requires Faultless(c) && !c.overlap && Enabled(c, s, a) && s.lost == {} && s.late == {}
    ensures Apply(c, s, a).lost == {} && Apply(c, s, a).late == {}
  {
    hide Cleared, Disturbed;
  }

  lemma {:induction false} RunLosesNothing(c: Config, s: State, run: seq<Action>, t: State)
    requires Faultless(c) && !c.overlap && IsRun(c, s, run, t) && s.lost == {} && s.late == {}
    ensures t.lost == {}
    decreases |run|
  {
    hide Enabled, Apply;
    if run != [] {
      StepLosesNothing(c, s, run[0]);
      RunLosesNothing(c, Apply(c, s, run[0]), run[1..], t);
    }
  }

  /** Without faults, and with no worker popping what another one holds, nothing ever written is
      forgotten; in particular when workers take turns. */
  lemma NothingIsLost(c: Config, s: State, run: seq<Action>, t: State, id: Id)
    requires Faultless(c) && !c.overlap && Init(s) && IsRun(c, s, run, t) && id in t.touched
    ensures Remembered(c.shards, t, id)
  {
    hide IsRun;
    EveryWriteIsCovered(c, s, run, t);
    RunLosesNothing(c, s, run, t);
    assert Covered(c.shards, t, id);
  }

  // ----- Every fault loses something -----

  lemma {:induction false} Extend(c: Config, s: State, run: seq<Action>, t: State, a: Action)
    requires IsRun(c, s, run, t) && Enabled(c, t, a)
    ensures IsRun(c, s, run + [a], Apply(c, t, a))
    decreases |run|
  {
    hide Enabled, Apply;
    if run == [] {
      assert [a][1..] == [];
      assert IsRun(c, Apply(c, t, a), [], Apply(c, t, a));
    } else {
      Extend(c, Apply(c, s, run[0]), run[1..], t, a);
      assert (run + [a])[1..] == run[1..] + [a];
    }
  }

  /** One more step of a run. */
  lemma Then(c: Config, s: State, run: seq<Action>, t: State, a: Action) returns (run': seq<Action>, t': State)
    requires IsRun(c, s, run, t) && Enabled(c, t, a)
    ensures IsRun(c, s, run', t') && t' == Apply(c, t, a)
  {
    Extend(c, s, run, t, a);
    return run + [a], Apply(c, t, a);
  }

  /** The state after one increment by 7 that is not yet in the dirty set. */
  const ONE := INIT.(db := Db(map[Key("e", 0) := 7], {}), touched := {"e"}, tally := map["e" := 7])

  lemma OneIncrement(c: Config) returns (run: seq<Action>, t: State)
    requires c.shards > 0
    ensures IsRun(c, INIT, run, t) && t == ONE.(writers := map[0 := Adding("e")])
  {
    run, t := [], INIT;
    assert IsRun(c, INIT, run, t);
    hide IsRun;
    run, t := Then(c, INIT, run, t, Incr(0, "e", 0, 7));
  }

  /** One increment, popped by a worker. */
  lemma OnePopped(c: Config) returns (run: seq<Action>, t: State)
    requires c.shards > 0
    ensures IsRun(c, INIT, run, t) && t == ONE.(workers := map[0 := Draining(["e"], [])])
  {
    hide IsRun;
    run, t := OneDirty(c);
    run, t := Then(c, INIT, run, t, Pop(0, ["e"]));
    assert t.db.dirty == {};
  }

  lemma OneDirty(c: Config) returns (run: seq<Action>, t: State)
    requires c.shards > 0
    ensures IsRun(c, INIT, run, t) && t == ONE.(db := SAdd(ONE.db, {"e"}))
  {
    hide IsRun;
    run, t := OneIncrement(c);
    run, t := Then(c, INIT, run, t, WriterSAdd(0));
    assert t.writers == map[];
  }

  lemma OneIsForgotten(c: Config, t: State)
    requires c.shards > 0 && t == ONE.(lost := t.lost, workers := t.workers)
    requires forall k :: k in t.workers ==> t.workers[k].Idle?
    ensures "e" in t.touched && !Remembered(c.shards, t, "e")
  {
    assert forall i: nat :: 0 < i < c.shards ==> Get(t.db, "e", i) == 0;
    SumOfOne(t.db, "e", c.shards);
  }

  /** A connection that breaks between INCRBY and SADD leaves a total wrong with nobody to repair it. */
  lemma BrokenPipelineLoses(c: Config) returns (run: seq<Action>, t: State)
    requires c.shards > 0 && c.writerDies
    ensures IsRun(c, INIT, run, t) && "e" in t.touched && !Remembered(c.shards, t, "e")
  {
    hide IsRun;
    run, t := OneIncrement(c);
    run, t := Then(c, INIT, run, t, WriterDies(0));
    assert t.writers == map[];
    OneIsForgotten(c, t);
  }

  /** So does a popped batch whose reply never arrives... */
  lemma LostPopLoses(c: Config) returns (run: seq<Action>, t: State)
    requires c.shards > 0 && c.popLost
    ensures IsRun(c, INIT, run, t) && "e" in t.touched && !Remembered(c.shards, t, "e")
  {
    hide IsRun;
    run, t := OneDirty(c);
    run, t := Then(c, INIT, run, t, PopLost(0, ["e"]));
    assert t.db.dirty == {};
    OneIsForgotten(c, t);
  }

  /** ...a worker that crashes on a popped batch... */
  lemma CrashLoses(c: Config) returns (run: seq<Action>, t: State)
    requires c.shards > 0 && c.crash
    ensures IsRun(c, INIT, run, t) && "e" in t.touched && !Remembered(c.shards, t, "e")
  {
    hide IsRun;
    run, t := OnePopped(c);
    run, t := Then(c, INIT, run, t, Crash(0));
    OneIsForgotten(c, t);
  }

  /** ...a failed re-mark... */
  lemma FailedRemarkLoses(c: Config) returns (run: seq<Action>, t: State)
    requires c.shards > 0 && c.remarkFails
    ensures IsRun(c, INIT, run, t) && "e" in t.touched && !Remembered(c.shards, t, "e")
  {
    hide IsRun, HeldByOther, Remembered;
    run, t := OnePopped(c);
    run, t := Then(c, INIT, run, t, NextId(0));
    run, t := Then(c, INIT, run, t, ReadFails(0));
    assert t.workers[0] == Draining([], ["e"]);
    run, t := Then(c, INIT, run, t, RemarkFails(0));
    OneIsForgotten(c, t);
  }

  /** A worker reads all shards of "e". */
  lemma {:induction false} ReadAll(c: Config, run: seq<Action>, t: State, k: nat, i: nat)
    returns (run': seq<Action>, t': State)
    requires IsRun(c, INIT, run, t) && i <= c.shards
    requires k in t.workers && t.workers[k] == Reading("e", i, Sum(t.db, "e", i), [], [])
    ensures IsRun(c, INIT, run', t')
    ensures t' == t.(workers := t.workers[k := Reading("e", c.shards, Sum(t.db, "e", c.shards), [], [])])
    decreases c.shards - i
  {
    hide IsRun;
    run', t' := run, t;
    if i < c.shards {
      run', t' := Then(c, INIT, run, t, ReadShard(k));
      run', t' := ReadAll(c, run', t', k, i + 1);
    }
    assert t'.workers == t.workers[k := Reading("e", c.shards, Sum(t.db, "e", c.shards), [], [])];
  }

  /** A worker takes up the one dirty entity and sums up its shards. */
  lemma PopAndRead(c: Config, run: seq<Action>, t: State, k: nat) returns (run': seq<Action>, t': State)
    requires IsRun(c, INIT, run, t) && t.db.dirty == {"e"} && Work(t, k).Idle?
      && (!c.overlap ==> !HeldByOther(t, k, "e"))
    ensures IsRun(c, INIT, run', t') && t'.db == t.db.(dirty := {})
      && t' == t.(db := t'.db, workers := t'.workers, lost := t'.lost)
    ensures t'.workers == t.workers[k := Reading("e", c.shards, Sum(t.db, "e", c.shards), [], [])]
  {
    hide IsRun;
    run', t' := Then(c, INIT, run, t, Pop(k, ["e"]));
    assert t'.db.dirty == {};
    run', t' := Then(c, INIT, run', t', NextId(k));
    assert t'.workers[k] == Reading("e", 0, 0, [], []);
    run', t' := ReadAll(c, run', t', k, 0);
    SumFrame(t.db, t'.db, "e", c.shards);
  }

  /** Three more, dirty. */
  lemma ThreeMore(c: Config, run: seq<Action>, t: State) returns (run': seq<Action>, t': State)
    requires c.shards > 0 && IsRun(c, INIT, run, t) && t.db.keys == ONE.db.keys && t.db.dirty <= {"e"}
      && t.writers == map[]
    ensures IsRun(c, INIT, run', t') && t'.db == Db(map[Key("e", 0) := 10], {"e"}) && t'.writers == map[]
    ensures t'.workers == t.workers && t'.late == t.late && "e" in t'.touched
  {
    hide IsRun;
    run', t' := Then(c, INIT, run, t, Incr(0, "e", 0, 3));
    assert t'.db.keys == map[Key("e", 0) := 10];
    run', t' := Then(c, INIT, run', t', WriterSAdd(0));
    assert t'.writers == map[];
  }

  lemma SevenIsWrong(c: Config, t: State)
    requires c.shards > 0 && t.db == Db(map[Key("e", 0) := 10], {}) && t.writers == map[] && "e" in t.stored
      && t.stored["e"] == 7
    requires forall k :: k in t.workers ==> t.workers[k].Idle?
    ensures !Remembered(c.shards, t, "e")
  {
    SumOfOne(t.db, "e", c.shards);
  }

  /** A worker stores what it has summed up, and is done. */
  lemma StoreIt(c: Config, run: seq<Action>, t: State, k: nat, sum: int) returns (run': seq<Action>, t': State)
    requires IsRun(c, INIT, run, t) && k in t.workers && t.workers[k] == Reading("e", c.shards, sum, [], [])
    ensures IsRun(c, INIT, run', t')
    ensures t' == t.(stored := t.stored["e" := sum], workers := t.workers[k := Idle])
  {
    hide IsRun;
    run', t' := Then(c, INIT, run, t, Write(k));
    run', t' := Then(c, INIT, run', t', Remark(k));
    assert t'.db.dirty == t.db.dirty;
    assert t'.workers == t.workers[k := Idle];
  }

  /** A worker has summed up 7. */
  lemma SevenRead(c: Config) returns (run: seq<Action>, t: State)
    requires c.shards > 0
    ensures IsRun(c, INIT, run, t) && t == ONE.(workers := map[0 := Reading("e", c.shards, 7, [], [])], lost := t.lost)
  {
    hide IsRun;
    run, t := OneDirty(c);
    SumOfOne(t.db, "e", c.shards);
    run, t := PopAndRead(c, run, t, 0);
  }

  /** ...a write that was reported as failed and reaches the database after the next one... */
  lemma LateWriteLoses(c: Config) returns (run: seq<Action>, t: State)
    requires c.shards > 0 && c.lateWrite
    ensures IsRun(c, INIT, run, t) && "e" in t.touched && !Remembered(c.shards, t, "e")
  {
    hide IsRun, Remembered, Sum;
    run, t := SevenRead(c);
    run, t := Then(c, INIT, run, t, WriteLingers(0));
    assert t.workers[0] == Draining([], ["e"]);
    run, t := Then(c, INIT, run, t, Remark(0));
    run, t := ThreeMore(c, run, t);
    assert t.late == {Total("e", 7)};
    hide Apply, Enabled;
    run, t := PopAndRead(c, run, t, 0);
    run, t := StoreIt(c, run, t, 0, t.workers[0].sum);
    run, t := LandLast(c, run, t);
  }

  /** The late write, after everything else. */
  lemma LandLast(c: Config, run: seq<Action>, t: State) returns (run': seq<Action>, t': State)
    requires c.shards > 0 && IsRun(c, INIT, run, t) && Total("e", 7) in t.late && "e" in t.touched
    requires t.db == Db(map[Key("e", 0) := 10], {}) && t.writers == map[]
    requires forall k :: k in t.workers ==> t.workers[k].Idle?
    ensures IsRun(c, INIT, run', t') && "e" in t'.touched && !Remembered(c.shards, t', "e")
  {
    hide IsRun, Remembered;
    run', t' := Then(c, INIT, run, t, Land(Total("e", 7)));
    SevenIsWrong(c, t');
  }

  /** ...and, with no fault at all, two workers at one entity: the one that summed it up first writes last. */
  lemma TwoWorkersLose(c: Config) returns (run: seq<Action>, t: State)
    requires c.shards > 0 && c.overlap
    ensures IsRun(c, INIT, run, t) && "e" in t.touched && !Remembered(c.shards, t, "e")
  {
    hide IsRun, Remembered, Sum, Apply, Enabled;
    run, t := SevenRead(c);
    run, t := ThreeMore(c, run, t);
    run, t := PopAndRead(c, run, t, 1);
    run, t := StoreIt(c, run, t, 1, t.workers[1].sum);
    run, t := StoreIt(c, run, t, 0, 7);
    SevenIsWrong(c, t);
  }

  /** In no run is anything written ever forgotten. */
  ghost predicate NeverForgets(c: Config) {
    forall s, run, t, id :: Init(s) && IsRun(c, s, run, t) && id in t.touched ==> Remembered(c.shards, t, id)
  }

  /** In every run every total ever written is stored right, or dirty, or owed by a writer under way, or
      in a worker's hands, exactly when none of the five faults can occur and no worker pops what another
      one still holds. */
  lemma NothingIsLostExactly(c: Config)
    requires c.shards > 0
    ensures NeverForgets(c) <==> Faultless(c) && !c.overlap
  {
    hide IsRun, Remembered;
    if Faultless(c) && !c.overlap {
      forall s, run, t, id | Init(s) && IsRun(c, s, run, t) && id in t.touched
        ensures Remembered(c.shards, t, id)
      {
        NothingIsLost(c, s, run, t, id);
      }
    } else {
      var run, t;
      if c.writerDies {
        run, t := BrokenPipelineLoses(c);
      } else if c.popLost {
        run, t := LostPopLoses(c);
      } else if c.crash {
        run, t := CrashLoses(c);
      } else if c.remarkFails {
        run, t := FailedRemarkLoses(c);
      } else if c.lateWrite {
        run, t := LateWriteLoses(c);
      } else {
        run, t := TwoWorkersLose(c);
      }
      assert Init(INIT) && IsRun(c, INIT, run, t) && "e" in t.touched && !Remembered(c.shards, t, "e");
    }
  }

  lemma {:induction false} SumOfOne(db: Db, id: Id, n: nat)
    requires n > 0 && forall i: nat :: 0 < i < n ==> Get(db, id, i) == 0
    ensures Sum(db, id, n) == Get(db, id, 0)
  {
    if n > 1 {
      SumOfOne(db, id, n - 1);
    }
  }

  // ----- The sum is the right sum -----

  /** A seed under way has cleared what it passed. */
  ghost predicate SeedInv(s: State, id: Id, w: nat)
    requires w in s.writers && s.writers[w].Seeding?
  {
    s.writers[w].id == id ==> forall i: nat :: 1 <= i < s.writers[w].next ==> Get(s.db, id, i) == 0
  }

  /** Untorn, and with no seed deleting, an entity's shards add up to its tally. */
  ghost predicate TallyOf(n: nat, s: State, id: Id) {
    && (Disturbed(s, id) || Sum(s.db, id, n) == Tally(s, id))
    && forall w :: w in s.writers && s.writers[w].Seeding? ==> SeedInv(s, id, w)
  }

  ghost predicate TallyInv(c: Config, s: State) {
    forall id :: id !in s.torn ==> TallyOf(c.shards, s, id)
  }

  lemma {:induction false} SumOfIncr(db: Db, id: Id, shard: nat, delta: int, n: nat)
    ensures Sum(IncrBy(db, id, shard, delta), id, n) == Sum(db, id, n) + (if shard < n then delta else 0)
  {
    if n > 0 {
      SumOfIncr(db, id, shard, delta, n - 1);
    }
  }

  /** A step that changes neither the shards nor the deleting seeds of `id` keeps its tally. */
  lemma TallyFrame(n: nat, s: State, s': State, id: Id)
    requires TallyOf(n, s, id) && Tally(s', id) == Tally(s, id)
    requires forall k: Key :: k.id == id ==> (k in s'.db.keys <==> k in s.db.keys)
    requires forall k: Key :: k.id == id && k in s.db.keys ==> s'.db.keys[k] == s.db.keys[k]
    requires forall w :: w in s'.writers && Deleting(s'.writers[w], id) ==>
               w in s.writers && s.writers[w] == s'.writers[w]
    requires forall w :: w in s.writers && Deleting(s.writers[w], id) ==>
               w in s'.writers && s.writers[w] == s'.writers[w]
    ensures TallyOf(n, s', id)
  {
    SumOthers(s, s', id, n);
    if Disturbed(s, id) {
      var w :| w in s.writers && Deleting(s.writers[w], id);
      assert w in s'.writers && s'.writers[w] == s.writers[w];
    }
    forall w | w in s'.writers && s'.writers[w].Seeding? ensures SeedInv(s', id, w) {
      if s'.writers[w].id == id && s'.writers[w].next > 1 {
        assert SeedInv(s, id, w);
        forall i: nat | 1 <= i < s'.writers[w].next ensures Get(s'.db, id, i) == 0 {
          assert Get(s.db, id, i) == 0;
          assert Key(id, i) in s'.db.keys <==> Key(id, i) in s.db.keys;
        }
      }
    }
  }

  /** An increment of a shard that no running seed has deleted. */
  lemma IncrKeepsTally(c: Config, s: State, w: nat, id: Id, shard: nat, delta: int)
    requires TallyInv(c, s) && Enabled(c, s, Incr(w, id, shard, delta))
      && id !in Apply(c, s, Incr(w, id, shard, delta)).torn
    ensures TallyOf(c.shards, Apply(c, s, Incr(w, id, shard, delta)), id)
  {
    var s' := Apply(c, s, Incr(w, id, shard, delta));
    SumOfIncr(s.db, id, shard, delta, c.shards);
    if Disturbed(s, id) {
      var v :| v in s.writers && Deleting(s.writers[v], id);
      assert v in s'.writers && s'.writers[v] == s.writers[v];
    }
    forall v | v in s'.writers && s'.writers[v].Seeding? ensures SeedInv(s', id, v) {
      assert v in s.writers && s'.writers[v] == s.writers[v] && SeedInv(s, id, v);
      if s.writers[v].id == id {
        assert !(1 <= shard < s.writers[v].next);
        assert forall i: nat :: i != shard ==> Get(s'.db, id, i) == Get(s.db, id, i);
      }
    }
  }

  /** A DEL: the first one of a seed, with no other seed deleting, mends a torn entity. */
  lemma DelKeepsTally(c: Config, s: State, w: nat)
    requires TallyInv(c, s) && Enabled(c, s, SeedDel(w)) && s.writers[w].next >= 1
    requires s.writers[w].id !in Apply(c, s, SeedDel(w)).torn
    ensures TallyOf(c.shards, Apply(c, s, SeedDel(w)), s.writers[w].id)
  {
    var s', id := Apply(c, s, SeedDel(w)), s.writers[w].id;
    assert w in s'.writers && Deleting(s'.writers[w], id);
    forall v | v in s'.writers && s'.writers[v].Seeding? ensures SeedInv(s', id, v) {
      if s'.writers[v].id == id {
        forall i: nat | 1 <= i < s'.writers[v].next ensures Get(s'.db, id, i) == 0 {
          if i != s.writers[w].next {
            assert Get(s'.db, id, i) == Get(s.db, id, i);
            assert v in s.writers && 1 <= i < s.writers[v].next && s.writers[v].Seeding? && s.writers[v].id == id;
            assert Disturbed(s, id) && id !in s.torn;
            assert SeedInv(s, id, v);
          }
        }
      }
    }
  }

  /** The SET of a seed that found no increment behind it. */
  lemma SetKeepsTally(c: Config, s: State, w: nat)
    requires c.shards > 0 && TallyInv(c, s) && Enabled(c, s, SeedSet(w)) && s.writers[w].id !in s.torn
    ensures TallyOf(c.shards, Apply(c, s, SeedSet(w)), s.writers[w].id)
  {
    var s', id := Apply(c, s, SeedSet(w)), s.writers[w].id;
    assert SeedInv(s, id, w);
    assert forall i: nat :: 1 <= i ==> Get(s'.db, id, i) == Get(s.db, id, i);
    SumOfOne(s'.db, id, c.shards);
    forall v | v in s'.writers && s'.writers[v].Seeding? ensures SeedInv(s', id, v) {
      assert v in s.writers && s'.writers[v] == s.writers[v] && SeedInv(s, id, v);
    }
  }

  /** Seeds start with shard 1. */
  ghost predicate SeedsInOrder(s: State) {
    forall w :: w in s.writers && s.writers[w].Seeding? ==> s.writers[w].next >= 1
  }

  lemma StepKeepsTally(c: Config, s: State, a: Action)
    requires c.shards > 0 && TallyInv(c, s) && SeedsInOrder(s) && Enabled(c, s, a)
    ensures TallyInv(c, Apply(c, s, a)) && SeedsInOrder(Apply(c, s, a))
  {
    hide TallyOf, Cleared, Disturbed, HeldByOther, Held;
    var s' := Apply(c, s, a);
    forall id | id !in s'.torn
      ensures TallyOf(c.shards, s', id)
    {
      if a.Incr? && id == a.id {
        IncrKeepsTally(c, s, a.w, a.id, a.shard, a.delta);
      } else if a.SeedDel? && id == s.writers[a.w].id {
        DelKeepsTally(c, s, a.w);
      } else if a.SeedSet? && id == s.writers[a.w].id {
        SetKeepsTally(c, s, a.w);
      } else {
        assert id !in s.torn;
        TallyFrame(c.shards, s, s', id);
      }
    }
  }

  /** Whatever shards were picked and however increments and seeds interleave: unless an increment hit a
      shard that a running seed had already deleted, or a deleting seed died, the shards of an entity add
      up to its last seed plus every later increment, whenever no seed is deleting. */
  lemma {:induction false} SumIsTally(c: Config, s: State, run: seq<Action>, t: State)
    requires c.shards > 0 && TallyInv(c, s) && SeedsInOrder(s) && IsRun(c, s, run, t)
    ensures TallyInv(c, t)
    decreases |run|
  {
    hide TallyInv, SeedsInOrder, Enabled, Apply;
    if run != [] {
      StepKeepsTally(c, s, run[0]);
      SumIsTally(c, Apply(c, s, run[0]), run[1..], t);
    }
  }

  lemma InitTally(c: Config, s: State)
    requires c.shards > 0 && Init(s)
    ensures TallyInv(c, s) && SeedsInOrder(s)
  {
    forall j ensures Sum(s.db, j, c.shards) == 0 {
      SumOfOne(s.db, j, c.shards);
    }
  }

  /** Nothing can tear a counter of one shard, nor one whose seeds neither die nor meet an increment. */
  predicate Untearable(c: Config) {
    c.shards == 1 || (!c.lateIncr && !c.writerDies)
  }

  ghost predicate OnlyFirst(s: State) {
    forall w :: w in s.writers && s.writers[w].Seeding? ==> s.writers[w].next == 1
  }

  lemma StepTearsNothing(c: Config, s: State, a: Action)
    requires Untearable(c) && Enabled(c, s, a) && s.torn == {} && (c.shards == 1 ==> OnlyFirst(s))
    ensures Apply(c, s, a).torn == {} && (c.shards == 1 ==> OnlyFirst(Apply(c, s, a)))
  {
    hide Disturbed, HeldByOther;
  }

  lemma {:induction false} NothingIsTorn(c: Config, s: State, run: seq<Action>, t: State)
    requires Untearable(c) && IsRun(c, s, run, t) && s.torn == {} && (c.shards == 1 ==> OnlyFirst(s))
    ensures t.torn == {}
    decreases |run|
  {
    hide Apply, Enabled, OnlyFirst;
    if run != [] {
      StepTearsNothing(c, s, run[0]);
      NothingIsTorn(c, Apply(c, s, run[0]), run[1..], t);
    }
  }

  /** In no run do the shards of an entity with no seed deleting differ from its tally. */
  ghost predicate NeverDrifts(c: Config) {
    forall s, run, t, id :: Init(s) && IsRun(c, s, run, t) && !Disturbed(t, id) ==>
      Sum(t.db, id, c.shards) == Tally(t, id)
  }

  /** An increment of 7 in shard 1, marked dirty. */
  const BEHIND := INIT.(db := Db(map[Key("e", 1) := 7], {"e"}), touched := {"e"}, tally := map["e" := 7])

  lemma OneBehind(c: Config) returns (run: seq<Action>, t: State)
    requires c.shards > 1
    ensures IsRun(c, INIT, run, t) && t == BEHIND
  {
    run, t := [], INIT;
    assert IsRun(c, INIT, run, t);
    hide IsRun, Disturbed;
    run, t := Then(c, INIT, run, t, Incr(0, "e", 1, 7));
    run, t := Then(c, INIT, run, t, WriterSAdd(0));
    assert t.writers == map[];
  }

  /** A seed of 5 over that, stopped after deleting the shard. */
  lemma HalfSeeded(c: Config) returns (run: seq<Action>, t: State)
    requires c.shards > 1
    ensures IsRun(c, INIT, run, t)
    ensures t.db.keys == map[] && t.writers == map[1 := Seeding("e", 5, 2)] && t.tally == map["e" := 7]
  {
    hide IsRun, Disturbed;
    run, t := OneBehind(c);
    run, t := Then(c, INIT, run, t, SeedStart(1, "e", 5));
    run, t := Then(c, INIT, run, t, SeedDel(1));
    assert t.db.keys == map[];
  }

  /** A seed that dies after its first DEL has deleted an increment and puts nothing in its place. */
  lemma DeadSeedForgets(c: Config) returns (run: seq<Action>, t: State)
    requires c.shards > 1 && c.writerDies
    ensures IsRun(c, INIT, run, t) && !Disturbed(t, "e") && Sum(t.db, "e", c.shards) == 0 && Tally(t, "e") == 7
  {
    hide IsRun;
    run, t := HalfSeeded(c);
    run, t := Then(c, INIT, run, t, WriterDies(1));
    assert t.writers == map[];
    SumOfOne(t.db, "e", c.shards);
  }

  lemma {:induction false} FinishSeed(c: Config, run: seq<Action>, t: State, i: nat)
    returns (run': seq<Action>, t': State)
    requires c.shards > 1 && IsRun(c, INIT, run, t) && 2 <= i <= c.shards
    requires 1 in t.writers && t.writers[1] == Seeding("e", 5, i) && t.db.keys == map[Key("e", 1) := 3]
    requires forall w :: w in t.writers && t.writers[w].Seeding? ==> w == 1
    ensures IsRun(c, INIT, run', t') && !Disturbed(t', "e")
    ensures t'.db.keys == map[Key("e", 0) := 5, Key("e", 1) := 3] && Tally(t', "e") == 5
    decreases c.shards - i
  {
    hide IsRun;
    if i < c.shards {
      run', t' := Then(c, INIT, run, t, SeedDel(1));
      assert t'.db.keys == map[Key("e", 1) := 3];
      run', t' := FinishSeed(c, run', t', i + 1);
    } else {
      run', t' := Then(c, INIT, run, t, SeedSet(1));
      assert t'.db.keys == map[Key("e", 1) := 3, Key("e", 0) := 5];
    }
  }

  lemma {:induction false} SumOfTwo(db: Db, id: Id, n: nat)
    requires n > 1 && forall i: nat :: 1 < i < n ==> Get(db, id, i) == 0
    ensures Sum(db, id, n) == Get(db, id, 0) + Get(db, id, 1)
  {
    if n > 2 {
      SumOfTwo(db, id, n - 1);
    } else {
      assert Sum(db, id, 1) == Get(db, id, 0);
    }
  }

  /** An increment of a shard that the running seed has already deleted survives the seed, which is then
      no longer the total. */
  lemma LateIncrementSurvives(c: Config) returns (run: seq<Action>, t: State)
    requires c.shards > 1 && c.lateIncr
    ensures IsRun(c, INIT, run, t) && !Disturbed(t, "e") && Sum(t.db, "e", c.shards) == 5 + 3 && Tally(t, "e") == 5
  {
    hide IsRun;
    run, t := HalfSeeded(c);
    run, t := Then(c, INIT, run, t, Incr(2, "e", 1, 3));
    assert t.db.keys == map[Key("e", 1) := 3];
    run, t := FinishSeed(c, run, t, 2);
    SumOfTwo(t.db, "e", c.shards);
  }

  /** Whenever no seed is deleting the shards of an entity are its last seed plus every later increment,
      in every run, exactly when there is one shard, or no increment picks a shard that a running seed has
      already deleted and no writer dies. */
  lemma SumIsTallyExactly(c: Config)
    requires c.shards > 0
    ensures NeverDrifts(c) <==> Untearable(c)
  {
    hide IsRun, Disturbed, TallyInv, Sum, Tally;
    if Untearable(c) {
      forall s, run, t, id | Init(s) && IsRun(c, s, run, t) && !Disturbed(t, id)
        ensures Sum(t.db, id, c.shards) == Tally(t, id)
      {
        NothingIsTorn(c, s, run, t);
        InitTally(c, s);
        SumIsTally(c, s, run, t);
        TallyAt(c, t, id);
      }
    } else {
      var run, t;
      if c.lateIncr {
        run, t := LateIncrementSurvives(c);
      } else {
        run, t := DeadSeedForgets(c);
      }
      assert Init(INIT) && IsRun(c, INIT, run, t) && !Disturbed(t, "e") && Sum(t.db, "e", c.shards) != Tally(t, "e");
    }
  }

  lemma TallyAt(c: Config, s: State, id: Id)
    requires TallyInv(c, s) && id !in s.torn && !Disturbed(s, id)
    ensures Sum(s.db, id, c.shards) == Tally(s, id)
  {
  }

  /** When everything has come to rest after a run without faults, in which no worker popped what another
      one held, every stored total is the true count, unless an increment met a seed. */
  lemma AtRest(c: Config, s: State, run: seq<Action>, t: State, id: Id)
    requires c.shards > 0 && Faultless(c) && !c.overlap && Init(s) && IsRun(c, s, run, t)
    requires (forall k :: k in t.workers ==> t.workers[k].Idle?) && t.writers == map[] && t.db.dirty == {}
    requires id in t.touched && id !in t.torn
    ensures id in t.stored && t.stored[id] == Tally(t, id)
  {
    hide IsRun, TallyInv;
    NothingIsLost(c, s, run, t, id);
    InitTally(c, s);
    SumIsTally(c, s, run, t);
    TallyAt(c, t, id);
  }
}
