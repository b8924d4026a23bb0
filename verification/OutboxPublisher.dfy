/** `outbox.Publisher` as it runs: one sweep of one publisher, each database or Kafka call one
    step of the protocol, with everyone else free to act before every call. */
module OutboxPublisher {
  import opened Broker
  import P = Pipeline
  import O = Outbox

  datatype Answer = Succeeds | Fails(applied: bool)

  /** Why a sweep ended. */
  datatype SweepResult = QueryError | Empty | WriteError | Swept(marked: bool)

  /** What anyone but publisher `w` may do. */
  predicate Foreign(w: nat, a: P.Action) {
    a.Publish? ==> a.o.Insert? || a.o.w != w
  }

  /** The rows of `s` still to be published. */
  function Unpublished(s: O.State): set<nat> {
    set id | id in s.rows && id !in s.published
  }

  class Publisher {
    const c: P.Config
    const w: nat
    const others: nat -> seq<P.Action>
    var st: P.State
    var tick: nat

    ghost predicate Valid()
      reads this
    {
      P.Inv(c, st) && w in st.outbox.sweeps
    }

    function Mine(): O.Sweep
      requires w in st.outbox.sweeps
      reads this
    {
      st.outbox.sweeps[w]
    }

    constructor (c: P.Config, w: nat, others: nat -> seq<P.Action>, st: P.State)
      requires P.Inv(c, st) && w in st.outbox.sweeps
      ensures Valid() && this.c == c && this.w == w && this.others == others && this.st == st
    {
      this.c, this.w, this.others, this.st, this.tick := c, w, others, st, 0;
    }

    method LetOthersAct()
      requires Valid()
      modifies this
      ensures Valid() && Mine() == old(Mine()) && Grows(old(st.log), st.log) && Progress(old(st.outbox), st.outbox)
    {
      hide P.Inv, P.Enabled;
      var script := others(tick);
      tick := tick + 1;
      for i := 0 to |script|
        invariant Valid() && Mine() == old(Mine())
        invariant Grows(old(st.log), st.log) && Progress(old(st.outbox), st.outbox)
      {
        if Foreign(w, script[i]) && P.Enabled(c, st, script[i]) {
          ForeignStep(c, st, w, script[i]);
          st := P.Apply(c, st, script[i]);
        }
      }
    }

    /** One step of this publisher, taken at once. */
    method Take(a: O.Action)
      requires Valid() && !a.Insert? && a.w == w && P.Enabled(c, st, P.Publish(a))
      modifies this
      ensures st == P.Apply(c, old(st), P.Publish(a))
      ensures Valid() && Grows(old(st.log), st.log) && Progress(old(st.outbox), st.outbox)
    {
      P.StepKeepsInv(c, st, P.Publish(a));
      O.StepKeepsInv(c.batch, st.log, st.outbox, a);
      st := P.Apply(c, st, P.Publish(a));
    }

    /** The SELECT: the unpublished rows with the smallest ids, in order, at most a batch. */
    method SelectRows() returns (rows: seq<Row>)
      requires Valid()
      ensures rows == [] ==> c.batch == 0 || forall id :: id in st.outbox.rows ==> id in st.outbox.published
      ensures rows != [] ==> O.Selects(c.batch, st.outbox, rows)
    {
      assert forall id :: id in st.outbox.rows ==> st.outbox.rows[id].id == id;
      hide O.Selects, P.Inv;
      rows := [];
      var rest := Unpublished(st.outbox);
      while |rows| < c.batch && rest != {}
        invariant |rows| <= c.batch && Picked(st.outbox, rows, rest)
        decreases |rest|
      {
        var id := Least(rest);
        PickOne(st.outbox, rows, rest, id);
        rows := rows + [st.outbox.rows[id]];
        rest := rest - {id};
      }
      if rows == [] {
        assert forall id :: id in st.outbox.rows && id !in st.outbox.published ==> id in Unpublished(st.outbox);
      } else {
        PickedSelects(c.batch, st.outbox, rows, rest);
      }
    }

    /** One message goes out. */
    method SendOne(i: nat, p: nat)
      requires Valid() && Mine().Sending? && i < |Mine().rows| && p in st.log
      modifies this
      ensures Valid() && Mine() == old(Mine()).(sent := old(Mine().sent) + {i})
      ensures old(st.log).Keys == st.log.Keys && Progress(old(st.outbox), st.outbox)
    {
      LetOthersAct();
      Take(O.Send(w, i, p));
    }

    /** The write call returns; what was sent is in the log. */
    method EndWrite(ok: bool)
      requires Valid() && Mine().Sending? && (ok ==> forall i: nat :: i < |Mine().rows| ==> i in Mine().sent)
      modifies this
      ensures Valid() && Mine() == if ok then O.Marking(old(Mine().rows)) else O.Asleep
      ensures Progress(old(st.outbox), st.outbox)
      ensures forall i: nat :: i in old(Mine().sent) && i < |old(Mine().rows)| ==>
        O.Logged(st.log, st.outbox, old(Mine().rows)[i].id)
    {
      LetOthersAct();
      SentIsLogged(c, st, w);
      Take(if ok then O.WriteDone(w) else O.WriteFails(w));
    }

    /** `WriteMessages`: the messages go out one by one; `stopsAt` says after how many the call
        fails, if it does. What went out before stays in the log. */
    method WriteMessages(rows: seq<Row>, balance: nat -> nat, stopsAt: nat) returns (ok: bool)
      requires Valid() && Mine() == O.Sending(rows, {}) && forall i :: balance(i) in st.log
      modifies this
      ensures Valid() && ok == (stopsAt >= |rows|)
      ensures Mine() == if ok then O.Marking(rows) else O.Asleep
      ensures Progress(old(st.outbox), st.outbox)
      ensures forall i: nat :: i < |rows| && i < stopsAt ==> O.Logged(st.log, st.outbox, rows[i].id)
    {
      hide P.Inv, O.Logged;
      var i := 0;
      while i < |rows| && i < stopsAt
        invariant Valid() && Mine().Sending? && Mine().rows == rows && i <= |rows| && i <= stopsAt
        invariant forall j: nat :: j in Mine().sent <==> j < i
        invariant old(st.log).Keys == st.log.Keys && Progress(old(st.outbox), st.outbox)
      {
        SendOne(i, balance(i));
        i := i + 1;
      }
      ok := i == |rows|;
      EndWrite(ok);
    }

    /** The UPDATE that marks a written batch. */
    method MarkRows(mark: Answer)
      requires Valid() && Mine().Marking?
      modifies this
      ensures Valid() && Mine().Asleep? && Progress(old(st.outbox), st.outbox)
      ensures var rows := old(Mine().rows);
              forall i :: 0 <= i < |rows| ==>
                O.Logged(st.log, st.outbox, rows[i].id) && (mark.Succeeds? ==> rows[i].id in st.outbox.published)
    {
      LetOthersAct();
      MarkingIsLogged(c, st, w);
      Take(if mark.Succeeds? then O.Mark(w) else O.MarkFails(w, mark.applied));
    }

    /** `sweep`: reads a batch, writes it to the topic and only then marks it. */
    method Sweep(query: Answer, balance: nat -> nat, stopsAt: nat, mark: Answer)
      returns (r: SweepResult, rows: seq<Row>, ghost seen: O.State)
      requires Valid() && Mine().Asleep? && forall i :: balance(i) in st.log
      modifies this
      ensures Valid() && Mine().Asleep?
      ensures Progress(old(st.outbox), seen) && Progress(seen, st.outbox)
      ensures r.QueryError? <==> query.Fails?
      ensures query.Succeeds? && rows == [] ==>
        r.Empty? && (c.batch == 0 || forall id :: id in seen.rows ==> id in seen.published)
      ensures query.Succeeds? && rows != [] ==> O.Selects(c.batch, seen, rows)
      ensures query.Succeeds? && rows != [] ==> if stopsAt < |rows| then r.WriteError? else r == Swept(mark.Succeeds?)
      ensures r.Swept? ==>
        rows != [] && |rows| <= c.batch && forall i :: 0 <= i < |rows| ==> O.Logged(st.log, st.outbox, rows[i].id)
      ensures r == Swept(true) ==> forall i :: 0 <= i < |rows| ==> rows[i].id in st.outbox.published
    {
      hide P.Inv, O.Logged;
      rows := [];
      LetOthersAct();
      seen := st.outbox;
      if query.Fails? {
        return QueryError, rows, seen;
      }
      rows := SelectRows();
      if |rows| == 0 {
        return Empty, rows, seen;
      }
      Take(O.Select(w, rows));
      var ok := WriteMessages(rows, balance, stopsAt);
      if !ok {
        return WriteError, rows, seen;
      }
      MarkRows(mark);
      r := Swept(mark.Succeeds?);
    }
  }

  /** No row is lost or changed, none unpublished. */
  ghost predicate Progress(s: O.State, s': O.State) {
    O.RowsKept(s, s') && s.published <= s'.published
  }

  /** `rows` holds the least unpublished ids in order, `rest` the others. */
  ghost predicate Picked(s: O.State, rows: seq<Row>, rest: set<nat>) {
    && (forall i :: 0 <= i < |rows| ==>
          rows[i].id in s.rows && rows[i].id !in s.published && s.rows[rows[i].id] == rows[i])
    && (forall i, j :: 0 <= i < j < |rows| ==> rows[i].id < rows[j].id)
    && rest <= Unpublished(s)
    && (forall id :: id in Unpublished(s) && id !in rest ==> exists i :: 0 <= i < |rows| && rows[i].id == id)
    && (forall id, i :: id in rest && 0 <= i < |rows| ==> rows[i].id < id)
  }

  lemma PickOne(s: O.State, rows: seq<Row>, rest: set<nat>, id: nat)
    requires Picked(s, rows, rest) && id in rest && (forall x :: x in rest ==> id <= x)
    requires id in s.rows && s.rows[id].id == id
    ensures Picked(s, rows + [s.rows[id]], rest - {id})
  {
    var rows' := rows + [s.rows[id]];
    forall x | x in Unpublished(s) && x !in rest - {id} ensures exists i :: 0 <= i < |rows'| && rows'[i].id == x {
      if x == id {
        assert rows'[|rows|].id == x;
      } else {
        var i :| 0 <= i < |rows| && rows[i].id == x;
        assert rows'[i].id == x;
      }
    }
  }

  lemma PickedSelects(batch: nat, s: O.State, rows: seq<Row>, rest: set<nat>)
    requires Picked(s, rows, rest) && rows != [] && |rows| <= batch && (rest == {} || |rows| == batch)
    ensures O.Selects(batch, s, rows)
  {
    forall id | id in s.rows && id !in s.published && (forall i :: 0 <= i < |rows| ==> rows[i].id != id)
      ensures |rows| == batch && forall i :: 0 <= i < |rows| ==> rows[i].id < id
    {
      assert id in Unpublished(s);
    }
  }

  method Least(ids: set<nat>) returns (least: nat)
    requires ids != {}
    ensures least in ids && forall id :: id in ids ==> least <= id
  {
    least :| least in ids;
    var rest := ids - {least};
    while rest != {}
      invariant least in ids && rest <= ids && forall id :: id in ids && id !in rest ==> least <= id
      decreases rest
    {
      var id :| id in rest;
      if id < least {
        least := id;
      }
      rest := rest - {id};
    }
  }

  lemma SentIsLogged(c: P.Config, s: P.State, w: nat)
    requires P.Inv(c, s) && w in s.outbox.sweeps && s.outbox.sweeps[w].Sending?
    ensures forall i: nat :: i in s.outbox.sweeps[w].sent && i < |s.outbox.sweeps[w].rows| ==>
              O.Logged(s.log, s.outbox, s.outbox.sweeps[w].rows[i].id)
  {
    assert O.SweepInv(s.log, s.outbox, s.outbox.sweeps[w]);
  }

  lemma MarkingIsLogged(c: P.Config, s: P.State, w: nat)
    requires P.Inv(c, s) && w in s.outbox.sweeps && s.outbox.sweeps[w].Marking?
    ensures forall i :: 0 <= i < |s.outbox.sweeps[w].rows| ==> O.Logged(s.log, s.outbox, s.outbox.sweeps[w].rows[i].id)
  {
    assert O.SweepInv(s.log, s.outbox, s.outbox.sweeps[w]);
  }

  /** A step of anyone else leaves this publisher's sweep alone and loses nothing. */
  lemma ForeignStep(c: P.Config, s: P.State, w: nat, a: P.Action)
    requires P.Inv(c, s) && w in s.outbox.sweeps && P.Enabled(c, s, a) && Foreign(w, a)
    ensures var t := P.Apply(c, s, a);
            && P.Inv(c, t) && w in t.outbox.sweeps && t.outbox.sweeps[w] == s.outbox.sweeps[w]
            && s.outbox.published <= t.outbox.published && O.RowsKept(s.outbox, t.outbox) && Grows(s.log, t.log)
  {
    P.StepKeepsInv(c, s, a);
    if a.Publish? {
      O.StepKeepsInv(c.batch, s.log, s.outbox, a.o);
    }
  }
}
