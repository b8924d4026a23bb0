/** `outbox`: rows committed by transactions, and any number of publishers that sweep them into
    the log. Every database and Kafka call is one step; any of them may fail. */
module Outbox {
  import opened Broker

  /** A sweep between two calls; `sent` holds the indices whose messages are in the log. */
  datatype Sweep = Asleep | Sending(rows: seq<Row>, sent: set<nat>) | Marking(rows: seq<Row>)

  datatype State = State(rows: map<nat, Row>, published: set<nat>, sweeps: map<nat, Sweep>)

  datatype Action =
    | Insert(row: Row)
    | Select(w: nat, rows: seq<Row>)
    | Send(w: nat, i: nat, p: nat)
    | WriteDone(w: nat)
    | WriteFails(w: nat)
    | Mark(w: nat)
    | MarkFails(w: nat, applied: bool)
    | Crash(w: nat)

  /** What the sweep's SELECT returns: the unpublished rows with the smallest ids, in order. */
  predicate Selects(batch: nat, s: State, rows: seq<Row>) {
    && rows != [] && |rows| <= batch
    && (forall i :: 0 <= i < |rows| ==>
          rows[i].id in s.rows && s.rows[rows[i].id] == rows[i] && rows[i].id !in s.published)
    && (forall i, j :: 0 <= i < j < |rows| ==> rows[i].id < rows[j].id)
    && (forall id :: id in s.rows && id !in s.published && (forall i :: 0 <= i < |rows| ==> rows[i].id != id) ==>
          |rows| == batch && forall i :: 0 <= i < |rows| ==> rows[i].id < id)
  }

  predicate Enabled(batch: nat, log: Log, s: State, a: Action) {
    match a
    case Insert(row) => row.id !in s.rows
    case Select(w, rows) => w in s.sweeps && s.sweeps[w].Asleep? && Selects(batch, s, rows)
    case Send(w, i, p) => w in s.sweeps && s.sweeps[w].Sending? && i < |s.sweeps[w].rows| && p in log
    case WriteDone(w) =>
      w in s.sweeps && s.sweeps[w].Sending? && forall i: nat :: i < |s.sweeps[w].rows| ==> i in s.sweeps[w].sent
    case WriteFails(w) => w in s.sweeps && s.sweeps[w].Sending?
    case Mark(w) => w in s.sweeps && s.sweeps[w].Marking?
    case MarkFails(w, _) => w in s.sweeps && s.sweeps[w].Marking?
    case Crash(w) => w in s.sweeps
  }

  function Ids(rows: seq<Row>): set<nat> {
    set row | row in rows :: row.id
  }

  function Apply(batch: nat, log: Log, s: State, a: Action): State
    requires Enabled(batch, log, s, a)
  {
    match a
    case Insert(row) => s.(rows := s.rows[row.id := row])
    case Select(w, rows) => s.(sweeps := s.sweeps[w := Sending(rows, {})])
    case Send(w, i, _) => s.(sweeps := s.sweeps[w := s.sweeps[w].(sent := s.sweeps[w].sent + {i})])
    case WriteDone(w) => s.(sweeps := s.sweeps[w := Marking(s.sweeps[w].rows)])
    case WriteFails(w) => s.(sweeps := s.sweeps[w := Asleep])
    case Mark(w) => s.(published := s.published + Ids(s.sweeps[w].rows), sweeps := s.sweeps[w := Asleep])
    case MarkFails(w, applied) =>
      s.(published := if applied then s.published + Ids(s.sweeps[w].rows) else s.published,
         sweeps := s.sweeps[w := Asleep])
    case Crash(w) => s.(sweeps := s.sweeps[w := Asleep])
  }

  /** Only a sent message changes the log. A broker may take it even when the call then fails, and
      may take it twice. */
  function LogAfter(batch: nat, log: Log, s: State, a: Action): Log
    requires Enabled(batch, log, s, a)
  {
    if a.Send? then Append(log, a.p, s.sweeps[a.w].rows[a.i]) else log
  }

  // ----- At least once -----

  /** The row is in the log as it was inserted. */
  ghost predicate Logged(log: Log, s: State, id: nat) {
    id in s.rows && exists q: Pos :: Has(log, q) && RowAt(log, q) == s.rows[id]
  }

  ghost predicate SweepInv(log: Log, s: State, sweep: Sweep) {
    match sweep
    case Asleep => true
    case Sending(rows, sent) =>
      (forall i :: 0 <= i < |rows| ==> rows[i].id in s.rows && s.rows[rows[i].id] == rows[i])
      && forall i: nat :: i in sent && i < |rows| ==> Logged(log, s, rows[i].id)
    case Marking(rows) => forall i :: 0 <= i < |rows| ==> Logged(log, s, rows[i].id)
  }

  ghost predicate Inv(log: Log, s: State) {
    && (forall id :: id in s.rows ==> s.rows[id].id == id)
    && (forall id :: id in s.published ==> Logged(log, s, id))
    && forall w :: w in s.sweeps ==> SweepInv(log, s, s.sweeps[w])
  }

  lemma LoggedStays(log: Log, log': Log, s: State, s': State, id: nat)
    requires Grows(log, log') && Logged(log, s, id) && id in s'.rows && s'.rows[id] == s.rows[id]
    ensures Logged(log', s', id)
  {
    var q: Pos :| Has(log, q) && RowAt(log, q) == s.rows[id];
    assert Has(log', q) && RowAt(log', q) == s'.rows[id];
  }

  ghost predicate RowsKept(s: State, s': State) {
    forall id :: id in s.rows ==> id in s'.rows && s'.rows[id] == s.rows[id]
  }

  lemma SweepStays(log: Log, log': Log, s: State, s': State, sweep: Sweep)
    requires Grows(log, log') && RowsKept(s, s') && SweepInv(log, s, sweep)
    ensures SweepInv(log', s', sweep)
  {
    forall id | Logged(log, s, id) ensures Logged(log', s', id) {
      LoggedStays(log, log', s, s', id);
    }
  }

  lemma StepKeepsInv(batch: nat, log: Log, s: State, a: Action)
    requires Inv(log, s) && Enabled(batch, log, s, a)
    ensures Inv(LogAfter(batch, log, s, a), Apply(batch, log, s, a)) && Grows(log, LogAfter(batch, log, s, a))
  {
    var log', s' := LogAfter(batch, log, s, a), Apply(batch, log, s, a);
    if a.Send? {
      var row := s.sweeps[a.w].rows[a.i];
      AppendGrows(log, a.p, row);
      assert SweepInv(log, s, s.sweeps[a.w]);
      assert RowAt(log', Pos(a.p, |log[a.p]|)) == s'.rows[row.id];
      assert Logged(log', s', row.id);
    }
    forall id | id in s'.published ensures Logged(log', s', id) {
      if id !in s.published {
        assert SweepInv(log, s, s.sweeps[a.w]);
      }
      LoggedStays(log, log', s, s', id);
    }
    forall w | w in s'.sweeps ensures SweepInv(log', s', s'.sweeps[w]) {
      SweepStays(log, log', s, s', s.sweeps[w]);
    }
  }
}
