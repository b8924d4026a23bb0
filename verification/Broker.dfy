/** The partitioned log between the outbox and its consumers. It only grows. */
module Broker {

  /** An outbox row; `decodes` says whether its payload parses as an event envelope. */
  datatype Row = Row(id: nat, decodes: bool, eventId: string)

  datatype Pos = Pos(partition: nat, offset: nat)

  type Log = map<nat, seq<Row>>

  predicate Has(log: Log, q: Pos) {
    q.partition in log && q.offset < |log[q.partition]|
  }

  function RowAt(log: Log, q: Pos): Row
    requires Has(log, q)
  {
    log[q.partition][q.offset]
  }

  function Append(log: Log, p: nat, row: Row): Log
    requires p in log
  {
    log[p := log[p] + [row]]
  }

  ghost predicate Grows(log: Log, log': Log) {
    log.Keys == log'.Keys && forall q: Pos :: Has(log, q) ==> Has(log', q) && RowAt(log', q) == RowAt(log, q)
  }

  lemma AppendGrows(log: Log, p: nat, row: Row)
    requires p in log
    ensures Grows(log, Append(log, p, row))
    ensures var q := Pos(p, |log[p]|); Has(Append(log, p, row), q) && RowAt(Append(log, p, row), q) == row
  {
  }
}
