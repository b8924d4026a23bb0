/** `StreamSubscriber` as it runs: one client reading in a loop while others add to the streams and
    Redis trims them. */
module StreamSubscriber {
  import opened Text
  import opened Streams

  datatype Change = Append(topic: Topic, entry: Entry) | Trim(topic: Topic, upTo: nat)

  /** How an XREAD ends; a working one may still find nothing. */
  datatype Outcome = Works | Interrupted | Broken

  datatype Reply = Found(parts: seq<Part>) | Nothing | Cancelled | Failed

  function Changed(s: Stream, c: Change): Stream {
    if c.Append? then
      if c.entry.id > LastId(s) then s.(entries := s.entries + [c.entry]) else s
    else if s.kept < c.upTo <= |s.entries| then s.(kept := c.upTo)
    else s
  }

  lemma ChangedExtends(s: Stream, c: Change)
    requires IsStream(s)
    ensures Extends(s, Changed(s, c))
  {
  }

  lemma ExtendsTransitively(s: Stream, t: Stream, u: Stream)
    requires Extends(s, t) && Extends(t, u)
    ensures Extends(s, u)
  {
  }

  /** Every stream there was is still there, at most longer and trimmed further. */
  ghost predicate Grown(a: map<Topic, Stream>, b: map<Topic, Stream>) {
    a.Keys == b.Keys && forall t :: t in a ==> Extends(a[t], b[t])
  }

  class Subscriber {
    const parse: Parser
    const topics: seq<Topic>
    const start: Cursor
    const others: nat -> seq<Change>
    const outcomes: nat -> Outcome
    var cursors: map<Topic, Cursor>
    var streams: map<Topic, Stream>
    var tick: nat
    ghost var delivered: seq<Delivered>

    /** Every topic has its stream and its cursor. */
    ghost predicate Wired()
      reads this
    {
      && (forall t :: t in topics ==> t in streams && t in cursors)
      && (forall t :: t in streams ==> IsStream(streams[t]))
    }

    ghost predicate CaughtUp(t: Topic)
      requires t in streams && t in cursors
      reads this
    {
      start.At? ==> cursors[t].At? && Caught(parse, streams[t], t, start.id, cursors[t].id, For(delivered, t))
    }

    /** From a concrete id and with distinct topics, the client has got exactly what lies between that
        id and its cursor, topic by topic. */
    ghost predicate Valid()
      reads this
    {
      Wired() && (Distinct(topics) ==> forall t :: t in topics && t in streams && t in cursors ==> CaughtUp(t))
    }

    /** `NewStreamSubscriber`: no id, or `$`, is the live tail. */
    constructor (parse: Parser, topics: seq<Topic>, since: Option<Id>, streams: map<Topic, Stream>,
                 others: nat -> seq<Change>, outcomes: nat -> Outcome)
      requires AllStreams(streams, topics) && forall t :: t in streams ==> IsStream(streams[t])
      ensures Valid() && delivered == [] && forall t :: t in topics ==> t in cursors && cursors[t] == start
      ensures this.parse == parse && this.topics == topics && this.streams == streams
      ensures this.others == others && this.outcomes == outcomes
      ensures start == if since.None? then Dollar else At(since.value)
    {
      var begin := if since.None? then Dollar else At(since.value);
      this.parse := parse;
      this.topics := topics;
      this.start := begin;
      this.others := others;
      this.outcomes := outcomes;
      this.cursors := map t | t in topics :: begin;
      this.streams := streams;
      this.tick := 0;
      this.delivered := [];
    }

    /** Others add and Redis trims. */
    method LetOthersAct()
      requires Valid()
      modifies this`streams, this`tick
      ensures Valid() && Grown(old(streams), streams) && tick == old(tick) + 1
    {
      hide Caught, Extends, IsStream;
      var script := others(tick);
      tick := tick + 1;
      NothingGrows(streams);
      for i := 0 to |script|
        invariant Valid() && Grown(old(streams), streams) && tick == old(tick) + 1
      {
        var t := script[i].topic;
        if t in streams {
          ghost var before := streams;
          ChangedExtends(streams[t], script[i]);
          OneGrows(old(streams), streams, t, Changed(streams[t], script[i]));
          if t in topics && Distinct(topics) && start.At? {
            CaughtExtends(parse, streams[t], Changed(streams[t], script[i]), t, start.id, cursors[t].id,
              For(delivered, t));
          }
          ExtendsIsStream(streams[t], Changed(streams[t], script[i]));
          streams := streams[t := Changed(streams[t], script[i])];
          assert forall u :: u in topics && u != t ==> streams[u] == before[u];
        }
      }
    }

    /** The ids asked for: the cursors, with `$` resolved to the last id at this moment. */
    function Asked(): (asked: map<Topic, Id>)
      requires Wired()
      reads this
      ensures Answerable(streams, topics, asked)
    {
      map t | t in topics :: if cursors[t].Dollar? then LastId(streams[t]) else cursors[t].id
    }

    /** XREAD: what is there now; if nothing, whatever arrives first while the call blocks. */
    method XRead() returns (reply: Reply, ghost asked: map<Topic, Id>, ghost seen: map<Topic, Stream>)
      requires Valid()
      modifies this`streams, this`tick
      ensures Valid() && Grown(old(streams), streams) && AsksFor(old(streams), asked)
      ensures Grown(old(streams), seen) && Offers(outcomes(old(tick) + 1), seen, asked, reply)
      ensures reply.Found? ==>
        && (forall k :: 0 <= k < |reply.parts| ==> Next(asked, reply.parts[k]))
        && (Distinct(topics) ==> DistinctParts(reply.parts))
    {
      hide Caught, Extends, Messages, Parts, LastId;
      LetOthersAct();
      asked, seen := Asked(), streams;
      AskedFor(old(streams));
      if outcomes(tick) == Interrupted {
        return Cancelled, asked, seen;
      }
      if outcomes(tick) == Broken {
        return Failed, asked, seen;
      }
      var ids := Asked();
      var parts := Parts(streams, topics, ids);
      if parts == [] {
        ghost var before := streams;
        LetOthersAct();
        GrownTwice(old(streams), before, streams);
        parts := Parts(streams, topics, ids);
        if parts == [] {
          return Nothing, asked, seen;
        }
        var first :| 0 <= first < |parts|;
        parts := [parts[first]];
      } else if Distinct(topics) {
        PartsAreDistinct(streams, topics, ids);
      }
      return Found(parts), asked, seen;
    }

    /** A failing call reports it; a working one brings everything there was at the call, if there was
        anything. */
    ghost predicate Offers(outcome: Outcome, seen: map<Topic, Stream>, asked: map<Topic, Id>, reply: Reply) {
      match outcome
      case Interrupted => reply.Cancelled?
      case Broken => reply.Failed?
      case Works =>
        && (reply.Found? || reply.Nothing?)
        && Answerable(seen, topics, asked)
          && (Parts(seen, topics, asked) != [] ==> reply == Found(Parts(seen, topics, asked)))
    }

    /** Cursors are asked for as they are; `$` as something no older than the stream's end at the call. */
    ghost predicate AsksFor(before: map<Topic, Stream>, asked: map<Topic, Id>)
      reads this
      requires Wired()
    {
      forall t :: t in topics ==>
        t in asked && t in before && if cursors[t].At? then asked[t] == cursors[t].id else asked[t] >= LastId(before[t])
    }

    lemma AskedFor(before: map<Topic, Stream>)
      requires Wired() && Grown(before, streams)
      ensures AsksFor(before, Asked())
    {
      hide Extends;
      forall t | t in topics
        ensures LastId(streams[t]) >= LastId(before[t])
      {
        LastIdGrows(before[t], streams[t]);
      }
    }

    /** What a reply may hold for one topic: the first entries there after the id asked for. */
    ghost predicate Next(asked: map<Topic, Id>, part: Part)
      reads this
      requires Wired()
    {
      && part.topic in topics && part.topic in asked
      && part.messages == Messages(streams[part.topic], asked[part.topic]) != []
    }

    /** One event is handed out and its topic's cursor moved to it. */
    method Deliver(t: Topic, ghost p: nat, d: Delivered)
      requires Valid() && t in topics && p < |streams[t].entries|
      requires var e := streams[t].entries[p]; Good(parse, e) && d == Delivered(t, e.id, parse(e.payload.value).value)
      requires Distinct(topics) && cursors[t].At? ==> Passed(parse, streams[t], cursors[t].id, p)
      modifies this`cursors, this`delivered
      ensures Valid() && delivered == old(delivered) + [d] && cursors == old(cursors)[t := At(d.id)]
    {
      hide Caught, IsStream, Good, For, Passed, Distinct;
      forall u: Topic
        ensures For(delivered + [d], u) == if u == t then For(delivered, u) + [d] else For(delivered, u)
      {
        ForOne(delivered, d, u);
      }
      if Distinct(topics) && start.At? {
        CatchPassed(parse, streams[t], t, start.id, cursors[t].id, For(delivered, t), p);
      }
      delivered := delivered + [d];
      cursors := cursors[t := At(d.id)];
    }

    /** The messages of one topic: those that parse are delivered and move the cursor, the others are
        passed over. */
    method Take(part: Part, ghost id: Id) returns (out: seq<Delivered>)
      requires Valid() && part.topic in topics
      requires part.messages == Messages(streams[part.topic], id)
      requires Distinct(topics) && cursors[part.topic].At? ==> cursors[part.topic].id == id
      modifies this`cursors, this`delivered
      ensures Valid() && out == Events(parse, part.topic, part.messages) && delivered == old(delivered) + out
      ensures cursors == if out == [] then old(cursors) else old(cursors)[part.topic := At(out[|out| - 1].id)]
    {
      hide CaughtUp, Messages, Passed, Events, Begin, Distinct;
      out := [];
      var t := part.topic;
      ghost var s, b := streams[t], Begin(streams[t], id);
      MessagesAt(parse, s, id);
      EventsOfNone(parse, t, part.messages);
      for j := 0 to |part.messages|
        invariant Valid() && out == Events(parse, t, part.messages[..j]) && delivered == old(delivered) + out
        invariant cursors == if out == [] then old(cursors) else old(cursors)[t := At(out[|out| - 1].id)]
        invariant Distinct(topics) && cursors[t].At? ==> Passed(parse, s, cursors[t].id, b + j)
      {
        var e := part.messages[j];
        EventsSnoc(parse, t, part.messages, j);
        PassOne(parse, s, if cursors[t].At? then cursors[t].id else 0, b + j);
        if e.payload.None? {
          continue;
        }
        var parsed := parse(e.payload.value);
        if parsed.None? {
          continue;
        }
        var d := Delivered(t, e.id, parsed.value);
        Deliver(t, b + j, d);
        out := out + [d];
      }
      assert part.messages[..|part.messages|] == part.messages;
    }

    /** The parts of a reply, one after the other. */
    method TakeAll(parts: seq<Part>, ghost asked: map<Topic, Id>) returns (out: seq<Delivered>)
      requires Valid() && forall k :: 0 <= k < |parts| ==> Next(asked, parts[k])
      requires Distinct(topics) ==>
        DistinctParts(parts) && forall t :: t in topics && cursors[t].At? ==> t in asked && asked[t] == cursors[t].id
      modifies this`cursors, this`delivered
      ensures Valid() && delivered == old(delivered) + out && out == Delivery(parse, parts)
      ensures OthersStay(old(cursors), parts, |parts|)
      ensures DistinctParts(parts) ==> Moved(parse, old(cursors), cursors, parts, |parts|)
    {
      hide CaughtUp, Messages, Events, Delivery, IsStream, Distinct, Moved;
      out := [];
      DeliveryOfNone(parse, parts);
      NoneMovedYet(parse, cursors, parts);
      for p := 0 to |parts|
        invariant Valid() && OthersStay(old(cursors), parts, p)
        invariant DistinctParts(parts) ==> Moved(parse, old(cursors), cursors, parts, p)
        invariant delivered == old(delivered) + out && out == Delivery(parse, parts[..p])
      {
        var part := parts[p];
        DeliverySnoc(parse, parts, p);
        ghost var mid := cursors;
        var events := Take(part, asked[part.topic]);
        if DistinctParts(parts) {
          MovedOn(parse, old(cursors), mid, cursors, parts, p);
        }
        out := out + events;
      }
      assert parts[..|parts|] == parts;
    }

    /** The first `p` parts have not moved the cursor of any other topic. */
    ghost predicate OthersStay(before: map<Topic, Cursor>, parts: seq<Part>, p: nat)
      reads this
      requires p <= |parts|
    {
      && cursors.Keys == before.Keys
      && forall t :: t in before && (forall k :: 0 <= k < p ==> parts[k].topic != t) ==> cursors[t] == before[t]
    }

    /** `Read`: what the reply delivers, in order; nothing without topics or without a reply. */
    method Read()
      returns (out: seq<Delivered>, ok: bool, ghost parts: seq<Part>, ghost asked: map<Topic, Id>,
        ghost seen: map<Topic, Stream>)
      requires Valid()
      modifies this`cursors, this`delivered, this`streams, this`tick
      ensures Valid() && Grown(old(streams), streams)
      ensures delivered == old(delivered) + out && out == Delivery(parse, parts)
      ensures topics == [] ==> ok && parts == []
      ensures topics != [] ==> Grown(old(streams), seen) && exists reply: Reply ::
        && Offers(outcomes(old(tick) + 1), seen, asked, reply)
        && (ok <==> !reply.Failed?) && parts == if reply.Found? then reply.parts else []
      ensures Asking(old(cursors), old(streams), asked, parts) && OthersStay(old(cursors), parts, |parts|)
      ensures DistinctParts(parts) ==> Moved(parse, old(cursors), cursors, parts, |parts|)
    {
      hide CaughtUp, Messages, LastId, Delivery, Distinct, DistinctParts, Events, Moved;
      out, parts, asked, ok, seen := [], [], map[], true, streams;
      NothingGrows(streams);
      DeliveryOfNone(parse, parts);
      NoneMoved(parse, cursors);
      if |topics| == 0 {
        return;
      }
      var reply;
      reply, asked, seen := XRead();
      if reply.Failed? {
        ok := false;
        return;
      }
      if reply.Found? {
        parts := reply.parts;
        out := TakeAll(reply.parts, asked);
      }
    }

    /** The reply answers what was asked for: the cursors, or for `$` an end no older than the call. */
    ghost predicate Asking(before: map<Topic, Cursor>, were: map<Topic, Stream>, asked: map<Topic, Id>,
                           parts: seq<Part>)
      reads this
    {
      Wired() && forall k :: 0 <= k < |parts| ==>
        var t := parts[k].topic;
        && Next(asked, parts[k]) && t in before && t in were
        && if before[t].At? then asked[t] == before[t].id else asked[t] >= LastId(were[t])
    }
  }

  /** Each of the first `p` parts, if it brought an event, has moved its topic's cursor to the last. */
  ghost predicate Moved(parse: Parser, before: map<Topic, Cursor>, after: map<Topic, Cursor>, parts: seq<Part>, p: nat)
    requires p <= |parts|
  {
    forall k :: 0 <= k < p ==>
      var t, events := parts[k].topic, Events(parse, parts[k].topic, parts[k].messages);
      t in after && t in before && after[t] == if events == [] then before[t] else At(events[|events| - 1].id)
  }

  lemma NoneMoved(parse: Parser, cursors: map<Topic, Cursor>)
    ensures Moved(parse, cursors, cursors, [], 0)
  {
  }

  lemma NoneMovedYet(parse: Parser, cursors: map<Topic, Cursor>, parts: seq<Part>)
    ensures Moved(parse, cursors, cursors, parts, 0)
  {
  }

  lemma MovedOn(parse: Parser, before: map<Topic, Cursor>, mid: map<Topic, Cursor>, after: map<Topic, Cursor>,
                parts: seq<Part>, p: nat)
    requires p < |parts| && DistinctParts(parts) && Moved(parse, before, mid, parts, p)
    requires var t, events := parts[p].topic, Events(parse, parts[p].topic, parts[p].messages);
             && t in before && t in mid && mid[t] == before[t]
             && after == if events == [] then mid else mid[t := At(events[|events| - 1].id)]
    ensures Moved(parse, before, after, parts, p + 1)
  {
    hide Events;
  }

  lemma DeliveryOfNone(parse: Parser, parts: seq<Part>)
    ensures Delivery(parse, parts[..0]) == [] && Delivery(parse, []) == []
  {
  }

  lemma DeliverySnoc(parse: Parser, parts: seq<Part>, p: nat)
    requires p < |parts|
    ensures Delivery(parse, parts[..p + 1]) == Delivery(parse, parts[..p])
      + Events(parse, parts[p].topic, parts[p].messages)
  {
    assert parts[..p + 1][..p] == parts[..p];
  }

  lemma EventsOfNone(parse: Parser, topic: Topic, messages: seq<Entry>)
    ensures Events(parse, topic, messages[..0]) == []
  {
  }

  lemma EventsSnoc(parse: Parser, topic: Topic, messages: seq<Entry>, j: nat)
    requires j < |messages|
    ensures Events(parse, topic, messages[..j + 1]) == Events(parse, topic, messages[..j])
      + if Good(parse, messages[j]) then [Delivered(topic, messages[j].id, parse(messages[j].payload.value).value)]
        else []
  {
    assert messages[..j + 1][..j] == messages[..j];
  }

  lemma CatchPassed(parse: Parser, s: Stream, topic: Topic, start: Id, cursor: Id, ds: seq<Delivered>, p: nat)
    requires Caught(parse, s, topic, start, cursor, ds) && p < |s.entries| && Good(parse, s.entries[p])
      && Passed(parse, s, cursor, p)
    ensures var e := s.entries[p];
            Caught(parse, s, topic, start, e.id, ds + [Delivered(topic, e.id, parse(e.payload.value).value)])
  {
    hide Caught;
    CatchOne(parse, s, topic, start, cursor, ds, p);
  }

  /** Between a cursor and position `n` nothing parses, and the cursor is before it. */
  ghost predicate Passed(parse: Parser, s: Stream, cursor: Id, n: nat) {
    && (forall i :: s.kept <= i < n && i < |s.entries| && cursor < s.entries[i].id ==> !Good(parse, s.entries[i]))
    && forall i :: n <= i < |s.entries| ==> cursor < s.entries[i].id
  }

  lemma PassOne(parse: Parser, s: Stream, cursor: Id, n: nat)
    requires IsStream(s) && n < |s.entries|
    ensures Passed(parse, s, s.entries[n].id, n + 1)
    ensures Passed(parse, s, cursor, n) && !Good(parse, s.entries[n]) ==> Passed(parse, s, cursor, n + 1)
  {
  }

  lemma MessagesAt(parse: Parser, s: Stream, id: Id)
    requires IsStream(s)
    ensures var b := Begin(s, id);
            && |Messages(s, id)| <= |s.entries| - b
            && forall j :: 0 <= j < |Messages(s, id)| ==> Messages(s, id)[j] == s.entries[b + j]
    ensures Passed(parse, s, id, Begin(s, id))
  {
  }

  lemma LastIdGrows(s: Stream, t: Stream)
    requires Extends(s, t)
    ensures LastId(s) <= LastId(t)
  {
    if s.entries != [] {
      assert t.entries[|s.entries| - 1] == s.entries[|s.entries| - 1];
    }
  }

  lemma NothingGrows(a: map<Topic, Stream>)
    requires forall t :: t in a ==> IsStream(a[t])
    ensures Grown(a, a)
  {
  }

  lemma OneGrows(a: map<Topic, Stream>, b: map<Topic, Stream>, t: Topic, s: Stream)
    requires Grown(a, b) && t in b && Extends(b[t], s)
    ensures Grown(a, b[t := s])
  {
    ExtendsTransitively(a[t], b[t], s);
  }

  lemma GrownTwice(a: map<Topic, Stream>, b: map<Topic, Stream>, c: map<Topic, Stream>)
    requires Grown(a, b) && Grown(b, c)
    ensures Grown(a, c)
  {
    forall t | t in a
      ensures Extends(a[t], c[t])
    {
      ExtendsTransitively(a[t], b[t], c[t]);
    }
  }

  lemma ExtendsIsStream(s: Stream, t: Stream)
    requires Extends(s, t)
    ensures IsStream(t)
  {
  }
}
