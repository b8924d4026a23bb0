/** `realtime.StreamSubscriber`: one client's cursors over the streams of its topics. */
module Streams {
  import opened Text

  /** Stream ids, the two halves read as one number. */
  type Id = nat
  type Topic = string

  const COUNT := 100

  /** `payload` is what the field of that name holds, if it is there and a string. */
  datatype Entry = Entry(id: Id, payload: Option<string>)

  /** Everything ever added; trimming has dropped the entries before `kept`. */
  datatype Stream = Stream(entries: seq<Entry>, kept: nat)

  /** `Dollar` is resolved at every call to the last id there is. */
  datatype Cursor = Dollar | At(id: Id)

  datatype Part = Part(topic: Topic, messages: seq<Entry>)

  datatype Delivered = Delivered(topic: Topic, id: Id, event: string)

  type Parser = string -> Option<string>

  predicate Good(parse: Parser, e: Entry) {
    e.payload.Some? && parse(e.payload.value).Some?
  }

  ghost predicate IsStream(s: Stream) {
    s.kept <= |s.entries| && forall i, j :: 0 <= i < j < |s.entries| ==> s.entries[i].id < s.entries[j].id
  }

  function LastId(s: Stream): Id {
    if s.entries == [] then 0 else s.entries[|s.entries| - 1].id
  }

  // ----- XREAD -----

  /** How many entries have ids up to `id`. */
  function UpTo(entries: seq<Entry>, id: Id): (n: nat)
    ensures n <= |entries| && (forall i :: 0 <= i < n ==> entries[i].id <= id) && (n < |entries| ==> entries[n].id > id)
  {
    if entries == [] || entries[0].id > id then 0
    else
      var n := UpTo(entries[1..], id);
      assert forall i :: 0 <= i < n ==> entries[1..][i] == entries[i + 1];
      n + 1
  }

  function Max(a: nat, b: nat): nat {
    if a < b then b else a
  }

  /** Where reading after `id` begins. */
  function Begin(s: Stream, id: Id): (n: nat)
    requires s.kept <= |s.entries|
    ensures n <= |s.entries|
  {
    Max(s.kept, UpTo(s.entries, id))
  }

  /** The first entries still there after `id`, a hundred at most. */
  function Messages(s: Stream, id: Id): seq<Entry>
    requires s.kept <= |s.entries|
  {
    s.entries[Begin(s, id)..][..Min(COUNT, |s.entries| - Begin(s, id))]
  }

  /** What XREAD answers for one topic: of the entries not yet trimmed the first ones behind the id asked
      for, a hundred or as many as there are. */
  lemma MessagesExactly(s: Stream, id: Id) returns (b: nat)
    requires IsStream(s)
    ensures s.kept <= b <= |s.entries|
    ensures forall i :: s.kept <= i < |s.entries| ==> (i >= b <==> s.entries[i].id > id)
    ensures |Messages(s, id)| == if |s.entries| - b < 100 then |s.entries| - b else 100
    ensures forall j :: 0 <= j < |Messages(s, id)| ==> Messages(s, id)[j] == s.entries[b + j]
  {
    b := Begin(s, id);
  }

  /** Every topic with something new has its part. */
  lemma {:induction false} PartsMissNothing(streams: map<Topic, Stream>, topics: seq<Topic>, asked: map<Topic, Id>,
                                            i: nat)
    requires Answerable(streams, topics, asked) && i < |topics| && Messages(streams[topics[i]], asked[topics[i]]) != []
    ensures Part(topics[i], Messages(streams[topics[i]], asked[topics[i]])) in Parts(streams, topics, asked)
  {
    hide Messages;
    if i > 0 {
      PartsMissNothing(streams, topics[1..], asked, i - 1);
    }
  }

  ghost predicate AllStreams(streams: map<Topic, Stream>, topics: seq<Topic>) {
    forall i :: 0 <= i < |topics| ==> topics[i] in streams && IsStream(streams[topics[i]])
  }

  predicate Answerable(streams: map<Topic, Stream>, topics: seq<Topic>, asked: map<Topic, Id>) {
    forall i :: 0 <= i < |topics| ==>
      topics[i] in streams && topics[i] in asked && streams[topics[i]].kept <= |streams[topics[i]].entries|
  }

  /** A part for every topic, as often as it is asked for, that has something new. */
  function Parts(streams: map<Topic, Stream>, topics: seq<Topic>, asked: map<Topic, Id>): (parts: seq<Part>)
    requires Answerable(streams, topics, asked)
    ensures forall k :: 0 <= k < |parts| ==>
      parts[k].topic in topics && parts[k].messages == Messages(streams[parts[k].topic], asked[parts[k].topic]) != []
  {
    if topics == [] then []
    else
      var messages := Messages(streams[topics[0]], asked[topics[0]]);
      var rest := Parts(streams, topics[1..], asked);
      if messages == [] then rest else [Part(topics[0], messages)] + rest
  }

  ghost predicate Distinct(topics: seq<Topic>) {
    forall i, j :: 0 <= i < j < |topics| ==> topics[i] != topics[j]
  }

  ghost predicate DistinctParts(parts: seq<Part>) {
    forall i, j :: 0 <= i < j < |parts| ==> parts[i].topic != parts[j].topic
  }

  lemma {:induction false} PartsAreDistinct(streams: map<Topic, Stream>, topics: seq<Topic>, asked: map<Topic, Id>)
    requires Answerable(streams, topics, asked) && Distinct(topics)
    ensures DistinctParts(Parts(streams, topics, asked))
  {
    hide Messages;
    if topics != [] {
      PartsAreDistinct(streams, topics[1..], asked);
    }
  }

  // ----- What one reply delivers -----

  /** The events of the messages that parse, in order. */
  function Events(parse: Parser, topic: Topic, messages: seq<Entry>): seq<Delivered> {
    if messages == [] then []
    else
      var last := messages[|messages| - 1];
      Events(parse, topic, messages[..|messages| - 1])
      + if Good(parse, last) then [Delivered(topic, last.id, parse(last.payload.value).value)] else []
  }

  function Delivery(parse: Parser, parts: seq<Part>): seq<Delivered> {
    if parts == [] then []
    else Delivery(parse, parts[..|parts| - 1]) + Events(parse, parts[|parts| - 1].topic, parts[|parts| - 1].messages)
  }

  /** What has been delivered for one topic. */
  function For(delivered: seq<Delivered>, topic: Topic): seq<Delivered> {
    if delivered == [] then []
    else
      var last := delivered[|delivered| - 1];
      For(delivered[..|delivered| - 1], topic) + if last.topic == topic then [last] else []
  }

  lemma ForOne(delivered: seq<Delivered>, d: Delivered, topic: Topic)
    ensures For(delivered + [d], topic) == For(delivered, topic) + if d.topic == topic then [d] else []
  {
    assert (delivered + [d])[..|delivered|] == delivered;
  }

  // ----- Exactly the good entries up to the cursor -----

  function EventOf(parse: Parser, topic: Topic, e: Entry): Delivered
    requires Good(parse, e)
  {
    Delivered(topic, e.id, parse(e.payload.value).value)
  }

  ghost predicate IsEvent(parse: Parser, s: Stream, topic: Topic, d: Delivered) {
    exists i: nat :: i < |s.entries| && Good(parse, s.entries[i]) && d == EventOf(parse, topic, s.entries[i])
  }

  ghost predicate Has(ds: seq<Delivered>, id: Id) {
    exists k :: 0 <= k < |ds| && ds[k].id == id
  }

  /** `ds` is what a client that started after `start` and stands at `cursor` has got: events of the
      stream in strictly increasing order, up to the cursor, and every well-formed entry up to there
      unless it has been trimmed. */
  ghost predicate Caught(parse: Parser, s: Stream, topic: Topic, start: Id, cursor: Id, ds: seq<Delivered>) {
    && IsStream(s)
    && (forall k :: 0 <= k < |ds| ==> IsEvent(parse, s, topic, ds[k]) && start < ds[k].id <= cursor)
    && (forall j, k :: 0 <= j < k < |ds| ==> ds[j].id < ds[k].id)
    && cursor == (if ds == [] then start else ds[|ds| - 1].id)
    && (forall i :: s.kept <= i < |s.entries| && Good(parse, s.entries[i]) && start < s.entries[i].id <= cursor ==>
          Has(ds, s.entries[i].id))
  }

  /** The next well-formed entry, with nothing but malformed ones in between, moves the cursor to it. */
  lemma CatchOne(parse: Parser, s: Stream, topic: Topic, start: Id, cursor: Id, ds: seq<Delivered>, p: nat)
    requires Caught(parse, s, topic, start, cursor, ds) && p < |s.entries| && Good(parse, s.entries[p])
      && cursor < s.entries[p].id
    requires forall i :: s.kept <= i < p && cursor < s.entries[i].id ==> !Good(parse, s.entries[i])
    ensures var e := s.entries[p];
            Caught(parse, s, topic, start, e.id, ds + [Delivered(topic, e.id, parse(e.payload.value).value)])
  {
    var e := s.entries[p];
    var d := Delivered(topic, e.id, parse(e.payload.value).value);
    var ds' := ds + [d];
    assert IsEvent(parse, s, topic, d);
    forall i | s.kept <= i < |s.entries| && Good(parse, s.entries[i]) && start < s.entries[i].id <= e.id
      ensures Has(ds', s.entries[i].id)
    {
      if i == p {
        assert ds'[|ds|].id == e.id;
      } else {
        assert i < p;
        var k :| 0 <= k < |ds| && ds[k].id == s.entries[i].id;
        assert ds'[k] == ds[k];
      }
    }
  }

  /** With nothing trimmed, delivered and well-formed between start and cursor are the same thing. */
  lemma CaughtExactly(parse: Parser, s: Stream, topic: Topic, start: Id, cursor: Id, ds: seq<Delivered>, id: Id)
    requires Caught(parse, s, topic, start, cursor, ds) && s.kept == 0
    ensures Has(ds, id) <==>
      start < id <= cursor && exists i :: 0 <= i < |s.entries| && Good(parse, s.entries[i]) && s.entries[i].id == id
  {
    if Has(ds, id) {
      var k :| 0 <= k < |ds| && ds[k].id == id;
      assert IsEvent(parse, s, topic, ds[k]);
    }
  }

  /** Adding entries at the end and trimming at the front leave what was caught alone. */
  ghost predicate Extends(s: Stream, t: Stream) {
    IsStream(t) && s.entries <= t.entries && s.kept <= t.kept
  }

  lemma CaughtExtends(parse: Parser, s: Stream, t: Stream, topic: Topic, start: Id, cursor: Id, ds: seq<Delivered>)
    requires Caught(parse, s, topic, start, cursor, ds) && Extends(s, t)
    ensures Caught(parse, t, topic, start, cursor, ds)
  {
    if ds != [] {
      assert IsEvent(parse, s, topic, ds[|ds| - 1]);
    }
    forall i | s.kept <= i < |s.entries|
      ensures t.entries[i] == s.entries[i]
    {
    }
    forall k | 0 <= k < |ds|
      ensures IsEvent(parse, t, topic, ds[k])
    {
      var i: nat :| i < |s.entries| && Good(parse, s.entries[i]) && ds[k] == EventOf(parse, topic, s.entries[i]);
      assert t.entries[i] == s.entries[i];
    }
  }

  // ----- When a read gets anywhere -----

  lemma {:induction false} EventsIffGood(parse: Parser, topic: Topic, messages: seq<Entry>)
    ensures Events(parse, topic, messages) != [] <==> exists i :: 0 <= i < |messages| && Good(parse, messages[i])
  {
    if messages != [] {
      var n := |messages| - 1;
      EventsIffGood(parse, topic, messages[..n]);
      if i :| 0 <= i < n && Good(parse, messages[i]) {
        assert messages[..n][i] == messages[i];
      }
    }
  }

  /** A read moves past where it stands exactly when one of the next hundred entries parses. */
  lemma ProgressExactly(parse: Parser, s: Stream, topic: Topic, id: Id)
    requires IsStream(s)
    ensures Events(parse, topic, Messages(s, id)) != [] <==>
      exists i :: Begin(s, id) <= i < |s.entries| && i < Begin(s, id) + 100 && Good(parse, s.entries[i])
  {
    hide Begin, Good;
    var b := Begin(s, id);
    var ms := Messages(s, id);
    EventsIffGood(parse, topic, ms);
    forall i | b <= i < |s.entries| && i < b + COUNT
      ensures s.entries[i] == ms[i - b]
    {
    }
    if i :| 0 <= i < |ms| && Good(parse, ms[i]) {
      assert Good(parse, s.entries[b + i]);
    }
  }

  lemma UpToExtends(s: Stream, t: Stream, id: Id)
    requires IsStream(s) && Extends(s, t) && UpTo(s.entries, id) < |s.entries|
    ensures UpTo(t.entries, id) == UpTo(s.entries, id)
  {
    var n, m := UpTo(s.entries, id), UpTo(t.entries, id);
    assert forall i :: 0 <= i < |s.entries| ==> t.entries[i] == s.entries[i];
  }

  lemma SameSlice(a: seq<Entry>, b: seq<Entry>, k: nat)
    requires a <= b && k + COUNT <= |a|
    ensures b[k..][..COUNT] == a[k..][..COUNT]
  {
    assert forall i :: 0 <= i < COUNT ==> b[k..][..COUNT][i] == a[k + i];
  }

  /** A hundred malformed entries in a row: until they are trimmed, whatever is added behind them, no
      read delivers anything. */
  lemma StuckBehindMalformed(parse: Parser, s: Stream, t: Stream, topic: Topic, id: Id)
    requires IsStream(s) && |Messages(s, id)| == 100 && forall e :: e in Messages(s, id) ==> !Good(parse, e)
    requires Extends(s, t) && t.kept == s.kept
    ensures Messages(t, id) == Messages(s, id) && Events(parse, topic, Messages(t, id)) == []
  {
    hide Good;
    UpToExtends(s, t, id);
    SameSlice(s.entries, t.entries, Begin(s, id));
    EventsIffGood(parse, topic, Messages(t, id));
  }

  /** Resolved at the call, `$` has nothing behind it: only what arrives while the call blocks is seen. */
  lemma DollarSeesNothingOld(s: Stream)
    requires IsStream(s)
    ensures Messages(s, LastId(s)) == []
  {
    var n := UpTo(s.entries, LastId(s));
    assert n == |s.entries|;
  }

  // ----- Repeated topics -----

  ghost predicate NoRepeats(ds: seq<Delivered>) {
    forall i, j :: 0 <= i < j < |ds| ==> ds[i] != ds[j]
  }

  ghost predicate Rising(messages: seq<Entry>) {
    forall i, j :: 0 <= i < j < |messages| ==> messages[i].id < messages[j].id
  }

  ghost predicate RisingEvents(ds: seq<Delivered>, topic: Topic, bound: Id) {
    && (forall i :: 0 <= i < |ds| ==> ds[i].topic == topic && ds[i].id < bound)
    && forall i, j :: 0 <= i < j < |ds| ==> ds[i].id < ds[j].id
  }

  lemma {:induction false} EventsRise(parse: Parser, topic: Topic, messages: seq<Entry>, bound: Id)
    requires Rising(messages) && forall i :: 0 <= i < |messages| ==> messages[i].id < bound
    ensures RisingEvents(Events(parse, topic, messages), topic, bound)
  {
    hide Good;
    if messages != [] {
      var n := |messages| - 1;
      EventsRise(parse, topic, messages[..n], messages[n].id);
    }
  }

  lemma {:induction false} DeliveryAvoids(parse: Parser, parts: seq<Part>, topic: Topic)
    requires forall k :: 0 <= k < |parts| ==> parts[k].topic != topic && Rising(parts[k].messages)
    ensures forall i :: 0 <= i < |Delivery(parse, parts)| ==> Delivery(parse, parts)[i].topic != topic
  {
    hide Events, Rising;
    if parts != [] {
      var n := |parts| - 1;
      DeliveryAvoids(parse, parts[..n], topic);
      EventsHaveTopic(parse, parts[n]);
    }
  }

  lemma EventsHaveTopic(parse: Parser, part: Part)
    requires Rising(part.messages)
    ensures var ds := Events(parse, part.topic, part.messages);
            (forall i :: 0 <= i < |ds| ==> ds[i].topic == part.topic) && NoRepeats(ds)
  {
    var ms := part.messages;
    EventsRise(parse, part.topic, ms, if ms == [] then 0 else ms[|ms| - 1].id + 1);
  }

  lemma {:induction false} DistinctPartsDoNotRepeat(parse: Parser, parts: seq<Part>)
    requires DistinctParts(parts) && forall k :: 0 <= k < |parts| ==> Rising(parts[k].messages)
    ensures NoRepeats(Delivery(parse, parts))
  {
    hide Events, Rising;
    if parts != [] {
      var n := |parts| - 1;
      DistinctPartsDoNotRepeat(parse, parts[..n]);
      DeliveryAvoids(parse, parts[..n], parts[n].topic);
      EventsHaveTopic(parse, parts[n]);
    }
  }

  lemma MessagesRise(s: Stream, id: Id)
    requires IsStream(s)
    ensures Rising(Messages(s, id))
  {
  }

  /** One stream with one entry, asked for from the start. */
  function OneEntry(payload: string): Stream {
    Stream([Entry(1, Some(payload))], 0)
  }

  lemma MessagesOfOne(payload: string)
    ensures Messages(OneEntry(payload), 0) == [Entry(1, Some(payload))]
  {
    var s := OneEntry(payload);
    assert Messages(s, 0) == s.entries;
  }

  lemma {:induction false} OneEntryEach(payload: string, topics: seq<Topic>, streams: map<Topic, Stream>,
                                        asked: map<Topic, Id>)
    requires Answerable(streams, topics, asked)
    requires forall t :: t in topics ==> t in streams && streams[t] == OneEntry(payload) && t in asked && asked[t] == 0
    ensures Parts(streams, topics, asked)
      == seq(|topics|, i requires 0 <= i < |topics| => Part(topics[i], [Entry(1, Some(payload))]))
  {
    hide Messages;
    if topics != [] {
      OneEntryEach(payload, topics[1..], streams, asked);
      MessagesOfOne(payload);
      assert topics[0] in topics;
    }
  }

  lemma {:induction false} OneEventEach(parse: Parser, payload: string, parts: seq<Part>)
    requires parse(payload).Some?
    requires forall i :: 0 <= i < |parts| ==> parts[i].messages == [Entry(1, Some(payload))]
    ensures var ds := Delivery(parse, parts);
            |ds| == |parts| && forall i :: 0 <= i < |parts| ==>
              ds[i] == Delivered(parts[i].topic, 1, parse(payload).value)
  {
    if parts != [] {
      var n := |parts| - 1;
      OneEventEach(parse, payload, parts[..n]);
      var e := Entry(1, Some(payload));
      assert [e][..0] == [] && Events(parse, parts[n].topic, []) == [];
      assert Events(parse, parts[n].topic, [e]) == [] + [Delivered(parts[n].topic, 1, parse(payload).value)];
    }
  }

  lemma DistinctTopicsDoNotRepeat(parse: Parser, topics: seq<Topic>, streams: map<Topic, Stream>, asked: map<Topic, Id>)
    requires Distinct(topics) && AllStreams(streams, topics) && Answerable(streams, topics, asked)
    ensures NoRepeats(Delivery(parse, Parts(streams, topics, asked)))
  {
    hide Messages, Delivery, Rising;
    var parts := Parts(streams, topics, asked);
    PartsAreDistinct(streams, topics, asked);
    forall k | 0 <= k < |parts|
      ensures Rising(parts[k].messages)
    {
      MessagesRise(streams[parts[k].topic], asked[parts[k].topic]);
    }
    DistinctPartsDoNotRepeat(parse, parts);
  }

  lemma RepeatedTopicRepeats(parse: Parser, payload: string, topics: seq<Topic>)
    returns (streams: map<Topic, Stream>, asked: map<Topic, Id>)
    requires parse(payload).Some? && !Distinct(topics)
    ensures AllStreams(streams, topics) && Answerable(streams, topics, asked)
    ensures !NoRepeats(Delivery(parse, Parts(streams, topics, asked)))
  {
    hide Messages, Delivery, Parts;
    streams := map i | i in topics :: OneEntry(payload);
    asked := map i | i in topics :: 0 as Id;
    var parts := Parts(streams, topics, asked);
    OneEntryEach(payload, topics, streams, asked);
    OneEventEach(parse, payload, parts);
    var i, j :| 0 <= i < j < |topics| && topics[i] == topics[j];
    var ds := Delivery(parse, parts);
    assert ds[i] == ds[j];
  }

  /** One read never returns an event twice, whatever the streams hold, exactly when no topic is
      listed twice. */
  lemma NoRepeatsExactly(parse: Parser, payload: string, topics: seq<Topic>)
    requires parse(payload).Some?
    ensures (forall streams: map<Topic, Stream>, asked: map<Topic, Id> ::
               AllStreams(streams, topics) && Answerable(streams, topics, asked) ==>
                 NoRepeats(Delivery(parse, Parts(streams, topics, asked))))
       <==> Distinct(topics)
  {
    hide Messages, Delivery, NoRepeats, AllStreams;
    if Distinct(topics) {
      forall streams: map<Topic, Stream>, asked: map<Topic, Id> | AllStreams(streams, topics)
        && Answerable(streams, topics, asked)
        ensures NoRepeats(Delivery(parse, Parts(streams, topics, asked)))
      {
        DistinctTopicsDoNotRepeat(parse, topics, streams, asked);
      }
    } else {
      var streams, asked := RepeatedTopicRepeats(parse, payload, topics);
    }
  }
}
