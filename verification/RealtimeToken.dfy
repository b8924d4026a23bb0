/** `realtime`: topic tokens, `base64url(payload).base64url(mac)` where the payload is
    `expiry|user|topic,topic,...`. The keyed hash is any function of the payload. */
module RealtimeToken {
  import opened Text
  import opened Base64

  const BAR: byte := 124
  const COMMA: byte := 44
  const STAR: byte := 42

  type Mac = Bytes -> Bytes

  datatype SignError = NoTopics | ReservedInTopic | ReservedInUser

  datatype Signed = Token(token: string) | NotSigned(why: SignError)

  datatype VerifyError =
    | MalformedToken | BadPayload | BadSignatureText | WrongSignature | MalformedPayload | BadExpiry | Expired

  datatype Verified = Granted(topics: seq<Bytes>, subject: Bytes) | Refused(why: VerifyError)

  predicate HasReserved(topics: seq<Bytes>) {
    exists i :: 0 <= i < |topics| && (COMMA in topics[i] || BAR in topics[i])
  }

  function Payload(exp: int64, user: Bytes, topics: seq<Bytes>): Bytes {
    FormatInt(exp) + [BAR] + user + [BAR] + Join(topics, [COMMA])
  }

  /** `TokenSigner.Sign`, with the expiry already read off the clock. */
  function Sign(mac: Mac, exp: int64, user: Bytes, topics: seq<Bytes>): Signed {
    if topics == [] then NotSigned(NoTopics)
    else if HasReserved(topics) then NotSigned(ReservedInTopic)
    else if BAR in user then NotSigned(ReservedInUser)
    else
      var payload := Payload(exp, user, topics);
      Token(EncodeRaw(Url, payload) + "." + EncodeRaw(Url, mac(payload)))
  }

  /** `base64.RawURLEncoding.DecodeString`: line breaks skipped, unused bits ignored. */
  function DecodeUrl(s: string): Option<Bytes> {
    DecodeRaw(Url, Strip(s), false)
  }

  /** `TokenVerifier.Verify` at Unix time `now`. */
  function Verify(mac: Mac, token: string, now: int): Verified {
    var parts := SplitN(token, '.', 2);
    if |parts| != 2 then Refused(MalformedToken)
    else
      var payload, sig := DecodeUrl(parts[0]), DecodeUrl(parts[1]);
      if payload.None? then Refused(BadPayload)
      else if sig.None? then Refused(BadSignatureText)
      else if mac(payload.value) != sig.value then Refused(WrongSignature)
      else ReadPayload(payload.value, now)
  }

  function ReadPayload(payload: Bytes, now: int): Verified {
    var fields := SplitN(payload, BAR, 3);
    if |fields| != 3 then Refused(MalformedPayload)
    else
      var exp := ParseInt(fields[0]);
      if exp.None? then Refused(BadExpiry)
      else if now > exp.value then Refused(Expired)
      else Granted(if fields[2] != [] then Split(fields[2], COMMA) else [], fields[1])
  }

  // ----- Round trip -----

  lemma FormatHasNoBar(n: int)
    ensures BAR !in FormatInt(n)
  {
    var s := FormatInt(n);
    forall i | 0 <= i < |s|
      ensures s[i] != BAR
    {
      assert IsDigit(s[i]) || s[i] == 45;
    }
  }

  lemma FieldsOfPayload(exp: int64, user: Bytes, rest: Bytes)
    requires BAR !in user
    ensures SplitN(FormatInt(exp) + [BAR] + user + [BAR] + rest, BAR, 3) == [FormatInt(exp), user, rest]
  {
    hide FormatInt, SplitN;
    FormatHasNoBar(exp);
    assert FormatInt(exp) + [BAR] + user + [BAR] + rest == FormatInt(exp) + [BAR] + (user + [BAR] + rest);
    SplitNFirst(FormatInt(exp), BAR, user + [BAR] + rest, 3);
    SplitNFirst(user, BAR, rest, 2);
    SplitNLast(rest, BAR);
  }

  lemma SplitNLast<T>(s: seq<T>, sep: T)
    ensures SplitN(s, sep, 1) == [s]
  {
  }

  lemma {:induction false} JoinIsEmpty(topics: seq<Bytes>)
    requires topics != []
    ensures Join(topics, [COMMA]) == [] <==> topics == [[]]
  {
  }

  lemma PayloadReads(exp: int64, user: Bytes, topics: seq<Bytes>, now: int)
    requires topics != [] && !HasReserved(topics) && BAR !in user
    ensures ReadPayload(Payload(exp, user, topics), now)
         == if now > exp then Refused(Expired) else Granted(if topics == [[]] then [] else topics, user)
  {
    hide FormatInt, ParseInt, SplitN, Split, Join;
    FieldsOfPayload(exp, user, Join(topics, [COMMA]));
    ParseOfFormat(exp);
    JoinIsEmpty(topics);
    SplitOfJoin(topics, COMMA);
  }

  /** A signed token verifies until its expiry, to exactly the signed user and topics; the one list
      that does not survive is the list of a single empty topic, which comes back empty. */
  lemma VerifyOfSign(mac: Mac, exp: int64, user: Bytes, topics: seq<Bytes>, now: int)
    requires Sign(mac, exp, user, topics).Token?
    ensures Verify(mac, Sign(mac, exp, user, topics).token, now)
         == if now > exp then Refused(Expired) else Granted(if topics == [[]] then [] else topics, user)
  {
    hide Payload, ReadPayload, EncodeRaw, DecodeRaw, SplitN;
    var payload := Payload(exp, user, topics);
    var head, tail := EncodeRaw(Url, payload), EncodeRaw(Url, mac(payload));
    EncodedIsPlain(payload);
    EncodedIsPlain(mac(payload));
    SplitNFirst(head, '.', tail, 2);
    SplitNLast(tail, '.');
    assert head + "." + tail == head + ['.'] + tail;
    DecodeOfEncode(Url, payload, false);
    DecodeOfEncode(Url, mac(payload), false);
    PayloadReads(exp, user, topics, now);
  }

  /** When a token is issued, and which of the three refusals comes when. A comma is 44 and a
      bar 124. */
  lemma SignsExactly(mac: Mac, exp: int64, user: Bytes, topics: seq<Bytes>)
    ensures var r := Sign(mac, exp, user, topics);
            var plain := forall i :: 0 <= i < |topics| ==> 44 !in topics[i] && 124 !in topics[i];
            && (r.Token? <==> topics != [] && plain && 124 !in user)
            && (r == NotSigned(NoTopics) <==> topics == [])
            && (r == NotSigned(ReservedInTopic) <==> topics != [] && !plain)
            && (r == NotSigned(ReservedInUser) <==> topics != [] && plain && 124 in user)
  {
    hide EncodeRaw, Payload;
  }

  /** And what is signed: expiry, user and topics with bars between, the topics with commas. */
  lemma SignsPayload(mac: Mac, exp: int64, user: Bytes, topics: seq<Bytes>)
    requires Sign(mac, exp, user, topics).Token?
    ensures var payload := FormatInt(exp) + [124] + user + [124] + Join(topics, [44]);
            exists head: string, tail: string ::
              && Sign(mac, exp, user, topics).token == head + "." + tail && '.' !in head && '.' !in tail
              && DecodeUrl(head) == Some(payload) && DecodeUrl(tail) == Some(mac(payload))
  {
    hide EncodeRaw, DecodeRaw, FormatInt, Join;
    var payload := Payload(exp, user, topics);
    var head, tail := EncodeRaw(Url, payload), EncodeRaw(Url, mac(payload));
    EncodedIsPlain(payload);
    EncodedIsPlain(mac(payload));
    DecodeOfEncode(Url, payload, false);
    DecodeOfEncode(Url, mac(payload), false);
    assert Sign(mac, exp, user, topics).token == head + "." + tail;
  }

  /** Which refusal a text meets: it is malformed without a dot; then the two encodings are looked at, the
      signature, and the three fields of the payload, in this order. */
  lemma RefusesInOrder(mac: Mac, token: string, now: int)
    ensures Verify(mac, token, now) == Refused(MalformedToken) <==> '.' !in token
    ensures forall head: string, tail: string :: token == head + "." + tail && '.' !in head ==>
              var payload, sig, v := DecodeUrl(head), DecodeUrl(tail), Verify(mac, token, now);
              && (payload.None? <==> v == Refused(BadPayload))
              && (payload.Some? ==> (sig.None? <==> v == Refused(BadSignatureText)))
              && (payload.Some? && sig.Some? ==>
                    && (sig.value != mac(payload.value) <==> v == Refused(WrongSignature))
                    && (sig.value == mac(payload.value) ==> v == ReadPayload(payload.value, now)))
  {
    hide DecodeUrl, SplitN, ReadPayload;
    forall payload: Bytes
      ensures var v := ReadPayload(payload, now);
              v.Granted? || v == Refused(MalformedPayload) || v == Refused(BadExpiry) || v == Refused(Expired)
    {
      LaterRefusals(payload, now);
    }
    if '.' in token {
      var i := Index(token, '.');
      assert token == token[..i] + ['.'] + token[i + 1..];
      SplitNFirst(token[..i], '.', token[i + 1..], 2);
      SplitNLast(token[i + 1..], '.');
    } else {
      NoCut(token, '.');
    }
    forall head: string, tail: string | token == head + "." + tail && '.' !in head
      ensures SplitN(token, '.', 2) == [head, tail]
    {
      assert head + "." + tail == head + ['.'] + tail;
      SplitNFirst(head, '.', tail, 2);
      SplitNLast(tail, '.');
    }
  }

  lemma LaterRefusals(payload: Bytes, now: int)
    ensures var v := ReadPayload(payload, now);
            v.Granted? || v == Refused(MalformedPayload) || v == Refused(BadExpiry) || v == Refused(Expired)
  {
    hide SplitN, ParseInt, Split;
  }

  lemma NoCut(token: string, sep: char)
    requires sep !in token
    ensures SplitN(token, sep, 2) == [token]
  {
    IndexAbsent(token, sep);
  }

  /** A token is refused as expired exactly when it would have been granted at some time before. */
  lemma ExpiredExactly(mac: Mac, token: string, now: int)
    ensures Verify(mac, token, now) == Refused(Expired)
       <==> !Verify(mac, token, now).Granted? && exists t: int :: t < now && Verify(mac, token, t).Granted?
  {
    hide SplitN, DecodeUrl, ParseInt, Split;
    if Verify(mac, token, now) == Refused(Expired) {
      var payload := DecodeUrl(SplitN(token, '.', 2)[0]).value;
      var exp := ParseInt(SplitN(payload, BAR, 3)[0]).value;
      assert Verify(mac, token, exp).Granted?;
    }
  }

  /** The token names its grant: no two grants share a token, whatever the hash. */
  lemma TokenNamesGrant(mac: Mac, e: int64, u: Bytes, ts: seq<Bytes>, e': int64, u': Bytes, ts': seq<Bytes>)
    ensures Sign(mac, e, u, ts).Token? && Sign(mac, e, u, ts) == Sign(mac, e', u', ts') ==>
      e == e' && u == u' && ts == ts'
  {
    hide Verify, Sign;
    if Sign(mac, e, u, ts).Token? && Sign(mac, e, u, ts) == Sign(mac, e', u', ts') {
      var early := if e < e' then e else e';
      VerifyOfSign(mac, e, u, ts, early);
      VerifyOfSign(mac, e', u', ts', early);
      VerifyOfSign(mac, e, u, ts, early + 1);
      VerifyOfSign(mac, e', u', ts', early + 1);
      SignedTopics(mac, e, u, ts);
      SignedTopics(mac, e', u', ts');
    }
  }

  lemma SignedTopics(mac: Mac, e: int64, u: Bytes, ts: seq<Bytes>)
    requires Sign(mac, e, u, ts).Token?
    ensures ts != []
  {
  }

  // ----- What is accepted -----

  /** What the gateway accepts, said without splitting: two texts around the first dot, one decoding
      to a payload and the other to its hash, and the payload an unexpired number, the user and the
      joined topics. */
  ghost predicate Admits(mac: Mac, token: string, now: int, topics: seq<Bytes>, user: Bytes, head: string, tail: string,
                         number: Bytes) {
    var rest := Join(topics, [COMMA]);
    var payload := number + [BAR] + user + [BAR] + rest;
    && token == head + "." + tail && '.' !in head
    && DecodeUrl(head) == Some(payload) && DecodeUrl(tail) == Some(mac(payload))
    && BAR !in number && BAR !in user
    && (forall i :: 0 <= i < |topics| ==> COMMA !in topics[i]) && topics != [[]]
    && ParseInt(number).Some? && now <= ParseInt(number).value
  }

  lemma AdmittedIsGranted(mac: Mac, token: string, now: int, topics: seq<Bytes>, user: Bytes, head: string,
                          tail: string, number: Bytes)
    requires Admits(mac, token, now, topics, user, head, tail, number)
    ensures Verify(mac, token, now) == Granted(topics, user)
  {
    hide ParseInt, SplitN, Split, DecodeUrl;
    assert head + "." + tail == head + ['.'] + tail;
    SplitNFirst(head, '.', tail, 2);
    SplitNLast(tail, '.');
    var rest := Join(topics, [COMMA]);
    assert number + [BAR] + user + [BAR] + rest == number + [BAR] + (user + [BAR] + rest);
    SplitNFirst(number, BAR, user + [BAR] + rest, 3);
    SplitNFirst(user, BAR, rest, 2);
    SplitNLast(rest, BAR);
    if topics != [] {
      JoinIsEmpty(topics);
      SplitOfJoin(topics, COMMA);
    }
  }

  lemma GrantedIsAdmitted(mac: Mac, token: string, now: int) returns (head: string, tail: string, number: Bytes)
    ensures var v := Verify(mac, token, now); v.Granted? ==>
      Admits(mac, token, now, v.topics, v.subject, head, tail, number)
  {
    hide ParseInt, Split, SplitN, Join, DecodeUrl, ReadPayload;
    head, tail, number := "", "", [];
    if Verify(mac, token, now).Granted? {
      SplitNTwo(token, '.', 2);
      var dot := Index(token, '.');
      head, tail := token[..dot], token[dot + 1..];
      SplitNLast(tail, '.');
      assert token == head + "." + tail;
      number := GrantedPayload(DecodeUrl(head).value, now);
    }
  }

  lemma GrantedPayload(payload: Bytes, now: int) returns (number: Bytes)
    requires ReadPayload(payload, now).Granted?
    ensures var v := ReadPayload(payload, now);
            && payload == number + [BAR] + v.subject + [BAR] + Join(v.topics, [COMMA])
            && BAR !in number && BAR !in v.subject
            && (forall i :: 0 <= i < |v.topics| ==> COMMA !in v.topics[i]) && v.topics != [[]]
            && ParseInt(number).Some? && now <= ParseInt(number).value
  {
    ReadParts(payload, now);
    hide ParseInt, Split, SplitN, Join, ReadPayload;
    var user, rest;
    number, user, rest := ThreeFields(payload);
    TopicsRejoin(rest);
  }

  lemma ThreeFields(payload: Bytes) returns (number: Bytes, user: Bytes, rest: Bytes)
    requires |SplitN(payload, BAR, 3)| == 3
    ensures SplitN(payload, BAR, 3) == [number, user, rest]
    ensures payload == number + [BAR] + user + [BAR] + rest && BAR !in number && BAR !in user
  {
    hide SplitN;
    SplitNTwo(payload, BAR, 3);
    var bar := Index(payload, BAR);
    number := payload[..bar];
    var tail := payload[bar + 1..];
    SplitNTwo(tail, BAR, 2);
    var bar1 := Index(tail, BAR);
    user, rest := tail[..bar1], tail[bar1 + 1..];
    SplitNLast(rest, BAR);
    Regroup(payload, number, tail, user, rest);
  }

  lemma ReadParts(payload: Bytes, now: int)
    requires ReadPayload(payload, now).Granted?
    ensures var v, fields := ReadPayload(payload, now), SplitN(payload, BAR, 3);
            && |fields| == 3 && v.subject == fields[1]
            && v.topics == (if fields[2] != [] then Split(fields[2], COMMA) else [])
            && ParseInt(fields[0]).Some? && now <= ParseInt(fields[0]).value
  {
    hide SplitN, Split, ParseInt;
  }

  lemma Regroup(payload: Bytes, number: Bytes, tail: Bytes, user: Bytes, rest: Bytes)
    requires payload == number + [BAR] + tail && tail == user + [BAR] + rest
    ensures payload == number + [BAR] + user + [BAR] + rest
  {
  }

  lemma TopicsRejoin(rest: Bytes)
    ensures var topics := if rest != [] then Split(rest, COMMA) else [];
            Join(topics, [COMMA]) == rest && topics != [[]] && forall i :: 0 <= i < |topics| ==> COMMA !in topics[i]
  {
    hide Split;
    if rest != [] {
      JoinOfSplit(rest, COMMA);
    }
  }

  /** Verification grants exactly the texts that are built that way. */
  lemma GrantsExactly(mac: Mac, token: string, now: int, topics: seq<Bytes>, user: Bytes)
    ensures Verify(mac, token, now) == Granted(topics, user)
       <==> exists head: string, tail: string, number: Bytes ::
              Admits(mac, token, now, topics, user, head, tail, number)
  {
    hide Verify, Admits;
    if Verify(mac, token, now) == Granted(topics, user) {
      var head, tail, number := GrantedIsAdmitted(mac, token, now);
    }
    forall head: string, tail: string, number: Bytes | Admits(mac, token, now, topics, user, head, tail, number)
      ensures Verify(mac, token, now) == Granted(topics, user)
    {
      AdmittedIsGranted(mac, token, now, topics, user, head, tail, number);
    }
  }

  // ----- Topic patterns -----

  /** `pattern` is the topic itself, or a prefix of it followed by a star. */
  ghost predicate Covers(pattern: Bytes, topic: Bytes) {
    pattern == topic || exists prefix: Bytes :: pattern == prefix + [STAR] && prefix <= topic
  }

  lemma CoversByEnd(pattern: Bytes, topic: Bytes)
    ensures Covers(pattern, topic) <==>
      || pattern == topic
      || (pattern != [] && pattern[|pattern| - 1] == STAR && pattern[..|pattern| - 1] <= topic)
  {
    if pattern != [] && pattern[|pattern| - 1] == STAR {
      assert pattern == pattern[..|pattern| - 1] + [STAR];
    }
    forall prefix: Bytes | pattern == prefix + [STAR]
      ensures pattern[..|pattern| - 1] == prefix
    {
    }
  }

  /** `MatchTopic` */
  method MatchTopic(allowed: seq<Bytes>, topic: Bytes) returns (ok: bool)
    ensures ok <==> exists i :: 0 <= i < |allowed| && Covers(allowed[i], topic)
    ensures ok <==> exists i ::
      0 <= i < |allowed| && var a := allowed[i];
      a == topic || (a != [] && a[|a| - 1] == 42 && a[..|a| - 1] <= topic)
  {
    hide Covers;
    for i := 0 to |allowed|
      invariant forall k :: 0 <= k < i ==> !Covers(allowed[k], topic)
      invariant forall k :: 0 <= k < i ==>
        var a := allowed[k]; !(a == topic || (a != [] && a[|a| - 1] == 42 && a[..|a| - 1] <= topic))
    {
      var a := allowed[i];
      CoversByEnd(a, topic);
      assert Covers(a, topic) <==> a == topic || (a != [] && a[|a| - 1] == STAR && a[..|a| - 1] <= topic);
      if a == topic {
        return true;
      }
      if a != [] && a[|a| - 1] == STAR {
        var prefix := a[..|a| - 1];
        if prefix <= topic {
          return true;
        }
      }
    }
    return false;
  }
}
