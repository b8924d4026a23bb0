/** `roomauth`: room entitlements and the decision a deny marker takes. JSON and the keyed hash are
    parameters. */
module RoomAuth {
  import opened Text
  import opened Base64

  const TTL := 5 * 60
  const DENY_TTL := TTL + 60
  const AUDIENCE: Bytes := [119, 115, 45, 103, 97, 116, 101, 119, 97, 121]

  datatype Claims = Claims(version: int, subject: Bytes, conversation: Bytes, audience: Bytes, expiresAt: int64,
    nonce: Bytes, gen: int64)

  datatype Error =
    | Malformed | SignatureMismatch | MalformedPayload | MalformedClaims
    | UnsupportedVersion | AudienceMismatch | MissingIdentity | Expired

  datatype Verified = Ok(claims: Claims) | Err(why: Error)

  /** The codecs of the standard library: how claims become bytes and back, and the hash of a text. */
  datatype Codec = Codec(marshal: Claims -> Bytes, unmarshal: Bytes -> Option<Claims>, mac: string -> Bytes)

  function Sign(k: Codec, c: Claims): string {
    var encoded := EncodeRaw(Url, k.marshal(c));
    encoded + "." + EncodeRaw(Url, k.mac(encoded))
  }

  function Judge(c: Claims, now: int): Verified {
    if c.version != 1 then Err(UnsupportedVersion)
    else if c.audience != AUDIENCE then Err(AudienceMismatch)
    else if c.subject == [] || c.conversation == [] then Err(MissingIdentity)
    else if now >= c.expiresAt then Err(Expired)
    else Ok(c)
  }

  function Verify(k: Codec, token: string, now: int): Verified {
    var parts := Split(token, '.');
    if |parts| != 2 then Err(Malformed)
    else if EncodeRaw(Url, k.mac(parts[0])) != parts[1] then Err(SignatureMismatch)
    else
      var payload := DecodeRaw(Url, Strip(parts[0]), false);
      if payload.None? then Err(MalformedPayload)
      else
        var claims := k.unmarshal(payload.value);
        if claims.None? then Err(MalformedClaims) else Judge(claims.value, now)
  }

  /** A text that is accepted: the signature is the one text the hash of the payload text has, so
      nothing can be changed after the dot, and the claims are current. */
  ghost predicate Accepts(k: Codec, token: string, now: int, c: Claims, encoded: string) {
    && token == encoded + "." + EncodeRaw(Url, k.mac(encoded)) && '.' !in encoded
    && var payload := DecodeRaw(Url, Strip(encoded), false);
    && payload.Some? && k.unmarshal(payload.value) == Some(c)
    && c.version == 1 && c.audience == [119, 115, 45, 103, 97, 116, 101, 119, 97, 121]
    && |c.subject| > 0 && |c.conversation| > 0 && now < c.expiresAt
  }

  lemma SplitInTwo(head: string, tail: string)
    requires '.' !in head && '.' !in tail
    ensures Split(head + "." + tail, '.') == [head, tail]
  {
    SplitOfJoin([head, tail], '.');
    assert [head, tail][1..] == [tail];
    assert Join([head, tail], ".") == head + "." + tail;
  }

  lemma VerifiesExactly(k: Codec, token: string, now: int, c: Claims)
    ensures Verify(k, token, now) == Ok(c) <==> exists encoded: string :: Accepts(k, token, now, c, encoded)
  {
    hide EncodeRaw, DecodeRaw, Strip, Split, Join;
    forall encoded: string | Accepts(k, token, now, c, encoded)
      ensures Verify(k, token, now) == Ok(c)
    {
      EncodedIsPlain(k.mac(encoded));
      SplitInTwo(encoded, EncodeRaw(Url, k.mac(encoded)));
    }
    if Verify(k, token, now) == Ok(c) {
      var parts := Split(token, '.');
      JoinOfSplit(token, '.');
      JoinTwo(parts);
      assert Accepts(k, token, now, c, parts[0]);
    }
  }

  lemma JoinTwo(parts: seq<string>)
    requires |parts| == 2
    ensures Join(parts, ".") == parts[0] + "." + parts[1]
  {
    assert parts[1..] == [parts[1]];
  }

  /** A signed entitlement verifies to its own claims, as long as the claims are current and name both
      parties; otherwise the first failing check is reported. */
  lemma VerifyOfSign(k: Codec, c: Claims, now: int)
    requires k.unmarshal(k.marshal(c)) == Some(c)
    ensures Verify(k, Sign(k, c), now) ==
            if c.version != 1 then Err(UnsupportedVersion)
            else if c.audience != [119, 115, 45, 103, 97, 116, 101, 119, 97, 121] then Err(AudienceMismatch)
            else if |c.subject| == 0 || |c.conversation| == 0 then Err(MissingIdentity)
            else if c.expiresAt <= now then Err(Expired)
            else Ok(c)
  {
    hide EncodeRaw, DecodeRaw, Strip, Split, Join;
    var encoded := EncodeRaw(Url, k.marshal(c));
    EncodedIsPlain(k.marshal(c));
    EncodedIsPlain(k.mac(encoded));
    SplitInTwo(encoded, EncodeRaw(Url, k.mac(encoded)));
    DecodeOfEncode(Url, k.marshal(c), false);
  }

  /** Which refusal a text meets: it is malformed unless it holds exactly one dot; then the signature is
      looked at, then the payload, the claims, and what they say, in this order. */
  lemma RefusesInOrder(k: Codec, token: string, now: int)
    ensures Verify(k, token, now) == Err(Malformed) <==>
            !exists head: string, tail: string :: token == head + "." + tail && '.' !in head && '.' !in tail
    ensures forall head: string, tail: string :: token == head + "." + tail && '.' !in head && '.' !in tail ==>
              var payload := DecodeRaw(Url, Strip(head), false);
              && (tail != EncodeRaw(Url, k.mac(head)) <==> Verify(k, token, now) == Err(SignatureMismatch))
              && (tail == EncodeRaw(Url, k.mac(head)) ==>
                    && (payload.None? <==> Verify(k, token, now) == Err(MalformedPayload))
                    && (payload.Some? ==>
                          var claims := k.unmarshal(payload.value);
                          && (claims.None? <==> Verify(k, token, now) == Err(MalformedClaims))
                          && (claims.Some? ==> Verify(k, token, now) == Judge(claims.value, now))))
  {
    hide EncodeRaw, DecodeRaw, Strip, Split, Join;
    forall head: string, tail: string | token == head + "." + tail && '.' !in head && '.' !in tail
      ensures Split(token, '.') == [head, tail]
    {
      SplitInTwo(head, tail);
    }
    JoinOfSplit(token, '.');
    var parts := Split(token, '.');
    if |parts| == 2 {
      JoinTwo(parts);
    }
  }

  /** `DeniedByMarker` */
  predicate DeniedByMarker(marker: Bytes, gen: int64) {
    var sever := ParseInt(marker);
    sever.None? || gen <= sever.value
  }

  /** A written generation denies exactly the generations up to it; a token without one is below all. */
  lemma MarkerDenies(sever: int64, gen: int64)
    ensures DeniedByMarker(FormatInt(sever), gen) <==> gen <= sever
  {
    ParseOfFormat(sever);
  }

  /** A marker that is not a number denies every generation: one that is empty, or only a sign, or holds
      anything but digits after its first byte, or begins with neither a digit nor a sign. */
  lemma GarbledMarkerDenies(marker: Bytes, gen: int64)
    requires |marker| == 0 || (|marker| == 1 && !(48 <= marker[0] <= 57))
             || (exists i :: 1 <= i < |marker| && !(48 <= marker[i] <= 57))
             || !(48 <= marker[0] <= 57 || marker[0] == 43 || marker[0] == 45)
    ensures DeniedByMarker(marker, gen)
  {
    hide ParseInt;
    if ParseInt(marker).Some? {
      ParsesOnlyDecimal(marker);
    }
  }
}
