/** Base64 by RFC 4648, section 4 with padding and section 5 without. */
module Base64 {
  import opened Text

  datatype Alphabet = Standard | Url

  type sextet = x: int | 0 <= x < 64

  /** Tables 1 and 2 of RFC 4648. */
  function Char(a: Alphabet, v: sextet): (c: char)
    ensures c != '=' && c != '.' && c != '\r' && c != '\n'
  {
    if v < 26 then 'A' + (v as char)
    else if v < 52 then 'a' + ((v - 26) as char)
    else if v < 62 then '0' + ((v - 52) as char)
    else if v == 62 then (if a.Standard? then '+' else '-')
    else (if a.Standard? then '/' else '_')
  }

  /** The two tables differ in their last two characters only. */
  lemma CharsAreTables(v: sextet)
    ensures Char(Url, v) as int == if v < 26 then 65 + v else if v < 52 then 97 + v - 26 else if v < 62 then 48 + v - 52
                                   else if v == 62 then 45 else 95
    ensures v < 62 ==> Char(Standard, v) == Char(Url, v)
  {
  }

  function Value(a: Alphabet, c: char): (v: Option<int>)
    ensures v.Some? ==> 0 <= v.value < 64
  {
    if 'A' <= c <= 'Z' then Some((c - 'A') as int)
    else if 'a' <= c <= 'z' then Some((c - 'a') as int + 26)
    else if '0' <= c <= '9' then Some((c - '0') as int + 52)
    else if c == (if a.Standard? then '+' else '-') then Some(62)
    else if c == (if a.Standard? then '/' else '_') then Some(63)
    else None
  }

  lemma ValueOfChar(a: Alphabet, v: sextet)
    ensures Value(a, Char(a, v)) == Some(v)
  {
  }

  lemma CharOfValue(a: Alphabet, c: char)
    requires Value(a, c).Some?
    ensures Char(a, Value(a, c).value) == c
  {
  }

  // ----- Line breaks -----

  /** Line breaks skipped: section 6.8 of RFC 2045, and what Go's decoders do. */
  function Strip(s: string): string {
    if s == "" then "" else (if s[0] == '\r' || s[0] == '\n' then "" else [s[0]]) + Strip(s[1..])
  }

  /** What is left of the first character. */
  function Head(s: string): string
    requires s != ""
  {
    if s[0] == '\r' || s[0] == '\n' then "" else [s[0]]
  }

  lemma StripHead(s: string)
    requires s != ""
    ensures Strip(s) == Head(s) + Strip(s[1..])
  {
  }

  lemma Regroup(a: string, b: string, c: string)
    ensures a + (b + c) == (a + b) + c
  {
  }

  lemma {:induction false} StripConcat(a: string, b: string)
    ensures Strip(a + b) == Strip(a) + Strip(b)
  {
    if a == "" {
      assert a + b == b;
    } else {
      StripConcat(a[1..], b);
      assert (a + b)[1..] == a[1..] + b;
      StripHead(a);
      StripHead(a + b);
      hide Strip;
      Regroup(Head(a), Strip(a[1..]), Strip(b));
    }
  }

  lemma {:induction false} StripPlain(s: string)
    requires forall i :: 0 <= i < |s| ==> s[i] != '\r' && s[i] != '\n'
    ensures Strip(s) == s
  {
    if s != "" {
      StripPlain(s[1..]);
    }
  }

  // ----- Without padding -----

  /** Three bytes as four sextets; a short last group keeps only the sextets it needs. */
  function EncodeGroup(a: Alphabet, g: Bytes): (s: string)
    requires 0 < |g| <= 3
    ensures |s| == |g| + 1 && forall i :: 0 <= i < |s| ==> s[i] != '=' && s[i] != '.' && s[i] != '\r' && s[i] != '\n'
  {
    var b0 := g[0] as int;
    var b1 := if |g| > 1 then g[1] as int else 0;
    var b2 := if |g| > 2 then g[2] as int else 0;
    [Char(a, b0 / 4), Char(a, b0 % 4 * 16 + b1 / 16)]
    + (if |g| > 1 then [Char(a, b1 % 16 * 4 + b2 / 64)] else [])
    + (if |g| > 2 then [Char(a, b2 % 64)] else [])
  }

  function EncodeRaw(a: Alphabet, data: Bytes): (s: string)
    ensures forall i :: 0 <= i < |s| ==> s[i] != '=' && s[i] != '.' && s[i] != '\r' && s[i] != '\n'
  {
    if data == [] then ""
    else if |data| <= 3 then EncodeGroup(a, data)
    else EncodeGroup(a, data[..3]) + EncodeRaw(a, data[3..])
  }

  /** Two to four characters as one to three bytes; with `strict`, unused bits must be zero. */
  function DecodeGroup(a: Alphabet, s: string, strict: bool): (r: Option<Bytes>)
    requires 2 <= |s| <= 4
    ensures r.Some? ==> |r.value| == |s| - 1
  {
    var v0, v1 := Value(a, s[0]), Value(a, s[1]);
    var v2 := if |s| > 2 then Value(a, s[2]) else Some(0);
    var v3 := if |s| > 3 then Value(a, s[3]) else Some(0);
    if v0.None? || v1.None? || v2.None? || v3.None? then None
    else if strict && ((|s| == 2 && v1.value % 16 != 0) || (|s| == 3 && v2.value % 4 != 0)) then None
    else
      Some([(v0.value * 4 + v1.value / 16) as byte]
           + (if |s| > 2 then [(v1.value % 16 * 16 + v2.value / 4) as byte] else [])
           + (if |s| > 3 then [(v2.value % 4 * 64 + v3.value) as byte] else []))
  }

  function DecodeRaw(a: Alphabet, s: string, strict: bool): Option<Bytes> {
    if s == "" then Some([])
    else if |s| == 1 then None
    else if |s| <= 4 then DecodeGroup(a, s, strict)
    else
      var head, rest := DecodeGroup(a, s[..4], strict), DecodeRaw(a, s[4..], strict);
      if head.Some? && rest.Some? then Some(head.value + rest.value) else None
  }

  lemma DecodeOfEncodeGroup(a: Alphabet, g: Bytes, strict: bool)
    requires 0 < |g| <= 3
    ensures DecodeGroup(a, EncodeGroup(a, g), strict) == Some(g)
  {
    hide Value, Char;
    var b0 := g[0] as int;
    var b1 := if |g| > 1 then g[1] as int else 0;
    var b2 := if |g| > 2 then g[2] as int else 0;
    var s := EncodeGroup(a, g);
    ValueOfChar(a, b0 / 4);
    ValueOfChar(a, b0 % 4 * 16 + b1 / 16);
    assert s[0] == Char(a, b0 / 4) && s[1] == Char(a, b0 % 4 * 16 + b1 / 16);
    if |g| > 1 {
      ValueOfChar(a, b1 % 16 * 4 + b2 / 64);
      assert s[2] == Char(a, b1 % 16 * 4 + b2 / 64);
    }
    if |g| > 2 {
      ValueOfChar(a, b2 % 64);
      assert s[3] == Char(a, b2 % 64);
    }
    Bits(b0, b1, b2);
    assert DecodeGroup(a, s, strict).Some?;
    assert DecodeGroup(a, s, strict).value == g;
  }

  lemma Bits(b0: int, b1: int, b2: int)
    requires 0 <= b0 < 256 && 0 <= b1 < 256 && 0 <= b2 < 256
    ensures b0 / 4 * 4 + (b0 % 4 * 16 + b1 / 16) / 16 == b0
    ensures (b0 % 4 * 16 + b1 / 16) % 16 * 16 + (b1 % 16 * 4 + b2 / 64) / 4 == b1
    ensures (b1 % 16 * 4 + b2 / 64) % 4 * 64 + b2 % 64 == b2
    ensures (b1 == 0 ==> (b0 % 4 * 16 + b1 / 16) % 16 == 0) && (b2 == 0 ==> (b1 % 16 * 4 + b2 / 64) % 4 == 0)
  {
  }

  /** Decoding undoes encoding, for every byte string and either alphabet. */
  lemma {:induction false} DecodeOfEncode(a: Alphabet, data: Bytes, strict: bool)
    ensures DecodeRaw(a, EncodeRaw(a, data), strict) == Some(data)
  {
    if data == [] {
    } else if |data| <= 3 {
      DecodeOfEncodeGroup(a, data, strict);
    } else {
      var head, rest := EncodeGroup(a, data[..3]), EncodeRaw(a, data[3..]);
      DecodeOfEncodeGroup(a, data[..3], strict);
      DecodeOfEncode(a, data[3..], strict);
      assert (head + rest)[..4] == head && (head + rest)[4..] == rest;
      assert data == data[..3] + data[3..];
    }
  }

  /** An unpadded encoding holds neither a dot nor a line break. */
  lemma EncodedIsPlain(data: Bytes)
    ensures '.' !in EncodeRaw(Url, data) && Strip(EncodeRaw(Url, data)) == EncodeRaw(Url, data)
  {
    StripPlain(EncodeRaw(Url, data));
  }

  lemma EncodeOfDecodeGroup(a: Alphabet, s: string)
    requires 2 <= |s| <= 4 && DecodeGroup(a, s, true).Some?
    ensures EncodeGroup(a, DecodeGroup(a, s, true).value) == s
  {
    hide Value, Char;
    var v0, v1 := Value(a, s[0]).value, Value(a, s[1]).value;
    var v2 := if |s| > 2 then Value(a, s[2]).value else 0;
    var v3 := if |s| > 3 then Value(a, s[3]).value else 0;
    CharOfValue(a, s[0]);
    CharOfValue(a, s[1]);
    if |s| > 2 {
      CharOfValue(a, s[2]);
    }
    if |s| > 3 {
      CharOfValue(a, s[3]);
    }
    BitsBack(v0, v1, v2, v3);
  }

  lemma BitsBack(v0: int, v1: int, v2: int, v3: int)
    requires 0 <= v0 < 64 && 0 <= v1 < 64 && 0 <= v2 < 64 && 0 <= v3 < 64
    ensures var b0, b1, b2 := v0 * 4 + v1 / 16, v1 % 16 * 16 + v2 / 4, v2 % 4 * 64 + v3;
            && b0 / 4 == v0 && b0 % 4 * 16 + b1 / 16 == v1 && b1 % 16 * 4 + b2 / 64 == v2 && b2 % 64 == v3
            && (v1 % 16 == 0 ==> b0 % 4 * 16 == v1) && (v2 % 4 == 0 ==> b1 % 16 * 4 == v2)
  {
  }

  // ----- With padding -----

  function Padded(s: string): string {
    if |s| == 2 then s + "==" else if |s| == 3 then s + "=" else s
  }

  /** Section 4 of RFC 4648: groups of four characters, the last one filled up with `=`. */
  function Encode(data: Bytes): (s: string)
    ensures forall i :: 0 <= i < |s| ==> s[i] != '\r' && s[i] != '\n'
  {
    if data == [] then ""
    else if |data| <= 3 then Padded(EncodeGroup(Standard, data))
    else EncodeGroup(Standard, data[..3]) + Encode(data[3..])
  }

  function Unpadded(g: string): string
    requires |g| == 4
  {
    if g[3] != '=' then g else if g[2] != '=' then g[..3] else g[..2]
  }

  /** Decoding by section 4: whole groups, padding only in the last, unused bits zero. */
  function Decode(s: string): (r: Option<Bytes>)
  {
    if s == "" then Some([])
    else if |s| < 4 then None
    else if |s| == 4 then DecodeGroup(Standard, Unpadded(s), true)
    else
      var head, rest := DecodeGroup(Standard, s[..4], true), Decode(s[4..]);
      if head.Some? && rest.Some? then Some(head.value + rest.value) else None
  }

  /** The padded encoding has four characters for every three bytes begun, and decodes to exactly
      what was encoded. */
  lemma {:induction false} DecodeOfEncodePadded(data: Bytes)
    ensures |Encode(data)| == (|data| + 2) / 3 * 4
    ensures Decode(Encode(data)) == Some(data)
  {
    hide EncodeGroup, DecodeGroup;
    if data == [] {
    } else if |data| <= 3 {
      var g := EncodeGroup(Standard, data);
      DecodeOfEncodeGroup(Standard, data, true);
      assert Unpadded(Padded(g)) == g;
    } else {
      DecodeOfEncodeGroup(Standard, data[..3], true);
      DecodeOfEncodePadded(data[3..]);
      DecodeConcat(EncodeGroup(Standard, data[..3]), Encode(data[3..]));
      assert data == data[..3] + data[3..];
    }
  }

  lemma DecodeConcat(head: string, rest: string)
    requires |head| == 4 && rest != "" && DecodeGroup(Standard, head, true).Some? && Decode(rest).Some?
    ensures Decode(head + rest) == Some(DecodeGroup(Standard, head, true).value + Decode(rest).value)
  {
    hide DecodeGroup;
    assert (head + rest)[..4] == head && (head + rest)[4..] == rest;
  }

  /** And nothing else decodes: the encoding is the only text of its bytes. */
  lemma {:induction false} EncodeOfDecode(s: string)
    requires Decode(s).Some?
    ensures Encode(Decode(s).value) == s
  {
    if s == "" {
    } else if |s| == 4 {
      EncodeOfDecodeGroup(Standard, Unpadded(s));
      assert Padded(Unpadded(s)) == s;
    } else {
      EncodeOfDecodeGroup(Standard, s[..4]);
      EncodeOfDecode(s[4..]);
      var head, rest := DecodeGroup(Standard, s[..4], true).value, Decode(s[4..]).value;
      assert (head + rest)[..3] == head && (head + rest)[3..] == rest;
      assert s == s[..4] + s[4..];
    }
  }

  // ----- Test vectors -----

  /** Section 10 of RFC 4648; "f", "o", "b", "a" and "r" are 102, 111, 98, 97 and 114. */
  lemma TestVectors()
    ensures Encode([]) == "" && Encode([102]) == "Zg==" && Encode([102, 111]) == "Zm8="
    ensures Encode([102, 111, 111]) == "Zm9v" && Encode([102, 111, 111, 98]) == "Zm9vYg=="
    ensures Encode([102, 111, 111, 98, 97]) == "Zm9vYmE=" && Encode([102, 111, 111, 98, 97, 114]) == "Zm9vYmFy"
    ensures EncodeRaw(Url, [251, 240]) == "-_A"
  {
    ShortVectors();
    hide EncodeGroup, Padded;
    assert [102, 111, 111, 98][..3] == [102, 111, 111] && [102, 111, 111, 98][3..] == [98];
    assert [102, 111, 111, 98, 97][..3] == [102, 111, 111] && [102, 111, 111, 98, 97][3..] == [98, 97];
    assert [102, 111, 111, 98, 97, 114][..3] == [102, 111, 111] && [102, 111, 111, 98, 97, 114][3..] == [98, 97, 114];
  }

  lemma ShortVectors()
    ensures Padded(EncodeGroup(Standard, [102])) == "Zg==" && Padded(EncodeGroup(Standard, [102, 111])) == "Zm8="
    ensures EncodeGroup(Standard, [102, 111, 111]) == "Zm9v" && Padded("Zm9v") == "Zm9v"
    ensures Padded(EncodeGroup(Standard, [98])) == "Yg==" && Padded(EncodeGroup(Standard, [98, 97])) == "YmE="
    ensures Padded(EncodeGroup(Standard, [98, 97, 114])) == "YmFy"
    ensures EncodeGroup(Url, [251, 240]) == "-_A"
  {
  }
}
