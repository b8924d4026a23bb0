/** `mailer`: the hand-written base64 encoder and its MIME line wrapping. On bytes, `b >> k` is
    division by a power of two, `b & mask` a remainder, and `|` of disjoint bits a sum. */
module Mailer {
  import opened Text
  import opened Base64

  const ALPHABET := "ABCDEFGHIJKLMNOPQRSTUVWXYZ" + "abcdefghijklmnopqrstuvwxyz" + "0123456789" + "+/"

  const LINE_LEN := 76

  /** The literal alphabet is the one of RFC 4648, table 1. */
  lemma AlphabetIsStandard(v: sextet)
    ensures |ALPHABET| == 64 && ALPHABET[v] == Char(Standard, v)
    ensures ALPHABET[v] as int == if v < 26 then 65 + v else if v < 52 then 97 + v - 26 else if v < 62 then 48 + v - 52
                                  else if v == 62 then 43 else 47
  {
  }

  function At(v: sextet): (c: char)
    ensures c == Char(Standard, v)
  {
    AlphabetIsStandard(v);
    ALPHABET[v]
  }

  function ByteAt(data: Bytes, i: nat): (b: int)
    ensures 0 <= b < 256
  {
    if i < |data| then data[i] as int else 0
  }

  function From(data: Bytes, i: nat): Bytes {
    if i < |data| then data[i..] else []
  }

  /** `toBase64`: the encoding of RFC 4648, section 4. */
  method ToBase64(data: Bytes) returns (buf: string)
    ensures buf == Encode(data)
  {
    hide Char, Encode;
    buf := "";
    var n := |data|;
    var i := 0;
    EncodeNothing(data);
    while i < n
      invariant 0 <= i && buf + Encode(From(data, i)) == Encode(data)
    {
      var b1, b2, b3 := ByteAt(data, i), ByteAt(data, i + 1), ByteAt(data, i + 2);
      var group := [At(b1 / 4), At(b1 % 4 * 16 + b2 / 16),
                    if i + 1 < n then At(b2 % 16 * 4 + b3 / 64) else '=',
                    if i + 2 < n then At(b3 % 64) else '='];
      EncodeStep(data, i, group);
      assert buf + group + Encode(From(data, i + 3)) == buf + (group + Encode(From(data, i + 3)));
      buf := buf + group;
      i := i + 3;
    }
    EncodeNothing(data);
  }

  lemma EncodeNothing(data: Bytes)
    ensures "" + Encode(From(data, 0)) == Encode(data) && Encode([]) == ""
  {
    assert From(data, 0) == data;
  }

  /** One turn of the loop writes the group of the next three bytes. */
  lemma EncodeStep(data: Bytes, i: nat, group: string)
    requires i < |data|
    requires var b1, b2, b3 := ByteAt(data, i), ByteAt(data, i + 1), ByteAt(data, i + 2);
             group == [Char(Standard, b1 / 4), Char(Standard, b1 % 4 * 16 + b2 / 16),
                       if i + 1 < |data| then Char(Standard, b2 % 16 * 4 + b3 / 64) else '=',
                       if i + 2 < |data| then Char(Standard, b3 % 64) else '=']
    ensures group + Encode(From(data, i + 3)) == Encode(From(data, i))
  {
    hide Char;
    var rest := data[i..];
    if |rest| <= 3 {
      assert group == Padded(EncodeGroup(Standard, rest));
      assert group + "" == group;
    } else {
      assert group == EncodeGroup(Standard, rest[..3]);
      assert rest[3..] == From(data, i + 3);
    }
  }

  // ----- Line wrapping -----

  /** Every line is ended by CR LF, holds between 1 and 76 characters before that and no other line
      break; only the last may be shorter than 76. */
  ghost predicate MimeLines(s: string) {
    var parts := Split(s, '\n');
    && parts[|parts| - 1] == ""
    && forall i :: 0 <= i < |parts| - 1 ==>
         var line := parts[i];
         && 2 <= |line| <= 77 && line[|line| - 1] == '\r' && '\r' !in line[..|line| - 1]
         && (i < |parts| - 2 ==> |line| == 77)
  }

  /** A text made of whole lines. */
  ghost predicate LinesOf(lines: seq<string>) {
    forall i :: 0 <= i < |lines| ==>
      && 2 <= |lines[i]| <= LINE_LEN + 1 && lines[i][|lines[i]| - 1] == '\r'
      && '\r' !in lines[i][..|lines[i]| - 1] && '\n' !in lines[i]
      && (i < |lines| - 1 ==> |lines[i]| == LINE_LEN + 1)
  }

  lemma JoinLine(lines: seq<string>, line: string)
    ensures Join(lines + [line, ""], "\n") == Join(lines + [""], "\n") + line + "\n"
  {
    hide Join;
    JoinSnoc(lines + [line], "\n", "");
    JoinSnoc(lines, "\n", line);
    JoinSnoc(lines, "\n", "");
    assert lines + [line] + [""] == lines + [line, ""];
    if lines != [] {
      EmptyLast(Join(lines, "\n"), line);
    }
  }

  lemma EmptyLast(text: string, line: string)
    ensures (text + "\n" + line) + "\n" + "" == (text + "\n" + "") + line + "\n"
  {
  }

  lemma LinesAreMime(lines: seq<string>)
    requires LinesOf(lines)
    ensures MimeLines(Join(lines + [""], "\n"))
  {
    SplitOfJoin(lines + [""], '\n');
  }

  /** `base64Wrap`: lines of at most 76 characters, ended by CR LF, whose contents put together are
      the encoding. */
  method Base64Wrap(data: Bytes) returns (out: string)
    ensures Strip(out) == Encode(data) && MimeLines(out)
  {
    var enc := ToBase64(data);
    out := "";
    ghost var lines: seq<string> := [];
    assert lines + [""] == [""];
    var i := 0;
    while i < |enc|
      invariant 0 <= i && out == Join(lines + [""], "\n") && LinesOf(lines)
      invariant i <= |enc| ==> Strip(out) == enc[..i] && forall k :: 0 <= k < |lines| ==> |lines[k]| == LINE_LEN + 1
      invariant i > |enc| ==> Strip(out) == enc
    {
      var end := i + LINE_LEN;
      if end > |enc| {
        end := |enc|;
      }
      WrapStep(out, lines, enc, i, end);
      ghost var line := enc[i..end] + "\r";
      lines := lines + [line];
      out := out + enc[i..end];
      out := out + "\r\n";
      i := i + LINE_LEN;
    }
    assert enc[..|enc|] == enc;
    LinesAreMime(lines);
  }

  /** One more line. */
  lemma WrapStep(out: string, lines: seq<string>, enc: string, i: nat, end: nat)
    requires i < end <= |enc| && end <= i + LINE_LEN && (end < i + LINE_LEN ==> end == |enc|)
    requires forall k :: 0 <= k < |enc| ==> enc[k] != '\r' && enc[k] != '\n'
    requires out == Join(lines + [""], "\n") && LinesOf(lines) && Strip(out) == enc[..i]
    requires forall k :: 0 <= k < |lines| ==> |lines[k]| == LINE_LEN + 1
    ensures var line := enc[i..end] + "\r";
            && out + enc[i..end] + "\r\n" == Join(lines + [line] + [""], "\n") && LinesOf(lines + [line])
    ensures Strip(out + enc[i..end] + "\r\n") == enc[..end]
  {
    hide Strip, Join, LinesOf;
    var chunk := enc[i..end];
    var line := chunk + "\r";
    LinesSnoc(lines, chunk);
    JoinLine(lines, line);
    assert lines + [line] + [""] == lines + [line, ""];
    StripLine(out, chunk);
    BreakLine(out, chunk);
    assert enc[..i] + chunk == enc[..end];
  }

  lemma BreakLine(out: string, chunk: string)
    ensures out + (chunk + "\r") + "\n" == out + chunk + "\r\n"
  {
  }

  lemma LinesSnoc(lines: seq<string>, chunk: string)
    requires LinesOf(lines) && forall k :: 0 <= k < |lines| ==> |lines[k]| == LINE_LEN + 1
    requires 0 < |chunk| <= LINE_LEN && forall k :: 0 <= k < |chunk| ==> chunk[k] != '\r' && chunk[k] != '\n'
    ensures LinesOf(lines + [chunk + "\r"])
  {
    var line := chunk + "\r";
    assert line[..|line| - 1] == chunk;
  }

  /** Only the line break is skipped. */
  lemma StripLine(out: string, chunk: string)
    requires forall k :: 0 <= k < |chunk| ==> chunk[k] != '\r' && chunk[k] != '\n'
    ensures Strip(out + chunk + "\r\n") == Strip(out) + chunk
  {
    assert Strip("\r\n") == "" by {
      assert "\r\n"[1..] == "\n" && "\n"[1..] == "";
    }
    hide Strip;
    StripConcat(out + chunk, "\r\n");
    StripConcat(out, chunk);
    StripPlain(chunk);
  }

  /** Whoever skips the line breaks and decodes gets the attachment back. */
  lemma WrappedDecodes(data: Bytes, out: string)
    requires Strip(out) == Encode(data)
    ensures Decode(Strip(out)) == Some(data) && |Strip(out)| == (|data| + 2) / 3 * 4
  {
    DecodeOfEncodePadded(data);
  }
}
