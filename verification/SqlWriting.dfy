/** What the splitter does to a file as people write it: statements made of code, literals, comments and
    dollar-quoted bodies, told by what the text looks like and not by how it is read. */
module SqlWriting {
  import opened Text
  import opened SqlLexer

  /** What follows a comment's opening: text up to the closing mark, or up to a comment inside. */
  datatype Comment = Close(text: string) | Nest(text: string, inner: Comment, rest: Comment)

  datatype Chunk =
    | Code(text: string)
    | Literal(quote: char, content: string)
    | LineComment(text: string)
    | BlockComment(comment: Comment)
    | DollarBody(name: string, body: string)

  function RenderComment(c: Comment): string {
    match c
    case Close(t) => t + "*/"
    case Nest(t, inner, rest) => t + "/*" + RenderComment(inner) + RenderComment(rest)
  }

  /** Quotes inside are written twice. */
  function Doubled(quote: char, content: string): string {
    if content == "" then ""
    else Doubled(quote, content[..|content| - 1])
         + if content[|content| - 1] == quote then [quote, quote] else [content[|content| - 1]]
  }

  function Mark(name: string): string {
    "$" + name + "$"
  }

  function Render(x: Chunk): string {
    match x
    case Code(t) => t
    case Literal(q, content) => [q] + Doubled(q, content) + [q]
    case LineComment(t) => "--" + t + "\n"
    case BlockComment(c) => "/*" + RenderComment(c)
    case DollarBody(n, b) => Mark(n) + b + Mark(n)
  }

  /** The two runes `a` and `b` stand nowhere side by side. */
  ghost predicate Apart(s: string, a: char, b: char) {
    forall k :: 0 <= k < |s| - 1 ==> !(s[k] == a && s[k + 1] == b)
  }

  /** Neither opens nor closes a comment, not even together with `next`. */
  ghost predicate NoMarks(s: string, next: char) {
    Apart(s + [next], '/', '*') && Apart(s + [next], '*', '/')
  }

  ghost predicate ProperComment(c: Comment) {
    match c
    case Close(t) => NoMarks(t, '*')
    case Nest(t, inner, rest) => NoMarks(t, '/') && ProperComment(inner) && ProperComment(rest)
  }

  ghost predicate Proper(x: Chunk) {
    match x
    case Code(t) =>
      && Apart(t, '-', '-') && Apart(t, '/', '*')
      && forall k :: 0 <= k < |t| ==> t[k] != ';' && t[k] != '\'' && t[k] != '"' && t[k] != '$'
    case Literal(q, _) => q == '\'' || q == '"'
    case LineComment(t) => '\n' !in t
    case BlockComment(c) => ProperComment(c)
    case DollarBody(n, b) =>
      IsName(n) && forall k :: 0 <= k < |b| ==> !StandsAt(b + Mark(n), Mark(n), k)
  }

  ghost predicate IsName(n: string) {
    forall k :: 0 <= k < |n| ==> n[k] == '_' || 'a' <= n[k] <= 'z' || 'A' <= n[k] <= 'Z' || '0' <= n[k] <= '9'
  }

  ghost predicate StandsAt(s: string, t: string, k: int) {
    0 <= k && k + |t| <= |s| && s[k..k + |t|] == t
  }

  function RenderAll(xs: seq<Chunk>): string {
    if xs == [] then "" else RenderAll(xs[..|xs| - 1]) + Render(xs[|xs| - 1])
  }

  /** Proper chunks, code in one piece. */
  ghost predicate ProperAll(xs: seq<Chunk>) {
    && (forall i :: 0 <= i < |xs| ==> Proper(xs[i]))
    && forall i :: 0 < i < |xs| && xs[i].Code? ==> !xs[i - 1].Code?
  }

  // ----- One chunk -----

  /** Outside everything, with no tag begun. */
  predicate Ready(m: Mode) {
    Fresh(m) || m.Dash? || m.Slash?
  }

  predicate Fresh(m: Mode) {
    m.Normal? || m == QuoteSeen('\'') || m == QuoteSeen('"')
  }

  lemma {:induction false} ReadCode(m: Mode, t: string)
    requires Fresh(m) && Proper(Code(t))
    ensures Ready(Run(m, t)) && Clean(m, t)
    ensures t != "" ==> Run(m, t) == if t[|t| - 1] == '-' then Dash else if t[|t| - 1] == '/' then Slash else Normal
  {
    if t != "" {
      var init, c := t[..|t| - 1], t[|t| - 1];
      assert forall k :: 0 <= k < |init| ==> init[k] == t[k];
      ReadCode(m, init);
      assert init != "" ==> init[|init| - 1] == t[|t| - 2];
    }
  }

  lemma {:induction false} ReadDoubled(q: char, content: string)
    requires q != ';'
    ensures Run(Quoted(q), Doubled(q, content)) == Quoted(q) && Clean(Quoted(q), Doubled(q, content))
  {
    if content != "" {
      var init, c := content[..|content| - 1], content[|content| - 1];
      ReadDoubled(q, init);
      RunOne(Quoted(q), Doubled(q, init), c);
      if c == q {
        RunOne(Quoted(q), Doubled(q, init) + [c], c);
        assert Doubled(q, content) == Doubled(q, init) + [c] + [c];
      } else {
        assert Doubled(q, content) == Doubled(q, init) + [c];
      }
    }
  }

  lemma ReadLiteral(m: Mode, q: char, content: string)
    requires Ready(m) && Proper(Literal(q, content))
    ensures Run(m, Render(Literal(q, content))) == QuoteSeen(q) && Clean(m, Render(Literal(q, content)))
  {
    hide Run, Clean, Doubled;
    RunEmpty(m);
    RunOne(m, "", q);
    assert "" + [q] == [q];
    ReadDoubled(q, content);
    RunConcat(m, [q], Doubled(q, content));
    RunOne(m, [q] + Doubled(q, content), q);
  }

  lemma RunEmpty(m: Mode)
    ensures Run(m, "") == m && Clean(m, "")
  {
  }

  /** Two runes. */
  lemma RunTwo(m: Mode, a: char, b: char)
    requires a != ';' && b != ';'
    ensures Run(m, [a, b]) == Step(Step(m, a), b) && Clean(m, [a, b])
  {
    RunOne(m, "", a);
    RunOne(m, [a], b);
    assert "" + [a] == [a] && [a] + [b] == [a, b];
  }

  lemma {:induction false} ReadLineText(t: string)
    requires '\n' !in t
    ensures Run(Line, t) == Line && Clean(Line, t)
  {
    if t != "" {
      ReadLineText(t[..|t| - 1]);
    }
  }

  lemma ReadLineComment(m: Mode, t: string)
    requires Ready(m) && '\n' !in t
    ensures Run(m, Render(LineComment(t))) == Normal && Clean(m, Render(LineComment(t)))
  {
    RunTwo(m, '-', '-');
    assert "--" == ['-', '-'];
    ReadLineText(t);
    hide Run, Clean;
    assert Run(m, "--") == Line && Clean(m, "--");
    RunConcat(m, "--", t);
    RunOne(m, "--" + t, '\n');
  }

  /** Where comment text leaves the automaton. */
  lemma {:induction false} ReadCommentText(d: nat, t: string)
    requires Apart(t, '/', '*') && Apart(t, '*', '/')
    ensures Clean(Block(d), t)
    ensures Run(Block(d), t) == if t != "" && t[|t| - 1] == '/' then BlockSlash(d)
                                else if t != "" && t[|t| - 1] == '*' then BlockStar(d) else Block(d)
  {
    if t != "" {
      var init := t[..|t| - 1];
      assert forall k :: 0 <= k < |init| ==> init[k] == t[k];
      ReadCommentText(d, init);
      assert init != "" ==> init[|init| - 1] == t[|t| - 2];
    }
  }

  lemma NoMarksInside(s: string, next: char)
    requires NoMarks(s, next)
    ensures Apart(s, '/', '*') && Apart(s, '*', '/')
    ensures s != "" ==> !(s[|s| - 1] == '/' && next == '*') && !(s[|s| - 1] == '*' && next == '/')
  {
    var t := s + [next];
    assert forall k :: 0 <= k < |s| ==> t[k] == s[k];
    assert s != "" ==> t[|s| - 1] == s[|s| - 1] && t[|s|] == next;
  }

  function Outside(d: nat): Mode {
    if d <= 1 then Normal else Block(d - 1)
  }

  lemma {:induction false} ReadComment(d: nat, c: Comment)
    requires d >= 1 && ProperComment(c)
    ensures Run(Block(d), RenderComment(c)) == Outside(d) && Clean(Block(d), RenderComment(c))
    decreases c
  {
    hide Run, Clean;
    var t := c.text;
    NoMarksInside(t, if c.Close? then '*' else '/');
    ReadCommentText(d, t);
    match c
    case Close(_) =>
      RunTwo(Run(Block(d), t), '*', '/');
      assert "*/" == ['*', '/'];
      RunConcat(Block(d), t, "*/");
    case Nest(_, inner, rest) =>
      RunTwo(Run(Block(d), t), '/', '*');
      assert "/*" == ['/', '*'];
      RunConcat(Block(d), t, "/*");
      ReadComment(d + 1, inner);
      RunConcat(Block(d), t + "/*", RenderComment(inner));
      ReadComment(d, rest);
      RunConcat(Block(d), t + "/*" + RenderComment(inner), RenderComment(rest));
  }

  lemma ReadBlockComment(m: Mode, c: Comment)
    requires Ready(m) && ProperComment(c)
    ensures Run(m, Render(BlockComment(c))) == Normal && Clean(m, Render(BlockComment(c)))
  {
    hide Run, Clean;
    RunTwo(m, '/', '*');
    assert "/*" == ['/', '*'];
    ReadComment(1, c);
    RunConcat(m, "/*", RenderComment(c));
  }

  lemma {:induction false} ReadName(n: string)
    requires IsName(n)
    ensures Run(Tag(""), n) == Tag(n) && Clean(Tag(""), n)
  {
    if n != "" {
      var init, c := n[..|n| - 1], n[|n| - 1];
      ReadName(init);
      assert init + [c] == n;
      hide Run, Clean;
      RunOne(Tag(""), init, c);
      assert n[|n| - 1] == c;
    }
  }

  /** A body runs until its closing mark first stands there. */
  lemma {:induction false} ReadBody(tag: string, text: string, i: nat)
    requires |tag| > 0 && i <= |text| && forall k :: 0 <= k && k + |tag| <= i ==> !StandsAt(text, tag, k)
    ensures Run(SqlLexer.Body(tag, ""), text[..i]) == SqlLexer.Body(tag, text[..i])
    ensures Clean(SqlLexer.Body(tag, ""), text[..i])
  {
    if i > 0 {
      hide Run, Clean;
      ReadBody(tag, text, i - 1);
      assert text[..i] == text[..i - 1] + [text[i - 1]];
      RunOne(SqlLexer.Body(tag, ""), text[..i - 1], text[i - 1]);
      EndsHere(text, tag, i);
    } else {
      RunEmpty(SqlLexer.Body(tag, ""));
      assert text[..0] == "";
    }
  }

  lemma EndsHere(text: string, tag: string, i: nat)
    requires i <= |text|
    ensures EndsWith(text[..i], tag) <==> StandsAt(text, tag, i - |tag|)
  {
    if |tag| <= i {
      assert text[..i][i - |tag|..] == text[i - |tag|..i - |tag| + |tag|];
    }
  }

  lemma ReadDollarBody(m: Mode, n: string, b: string)
    requires Ready(m) && Proper(DollarBody(n, b))
    ensures Run(m, Render(DollarBody(n, b))) == Normal && Clean(m, Render(DollarBody(n, b)))
  {
    hide Run, Clean, IsName;
    var tag := Mark(n);
    ReadOpening(m, n);
    var text := b + tag;
    var last := |text| - 1;
    assert forall k :: 0 <= k && k + |tag| <= last ==> !StandsAt(text, tag, k);
    ReadBody(tag, text, last);
    assert text == text[..last] + [text[last]];
    RunOne(SqlLexer.Body(tag, ""), text[..last], text[last]);
    assert EndsWith(text[..last] + [text[last]], tag);
    RunConcat(m, tag, text);
    assert tag + text == Render(DollarBody(n, b));
  }

  lemma ReadOpening(m: Mode, n: string)
    requires Ready(m) && IsName(n)
    ensures Run(m, Mark(n)) == SqlLexer.Body(Mark(n), "") && Clean(m, Mark(n))
  {
    RunOne(m, "", '$');
    assert "" + ['$'] == "$";
    RunEmpty(m);
    hide Run, Clean;
    assert Run(m, "$") == Tag("");
    ReadName(n);
    RunConcat(m, "$", n);
    RunOne(m, "$" + n, '$');
    assert "$" + n + ['$'] == Mark(n);
  }

  // ----- Statements -----

  lemma ReadChunk(m: Mode, x: Chunk)
    requires Ready(m) && Proper(x) && (x.Code? ==> Fresh(m))
    ensures Ready(Run(m, Render(x))) && Clean(m, Render(x)) && (!x.Code? ==> Fresh(Run(m, Render(x))))
  {
    hide Run, Clean;
    match x
    case Code(t) => ReadCode(m, t);
    case Literal(q, content) => ReadLiteral(m, q, content);
    case LineComment(t) => ReadLineComment(m, t);
    case BlockComment(c) => ReadBlockComment(m, c);
    case DollarBody(n, b) => ReadDollarBody(m, n, b);
  }

  /** No semicolon of a written statement ends it, and after it one would. */
  lemma {:induction false} ReadStatement(xs: seq<Chunk>)
    requires ProperAll(xs)
    ensures Ready(Run(Normal, RenderAll(xs))) && Clean(Normal, RenderAll(xs))
    ensures xs == [] || !xs[|xs| - 1].Code? ==> Fresh(Run(Normal, RenderAll(xs)))
  {
    hide Run, Clean, Render, Proper;
    if xs == [] {
      RunEmpty(Normal);
    } else {
      var init, x := xs[..|xs| - 1], xs[|xs| - 1];
      assert init != [] ==> init[|init| - 1] == xs[|xs| - 2];
      ReadStatement(init);
      ReadChunk(Run(Normal, RenderAll(init)), x);
      RunConcat(Normal, RenderAll(init), Render(x));
    }
  }

  function Written(sts: seq<seq<Chunk>>): (texts: seq<string>)
    ensures |texts| == |sts| && forall i :: 0 <= i < |sts| ==> texts[i] == RenderAll(sts[i])
  {
    seq(|sts|, i requires 0 <= i < |sts| => RenderAll(sts[i]))
  }

  /** Statements as they are written, a semicolon between them, are cut exactly between them: whatever
      semicolons stand in literals, comments inside comments and dollar-quoted bodies. */
  lemma {:induction false} WrittenIsCut(sts: seq<seq<Chunk>>)
    requires sts != [] && forall i :: 0 <= i < |sts| ==> ProperAll(sts[i])
    ensures Segments(Join(Written(sts), ";")) == Written(sts)
  {
    hide Run, Clean, FeedAll, Join, ProperAll, RenderAll;
    var n := |sts| - 1;
    var last := RenderAll(sts[n]);
    ReadStatement(sts[n]);
    if n == 0 {
      FeedClean(START, last);
      assert START.current + last == last;
      assert Written(sts) == [] + [last];
      JoinSnoc([], ";", last);
    } else {
      var init := sts[..n];
      WrittenIsCut(init);
      ReadStatement(sts[n - 1]);
      WrittenSnoc(sts);
      JoinSnoc(Written(init), ";", last);
      assert Written(init)[n - 1] == RenderAll(sts[n - 1]);
      FeedStatementEnd(Join(Written(init), ";"), RenderAll(sts[n - 1]), last);
    }
  }

  lemma WrittenSnoc(sts: seq<seq<Chunk>>)
    requires sts != []
    ensures Written(sts) == Written(sts[..|sts| - 1]) + [RenderAll(sts[|sts| - 1])]
  {
  }

  /** After a segment read as a whole, a semicolon cuts it off. */
  lemma FeedStatementEnd(text: string, current: string, last: string)
    requires Segments(text)[|Segments(text)| - 1] == current && Ready(Run(Normal, current)) && Clean(Normal, last)
    ensures Segments(text + ";" + last) == Segments(text) + [last]
  {
    var st := FeedAll(START, text);
    SegmentsAreClean(text);
    assert st.current == current;
    FeedOne(START, text, ';');
    assert text + [';'] == text + ";";
    hide Run, Clean, FeedAll;
    FeedConcat(START, text + ";", last);
    FeedClean(Scan(st.cuts + [current], "", Normal), last);
    assert "" + last == last;
  }

  // ----- What is kept of them -----

  /** A rune of ASCII that is seen. */
  predicate Visible(c: char) {
    33 <= c as int <= 126
  }

  /** A statement that begins and ends with something seen and holds a letter outside literals, comments and
      bodies. */
  ghost predicate Worded(xs: seq<Chunk>) {
    && RenderAll(xs) != "" && Visible(RenderAll(xs)[0]) && Visible(RenderAll(xs)[|RenderAll(xs)| - 1])
    && exists i, k :: 0 <= i < |xs| && xs[i].Code? && 0 <= k < |xs[i].text| && IsLetter(xs[i].text[k])
  }

  predicate IsLetter(c: char) {
    'a' <= c <= 'z' || 'A' <= c <= 'Z'
  }

  lemma {:induction false} RenderConcat(a: seq<Chunk>, b: seq<Chunk>)
    ensures RenderAll(a + b) == RenderAll(a) + RenderAll(b)
  {
    hide Render;
    if b == [] {
      assert a + b == a;
    } else {
      RenderConcat(a, b[..|b| - 1]);
      assert (a + b)[..|a + b| - 1] == a + b[..|b| - 1];
    }
  }

  /** A letter read outside everything is code, whatever follows. */
  lemma LetterIsCode(before: string, c: char, after: string)
    requires IsLetter(c) && Ready(Run(Normal, before))
    ensures HasCode(before + [c] + after)
  {
    hide Run, Clean;
    var s, k := before + [c] + after, |before|;
    RunOne(Normal, before, c);
    assert Run(Normal, before + [c]).Normal?;
    assert s[..k] == before && s[..k + 1] == before + [c];
    if k + 2 <= |s| {
      RunOne(Normal, before + [c], after[0]);
      assert s[..k + 2] == before + [c] + [after[0]];
    }
    assert s[k] == c;
    assert CodeRune(s, k);
  }

  lemma WordedHasCode(xs: seq<Chunk>)
    requires ProperAll(xs) && Worded(xs)
    ensures HasCode(RenderAll(xs))
  {
    hide Run, Clean, HasCode, RenderAll, Proper;
    var i, k :| 0 <= i < |xs| && xs[i].Code? && 0 <= k < |xs[i].text| && IsLetter(xs[i].text[k]);
    var t, before := xs[i].text, RenderAll(xs[..i]);
    ReadStatement(xs[..i]);
    assert i > 0 ==> xs[..i][i - 1] == xs[i - 1];
    PartOfCode(t, k);
    ReadCode(Run(Normal, before), t[..k]);
    RunConcat(Normal, before, t[..k]);
    LetterIsCode(before + t[..k], t[k], t[k + 1..] + RenderAll(xs[i + 1..]));
    Around(xs, i, k);
  }

  lemma PartOfCode(t: string, k: nat)
    requires Proper(Code(t)) && k <= |t|
    ensures Proper(Code(t[..k]))
  {
    assert forall j :: 0 <= j < k ==> t[..k][j] == t[j];
  }

  /** The text around one rune of one chunk. */
  lemma Around(xs: seq<Chunk>, i: nat, k: nat)
    requires i < |xs| && xs[i].Code? && k < |xs[i].text|
    ensures var t := xs[i].text;
            RenderAll(xs) == (RenderAll(xs[..i]) + t[..k]) + [t[k]] + (t[k + 1..] + RenderAll(xs[i + 1..]))
  {
    var t := xs[i].text;
    assert RenderAll([xs[i]]) == t by {
      assert [xs[i]][..0] == [];
      assert "" + t == t;
    }
    hide RenderAll;
    assert xs == xs[..i] + [xs[i]] + xs[i + 1..];
    RenderConcat(xs[..i] + [xs[i]], xs[i + 1..]);
    RenderConcat(xs[..i], [xs[i]]);
    Regroup(RenderAll(xs[..i]), t, k, RenderAll(xs[i + 1..]));
  }

  lemma Regroup(a: string, t: string, k: nat, b: string)
    requires k < |t|
    ensures a + t + b == (a + t[..k]) + [t[k]] + (t[k + 1..] + b)
  {
    assert t == t[..k] + [t[k]] + t[k + 1..];
  }

  /** Files of such statements come apart into exactly them. */
  lemma WrittenIsRead(sts: seq<seq<Chunk>>)
    requires sts != [] && forall i :: 0 <= i < |sts| ==> ProperAll(sts[i]) && Worded(sts[i])
    ensures Statements(Join(Written(sts), ";")) == Written(sts)
  {
    hide ProperAll, Worded, Join, Segments;
    WrittenIsCut(sts);
    AllKept(sts);
  }

  lemma {:induction false} AllKept(sts: seq<seq<Chunk>>)
    requires forall i :: 0 <= i < |sts| ==> ProperAll(sts[i]) && Worded(sts[i])
    ensures Kept(Written(sts)) == Written(sts)
  {
    hide ProperAll, HasCode, RenderAll, TrimSpace;
    if sts != [] {
      var xs := sts[|sts| - 1];
      AllKept(sts[..|sts| - 1]);
      WrittenSnoc(sts);
      WordedHasCode(xs);
      TrimUnique("", RenderAll(xs), "");
      assert "" + RenderAll(xs) + "" == RenderAll(xs);
      KeptOne(Written(sts[..|sts| - 1]), RenderAll(xs));
    }
  }
}
