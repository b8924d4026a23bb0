/** A one-pass reference reading of a schema file.

    `schemabootstrap` scans with nested loops, lookahead and a dollar-tag search. The reference
    here has none of these: it is an automaton that reads one rune at a time, never looks ahead
    and never goes back. Everything the splitter promises is stated against this automaton.
    A rune is a Dafny `char` (a Unicode scalar value), a `[]rune` is a `string`. */
module SqlLexer {
  import opened Text

  /** Where the automaton stands after the runes read so far. `Dash`, `Slash`, `QuoteSeen` and
      `Tag` are plain SQL that the next rune may still turn into something else. */
  datatype Mode =
    | Normal
    | Dash                                // plain SQL ending in '-'
    | Slash                               // plain SQL ending in '/'
    | Line                                // inside a line comment
    | Block(depth: nat)                   // inside `depth` nested block comments
    | BlockSlash(depth: nat)              // the same, just after '/'
    | BlockStar(depth: nat)               // the same, just after '*'
    | Quoted(quote: char)                 // inside '...' or "..."
    | QuoteSeen(quote: char)              // after a quote that closes or doubles
    | Tag(name: string)                   // plain SQL ending in '$' and tag runes
    | Body(tag: string, seen: string)     // inside a dollar-quoted body

  predicate IsTagRune(c: char) {
    c == '_' || 'a' <= c <= 'z' || 'A' <= c <= 'Z' || '0' <= c <= '9'
  }

  /** The six runes `isSQLSpace` knows. */
  predicate IsSqlSpace(c: char) {
    c == ' ' || c == '\t' || c == '\n' || c == '\r' || c == '\U{000C}' || c == '\U{000B}'
  }

  /** The runes `strings.TrimSpace` removes: the six above and the other Unicode spaces. */
  predicate IsSpace(c: char) {
    IsSqlSpace(c) || c == '\U{0085}' || c == '\U{00A0}' || c == '\U{1680}'
    || '\U{2000}' <= c <= '\U{200A}' || c == '\U{2028}' || c == '\U{2029}'
    || c == '\U{202F}' || c == '\U{205F}' || c == '\U{3000}'
  }

  /** A semicolon read here ends a statement. */
  predicate Plain(m: Mode) {
    m.Normal? || m.Dash? || m.Slash? || m.QuoteSeen? || m.Tag?
  }

  predicate InComment(m: Mode) {
    m.Line? || m.Block? || m.BlockSlash? || m.BlockStar?
  }

  function Open(c: char): Mode {
    if c == '-' then Dash
    else if c == '/' then Slash
    else if c == '\'' || c == '"' then Quoted(c)
    else if c == '$' then Tag("")
    else Normal
  }

  predicate EndsWith(s: string, t: string) {
    |t| <= |s| && s[|s| - |t|..] == t
  }

  function Step(m: Mode, c: char): Mode {
    match m
    case Normal => Open(c)
    case Dash => if c == '-' then Line else Open(c)
    case Slash => if c == '*' then Block(1) else Open(c)
    case Line => if c == '\n' then Normal else Line
    case Block(d) => if c == '/' then BlockSlash(d) else if c == '*' then BlockStar(d) else Block(d)
    case BlockSlash(d) => if c == '*' then Block(d + 1) else if c == '/' then BlockSlash(d) else Block(d)
    case BlockStar(d) =>
      if c == '/' then (if d <= 1 then Normal else Block(d - 1))
      else if c == '*' then BlockStar(d) else Block(d)
    case Quoted(q) => if c == q then QuoteSeen(q) else Quoted(q)
    case QuoteSeen(q) => if c == q then Quoted(q) else Open(c)
    case Tag(n) => if c == '$' then Body("$" + n + "$", "") else if IsTagRune(c) then Tag(n + [c]) else Open(c)
    case Body(t, s) => if EndsWith(s + [c], t) then Normal else Body(t, s + [c])
  }

  function Run(m: Mode, s: string): Mode {
    if s == "" then m else Step(Run(m, s[..|s| - 1]), s[|s| - 1])
  }

  /** No semicolon of `s` ends a statement when `s` is read from `m`. */
  predicate Clean(m: Mode, s: string) {
    s == "" || (Clean(m, s[..|s| - 1]) && !(s[|s| - 1] == ';' && Plain(Run(m, s[..|s| - 1]))))
  }

  lemma {:induction false} RunConcat(m: Mode, a: string, b: string)
    ensures Run(m, a + b) == Run(Run(m, a), b)
    ensures Clean(m, a + b) <==> Clean(m, a) && Clean(Run(m, a), b)
  {
    if b == "" {
      assert a + b == a;
    } else {
      var init := b[..|b| - 1];
      RunConcat(m, a, init);
      assert (a + b)[..|a + b| - 1] == a + init;
    }
  }

  lemma RunOne(m: Mode, s: string, c: char)
    ensures Run(m, s + [c]) == Step(Run(m, s), c)
    ensures Clean(m, s + [c]) <==> Clean(m, s) && !(c == ';' && Plain(Run(m, s)))
  {
    assert (s + [c])[..|s|] == s;
  }

  // ----- Segments -----

  /** The segments cut off so far, the runes since the last cut, and the mode. */
  datatype Scan = Scan(cuts: seq<string>, current: string, mode: Mode)

  const START := Scan([], "", Normal)

  function Feed(st: Scan, c: char): Scan {
    if c == ';' && Plain(st.mode) then Scan(st.cuts + [st.current], "", Normal)
    else Scan(st.cuts, st.current + [c], Step(st.mode, c))
  }

  function FeedAll(st: Scan, s: string): Scan {
    if s == "" then st else Feed(FeedAll(st, s[..|s| - 1]), s[|s| - 1])
  }

  /** The raw segments of a file: what stands between its statement-ending semicolons. */
  function Segments(s: string): (segs: seq<string>)
    ensures |segs| > 0
  {
    var st := FeedAll(START, s);
    st.cuts + [st.current]
  }

  lemma {:induction false} FeedConcat(st: Scan, a: string, b: string)
    ensures FeedAll(st, a + b) == FeedAll(FeedAll(st, a), b)
  {
    if b == "" {
      assert a + b == a;
    } else {
      var init := b[..|b| - 1];
      FeedConcat(st, a, init);
      assert (a + b)[..|a + b| - 1] == a + init;
    }
  }

  lemma FeedOne(st: Scan, s: string, c: char)
    ensures FeedAll(st, s + [c]) == Feed(FeedAll(st, s), c)
  {
    assert (s + [c])[..|s|] == s;
  }

  lemma {:induction false} FeedClean(st: Scan, s: string)
    requires Clean(st.mode, s)
    ensures FeedAll(st, s) == Scan(st.cuts, st.current + s, Run(st.mode, s))
  {
    if s == "" {
      assert st.current + s == st.current;
    } else {
      var init := s[..|s| - 1];
      FeedClean(st, init);
      assert s == init + [s[|s| - 1]];
      assert st.current + init + [s[|s| - 1]] == st.current + s;
    }
  }

  /** Earlier cuts never influence later ones. */
  lemma {:induction false} FeedPrefix(cuts: seq<string>, current: string, m: Mode, s: string)
    ensures FeedAll(Scan(cuts, current, m), s) ==
            var st := FeedAll(Scan([], current, m), s); Scan(cuts + st.cuts, st.current, st.mode)
  {
    if s == "" {
      assert cuts + [] == cuts;
    } else {
      var init := s[..|s| - 1];
      FeedPrefix(cuts, current, m, init);
      var st := FeedAll(Scan([], current, m), init);
      assert cuts + (st.cuts + [st.current]) == (cuts + st.cuts) + [st.current];
    }
  }

  // ----- Conservation -----

  /** What the automaton has split is what it has read: nothing is lost, moved or invented. */
  lemma {:induction false} SegmentsConserve(s: string)
    ensures Join(Segments(s), ";") == s
  {
    hide Join, Step;
    if s == "" {
      JoinSnoc([], ";", "");
      assert [""] == [] + [""];
    } else {
      var init, c := s[..|s| - 1], s[|s| - 1];
      SegmentsConserve(init);
      FeedConserves(FeedAll(START, init), c);
      assert s == init + [c];
    }
  }

  lemma FeedConserves(st: Scan, c: char)
    ensures var st' := Feed(st, c); Join(st'.cuts + [st'.current], ";") == Join(st.cuts + [st.current], ";") + [c]
  {
    hide Join, Step;
    if c == ';' && Plain(st.mode) {
      JoinSnoc(st.cuts + [st.current], ";", "");
      assert Join(st.cuts + [st.current], ";") + ";" + "" == Join(st.cuts + [st.current], ";") + [c];
    } else {
      JoinSnoc(st.cuts, ";", st.current);
      JoinSnoc(st.cuts, ";", st.current + [c]);
      var p := Join(st.cuts, ";") + ";";
      assert p + st.current + [c] == p + (st.current + [c]);
    }
  }

  /** Every segment, read by itself, holds no statement end; each one but the last stops where
      a semicolon does end a statement. */
  lemma {:induction false} SegmentsAreClean(s: string)
    ensures forall g :: g in Segments(s) ==> Clean(Normal, g)
    ensures forall g :: g in FeedAll(START, s).cuts ==> Plain(Run(Normal, g))
    ensures FeedAll(START, s).mode == Run(Normal, FeedAll(START, s).current)
  {
    if s != "" {
      var init, c := s[..|s| - 1], s[|s| - 1];
      SegmentsAreClean(init);
      var st := FeedAll(START, init);
      assert st.current in Segments(init);
      RunOne(Normal, st.current, c);
      var st' := Feed(st, c);
      forall g | g in Segments(s) ensures Clean(Normal, g) {
        assert g in st'.cuts || g == st'.current;
        if g in st.cuts {
          assert g in Segments(init);
        }
      }
    }
  }

  // ----- Trimming -----

  predicate AllSpace(s: string) {
    forall k :: 0 <= k < |s| ==> IsSpace(s[k])
  }

  function TrimLeft(s: string): string {
    if s != "" && IsSpace(s[0]) then TrimLeft(s[1..]) else s
  }

  function TrimRight(s: string): string {
    if s != "" && IsSpace(s[|s| - 1]) then TrimRight(s[..|s| - 1]) else s
  }

  function TrimSpace(s: string): string {
    TrimRight(TrimLeft(s))
  }

  predicate Trimmed(s: string) {
    s == "" || (!IsSpace(s[0]) && !IsSpace(s[|s| - 1]))
  }

  lemma {:induction false} TrimLeftParts(s: string) returns (pre: string)
    ensures s == pre + TrimLeft(s) && AllSpace(pre)
    ensures TrimLeft(s) == "" || !IsSpace(TrimLeft(s)[0])
  {
    if s != "" && IsSpace(s[0]) {
      var p := TrimLeftParts(s[1..]);
      pre := [s[0]] + p;
      assert s == [s[0]] + s[1..];
    } else {
      pre := "";
    }
  }

  lemma {:induction false} TrimRightParts(s: string) returns (post: string)
    ensures s == TrimRight(s) + post && AllSpace(post)
    ensures TrimRight(s) == "" || !IsSpace(TrimRight(s)[|TrimRight(s)| - 1])
  {
    if s != "" && IsSpace(s[|s| - 1]) {
      var p := TrimRightParts(s[..|s| - 1]);
      post := p + [s[|s| - 1]];
      assert s == s[..|s| - 1] + [s[|s| - 1]];
    } else {
      post := "";
    }
  }

  /** Trimming takes space off both ends and nothing else, and leaves none there. */
  lemma TrimParts(s: string) returns (pre: string, post: string)
    ensures s == pre + TrimSpace(s) + post && AllSpace(pre) && AllSpace(post)
    ensures Trimmed(TrimSpace(s))
  {
    pre := TrimLeftParts(s);
    post := TrimRightParts(TrimLeft(s));
    var t := TrimSpace(s);
    if t != "" {
      assert TrimLeft(s)[0] == t[0];
    }
  }

  lemma {:induction false} TrimRightDrops(t: string, post: string)
    requires AllSpace(post) && Trimmed(t)
    ensures TrimRight(t + post) == t
  {
    if post == "" {
      assert t + post == t;
    } else {
      var init := post[..|post| - 1];
      TrimRightDrops(t, init);
      assert (t + post)[..|t + post| - 1] == t + init;
    }
  }

  lemma {:induction false} TrimLeftDrops(pre: string, t: string)
    requires AllSpace(pre) && (t == "" || !IsSpace(t[0]))
    ensures TrimLeft(pre + t) == t
  {
    if pre == "" {
      assert pre + t == t;
    } else {
      TrimLeftDrops(pre[1..], t);
      assert (pre + t)[1..] == pre[1..] + t;
    }
  }

  /** The trimmed text is the only trimmed text with space around it. */
  lemma TrimUnique(pre: string, t: string, post: string)
    requires AllSpace(pre) && AllSpace(post) && Trimmed(t) && t != ""
    ensures TrimSpace(pre + t + post) == t
  {
    assert pre + t + post == pre + (t + post);
    TrimLeftDrops(pre, t + post);
    TrimRightDrops(t, post);
  }

  /** The code points Unicode calls white space. */
  predicate WhiteSpace(c: int) {
    || 9 <= c <= 13 || c == 32 || c == 0x85 || c == 0xA0 || c == 0x1680 || 0x2000 <= c <= 0x200A
    || c == 0x2028 || c == 0x2029 || c == 0x202F || c == 0x205F || c == 0x3000
  }

  /** Trimming takes exactly the white space off both ends. */
  lemma TrimsWhiteSpace(pre: string, t: string, post: string)
    requires forall k :: 0 <= k < |pre| ==> WhiteSpace(pre[k] as int)
    requires forall k :: 0 <= k < |post| ==> WhiteSpace(post[k] as int)
    requires t == "" || (!WhiteSpace(t[0] as int) && !WhiteSpace(t[|t| - 1] as int))
    ensures TrimSpace(pre + t + post) == t
  {
    assert pre + t + post == pre + (t + post);
    if t == "" {
      assert t + post == post;
      assert AllSpace(pre + post);
      TrimLeftDrops(pre + post, "");
      assert pre + post + "" == pre + post;
    } else {
      TrimUnique(pre, t, post);
    }
  }

  /** Nothing is left exactly when all is white space. */
  lemma {:induction false} NothingLeft(s: string)
    ensures TrimSpace(s) == "" <==> forall k :: 0 <= k < |s| ==> WhiteSpace(s[k] as int)
  {
    if forall k :: 0 <= k < |s| ==> WhiteSpace(s[k] as int) {
      TrimsWhiteSpace(s, "", "");
      assert s + "" + "" == s;
    }
    var pre, post := TrimParts(s);
    if TrimSpace(s) == "" {
      assert s == pre + post;
    }
  }

  // ----- Code and comments -----

  /** The rune at `k` belongs to a comment: it is read inside one, or opens or closes one. */
  predicate CommentRune(s: string, k: nat)
    requires k < |s|
  {
    InComment(Run(Normal, s[..k])) || InComment(Run(Normal, s[..k + 1]))
    || (k + 2 <= |s| && InComment(Run(Normal, s[..k + 2])))
  }

  predicate CodeRune(s: string, k: nat)
    requires k < |s|
  {
    !CommentRune(s, k) && !IsSqlSpace(s[k])
  }

  /** Somewhere outside comments there is a rune that is not space. */
  ghost predicate HasCode(s: string) {
    exists k: nat :: k < |s| && CodeRune(s, k)
  }

  /** A text holds code exactly when a rune outside its comments is none of tab, line feed, vertical tab,
      form feed, carriage return and space. */
  lemma CodeIsNoSpace(s: string)
    ensures HasCode(s) <==>
            exists k: nat :: k < |s| && !CommentRune(s, k) && !(9 <= s[k] as int <= 13) && s[k] as int != 32
  {
    hide CommentRune;
    if k: nat :| k < |s| && !CommentRune(s, k) && !(9 <= s[k] as int <= 13) && s[k] as int != 32 {
      assert CodeRune(s, k);
    }
    if HasCode(s) {
      var k: nat :| k < |s| && CodeRune(s, k);
      assert !CommentRune(s, k);
    }
  }

  /** The statements of a file: its segments, trimmed, without those that hold no code. */
  ghost function Statements(s: string): seq<string> {
    Kept(Segments(s))
  }

  ghost function Kept(segs: seq<string>): seq<string> {
    if segs == [] then []
    else
      var t := TrimSpace(segs[|segs| - 1]);
      Kept(segs[..|segs| - 1]) + (if HasCode(t) then [t] else [])
  }

  lemma KeptOne(segs: seq<string>, g: string)
    ensures Kept(segs + [g]) == Kept(segs) + (if HasCode(TrimSpace(g)) then [TrimSpace(g)] else [])
  {
    assert (segs + [g])[..|segs|] == segs;
  }

  lemma {:induction false} KeptConcat(a: seq<string>, b: seq<string>)
    ensures Kept(a + b) == Kept(a) + Kept(b)
  {
    if b == [] {
      assert a + b == a;
    } else {
      KeptConcat(a, b[..|b| - 1]);
      assert (a + b)[..|a + b| - 1] == a + b[..|b| - 1];
    }
  }
}
