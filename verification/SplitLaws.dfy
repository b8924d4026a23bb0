/** What the splitter promises about its own output: statements are fixpoints, the list survives
    a re-join, and a segment is dropped only when it holds nothing to execute. */
module SplitLaws {
  import opened Text
  import opened SqlLexer

  /** A statement as the splitter returns it. */
  ghost predicate IsStatement(t: string) {
    Trimmed(t) && HasCode(t) && Clean(Normal, t)
  }

  /** A newline after `t` is read as plain SQL: `t` leaves no quote or block comment open. */
  predicate Closed(t: string) {
    Step(Run(Normal, t), '\n') == Normal
  }

  /** Only the last statement of a file may be left open. */
  ghost predicate WellFormed(ts: seq<string>) {
    (forall i :: 0 <= i < |ts| ==> IsStatement(ts[i])) && forall i :: 0 <= i < |ts| - 1 ==> Closed(ts[i])
  }

  lemma {:induction false} SpaceIsPlain(ws: string)
    requires AllSpace(ws)
    ensures Run(Normal, ws) == Normal && Clean(Normal, ws)
  {
    if ws != "" {
      SpaceIsPlain(ws[..|ws| - 1]);
    }
  }

  /** A dollar body waits for a tag that ends in a dollar sign, a quoted text for a quote. */
  predicate Sound(m: Mode) {
    (m.Body? ==> m.tag != "" && m.tag[|m.tag| - 1] == '$')
    && (m.Quoted? || m.QuoteSeen? ==> m.quote == '\'' || m.quote == '"')
  }

  lemma {:induction false} ModesAreSound(s: string)
    ensures Sound(Run(Normal, s))
  {
    if s != "" {
      ModesAreSound(s[..|s| - 1]);
    }
  }

  /** Inside a quote, a dollar body or a block comment. */
  predicate Inside(m: Mode) {
    !Plain(m) && !m.Line? && Sound(m)
  }

  /** Space closes neither a quote nor a body nor a block comment. */
  lemma {:induction false} SpaceKeepsInside(m: Mode, ws: string)
    requires AllSpace(ws) && Inside(m)
    ensures Inside(Run(m, ws))
  {
    if ws != "" {
      SpaceKeepsInside(m, ws[..|ws| - 1]);
    }
  }

  /** Trimming a segment changes the meaning of none of its runes. */
  lemma TrimmedSegment(g: string)
    requires Clean(Normal, g)
    ensures Clean(Normal, TrimSpace(g))
    ensures Plain(Run(Normal, g)) ==> Closed(TrimSpace(g))
  {
    hide Run, Clean;
    var t := TrimSpace(g);
    var pre, post := TrimParts(g);
    SpaceIsPlain(pre);
    RunConcat(Normal, pre + t, post);
    RunConcat(Normal, pre, t);
    ModesAreSound(t);
    if Inside(Run(Normal, t)) {
      SpaceKeepsInside(Run(Normal, t), post);
    }
  }

  lemma {:induction false} KeptAreStatements(segs: seq<string>)
    requires forall g :: g in segs ==> Clean(Normal, g)
    ensures forall i :: 0 <= i < |Kept(segs)| ==> IsStatement(Kept(segs)[i])
    ensures (forall g :: g in segs ==> Plain(Run(Normal, g))) ==> forall i :: 0 <= i < |Kept(segs)| ==>
      Closed(Kept(segs)[i])
  {
    if segs != [] {
      var init, g := segs[..|segs| - 1], segs[|segs| - 1];
      KeptAreStatements(init);
      assert g in segs;
      TrimmedSegment(g);
      var _, _ := TrimParts(g);
    }
  }

  lemma StatementsAreWellFormed(s: string)
    ensures WellFormed(Statements(s))
  {
    var st := FeedAll(START, s);
    SegmentsAreClean(s);
    assert forall g :: g in st.cuts ==> g in Segments(s);
    KeptAreStatements(st.cuts);
    KeptAreStatements(Segments(s));
    KeptOne(st.cuts, st.current);
  }

  lemma TrimOfTrimmed(t: string, post: string)
    requires Trimmed(t) && t != "" && AllSpace(post)
    ensures TrimSpace(t + post) == t
  {
    TrimUnique("", t, post);
    assert "" + t + post == t + post;
  }

  /** A statement splits to itself alone. */
  lemma StatementIsFixpoint(t: string)
    requires IsStatement(t)
    ensures Statements(t) == [t]
  {
    hide FeedAll, Run, Clean, TrimSpace;
    TrimOfTrimmed(t, "");
    assert t + "" == t;
    hide HasCode;
    FeedClean(START, t);
    assert START.current + t == t;
    assert Segments(t) == [t];
    assert Kept([t][..0]) == [];
  }

  /** Every returned statement splits to itself alone. */
  lemma EveryStatementIsFixpoint(s: string, i: nat)
    requires i < |Statements(s)|
    ensures Statements(Statements(s)[i]) == [Statements(s)[i]]
  {
    StatementsAreWellFormed(s);
    StatementIsFixpoint(Statements(s)[i]);
  }

  /** A closed statement, a newline and a semicolon are read as one segment. */
  lemma FeedStatement(t: string)
    requires IsStatement(t) && Closed(t)
    ensures FeedAll(START, t + "\n;") == Scan([t + "\n"], "", Normal)
  {
    hide FeedAll, Run, Clean;
    FeedClean(START, t);
    assert START.current + t == t;
    FeedOne(START, t, '\n');
    FeedOne(START, t + "\n", ';');
    assert t + "\n;" == t + "\n" + ";";
  }

  /** Joining well-formed statements and splitting again gives them back. */
  lemma {:induction false} RejoinWellFormed(ts: seq<string>)
    requires WellFormed(ts)
    ensures Statements(Join(ts, "\n;")) == ts
  {
    if ts == [] {
      assert Segments("") == [""];
      assert Kept([""][..0]) == [];
    } else if |ts| == 1 {
      StatementIsFixpoint(ts[0]);
    } else {
      var t, rest := ts[0], Join(ts[1..], "\n;");
      RejoinWellFormed(ts[1..]);
      FeedStatement(t);
      FeedConcat(START, t + "\n;", rest);
      FeedPrefix([t + "\n"], "", Normal, rest);
      var st := FeedAll(START, rest);
      assert ([t + "\n"] + st.cuts) + [st.current] == [t + "\n"] + Segments(rest);
      KeptConcat([t + "\n"], Segments(rest));
      TrimOfTrimmed(t, "\n");
      assert Kept([t + "\n"][..0]) == [];
    }
  }

  /** The re-join round trip, for every input: statements that end in a line comment and an
      unterminated last statement included. */
  lemma Rejoin(s: string)
    ensures Statements(Join(Statements(s), "\n;")) == Statements(s)
  {
    StatementsAreWellFormed(s);
    RejoinWellFormed(Statements(s));
  }

  // ----- What is dropped -----

  /** The rune at `k` is not in the space around the text. */
  ghost predicate Inner(g: string, k: nat)
    requires k < |g|
  {
    exists a: nat, b: nat :: a <= k <= b < |g| && !IsSpace(g[a]) && !IsSpace(g[b])
  }

  lemma SameReading(pre: string, t: string, post: string, k: nat)
    requires AllSpace(pre) && k <= |t|
    ensures Run(Normal, (pre + t + post)[..|pre| + k]) == Run(Normal, t[..k])
  {
    assert (pre + t + post)[..|pre| + k] == pre + t[..k];
    SpaceIsPlain(pre);
    RunConcat(Normal, pre, t[..k]);
  }

  lemma SameRune(pre: string, t: string, post: string, k: nat)
    requires AllSpace(pre) && AllSpace(post) && k < |t|
    ensures CodeRune(pre + t + post, |pre| + k) <==> CodeRune(t, k)
  {
    hide Run;
    var g := pre + t + post;
    SameReading(pre, t, post, k);
    SameReading(pre, t, post, k + 1);
    if k + 2 <= |t| {
      SameReading(pre, t, post, k + 2);
    } else if |pre| + k + 2 <= |g| {
      RunOne(Normal, g[..|pre| + k + 1], g[|pre| + k + 1]);
      assert g[..|pre| + k + 2] == g[..|pre| + k + 1] + [g[|pre| + k + 1]];
      assert g[|pre| + k + 1] == post[0];
    }
  }

  /** A segment is kept exactly when some rune of it, outside comments and not in the space
      around it, is not SQL space. */
  lemma SegmentIsKept(g: string)
    ensures HasCode(TrimSpace(g)) <==> exists k: nat :: k < |g| && CodeRune(g, k) && Inner(g, k)
  {
    hide CodeRune, IsSpace;
    var t := TrimSpace(g);
    var pre, post := TrimParts(g);
    if HasCode(t) {
      var k: nat :| k < |t| && CodeRune(t, k);
      SameRune(pre, t, post, k);
      assert g[|pre|] == t[0] && g[|pre| + |t| - 1] == t[|t| - 1];
      assert CodeRune(g, |pre| + k) && Inner(g, |pre| + k);
    }
    if k: nat :| k < |g| && CodeRune(g, k) && Inner(g, k) {
      assert forall x :: 0 <= x < |pre| ==> IsSpace(g[x]);
      assert forall x :: |pre| + |t| <= x < |g| ==> IsSpace(g[x]);
      var a: nat, b: nat :| a <= k <= b < |g| && !IsSpace(g[a]) && !IsSpace(g[b]);
      SameRune(pre, t, post, k - |pre|);
    }
  }

  /** The two scanners agree on a segment as it stands in the file exactly when any code in it reaches into
      its trimmed part. */
  lemma ScannersAgreeExactly(g: string)
    ensures (HasCode(g) <==> HasCode(TrimSpace(g)))
       <==> (HasCode(g) ==> exists k: nat :: k < |g| && CodeRune(g, k) && Inner(g, k))
  {
    SegmentIsKept(g);
  }

  /** They do when it holds no space but SQL space... */
  lemma ScannersAgree(g: string)
    requires forall k :: 0 <= k < |g| && IsSpace(g[k]) ==> IsSqlSpace(g[k])
    ensures HasCode(g) <==> HasCode(TrimSpace(g))
  {
    SegmentIsKept(g);
    if HasCode(g) {
      var k: nat :| k < |g| && CodeRune(g, k);
      assert !IsSpace(g[k]);
      assert Inner(g, k);
    }
  }

  /** ...and not when all there is is a no-break space, which is trimmed away, yet is no SQL space. */
  lemma ScannersDisagree()
    ensures HasCode("\U{00A0}") && !HasCode(TrimSpace("\U{00A0}")) && Statements("\U{00A0}") == []
  {
    NoBreakSpaceIsCode();
    NoBreakSpaceIsTrimmed();
    var g := "\U{00A0}";
    assert Clean(Normal, g) by {
      assert Run(Normal, g[..0]) == Normal;
    }
    FeedClean(START, g);
    assert START.current + g == g;
    assert Segments(g) == [g];
    hide TrimSpace, HasCode, Segments;
    assert Kept([g][..0]) == [];
  }

  lemma NoBreakSpaceIsCode()
    ensures HasCode("\U{00A0}")
  {
    var g := "\U{00A0}";
    assert Run(Normal, g[..0]) == Normal && Run(Normal, g[..1]) == Normal;
    assert CodeRune(g, 0);
  }

  lemma NoBreakSpaceIsTrimmed()
    ensures TrimSpace("\U{00A0}") == ""
  {
  }
}
