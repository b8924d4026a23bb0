/** `schemabootstrap`: the statement splitter as the service runs it, with its nested loops,
    its lookahead and its dollar-tag search, proved against the automaton of `SqlLexer`. */
module SchemaBootstrap {
  import opened SqlLexer

  /** The runes `i..j` are `$`, tag runes and `$`. */
  ghost predicate OpensTag(runes: string, i: nat, j: nat) {
    i < j < |runes| && runes[i] == '$' && runes[j] == '$'
    && forall k :: i < k < j ==> IsTagRune(runes[k])
  }

  /** Reading on from `i` gives the same result from `m` as from plain SQL: what could still
      have changed the meaning of the runes before `i` does not follow. */
  ghost predicate Settled(m: Mode, runes: string, i: nat) {
    match m
    case Normal => true
    case Dash => i < |runes| ==> runes[i] != '-'
    case Slash => i < |runes| ==> runes[i] != '*'
    case QuoteSeen(q) => i < |runes| ==> runes[i] != q
    case Tag(_) => forall j :: i <= j < |runes| && runes[j] == '$' ==> exists k :: i <= k < j && !IsTagRune(runes[k])
    case Line => i < |runes| ==> runes[i] == '\n'
    case _ => i >= |runes|
  }

  lemma SettledStep(m: Mode, runes: string, i: nat)
    requires i < |runes| && Settled(m, runes, i)
    ensures Step(m, runes[i]) == Open(runes[i]) || (m.Tag? && IsTagRune(runes[i]) && Step(m, runes[i]).Tag?)
    ensures !IsTagRune(runes[i]) ==> Step(m, runes[i]) == Open(runes[i])
    ensures runes[i] != '\n' ==> Plain(m)
    ensures m.Tag? && IsTagRune(runes[i]) ==> Settled(Step(m, runes[i]), runes, i + 1)
  {
    if m.Tag? && IsTagRune(runes[i]) {
      forall j | i + 1 <= j < |runes| && runes[j] == '$' ensures exists k :: i + 1 <= k < j && !IsTagRune(runes[k]) {
        var k :| i <= k < j && !IsTagRune(runes[k]);
        assert k != i;
      }
    }
  }

  /** Reading one more rune of `runes[start..]`. */
  lemma Advance(m: Mode, runes: string, start: nat, i: nat)
    requires start <= i < |runes|
    ensures Run(m, runes[start..i + 1]) == Step(Run(m, runes[start..i]), runes[i])
    ensures Clean(m, runes[start..i + 1]) <==>
            Clean(m, runes[start..i]) && !(runes[i] == ';' && Plain(Run(m, runes[start..i])))
  {
    assert runes[start..i + 1] == runes[start..i] + [runes[i]];
    RunOne(m, runes[start..i], runes[i]);
  }

  lemma ReadNothing(m: Mode, runes: string, i: nat)
    requires i <= |runes|
    ensures runes[i..i] == "" && Clean(m, runes[i..i]) && Run(m, runes[i..i]) == m
  {
  }

  lemma AdvanceTwo(m: Mode, runes: string, start: nat, i: nat)
    requires start <= i && i + 1 < |runes| && runes[i] != ';' && runes[i + 1] != ';'
    ensures Run(m, runes[start..i + 2]) == Step(Step(Run(m, runes[start..i]), runes[i]), runes[i + 1])
    ensures Clean(m, runes[start..i + 2]) <==> Clean(m, runes[start..i])
  {
    hide Run, Clean;
    Advance(m, runes, start, i);
    Advance(m, runes, start, i + 1);
  }

  /** Copying the rune at `j`. */
  lemma Copied(current: string, runes: string, i: nat, j: nat)
    requires i <= j < |runes|
    ensures current + runes[i..j] + [runes[j]] == current + runes[i..j + 1]
  {
    assert runes[i..j + 1] == runes[i..j] + [runes[j]];
  }

  lemma CopiedTwo(current: string, runes: string, i: nat, j: nat)
    requires i <= j && j + 1 < |runes|
    ensures current + runes[i..j] + [runes[j]] + [runes[j + 1]] == current + runes[i..j + 2]
  {
    Copied(current, runes, i, j);
    Copied(current, runes, i, j + 1);
  }

  predicate At(runes: string, i: nat, a: char, b: char) {
    i + 1 < |runes| && runes[i] == a && runes[i + 1] == b
  }

  /** `dollarTag`: recognises `$$` or `$name$` at `i`. */
  method DollarTag(runes: string, i: nat) returns (tag: string, ok: bool)
    requires i < |runes|
    ensures ok <==> exists j :: OpensTag(runes, i, j)
    ensures ok <==> exists j: nat ::
      && i < j < |runes| && runes[i] == '$' && runes[j] == '$'
      && forall k :: i < k < j ==> var c := runes[k];
           c == '_' || 'a' <= c <= 'z' || 'A' <= c <= 'Z' || '0' <= c <= '9'
    ensures ok ==> |tag| >= 2 && OpensTag(runes, i, i + |tag| - 1) && tag == runes[i..i + |tag|]
    ensures !ok && runes[i] == '$' ==> Settled(Tag(""), runes, i + 1)
  {
    if runes[i] != '$' {
      return "", false;
    }
    var j := i + 1;
    while j < |runes|
      invariant i < j <= |runes|
      invariant forall k :: i < k < j ==> IsTagRune(runes[k])
    {
      if runes[j] == '$' {
        assert OpensTag(runes, i, j);
        return runes[i..j + 1], true;
      }
      if !IsTagRune(runes[j]) {
        return "", false;
      }
      j := j + 1;
    }
    return "", false;
  }

  /** Copies a line comment up to, not including, its newline. */
  method CopyLineComment(runes: string, i: nat, current: string, ghost m: Mode) returns (j: nat, text: string)
    requires At(runes, i, '-', '-') && Settled(m, runes, i)
    ensures i < j <= |runes| && text == current + runes[i..j]
    ensures Clean(m, runes[i..j]) && Run(m, runes[i..j]) == Line
    ensures Settled(Line, runes, j)
  {
    hide Run, Clean;
    ReadNothing(m, runes, i);
    j, text := i, current;
    SettledStep(m, runes, i);
    while j < |runes| && runes[j] != '\n'
      invariant i <= j <= |runes| && text == current + runes[i..j]
      invariant Clean(m, runes[i..j])
      invariant Run(m, runes[i..j]) == (if j == i then m else if j == i + 1 then Dash else Line)
    {
      Advance(m, runes, i, j);
      text := text + [runes[j]];
      j := j + 1;
    }
  }

  /** `depth` block comments are open before `j`, and the rune at `j` completes no `/*` or `*/`
      with the one before it. At depth 0 the comment is about to open. */
  ghost predicate BlockSettled(m: Mode, depth: nat, runes: string, j: nat) {
    if depth == 0 then Settled(m, runes, j) && At(runes, j, '/', '*')
    else
      m == Block(depth)
      || (m == BlockSlash(depth) && (j < |runes| ==> runes[j] != '*'))
      || (m == BlockStar(depth) && (j < |runes| ==> runes[j] != '/'))
  }

  lemma BlockOpens(m: Mode, depth: nat, runes: string, j: nat)
    requires BlockSettled(m, depth, runes, j) && At(runes, j, '/', '*')
    ensures Step(Step(m, '/'), '*') == Block(depth + 1)
  {
    if depth == 0 {
      SettledStep(m, runes, j);
    }
  }

  lemma BlockCloses(m: Mode, depth: nat, runes: string, j: nat)
    requires BlockSettled(m, depth, runes, j) && At(runes, j, '*', '/')
    ensures depth > 0 && Step(m, '*') == BlockStar(depth)
    ensures Step(Step(m, '*'), '/') == if depth == 1 then Normal else Block(depth - 1)
  {
  }

  lemma BlockGoesOn(m: Mode, depth: nat, runes: string, j: nat)
    requires j < |runes| && BlockSettled(m, depth, runes, j)
    requires !At(runes, j, '/', '*') && !At(runes, j, '*', '/')
    ensures depth > 0 && !Plain(m) && BlockSettled(Step(m, runes[j]), depth, runes, j + 1)
  {
  }

  /** Copies a block comment with everything nested in it; an unterminated one runs to the end. */
  method CopyBlockComment(runes: string, i: nat, current: string, ghost m: Mode) returns (j: nat, text: string)
    requires At(runes, i, '/', '*') && Settled(m, runes, i)
    ensures i < j <= |runes| && text == current + runes[i..j]
    ensures Clean(m, runes[i..j])
    ensures j < |runes| ==> Run(m, runes[i..j]) == Normal
  {
    hide Run, Clean;
    ReadNothing(m, runes, i);
    j, text := i, current;
    var depth := 0;
    ghost var now := m;
    while j < |runes|
      invariant i <= j <= |runes| && 0 <= depth
      invariant text == current + runes[i..j]
      invariant Clean(m, runes[i..j])
      invariant now == Run(m, runes[i..j])
      invariant BlockSettled(now, depth, runes, j)
    {
      if At(runes, j, '/', '*') {
        BlockOpens(now, depth, runes, j);
        AdvanceTwo(m, runes, i, j);
        CopiedTwo(current, runes, i, j);
        depth := depth + 1;
        text := text + [runes[j]] + [runes[j + 1]];
        j := j + 2;
        now := Block(depth);
        continue;
      }
      if At(runes, j, '*', '/') {
        BlockCloses(now, depth, runes, j);
        AdvanceTwo(m, runes, i, j);
        CopiedTwo(current, runes, i, j);
        depth := depth - 1;
        text := text + [runes[j]] + [runes[j + 1]];
        j := j + 2;
        if depth == 0 {
          break;
        }
        now := Block(depth);
        continue;
      }
      BlockGoesOn(now, depth, runes, j);
      Advance(m, runes, i, j);
      Copied(current, runes, i, j);
      now := Step(now, runes[j]);
      text := text + [runes[j]];
      j := j + 1;
    }
  }

  /** Copies a string literal or quoted identifier; a doubled quote does not end it. */
  method CopyQuoted(runes: string, i: nat, current: string, ghost m: Mode) returns (j: nat, text: string)
    requires i < |runes| && (runes[i] == '\'' || runes[i] == '"') && Settled(m, runes, i)
    ensures i < j <= |runes| && text == current + runes[i..j]
    ensures Clean(m, runes[i..j])
    ensures j < |runes| ==> Settled(Run(m, runes[i..j]), runes, j)
  {
    hide Run, Clean;
    ReadNothing(m, runes, i);
    var q := runes[i];
    SettledStep(m, runes, i);
    Advance(m, runes, i, i);
    Copied(current, runes, i, i);
    text := current + [runes[i]];
    j := i + 1;
    while j < |runes|
      invariant i < j <= |runes|
      invariant text == current + runes[i..j]
      invariant Clean(m, runes[i..j])
      invariant Run(m, runes[i..j]) == Quoted(q)
    {
      if runes[j] == q {
        if j + 1 < |runes| && runes[j + 1] == q {
          AdvanceTwo(m, runes, i, j);
          CopiedTwo(current, runes, i, j);
          text := text + [runes[j]] + [runes[j + 1]];
          j := j + 2;
          continue;
        }
        Advance(m, runes, i, j);
        Copied(current, runes, i, j);
        text := text + [runes[j]];
        j := j + 1;
        break;
      }
      Advance(m, runes, i, j);
      Copied(current, runes, i, j);
      text := text + [runes[j]];
      j := j + 1;
    }
  }

  predicate HasTagAt(runes: string, i: nat, tag: string) {
    i + |tag| <= |runes| && runes[i..i + |tag|] == tag
  }

  /** No copy of the tag starts at `from` or later, before `to`. */
  ghost predicate NoTagIn(runes: string, from: nat, to: nat, tag: string) {
    forall p: nat :: from <= p < to ==> !HasTagAt(runes, p, tag)
  }

  lemma NoTagEnds(runes: string, start: nat, e: nat, tag: string, limit: nat)
    requires start <= e <= |runes| && 0 < |tag| && e < limit + |tag| && NoTagIn(runes, start, limit, tag)
    ensures !EndsWith(runes[start..e], tag)
  {
    if |tag| <= e - start {
      assert !HasTagAt(runes, e - |tag|, tag);
      assert runes[start..e][e - start - |tag|..] == runes[e - |tag|..e];
    }
  }

  lemma {:induction false} ReadTag(m: Mode, runes: string, i: nat, n: nat)
    requires i < i + n < |runes| && Settled(m, runes, i) && runes[i] == '$'
    requires forall k :: i < k < i + n ==> IsTagRune(runes[k])
    ensures Clean(m, runes[i..i + n]) && Run(m, runes[i..i + n]) == Tag(runes[i + 1..i + n])
  {
    hide Run, Clean;
    ReadNothing(m, runes, i);
    SettledStep(m, runes, i);
    Advance(m, runes, i, i + n - 1);
    if n == 1 {
      ReadNothing(m, runes, i + 1);
    } else {
      ReadTag(m, runes, i, n - 1);
      assert runes[i + 1..i + n] == runes[i + 1..i + n - 1] + [runes[i + n - 1]];
    }
  }

  /** While no closing tag has started, the body goes on. */
  lemma {:induction false} ReadBody(m: Mode, runes: string, i: nat, start: nat, e: nat, tag: string, limit: nat)
    requires i <= start <= e <= |runes| && 0 < |tag| && e < limit + |tag|
    requires Clean(m, runes[i..start]) && Run(m, runes[i..start]) == Body(tag, "")
    requires NoTagIn(runes, start, limit, tag)
    ensures Clean(m, runes[i..e]) && Run(m, runes[i..e]) == Body(tag, runes[start..e])
  {
    hide Run, Clean;
    if e == start {
    } else {
      ReadBody(m, runes, i, start, e - 1, tag, limit);
      Advance(m, runes, i, e - 1);
      assert runes[start..e] == runes[start..e - 1] + [runes[e - 1]];
      NoTagEnds(runes, start, e, tag, limit);
    }
  }

  lemma Tail(runes: string, start: nat, e: nat, n: nat)
    requires start <= e < |runes| && n <= e + 1 - start
    ensures var s := runes[start..e] + [runes[e]]; s[|s| - n..] == runes[e + 1 - n..e + 1]
  {
    assert runes[start..e] + [runes[e]] == runes[start..e + 1];
  }

  /** The closing tag that ends with the rune at `e` is the first, so the automaton leaves the
      body there. */
  lemma CloseBody(m: Mode, runes: string, i: nat, start: nat, e: nat, tag: string)
    requires i <= start && 0 < |tag| && start + |tag| <= e + 1 && e < |runes|
    requires HasTagAt(runes, e + 1 - |tag|, tag)
    requires Clean(m, runes[i..start]) && Run(m, runes[i..start]) == Body(tag, "")
    requires NoTagIn(runes, start, e + 1 - |tag|, tag)
    ensures Clean(m, runes[i..e + 1]) && Run(m, runes[i..e + 1]) == Normal
  {
    hide Run, Clean;
    var seen := runes[start..e];
    ReadBody(m, runes, i, start, e, tag, e + 1 - |tag|);
    Advance(m, runes, i, e);
    Tail(runes, start, e, |tag|);
    assert EndsWith(seen + [runes[e]], tag);
  }

  /** The opening tag of a body, read from plain SQL. */
  lemma OpenBody(m: Mode, runes: string, i: nat, tag: string)
    requires |tag| >= 2 && OpensTag(runes, i, i + |tag| - 1) && tag == runes[i..i + |tag|]
    requires Settled(m, runes, i)
    ensures Clean(m, runes[i..i + |tag|]) && Run(m, runes[i..i + |tag|]) == Body(tag, "")
  {
    hide Run, Clean;
    ReadTag(m, runes, i, |tag| - 1);
    Advance(m, runes, i, i + |tag| - 1);
    assert "$" + runes[i + 1..i + |tag| - 1] + "$" == tag;
  }

  lemma CopiedTag(current: string, runes: string, i: nat, j: nat, tag: string)
    requires i <= j && HasTagAt(runes, j, tag)
    ensures current + runes[i..j] + tag == current + runes[i..j + |tag|]
  {
    assert runes[i..j + |tag|] == runes[i..j] + runes[j..j + |tag|];
  }

  /** Copies a dollar-quoted body with both its tags; without a closing tag it runs to the end. */
  method CopyDollarBody(runes: string, i: nat, current: string, tag: string, ghost m: Mode)
    returns (j: nat, text: string)
    requires |tag| >= 2 && OpensTag(runes, i, i + |tag| - 1) && tag == runes[i..i + |tag|]
    requires Settled(m, runes, i)
    ensures i < j <= |runes| && text == current + runes[i..j]
    ensures Clean(m, runes[i..j])
    ensures j < |runes| ==> Run(m, runes[i..j]) == Normal
  {
    hide Run, Clean;
    text := current + tag;
    j := i + |tag|;
    ghost var start := j;
    OpenBody(m, runes, i, tag);
    while j < |runes|
      invariant start <= j <= |runes|
      invariant text == current + runes[i..j]
      invariant NoTagIn(runes, start, j, tag)
      invariant Clean(m, runes[i..j])
    {
      if HasTagAt(runes, j, tag) {
        CloseBody(m, runes, i, start, j + |tag| - 1, tag);
        CopiedTag(current, runes, i, j, tag);
        return j + |tag|, text + tag;
      }
      ReadBody(m, runes, i, start, j + 1, tag, j + 1);
      Copied(current, runes, i, j);
      text := text + [runes[j]];
      j := j + 1;
    }
  }

  ghost predicate NoCodeIn(runes: string, from: nat, to: nat)
    requires to <= |runes|
  {
    forall k: nat :: from <= k < to ==> !CodeRune(runes, k)
  }

  lemma Read(runes: string, k: nat)
    requires k < |runes|
    ensures Run(Normal, runes[..k + 1]) == Step(Run(Normal, runes[..k]), runes[k])
  {
    assert runes[..k + 1][..k] == runes[..k];
  }

  /** A rune read into a comment is no code. */
  lemma SkipOne(runes: string, from: nat, j: nat, m: Mode)
    requires from <= j < |runes| && m == Run(Normal, runes[..j]) && NoCodeIn(runes, from, j)
    requires InComment(Step(m, runes[j]))
    ensures Run(Normal, runes[..j + 1]) == Step(m, runes[j])
    ensures NoCodeIn(runes, from, j + 1)
  {
    hide Run;
    Read(runes, j);
  }

  /** Nor are the two runes that open or close one. */
  lemma SkipTwo(runes: string, from: nat, j: nat, m: Mode)
    requires from <= j && j + 1 < |runes| && m == Run(Normal, runes[..j]) && NoCodeIn(runes, from, j)
    requires InComment(Step(m, runes[j])) || InComment(Step(Step(m, runes[j]), runes[j + 1]))
    ensures Run(Normal, runes[..j + 2]) == Step(Step(m, runes[j]), runes[j + 1])
    ensures NoCodeIn(runes, from, j + 2)
  {
    hide Run;
    Read(runes, j);
    Read(runes, j + 1);
  }

  lemma SkipSpace(runes: string, from: nat, j: nat)
    requires from <= j < |runes| && NoCodeIn(runes, from, j) && IsSqlSpace(runes[j]) && Scanning(runes, j)
    ensures NoCodeIn(runes, from, j + 1) && Scanning(runes, j + 1)
  {
    hide Run;
    Read(runes, j);
  }

  /** Plain SQL, or the newline that ends a line comment. */
  ghost predicate Scanning(runes: string, i: nat)
    requires i <= |runes|
  {
    var m := Run(Normal, runes[..i]);
    i < |runes| ==> m == Normal || (m == Line && runes[i] == '\n')
  }

  lemma PlainCode(runes: string, i: nat)
    requires i < |runes| && Scanning(runes, i) && !IsSqlSpace(runes[i])
    requires !At(runes, i, '-', '-') && !At(runes, i, '/', '*')
    ensures CodeRune(runes, i)
  {
    hide Run;
    Read(runes, i);
    if i + 1 < |runes| {
      Read(runes, i + 1);
    }
  }

  method SkipLineComment(runes: string, i: nat) returns (j: nat)
    requires At(runes, i, '-', '-') && Run(Normal, runes[..i]) == Normal
    ensures i < j <= |runes| && Scanning(runes, j) && NoCodeIn(runes, i, j)
  {
    hide Run;
    j := i;
    ghost var now := Normal;
    while j < |runes| && runes[j] != '\n'
      invariant i <= j <= |runes|
      invariant now == Run(Normal, runes[..j])
      invariant now == (if j == i then Normal else if j == i + 1 then Dash else Line)
      invariant NoCodeIn(runes, i, j)
    {
      if j == i {
        SkipTwo(runes, i, j, now);
        Read(runes, j);
      } else {
        SkipOne(runes, i, j, now);
      }
      now := Step(now, runes[j]);
      j := j + 1;
    }
  }

  method SkipBlockComment(runes: string, i: nat) returns (j: nat)
    requires At(runes, i, '/', '*') && Run(Normal, runes[..i]) == Normal
    ensures i < j <= |runes| && Scanning(runes, j) && NoCodeIn(runes, i, j)
  {
    hide Run;
    j := i;
    var depth := 0;
    ghost var now := Normal;
    while j < |runes|
      invariant i <= j <= |runes| && 0 <= depth
      invariant now == Run(Normal, runes[..j])
      invariant BlockSettled(now, depth, runes, j)
      invariant NoCodeIn(runes, i, j)
    {
      if At(runes, j, '/', '*') {
        BlockOpens(now, depth, runes, j);
        SkipTwo(runes, i, j, now);
        depth := depth + 1;
        j := j + 2;
        now := Block(depth);
        continue;
      }
      if At(runes, j, '*', '/') {
        BlockCloses(now, depth, runes, j);
        SkipTwo(runes, i, j, now);
        depth := depth - 1;
        j := j + 2;
        if depth == 0 {
          return;
        }
        now := Block(depth);
        continue;
      }
      BlockGoesOn(now, depth, runes, j);
      SkipOne(runes, i, j, now);
      now := Step(now, runes[j]);
      j := j + 1;
    }
  }

  /** `hasExecutableSQL` finds a rune outside comments that is not space, if there is one. */
  method HasExecutableSql(runes: string) returns (found: bool)
    ensures found <==> HasCode(runes)
    ensures found <==>
            exists k: nat ::
              k < |runes| && !CommentRune(runes, k) && !(9 <= runes[k] as int <= 13) && runes[k] as int != 32
  {
    hide CommentRune;
    CodeIsNoSpace(runes);
    var i := 0;
    while i < |runes|
      invariant 0 <= i <= |runes|
      invariant Scanning(runes, i) && NoCodeIn(runes, 0, i)
    {
      if At(runes, i, '-', '-') {
        i := SkipLineComment(runes, i);
      } else if At(runes, i, '/', '*') {
        i := SkipBlockComment(runes, i);
      } else if IsSqlSpace(runes[i]) {
        SkipSpace(runes, 0, i);
        i := i + 1;
      } else {
        PlainCode(runes, i);
        return true;
      }
    }
    return false;
  }

  /** The `flush` closure: keeps the pending text if it holds code, and starts afresh. */
  method Flush(out: seq<string>, current: string, ghost segs: seq<string>) returns (out': seq<string>)
    requires out == Kept(segs)
    ensures out' == Kept(segs + [current])
  {
    var s := TrimSpace(current);
    KeptOne(segs, current);
    var executable := HasExecutableSql(s);
    out' := if executable then out + [s] else out;
  }

  /** One turn of the scan that copies `runes[i..j]` without a cut. */
  lemma Copy(runes: string, i: nat, j: nat, st: Scan)
    requires i <= j <= |runes| && st == FeedAll(START, runes[..i]) && Clean(st.mode, runes[i..j])
    ensures FeedAll(START, runes[..j]) == Scan(st.cuts, st.current + runes[i..j], Run(st.mode, runes[i..j]))
  {
    FeedConcat(START, runes[..i], runes[i..j]);
    assert runes[..j] == runes[..i] + runes[i..j];
    FeedClean(st, runes[i..j]);
  }

  /** One turn that copies: a comment, a quoted text, a dollar body or a single rune. */
  method CopyToken(runes: string, i: nat, current: string, ghost m: Mode) returns (j: nat, text: string)
    requires i < |runes| && runes[i] != ';' && Settled(m, runes, i)
    ensures i < j <= |runes| && text == current + runes[i..j]
    ensures Clean(m, runes[i..j])
    ensures j < |runes| ==> Settled(Run(m, runes[i..j]), runes, j)
  {
    var c := runes[i];
    if At(runes, i, '-', '-') {
      j, text := CopyLineComment(runes, i, current, m);
    } else if At(runes, i, '/', '*') {
      j, text := CopyBlockComment(runes, i, current, m);
    } else if c == '\'' || c == '"' {
      j, text := CopyQuoted(runes, i, current, m);
    } else {
      var tag, ok := DollarTag(runes, i);
      if ok {
        j, text := CopyDollarBody(runes, i, current, tag, m);
      } else {
        CopyOne(m, runes, i);
        j, text := i + 1, current + [c];
      }
    }
  }

  /** `splitSQLStatements` cuts exactly where the one-pass automaton does. */
  method SplitSqlStatements(runes: string) returns (out: seq<string>)
    ensures out == Statements(runes)
  {
    out := [];
    var current := "";
    ghost var st := START;
    var i := 0;
    while i < |runes|
      invariant 0 <= i <= |runes|
      invariant st == FeedAll(START, runes[..i])
      invariant current == st.current
      invariant out == Kept(st.cuts)
      invariant i < |runes| ==> Settled(st.mode, runes, i)
    {
      ghost var before := i;
      if runes[i] == ';' {
        SettledStep(st.mode, runes, i);
        FeedOne(START, runes[..i], ';');
        assert runes[..i + 1] == runes[..i] + [';'];
        i := i + 1;
        out := Flush(out, current, st.cuts);
        current := "";
      } else {
        i, current := CopyToken(runes, i, current, st.mode);
        Copy(runes, before, i, st);
      }
      st := FeedAll(START, runes[..i]);
    }
    assert runes[..i] == runes;
    out := Flush(out, current, st.cuts);
  }

  /** A rune the splitter copies by itself leaves nothing open behind it. */
  lemma CopyOne(m: Mode, runes: string, i: nat)
    requires i < |runes| && Settled(m, runes, i)
    requires runes[i] != ';' && runes[i] != '\'' && runes[i] != '"'
    requires !At(runes, i, '-', '-') && !At(runes, i, '/', '*')
    requires runes[i] == '$' ==> Settled(Tag(""), runes, i + 1)
    ensures Clean(m, runes[i..i + 1]) && Settled(Run(m, runes[i..i + 1]), runes, i + 1)
    ensures runes[i..i + 1] == [runes[i]]
  {
    SettledStep(m, runes, i);
    Advance(m, runes, i, i);
    assert runes[i..i] == "";
  }
}
