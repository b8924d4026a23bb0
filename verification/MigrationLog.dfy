/** `migrationrunner`: boots that list files, load the ledger once, and then execute or mark file by
    file, failing or dying anywhere. */
module MigrationLog {
  import opened Text
  import opened SqlLexer

  type Name = string

  /** How a transaction that the body itself ends turns out. */
  datatype Unit = Kept | Undone

  /** A file's text, and what PostgreSQL makes of the transaction control in it: `units` are the transactions
      the body ends itself, by its own COMMITs and ROLLBACKs or as the implicit one of what follows them;
      `reopened` says whether it leaves one open after them. Without any, the body leaves open the
      transaction that the runner began. */
  datatype Script = Script(text: string, units: seq<Unit>, reopened: bool)

  datatype File = File(name: Name, body: Script)

  /** A part of a body, committed: the transaction of that number, the last one being the runner's. */
  datatype Piece = Piece(file: File, part: nat)

  /** How a file ends: applied; not entered into the ledger, after `through` of the body's own transactions;
      or applied with an error reported. */
  datatype Outcome = Done | Lost(through: nat) | Landed

  /** `applied` is the ledger as loaded at the start. */
  datatype Runner = Running(files: seq<File>, next: nat, applied: set<Name>, baseline: bool)

  /** One service's ledger, the parts of bodies committed in order, and the names entered without a body. A
      boot is among the runners until the database has decided its last transaction. */
  datatype State = State(ledger: set<Name>, executed: seq<Piece>, marked: set<Name>, runners: map<nat, Runner>)

  datatype Action = Start(r: nat, files: seq<File>, baseline: bool) | Process(r: nat, outcome: Outcome) | Stop(r: nat)

  /** `overlap`: whether a boot may start while another is under way. `commits`: whether there are files
      whose body commits by itself. `vanishes`: whether there are files whose body undoes all it does.
      `fixed`: the one set of files, never baselined, if it never changes. */
  datatype Config = Config(overlap: bool, commits: bool, vanishes: bool, fixed: Option<seq<File>>)

  // ----- The order of names -----

  /** `sort.Strings`: by the first difference, a prefix before what it begins. */
  predicate Less(a: Name, b: Name) {
    if a == "" then b != "" else b != "" && (a[0] < b[0] || (a[0] == b[0] && Less(a[1..], b[1..])))
  }

  lemma {:induction false} LessIsStrict(a: Name, b: Name)
    ensures Less(a, b) ==> a != b && !Less(b, a)
    ensures a != b ==> Less(a, b) || Less(b, a)
  {
    if a != "" && b != "" {
      LessIsStrict(a[1..], b[1..]);
      assert a == [a[0]] + a[1..] && b == [b[0]] + b[1..];
    }
  }

  lemma {:induction false} LessIsTransitive(a: Name, b: Name, c: Name)
    requires Less(a, b) && Less(b, c)
    ensures Less(a, c)
  {
    if a != "" && a[0] == b[0] && b[0] == c[0] {
      LessIsTransitive(a[1..], b[1..], c[1..]);
    }
  }

  /** The first name is a beginning of the second, or smaller where they first differ. */
  ghost predicate SmallerAt(a: Name, b: Name, k: nat) {
    k <= |a| && k < |b| && a[..k] == b[..k] && (k == |a| || a[k] < b[k])
  }

  ghost predicate Smaller(a: Name, b: Name) {
    exists k: nat :: SmallerAt(a, b, k)
  }

  lemma {:induction false} LessExactly(a: Name, b: Name)
    ensures Less(a, b) <==> Smaller(a, b)
  {
    if a == "" {
      assert b != "" ==> SmallerAt(a, b, 0);
    } else if b != "" && a[0] == b[0] {
      LessExactly(a[1..], b[1..]);
      if k: nat :| SmallerAt(a[1..], b[1..], k) {
        assert a[..k + 1] == [a[0]] + a[1..][..k] && b[..k + 1] == [b[0]] + b[1..][..k];
        assert SmallerAt(a, b, k + 1);
      }
      if k: nat :| SmallerAt(a, b, k) {
        assert k > 0;
        assert a[1..][..k - 1] == a[..k][1..] && b[1..][..k - 1] == b[..k][1..];
        assert SmallerAt(a[1..], b[1..], k - 1);
      }
    } else if b != "" {
      assert a[0] < b[0] ==> SmallerAt(a, b, 0);
      forall k: nat | SmallerAt(a, b, k)
        ensures a[0] < b[0]
      {
        assert k > 0 ==> a[..k][0] == b[..k][0];
      }
    }
  }

  ghost predicate Ordered(files: seq<File>) {
    forall i, j :: 0 <= i < j < |files| ==> Less(files[i].name, files[j].name)
  }

  // ----- One boot, step by step -----

  function Names(files: seq<File>): (names: set<Name>) {
    set f | f in files :: f.name
  }

  predicate Blank(body: Script) {
    TrimSpace(body.text) == ""
  }

  /** Blank are the texts of white space only. */
  lemma BlankExactly(body: Script)
    ensures Blank(body) <==> forall k :: 0 <= k < |body.text| ==> WhiteSpace(body.text[k] as int)
  {
    NothingLeft(body.text);
  }

  /** The body's COMMIT ends the runner's transaction, or one that it began after that. */
  predicate Commits(f: File) {
    Kept in f.body.units
  }

  /** Part of the body is committed together with the ledger row. */
  predicate HasTail(f: File) {
    f.body.units == [] || f.body.reopened
  }

  predicate Vanishes(f: File) {
    !Commits(f) && !HasTail(f)
  }

  predicate Allowed(c: Config, f: File) {
    (Commits(f) ==> c.commits) && (Vanishes(f) ==> c.vanishes)
  }

  /** What the first `n` of the body's own transactions leave behind. */
  function Own(f: File, n: nat): (pieces: seq<Piece>)
    requires n <= |f.body.units|
    ensures forall p :: p in pieces ==> p.file == f && p.part < n
    ensures Kept !in f.body.units ==> pieces == []
  {
    if n == 0 then [] else Own(f, n - 1) + if f.body.units[n - 1].Kept? then [Piece(f, n - 1)] else []
  }

  /** All that the body leaves behind. */
  function Whole(f: File): (pieces: seq<Piece>)
    ensures forall p :: p in pieces ==> p.file == f
  {
    Own(f, |f.body.units|) + if HasTail(f) then [Piece(f, |f.body.units|)] else []
  }

  function Cut(f: File, through: nat): nat {
    if through < |f.body.units| then through else |f.body.units|
  }

  predicate Enabled(c: Config, s: State, a: Action) {
    match a
    case Start(r, files, baseline) =>
      && (if c.overlap then r !in s.runners else s.runners == map[])
      && (c.fixed.Some? ==> files == c.fixed.value && !baseline)
      && forall f :: f in files ==> Allowed(c, f)
    case Process(r, _) => r in s.runners && s.runners[r].next < |s.runners[r].files|
    case Stop(r) => r in s.runners
  }

  /** One file: passed over when the loaded ledger has it, marked when baselining or blank. Else its body is
      executed: what it leaves open is committed together with the ledger row; what it ended itself stays
      even if the row is never entered. */
  function Processed(s: State, w: Runner, outcome: Outcome): State
    requires w.next < |w.files|
  {
    var f := w.files[w.next];
    if f.name in w.applied then s
    else if w.baseline || Blank(f.body) then
      if outcome.Lost? then s else s.(ledger := s.ledger + {f.name}, marked := s.marked + {f.name})
    else if outcome.Lost? then s.(executed := s.executed + Own(f, Cut(f, outcome.through)))
    else s.(ledger := s.ledger + {f.name}, executed := s.executed + Whole(f))
  }

  predicate GoesOn(w: Runner, outcome: Outcome)
    requires w.next < |w.files|
  {
    w.files[w.next].name in w.applied || outcome.Done?
  }

  function Apply(c: Config, s: State, a: Action): State
    requires Enabled(c, s, a)
  {
    match a
    case Start(r, files, baseline) => s.(runners := s.runners[r := Running(files, 0, s.ledger, baseline)])
    case Stop(r) => s.(runners := s.runners - {r})
    case Process(r, outcome) =>
      var w := s.runners[r];
      Processed(s, w, outcome).(runners :=
        if GoesOn(w, outcome) then s.runners[r := w.(next := w.next + 1)] else s.runners - {r})
  }

  /** The files of a boot come out of the listing in order. */
  ghost predicate Sane(a: Action) {
    a.Start? ==> Ordered(a.files)
  }

  ghost predicate IsRun(c: Config, s: State, run: seq<Action>, t: State)
    decreases |run|
  {
    if run == [] then s == t else Sane(run[0]) && Enabled(c, s, run[0]) && IsRun(c, Apply(c, s, run[0]), run[1..], t)
  }

  ghost predicate Init(s: State) {
    s.executed == [] && s.marked == s.ledger && s.runners == map[]
  }

  const EMPTY := State({}, [], {}, map[])

  ghost predicate Reachable(c: Config, t: State) {
    exists s: State, run: seq<Action> :: Init(s) && IsRun(c, s, run, t)
  }

  // ----- At most once -----

  /** No part of a body is committed twice. */
  ghost predicate AtMostOnce(s: State) {
    forall i, j :: 0 <= i < j < |s.executed| ==>
      s.executed[i].file.name != s.executed[j].file.name || s.executed[i].part != s.executed[j].part
  }

  function Executed(pieces: seq<Piece>): (names: set<Name>) {
    set p | p in pieces :: p.file.name
  }

  /** Ledger and committed bodies agree. */
  ghost predicate Agree(s: State) {
    s.ledger == Executed(s.executed) + s.marked
  }

  ghost predicate RunnerKnows(s: State, w: Runner) {
    && Ordered(w.files) && w.next <= |w.files| && w.applied <= s.ledger
    && forall n :: n in s.ledger && n !in w.applied ==> exists j :: 0 <= j < w.next && w.files[j].name == n
  }

  /** One piece for a name, every name in the ledger, and no name both executed and marked. */
  ghost predicate Counted(s: State) {
    && (forall i, j :: 0 <= i < j < |s.executed| ==> s.executed[i].file.name != s.executed[j].file.name)
    && (forall p :: p in s.executed ==> p.file.name in s.ledger && p.file.name !in s.marked && !Blank(p.file.body))
    && s.marked <= s.ledger
  }

  ghost predicate RunnersKnow(c: Config, s: State) {
    && (forall r, q :: r in s.runners && q in s.runners ==> r == q)
    && (forall r :: r in s.runners ==>
          RunnerKnows(s, s.runners[r]) && forall f :: f in s.runners[r].files ==> Allowed(c, f))
  }

  ghost predicate Inv(c: Config, s: State) {
    Counted(s) && (!c.vanishes ==> Agree(s)) && RunnersKnow(c, s)
  }

  lemma NamesSnoc(files: seq<File>, f: File)
    ensures Names(files + [f]) == Names(files) + {f.name}
  {
    assert f in files + [f];
  }

  lemma ExecutedSnoc(pieces: seq<Piece>, p: Piece)
    ensures Executed(pieces + [p]) == Executed(pieces) + {p.file.name}
  {
    assert p in pieces + [p];
  }

  lemma NextIsNew(s: State, w: Runner)
    requires RunnerKnows(s, w) && w.next < |w.files| && w.files[w.next].name !in w.applied
    ensures w.files[w.next].name !in s.ledger
  {
    var n := w.files[w.next].name;
    if n in s.ledger {
      var j :| 0 <= j < w.next && w.files[j].name == n;
      LessIsStrict(w.files[j].name, n);
    }
  }

  lemma KnowsOn(s: State, w: Runner, outcome: Outcome)
    requires RunnerKnows(s, w) && w.next < |w.files| && GoesOn(w, outcome)
    ensures RunnerKnows(Processed(s, w, outcome), w.(next := w.next + 1))
  {
    var t, w' := Processed(s, w, outcome), w.(next := w.next + 1);
    forall n | n in t.ledger && n !in w'.applied
      ensures exists j :: 0 <= j < w'.next && w'.files[j].name == n
    {
      if n != w.files[w.next].name {
        var j :| 0 <= j < w.next && w.files[j].name == n;
      } else {
        assert w'.files[w.next].name == n;
      }
    }
  }

  /** A body that ends no transaction with a COMMIT leaves at most its tail behind. */
  lemma WholeIsTail(f: File)
    requires !Commits(f)
    ensures Whole(f) == if HasTail(f) then [Piece(f, |f.body.units|)] else []
    ensures forall n: nat :: n <= |f.body.units| ==> Own(f, n) == []
  {
  }

  lemma ProcessedCounts(c: Config, s: State, w: Runner, outcome: Outcome)
    requires !c.commits && Counted(s) && (!c.vanishes ==> Agree(s)) && RunnerKnows(s, w) && w.next < |w.files|
    requires Allowed(c, w.files[w.next])
    ensures var t := Processed(s, w, outcome); Counted(t) && (!c.vanishes ==> Agree(t))
  {
    hide Blank, Own, Whole;
    var f := w.files[w.next];
    if f.name !in w.applied {
      NextIsNew(s, w);
      WholeIsTail(f);
      ExecutedSnoc(s.executed, Piece(f, |f.body.units|));
      assert forall g :: g in s.executed ==> g.file.name != f.name;
      assert s.executed + [] == s.executed;
    }
  }

  lemma StepKeepsInv(c: Config, s: State, a: Action)
    requires Inv(c, s) && Sane(a) && Enabled(c, s, a) && !c.overlap && !c.commits
    ensures Inv(c, Apply(c, s, a))
  {
    hide Blank, Counted, Agree, RunnerKnows, Processed, Allowed;
    match a
    case Start(r, files, baseline) =>
      StartKnows(s, files, baseline);
      ElsewhereSame(s, Apply(c, s, a));
    case Stop(r) =>
      ElsewhereSame(s, Apply(c, s, a));
    case Process(r, outcome) =>
      var w := s.runners[r];
      ProcessedCounts(c, s, w, outcome);
      ElsewhereSame(Processed(s, w, outcome), Apply(c, s, a));
      if GoesOn(w, outcome) {
        KnowsOn(s, w, outcome);
      }
  }

  /** Only the runners differ. */
  lemma ElsewhereSame(s: State, t: State)
    requires s.ledger == t.ledger && s.executed == t.executed && s.marked == t.marked
    ensures (Counted(s) <==> Counted(t)) && (Agree(s) <==> Agree(t))
    ensures forall w: Runner :: RunnerKnows(s, w) <==> RunnerKnows(t, w)
  {
  }

  lemma StartKnows(s: State, files: seq<File>, baseline: bool)
    requires Ordered(files)
    ensures RunnerKnows(s, Running(files, 0, s.ledger, baseline))
  {
  }

  lemma {:induction false} RunKeepsInv(c: Config, s: State, run: seq<Action>, t: State)
    requires Inv(c, s) && IsRun(c, s, run, t) && !c.overlap && !c.commits
    ensures Inv(c, t)
    decreases |run|
  {
    hide Apply, Enabled, Inv, Sane;
    if run != [] {
      StepKeepsInv(c, s, run[0]);
      RunKeepsInv(c, Apply(c, s, run[0]), run[1..], t);
    }
  }

  lemma {:induction false} RunSnoc(c: Config, s: State, run: seq<Action>, t: State, a: Action)
    requires IsRun(c, s, run, t) && Sane(a) && Enabled(c, t, a)
    ensures IsRun(c, s, run + [a], Apply(c, t, a))
    decreases |run|
  {
    hide Apply, Enabled, Sane;
    if run == [] {
      assert [a][1..] == [];
      assert IsRun(c, Apply(c, t, a), [], Apply(c, t, a));
    } else {
      RunSnoc(c, Apply(c, s, run[0]), run[1..], t, a);
      assert (run + [a])[1..] == run[1..] + [a];
    }
  }

  lemma Do(c: Config, s: State, a: Action) returns (t: State)
    requires Reachable(c, s) && Sane(a) && Enabled(c, s, a)
    ensures Reachable(c, t) && t == Apply(c, s, a)
  {
    hide Apply, Enabled, Sane, Init;
    var s0: State, run: seq<Action> :| Init(s0) && IsRun(c, s0, run, s);
    RunSnoc(c, s0, run, s, a);
    t := Apply(c, s, a);
  }

  lemma Fresh(c: Config) returns (s: State)
    ensures Reachable(c, s) && s == EMPTY
  {
    s := EMPTY;
    assert IsRun(c, s, [], s);
  }

  const PLAIN := Script("x", [], false)

  /** BEGIN, x, COMMIT. */
  const COMMITTING := Script("x", [Kept], false)

  /** x, ROLLBACK. */
  const VANISHING := Script("x", [Undone], false)

  lemma NotBlank()
    ensures !Blank(PLAIN) && !Blank(COMMITTING) && !Blank(VANISHING)
  {
  }

  /** What these bodies leave behind. */
  lemma TheirPieces(name: Name)
    ensures Whole(File(name, PLAIN)) == [Piece(File(name, PLAIN), 0)]
    ensures Whole(File(name, COMMITTING)) == Own(File(name, COMMITTING), 1) == [Piece(File(name, COMMITTING), 0)]
    ensures Whole(File(name, VANISHING)) == []
  {
    var f := File(name, COMMITTING);
    assert Own(f, 0) == [];
  }

  /** Two boots load the ledger before either has entered the file: both commit its body. */
  lemma OverlapCommitsTwice(c: Config) returns (s: State)
    requires c.overlap && c.fixed.None?
    ensures Reachable(c, s) && !AtMostOnce(s)
  {
    hide Reachable, Blank, Whole;
    NotBlank();
    TheirPieces("a");
    var f := File("a", PLAIN);
    s := Fresh(c);
    s := Do(c, s, Start(0, [f], false));
    s := Do(c, s, Start(1, [f], false));
    s := Do(c, s, Process(0, Done));
    s := Do(c, s, Process(1, Done));
    assert s.executed[0] == s.executed[1] == Piece(f, 0);
  }

  /** A body that commits by itself is there, and its ledger row is never entered; so the next boot, long
      after, executes it again. */
  lemma SelfCommitRunsTwice(c: Config) returns (m: State, s: State)
    requires c.commits && c.fixed.None?
    ensures Reachable(c, m) && !Agree(m)
    ensures Reachable(c, s) && !AtMostOnce(s)
  {
    hide Reachable, Blank, Whole, Own;
    NotBlank();
    TheirPieces("a");
    var f := File("a", COMMITTING);
    s := Fresh(c);
    s := Do(c, s, Start(0, [f], false));
    s := Do(c, s, Process(0, Lost(1)));
    assert s.runners == map[] && s.executed == [Piece(f, 0)];
    m := s;
    assert "a" in Executed(m.executed);
    s := Do(c, s, Start(0, [f], false));
    s := Do(c, s, Process(0, Done));
    assert s.executed[0] == s.executed[1] == Piece(f, 0);
  }

  /** A body that undoes all it does leaves nothing but its ledger row. */
  lemma VanishedBodyIsEntered(c: Config) returns (s: State)
    requires c.vanishes && c.fixed.None?
    ensures Reachable(c, s) && !Agree(s)
  {
    hide Reachable, Blank, Whole;
    NotBlank();
    TheirPieces("a");
    var f := File("a", VANISHING);
    s := Fresh(c);
    s := Do(c, s, Start(0, [f], false));
    s := Do(c, s, Process(0, Done));
    assert s.executed == [] && "a" in s.ledger;
  }

  lemma OneEachIsOnce(c: Config, t: State)
    requires Reachable(c, t) && !c.overlap && !c.commits
    ensures AtMostOnce(t) && Executed(t.executed) !! t.marked && (!c.vanishes ==> Agree(t))
  {
    hide Agree, IsRun, Blank;
    var s: State, run: seq<Action> :| Init(s) && IsRun(c, s, run, t);
    InitInv(c, s);
    RunKeepsInv(c, s, run, t);
  }

  /** Over any boots, with whatever files, that fail or die anywhere: no part of a body is committed twice,
      exactly when boots do not overlap and no body commits by itself. */
  lemma AtMostOnceExactly(c: Config)
    requires c.fixed.None?
    ensures (forall s: State :: Reachable(c, s) ==> AtMostOnce(s)) <==> !c.overlap && !c.commits
  {
    hide AtMostOnce, Agree, Init, IsRun;
    if c.overlap {
      var s := OverlapCommitsTwice(c);
    } else if c.commits {
      var _, s := SelfCommitRunsTwice(c);
    } else {
      forall t: State | Reachable(c, t)
        ensures AtMostOnce(t)
      {
        OneEachIsOnce(c, t);
      }
    }
  }

  /** The ledger holds exactly the committed bodies and the names marked without one, never both, and each
      body is committed once. */
  ghost predicate Truthful(s: State) {
    AtMostOnce(s) && Agree(s) && Executed(s.executed) !! s.marked
  }

  /** It does in every run, exactly when moreover no body undoes all it does. */
  lemma LedgerAgreesExactly(c: Config)
    requires c.fixed.None?
    ensures (forall s: State :: Reachable(c, s) ==> Truthful(s)) <==> !c.overlap && !c.commits && !c.vanishes
  {
    hide AtMostOnce, Agree, Init, IsRun;
    if c.overlap {
      var s := OverlapCommitsTwice(c);
      assert !Truthful(s);
    } else if c.commits {
      var _, s := SelfCommitRunsTwice(c);
      assert !Truthful(s);
    } else if c.vanishes {
      var s := VanishedBodyIsEntered(c);
      assert !Truthful(s);
    } else {
      forall t: State | Reachable(c, t)
        ensures Truthful(t)
      {
        OneEachIsOnce(c, t);
      }
    }
  }

  lemma InitInv(c: Config, s: State)
    requires Init(s)
    ensures Inv(c, s)
  {
  }

  // ----- In order -----

  /** What the bodies of these files leave behind, one after the other. */
  function Bodies(files: seq<File>): (pieces: seq<Piece>) {
    if files == [] then []
    else
      var last := files[|files| - 1];
      Bodies(files[..|files| - 1]) + if Blank(last.body) then [] else Whole(last)
  }

  /** Exactly the first `k` files are done. */
  ghost predicate DoneUpTo(files: seq<File>, s: State, k: nat) {
    k <= |files| && s.ledger == Names(files[..k]) && s.executed == Bodies(files[..k])
  }

  /** The ledger is the first `k` files; they are committed in full, and nothing of any file behind the one
      that comes next. */
  ghost predicate StandsUpTo(files: seq<File>, s: State, k: nat) {
    && k <= |files| && s.ledger == Names(files[..k])
    && (forall p :: p in Bodies(files[..k]) ==> p in s.executed)
    && (forall p :: p in s.executed ==> p.file in files[..k] || (k < |files| && p.file == files[k]))
  }

  /** No body commits by itself. */
  ghost predicate NoneCommits(files: seq<File>) {
    forall f :: f in files ==> Blank(f.body) || !Commits(f)
  }

  /** A boot that loaded the first `k0` of the `k` done is past all it knows, or still skipping them. */
  ghost predicate StandsAt(files: seq<File>, w: Runner, k0: nat, k: nat) {
    && w.files == files && !w.baseline && k0 <= k <= |files| && w.next <= |files|
    && w.applied == Names(files[..k0]) && k == if w.next < k0 then k0 else w.next
  }

  ghost predicate Progress(files: seq<File>, s: State, k: nat) {
    StandsUpTo(files, s, k) && (NoneCommits(files) ==> DoneUpTo(files, s, k))
  }

  ghost predicate InOrder(files: seq<File>, s: State) {
    exists k: nat :: Progress(files, s, k) && forall r :: r in s.runners ==>
      exists k0: nat :: StandsAt(files, s.runners[r], k0, k)
  }

  lemma InFirst(files: seq<File>, k: nat, i: nat)
    requires Ordered(files) && k <= |files| && i < |files|
    ensures files[i].name in Names(files[..k]) <==> i < k
  {
    if i < k {
      assert files[..k][i] == files[i];
    }
    forall f | f in files[..k]
      ensures f.name == files[i].name ==> i < k
    {
      var j :| 0 <= j < k && files[..k][j] == f;
      if j < i {
        LessIsStrict(files[j].name, files[i].name);
      }
    }
  }

  lemma OneMore(files: seq<File>, k: nat)
    requires k < |files|
    ensures files[..k + 1] == files[..k] + [files[k]]
    ensures Names(files[..k + 1]) == Names(files[..k]) + {files[k].name}
    ensures Bodies(files[..k + 1]) == Bodies(files[..k]) + if Blank(files[k].body) then [] else Whole(files[k])
  {
    assert files[..k + 1] == files[..k] + [files[k]];
    NamesSnoc(files[..k], files[k]);
    assert files[..k + 1][..k] == files[..k];
  }

  /** The next file is entered. */
  lemma EnteredProgresses(files: seq<File>, s: State, t: State, k: nat)
    requires Progress(files, s, k) && k < |files|
    requires t.ledger == s.ledger + {files[k].name}
    requires t.executed == s.executed + if Blank(files[k].body) then [] else Whole(files[k])
    ensures Progress(files, t, k + 1)
  {
    hide Blank, Whole, Bodies, Names, NoneCommits;
    OneMore(files, k);
    forall p | p in t.executed
      ensures p.file in files[..k + 1]
    {
      PiecesOf(files[k]);
    }
  }

  lemma PiecesOf(f: File)
    ensures forall p :: p in Whole(f) ==> p.file == f
    ensures forall n: nat :: n <= |f.body.units| ==> forall p :: p in Own(f, n) ==> p.file == f
  {
  }

  /** The next file is not entered; some of its own transactions may have been kept. */
  lemma LostProgresses(files: seq<File>, s: State, t: State, k: nat, through: nat)
    requires Progress(files, s, k) && k < |files| && !Blank(files[k].body)
    requires t.ledger == s.ledger && t.executed == s.executed + Own(files[k], Cut(files[k], through))
    ensures Progress(files, t, k)
  {
    hide Blank, Bodies, Names;
    PiecesOf(files[k]);
    if NoneCommits(files) {
      assert files[k] in files;
      WholeIsTail(files[k]);
      assert s.executed + [] == s.executed;
    }
  }

  lemma ProcessInOrder(files: seq<File>, s: State, w: Runner, outcome: Outcome, k0: nat, k: nat) returns (k': nat)
    requires Ordered(files) && Progress(files, s, k) && StandsAt(files, w, k0, k) && w.next < |w.files|
    ensures Progress(files, Processed(s, w, outcome), k')
    ensures GoesOn(w, outcome) ==> StandsAt(files, w.(next := w.next + 1), k0, k')
  {
    hide Blank, Progress, Own, Whole, Names;
    InFirst(files, k0, w.next);
    var t := Processed(s, w, outcome);
    k' := k;
    if w.next >= k0 {
      if !outcome.Lost? {
        k' := k + 1;
        assert t.executed == s.executed + if Blank(files[k].body) then [] else Whole(files[k]);
        EnteredProgresses(files, s, t, k);
      } else if !Blank(files[k].body) {
        LostProgresses(files, s, t, k, outcome.through);
      }
    }
  }

  /** The runners do not matter. */
  lemma SameProgress(files: seq<File>, s: State, t: State, k: nat)
    requires Progress(files, s, k) && t.ledger == s.ledger && t.executed == s.executed
    ensures Progress(files, t, k)
  {
  }

  lemma StepKeepsOrder(c: Config, s: State, a: Action)
    requires c.fixed.Some? && !c.overlap && Ordered(c.fixed.value) && InOrder(c.fixed.value, s) && Enabled(c, s, a)
    requires forall r, q :: r in s.runners && q in s.runners ==> r == q
    ensures InOrder(c.fixed.value, Apply(c, s, a))
    ensures forall r, q :: r in Apply(c, s, a).runners && q in Apply(c, s, a).runners ==> r == q
  {
    hide Ordered, Processed, Names, Bodies, Progress, Allowed;
    var files, t := c.fixed.value, Apply(c, s, a);
    var k: nat :| Progress(files, s, k) && forall r :: r in s.runners ==>
      exists k0: nat :: StandsAt(files, s.runners[r], k0, k);
    match a
    case Start(r, _, _) =>
      SameProgress(files, s, t, k);
      LedgerIs(files, s, k);
      assert StandsAt(files, t.runners[r], k, k);
    case Stop(r) =>
      SameProgress(files, s, t, k);
    case Process(r, outcome) =>
      var w := s.runners[r];
      var k0: nat :| StandsAt(files, w, k0, k);
      var k' := ProcessInOrder(files, s, w, outcome, k0, k);
      SameProgress(files, Processed(s, w, outcome), t, k');
      if GoesOn(w, outcome) {
        assert StandsAt(files, t.runners[r], k0, k');
      }
  }

  lemma LedgerIs(files: seq<File>, s: State, k: nat)
    requires Progress(files, s, k)
    ensures k <= |files| && s.ledger == Names(files[..k])
  {
  }

  lemma {:induction false} RunKeepsOrder(c: Config, s: State, run: seq<Action>, t: State)
    requires c.fixed.Some? && !c.overlap && Ordered(c.fixed.value) && InOrder(c.fixed.value, s) && IsRun(c, s, run, t)
    requires forall r, q :: r in s.runners && q in s.runners ==> r == q
    ensures InOrder(c.fixed.value, t)
    decreases |run|
  {
    hide Apply, Enabled, InOrder, Ordered, Sane;
    if run != [] {
      StepKeepsOrder(c, s, run[0]);
      RunKeepsOrder(c, Apply(c, s, run[0]), run[1..], t);
    }
  }

  /** From an empty database, with one set of files never baselined: however often boots fail or die, the
      ledger is always the first so many files in order, and the bodies committed are theirs; but for what
      the body after them committed by itself, and what such bodies committed more than once. */
  lemma ExecutedInOrder(c: Config, run: seq<Action>, t: State)
    requires c.fixed.Some? && !c.overlap && Ordered(c.fixed.value) && IsRun(c, EMPTY, run, t)
    ensures exists k: nat ::
      StandsUpTo(c.fixed.value, t, k) && (NoneCommits(c.fixed.value) ==> DoneUpTo(c.fixed.value, t, k))
  {
    hide Ordered, IsRun;
    assert c.fixed.value[..0] == [];
    assert Progress(c.fixed.value, EMPTY, 0);
    RunKeepsOrder(c, EMPTY, run, t);
    var k: nat :| Progress(c.fixed.value, t, k) && forall r :: r in t.runners ==>
      exists k0: nat :: StandsAt(c.fixed.value, t.runners[r], k0, k);
  }

  /** A boot that does the first `i` files. */
  lemma {:induction false} FirstDone(c: Config, i: nat) returns (run: seq<Action>, t: State)
    requires c.fixed.Some? && Ordered(c.fixed.value) && i <= |c.fixed.value|
    requires forall f :: f in c.fixed.value ==> Allowed(c, f)
    ensures var files := c.fixed.value;
            && IsRun(c, EMPTY, run, t) && t.runners == map[0 := Running(files, i, {}, false)]
            && t.ledger == Names(files[..i]) && t.executed == Bodies(files[..i])
  {
    hide IsRun, Names, Bodies, Blank, Ordered, Own, Whole;
    var files := c.fixed.value;
    if i == 0 {
      run, t := StartedBoot(c);
    } else {
      run, t := FirstDone(c, i - 1);
      OneMore(files, i - 1);
      RunSnoc(c, EMPTY, run, t, Process(0, Done));
      run, t := run + [Process(0, Done)], Apply(c, t, Process(0, Done));
      assert t.runners == map[0 := Running(files, i, {}, false)];
    }
  }

  lemma StartedBoot(c: Config) returns (run: seq<Action>, t: State)
    requires c.fixed.Some? && Ordered(c.fixed.value) && forall f :: f in c.fixed.value ==> Allowed(c, f)
    ensures IsRun(c, EMPTY, run, t) && t == EMPTY.(runners := map[0 := Running(c.fixed.value, 0, {}, false)])
    ensures t.ledger == Names(c.fixed.value[..0]) && t.executed == Bodies(c.fixed.value[..0])
  {
    hide Ordered;
    var a := Start(0, c.fixed.value, false);
    t := Apply(c, EMPTY, a);
    run := [a];
    assert run[1..] == [] && IsRun(c, t, [], t);
    assert c.fixed.value[..0] == [];
  }

  lemma {:induction false} KeptIsLeft(f: File, n: nat)
    requires n <= |f.body.units| && Kept in f.body.units[..n]
    ensures Own(f, n) != []
  {
    if !f.body.units[n - 1].Kept? {
      assert f.body.units[..n] == f.body.units[..n - 1] + [f.body.units[n - 1]];
      KeptIsLeft(f, n - 1);
    }
  }

  /** The first `i` files are done, and the next one, which commits by itself, is not entered. */
  lemma LeftOver(c: Config, i: nat) returns (run: seq<Action>, t: State)
    requires c.fixed.Some? && Ordered(c.fixed.value) && i < |c.fixed.value|
    requires forall f :: f in c.fixed.value ==> Allowed(c, f)
    requires !Blank(c.fixed.value[i].body) && Commits(c.fixed.value[i])
    ensures IsRun(c, EMPTY, run, t) && forall k: nat :: !DoneUpTo(c.fixed.value, t, k)
  {
    hide IsRun, Names, Bodies, Blank, Own, Ordered;
    var files := c.fixed.value;
    var f := files[i];
    run, t := FirstDone(c, i);
    var n := |f.body.units|;
    assert f.body.units[..n] == f.body.units;
    KeptIsLeft(f, n);
    RunSnoc(c, EMPTY, run, t, Process(0, Lost(n)));
    run, t := run + [Process(0, Lost(n))], Apply(c, t, Process(0, Lost(n)));
    forall k: nat
      ensures !DoneUpTo(files, t, k)
    {
      if DoneUpTo(files, t, k) {
        SameFirst(files, i, k);
      }
    }
  }

  lemma SameFirst(files: seq<File>, i: nat, k: nat)
    requires Ordered(files) && i <= |files| && k <= |files| && Names(files[..i]) == Names(files[..k])
    ensures i == k
  {
    hide Ordered, Names;
    if i < k {
      InFirst(files, i, i);
      InFirst(files, k, i);
    } else if k < i {
      InFirst(files, i, k);
      InFirst(files, k, k);
    }
  }

  /** Nothing but the first so many files is ever done, in any run, exactly when no body commits by itself. */
  lemma ExecutedInOrderExactly(c: Config)
    requires c.fixed.Some? && !c.overlap && Ordered(c.fixed.value) && forall f :: f in c.fixed.value ==> Allowed(c, f)
    ensures (forall run, t :: IsRun(c, EMPTY, run, t) ==> exists k: nat :: DoneUpTo(c.fixed.value, t, k))
       <==> NoneCommits(c.fixed.value)
  {
    hide Ordered, IsRun, Allowed, Commits, DoneUpTo, Blank;
    if NoneCommits(c.fixed.value) {
      forall run, t | IsRun(c, EMPTY, run, t)
        ensures exists k: nat :: DoneUpTo(c.fixed.value, t, k)
      {
        ExecutedInOrder(c, run, t);
      }
    } else {
      var f :| f in c.fixed.value && !Blank(f.body) && Commits(f);
      var i :| 0 <= i < |c.fixed.value| && c.fixed.value[i] == f;
      var run, t := LeftOver(c, i);
    }
  }
}
