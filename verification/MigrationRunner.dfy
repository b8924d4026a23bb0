/** `migrationrunner.Run` as it runs, one boot at a time. */
module MigrationRunner {
  import opened Text
  import opened MigrationLog

  datatype DirEntry = DirEntry(name: Name, isDir: bool)

  datatype Listing = Entries(entries: seq<DirEntry>) | NotExist | Unreadable

  predicate HasSuffix(s: string, suffix: string) {
    |suffix| <= |s| && s[|s| - |suffix|..] == suffix
  }

  predicate IsMigration(e: DirEntry) {
    !e.isDir && HasSuffix(e.name, ".sql")
  }

  ghost predicate Rising(names: seq<Name>) {
    forall i, j :: 0 <= i < j < |names| ==> Less(names[i], names[j])
  }

  /** The names listed are those of the migration files, and each once. */
  ghost predicate Lists(names: seq<Name>, entries: seq<DirEntry>) {
    && Rising(names)
    && forall n :: n in names <==> exists i :: 0 <= i < |entries| && entries[i].name == n && IsMigration(entries[i])
  }

  ghost predicate OneNameEach(entries: seq<DirEntry>) {
    forall i, j :: 0 <= i < j < |entries| ==> entries[i].name != entries[j].name
  }

  /** One name into its place. */
  method Insert(names: seq<Name>, n: Name) returns (out: seq<Name>)
    requires Rising(names) && n !in names
    ensures Rising(out) && forall x :: x in out <==> x in names || x == n
  {
    var i := 0;
    while i < |names| && Less(names[i], n)
      invariant i <= |names| && forall k :: 0 <= k < i ==> Less(names[k], n)
    {
      i := i + 1;
    }
    InsertAt(names, n, i);
    out := names[..i] + [n] + names[i..];
  }

  lemma InsertAt(names: seq<Name>, n: Name, i: nat)
    requires Rising(names) && n !in names && i <= |names| && (forall k :: 0 <= k < i ==> Less(names[k], n))
    requires i < |names| ==> !Less(names[i], n)
    ensures Rising(names[..i] + [n] + names[i..])
    ensures forall x :: x in names[..i] + [n] + names[i..] <==> x in names || x == n
  {
    hide Less;
    forall k | i <= k < |names|
      ensures Less(n, names[k])
    {
      LessIsStrict(names[i], n);
      if k > i {
        LessIsTransitive(n, names[i], names[k]);
      }
    }
    forall x | x in names
      ensures x in names[..i] + [n] + names[i..]
    {
      var k :| 0 <= k < |names| && names[k] == x;
      if k < i {
        assert names[..i][k] == x;
      } else {
        assert names[i..][k - i] == x;
      }
    }
  }

  /** `listMigrationFiles` */
  method ListMigrationFiles(dir: Listing) returns (names: seq<Name>, ok: bool)
    requires dir.Entries? ==> OneNameEach(dir.entries)
    ensures (ok <==> !dir.Unreadable?) && Rising(names)
    ensures dir.Entries? ==> Lists(names, dir.entries)
    ensures dir.Entries? ==> forall n :: n in names <==>
      DirEntry(n, false) in dir.entries && exists stem: string :: n == stem + ".sql"
    ensures forall i, j :: 0 <= i < j < |names| ==> Smaller(names[i], names[j])
    ensures !dir.Entries? ==> names == []
  {
    hide HasSuffix;
    if dir.NotExist? {
      return [], true;
    }
    if dir.Unreadable? {
      return [], false;
    }
    names := [];
    for i := 0 to |dir.entries|
      invariant Lists(names, dir.entries[..i])
    {
      var e := dir.entries[i];
      var before := names;
      assert dir.entries[..i + 1] == dir.entries[..i] + [e];
      if IsMigration(e) {
        names := Insert(names, e.name);
      }
      ListsOn(before, names, dir.entries, i);
    }
    assert dir.entries[..|dir.entries|] == dir.entries;
    ok := true;
    ListsLiterally(names, dir.entries);
    RisesLiterally(names);
  }

  lemma RisesLiterally(names: seq<Name>)
    requires Rising(names)
    ensures forall i, j :: 0 <= i < j < |names| ==> Smaller(names[i], names[j])
  {
    forall i, j | 0 <= i < j < |names|
      ensures Smaller(names[i], names[j])
    {
      LessExactly(names[i], names[j]);
    }
  }

  lemma ListsLiterally(names: seq<Name>, entries: seq<DirEntry>)
    requires Lists(names, entries)
    ensures forall n :: n in names <==> DirEntry(n, false) in entries && exists stem: string :: n == stem + ".sql"
  {
    forall n
      ensures n in names <==> DirEntry(n, false) in entries && exists stem: string :: n == stem + ".sql"
    {
      EndsInSql(n);
      hide HasSuffix;
      if n in names {
        var i :| 0 <= i < |entries| && entries[i].name == n && IsMigration(entries[i]);
        assert entries[i] == DirEntry(n, false);
      }
      if DirEntry(n, false) in entries {
        var i :| 0 <= i < |entries| && entries[i] == DirEntry(n, false);
        assert IsMigration(entries[i]) <==> HasSuffix(n, ".sql");
      }
    }
  }

  lemma EndsInSql(n: Name)
    ensures HasSuffix(n, ".sql") <==> exists stem: string :: n == stem + ".sql"
  {
    if HasSuffix(n, ".sql") {
      assert n == n[..|n| - 4] + ".sql";
    }
  }

  lemma ListsOn(names: seq<Name>, names': seq<Name>, entries: seq<DirEntry>, i: nat)
    requires i < |entries| && Lists(names, entries[..i]) && Rising(names')
    requires forall n :: n in names' <==> n in names || (n == entries[i].name && IsMigration(entries[i]))
    ensures Lists(names', entries[..i + 1])
  {
    hide IsMigration, Rising;
    var before, now := entries[..i], entries[..i + 1];
    assert now == before + [entries[i]];
    forall n
      ensures n in names' <==> exists j :: 0 <= j < |now| && now[j].name == n && IsMigration(now[j])
    {
      if n in names {
        var j :| 0 <= j < i && before[j].name == n && IsMigration(before[j]);
        assert now[j] == before[j];
      }
      assert now[i] == entries[i];
    }
  }

  /** What a boot does with `files`: the bodies not yet in the ledger, none when baselining. */
  function Pending(files: seq<File>, ledger: set<Name>, baseline: bool): seq<Piece> {
    if files == [] then []
    else
      var last := files[|files| - 1];
      Pending(files[..|files| - 1], ledger, baseline)
      + if last.name in ledger || baseline || Blank(last.body) then [] else Whole(last)
  }

  /** `c` says what kinds of files there may be; boots come one after the other. */
  class Database {
    const c: Config
    const answers: nat -> Outcome
    var st: State
    var tick: nat

    /** As long as no body commits by itself, ledger and bodies are in order. */
    ghost predicate Orderly()
      reads this
    {
      !c.overlap && c.fixed.None? && (!c.commits ==> Inv(c, st))
    }

    /** And no boot is under way. */
    ghost predicate Valid()
      reads this
    {
      Orderly() && st.runners == map[]
    }

    constructor (c: Config, answers: nat -> Outcome, ledger: set<Name>)
      requires !c.overlap && c.fixed.None?
      ensures Valid() && st == State(ledger, [], ledger, map[]) && this.c == c && this.answers == answers
    {
      this.c := c;
      this.answers := answers;
      this.st := State(ledger, [], ledger, map[]);
      this.tick := 0;
    }

    method Ask() returns (answer: Outcome)
      modifies this`tick
      ensures answer == answers(old(tick)) && tick == old(tick) + 1
    {
      answer := answers(tick);
      tick := tick + 1;
    }

    method Act(a: Action)
      requires Orderly() && Sane(a) && Enabled(c, st, a)
      modifies this`st
      ensures Orderly() && st == Apply(c, old(st), a)
    {
      hide Inv, Apply, Enabled;
      if !c.commits {
        StepKeepsInv(c, st, a);
      }
      st := Apply(c, st, a);
    }

    /** `Run`: the first `k` files are done; without an error, all of them and nothing else. When the next
        file fails, its body may have committed some of its own transactions, and they are `left`. */
    method Run(dir: Listing, read: Name -> Option<Script>, baseline: bool)
      returns (ok: bool, ghost files: seq<File>, ghost k: nat, ghost left: seq<Piece>)
      requires Valid() && (dir.Entries? ==> OneNameEach(dir.entries)) && Readable(c, read)
      modifies this
      ensures Valid() && Ordered(files) && k <= |files| && (ok ==> k == |files|) && LeftBy(files, k, left)
      ensures AllGoesWell(answers, read, baseline) && !dir.Unreadable? ==> ok
      ensures ok ==> !dir.Unreadable? && tick == old(tick) + 2 + NewNames(files, old(st.ledger))
      ensures ok ==> forall t :: old(tick) <= t < tick ==> answers(t).Done?
      ensures ok && !baseline ==> forall f :: f in files && f.name !in old(st.ledger) ==> read(f.name).Some?
      ensures !ok && k == 0 && left == [] ==> st.ledger == old(st.ledger) && st.executed == old(st.executed)
      ensures ok && dir.Entries? ==> forall i :: 0 <= i < |dir.entries| && IsMigration(dir.entries[i]) ==>
        dir.entries[i].name in st.ledger
      ensures DoneThrough(old(st), st.ledger, st.executed, files, k, baseline, left)
    {
      hide Inv, Lists, Rising, Blank, IsMigration, DoneThrough, Names, NewNames, Whole, Own, Readable, OneNameEach;
      files, k, left := [], 0, [];
      NoneDone(st, files, baseline);
      var ddl := Ask();
      if !ddl.Done? {
        return false, files, k, left;
      }
      var names, listed := ListMigrationFiles(dir);
      if !listed {
        return false, files, k, left;
      }
      var loaded := Ask();
      if !loaded.Done? {
        return false, files, k, left;
      }
      ok, files, k, left := Go(names, read, baseline);
      if k == 0 && left == [] {
        NothingHappened(old(st), st, files, baseline);
      }
      if ok && dir.Entries? {
        InLedger(old(st), st.ledger, st.executed, files, k, baseline, left);
        AllListed(names, dir.entries, files, k, st.ledger);
      }
    }

    /** The loop, over the names in order. */
    method Go(names: seq<Name>, read: Name -> Option<Script>, baseline: bool)
      returns (ok: bool, ghost files: seq<File>, ghost k: nat, ghost left: seq<Piece>)
      requires Valid() && Rising(names) && Readable(c, read)
      modifies this
      ensures Valid() && Ordered(files) && k <= |files| && (ok ==> k == |files|) && files == Contents(names, read)
      ensures LeftBy(files, k, left)
      ensures DoneThrough(old(st), st.ledger, st.executed, files, k, baseline, left)
      ensures AllGoesWell(answers, read, baseline) ==> ok
      ensures ok ==> tick == old(tick) + NewNames(files, old(st.ledger))
      ensures ok ==> forall t :: old(tick) <= t < tick ==> answers(t).Done?
      ensures ok && !baseline ==> forall f :: f in files && f.name !in old(st.ledger) ==> read(f.name).Some?
    {
      hide Inv, DoneThrough, Ordered, Blank, Processed, Less, Rising, RunnerKnows, Allowed;
      hide Own, NewNames, Names, Whole, Readable;
      var all := Contents(names, read);
      files, k, left := all, 0, [];
      ContentsOrdered(names, read);
      ContentsAllowed(c, names, read);
      NoneDone(st, all, baseline);
      NoneNew(all, st.ledger);
      var applied := st.ledger;
      Act(Start(0, all, baseline));
      for i := 0 to |names|
        invariant Orderly() && st.runners == map[0 := Running(all, i, applied, baseline)] && k == i && left == []
        invariant DoneThrough(old(st), st.ledger, st.executed, all, i, baseline, [])
        invariant tick == old(tick) + NewNames(all[..i], applied)
        invariant forall t :: old(tick) <= t < tick ==> answers(t).Done?
        invariant !baseline ==> forall j :: 0 <= j < i && names[j] !in applied ==> read(names[j]).Some?
      {
        OneMoreAsked(all, i, applied);
        var outcome := Done;
        if names[i] !in applied {
          if !baseline && read(names[i]).None? {
            Act(Stop(0));
            return false, files, k, left;
          }
          outcome := Ask();
        }
        left := Advance(old(st), st, st.runners[0], outcome);
        Act(Process(0, outcome));
        if names[i] in applied || !outcome.Lost? {
          k := i + 1;
        }
        if names[i] !in applied && !outcome.Done? {
          return false, files, k, left;
        }
      }
      assert all[..|names|] == all;
      Act(Stop(0));
      ok := true;
    }
  }

  /** Every file that can be read is of a kind there may be. */
  ghost predicate Readable(c: Config, read: Name -> Option<Script>) {
    forall n: Name :: read(n).Some? ==> Allowed(c, File(n, read(n).value))
  }

  /** Nothing, or what the body of the next file has committed by itself. */
  ghost predicate LeftBy(files: seq<File>, k: nat, left: seq<Piece>) {
    left == [] || (k < |files| && exists n: nat :: n <= |files[k].body.units| && left == Own(files[k], n))
  }

  /** No call to the database fails and every file can be read. */
  ghost predicate AllGoesWell(answers: nat -> Outcome, read: Name -> Option<Script>, baseline: bool) {
    (forall t: nat :: answers(t).Done?) && (baseline || forall n: Name :: read(n).Some?)
  }

  /** From `before` on the first `k` files, and nothing else but `left`, have been done. */
  ghost predicate DoneThrough(before: State, ledger: set<Name>, executed: seq<Piece>, files: seq<File>, k: nat,
                              baseline: bool, left: seq<Piece>) {
    && k <= |files| && ledger == before.ledger + Names(files[..k])
    && executed == before.executed + Pending(files[..k], before.ledger, baseline) + left
  }

  function Contents(names: seq<Name>, read: Name -> Option<Script>): (files: seq<File>)
    ensures |files| == |names| && forall i :: 0 <= i < |names| ==> files[i].name == names[i]
    ensures forall i :: 0 <= i < |names| && read(names[i]).Some? ==> files[i].body == read(names[i]).value
  {
    seq(|names|, i requires 0 <= i < |names| =>
      File(names[i], if read(names[i]).Some? then read(names[i]).value else Script("", [], false)))
  }

  lemma ContentsOrdered(names: seq<Name>, read: Name -> Option<Script>)
    requires Rising(names)
    ensures Ordered(Contents(names, read))
  {
  }

  lemma ContentsAllowed(c: Config, names: seq<Name>, read: Name -> Option<Script>)
    requires Readable(c, read)
    ensures forall f :: f in Contents(names, read) ==> Allowed(c, f)
  {
    forall f | f in Contents(names, read)
      ensures Allowed(c, f)
    {
      var i :| 0 <= i < |names| && Contents(names, read)[i] == f;
      assert read(names[i]).Some? ==> Allowed(c, File(names[i], read(names[i]).value));
    }
  }

  lemma NothingDone(files: seq<File>, ledger: set<Name>, baseline: bool)
    ensures Names(files[..0]) == {} && Pending(files[..0], ledger, baseline) == []
  {
    assert files[..0] == [];
  }

  lemma NoneDone(s: State, files: seq<File>, baseline: bool)
    ensures DoneThrough(s, s.ledger, s.executed, files, 0, baseline, [])
  {
    NothingDone(files, s.ledger, baseline);
    assert s.executed + [] == s.executed && s.ledger + {} == s.ledger;
  }

  /** How many names are not in the ledger. */
  function NewNames(files: seq<File>, ledger: set<Name>): nat {
    |Names(files) - ledger|
  }

  lemma NoneNew(files: seq<File>, ledger: set<Name>)
    ensures NewNames(files[..0], ledger) == 0
  {
    assert files[..0] == [] && Names([]) - ledger == {};
  }

  /** The names not in the ledger, one file on. */
  lemma OneMoreAsked(files: seq<File>, i: nat, applied: set<Name>)
    requires i < |files| && Ordered(files)
    ensures NewNames(files[..i + 1], applied)
         == NewNames(files[..i], applied) + if files[i].name in applied then 0 else 1
  {
    assert files[..i + 1] == files[..i] + [files[i]];
    NamesSnoc(files[..i], files[i]);
    InFirst(files, i, i);
    hide Names, Ordered;
    var n := files[i].name;
    if n in applied {
      assert Names(files[..i]) + {n} - applied == Names(files[..i]) - applied;
    } else {
      assert Names(files[..i]) + {n} - applied == (Names(files[..i]) - applied) + {n};
    }
  }

  lemma PendingSnoc(files: seq<File>, n: nat, ledger: set<Name>, baseline: bool)
    requires n < |files|
    ensures Names(files[..n + 1]) == Names(files[..n]) + {files[n].name}
    ensures Pending(files[..n + 1], ledger, baseline) ==
      Pending(files[..n], ledger, baseline)
      + if files[n].name in ledger || baseline || Blank(files[n].body) then [] else Whole(files[n])
  {
    assert files[..n + 1] == files[..n] + [files[n]];
    NamesSnoc(files[..n], files[n]);
    assert files[..n + 1][..n] == files[..n];
  }

  /** One file more is done, unless its commit or mark is lost. */
  lemma Advance(before: State, s: State, w: Runner, outcome: Outcome) returns (left: seq<Piece>)
    requires w.next < |w.files| && w.applied == before.ledger
    requires DoneThrough(before, s.ledger, s.executed, w.files, w.next, w.baseline, [])
    ensures var known, t := w.files[w.next].name in w.applied, Processed(s, w, outcome);
            var next := if known || !outcome.Lost? then w.next + 1 else w.next;
            DoneThrough(before, t.ledger, t.executed, w.files, next, w.baseline, left) && LeftBy(w.files, next, left)
    ensures GoesOn(w, outcome) ==> left == []
  {
    hide Names, Blank, Own, Whole;
    PendingSnoc(w.files, w.next, w.applied, w.baseline);
    var f := w.files[w.next];
    var pending := Pending(w.files[..w.next], before.ledger, w.baseline);
    assert s.executed == before.executed + pending;
    if f.name in w.applied {
      assert s.ledger == s.ledger + {f.name};
      left := [];
    } else if !w.baseline && !Blank(f.body) && outcome.Lost? {
      left := Own(f, Cut(f, outcome.through));
    } else {
      left := [];
    }
    assert before.executed + pending + [] == before.executed + pending;
    assert before.executed + pending + Whole(f) == before.executed + (pending + Whole(f)) + [];
  }

  lemma InLedger(before: State, ledger: set<Name>, executed: seq<Piece>, files: seq<File>, k: nat, baseline: bool,
                 left: seq<Piece>)
    requires DoneThrough(before, ledger, executed, files, k, baseline, left)
    ensures k <= |files| && Names(files[..k]) <= ledger
  {
  }

  lemma NothingHappened(before: State, s: State, files: seq<File>, baseline: bool)
    requires DoneThrough(before, s.ledger, s.executed, files, 0, baseline, [])
    ensures s.ledger == before.ledger && s.executed == before.executed
  {
    NothingDone(files, before.ledger, baseline);
  }

  lemma AllListed(names: seq<Name>, entries: seq<DirEntry>, files: seq<File>, k: nat, ledger: set<Name>)
    requires Lists(names, entries) && |files| == |names| == k
      && (forall i :: 0 <= i < |names| ==> files[i].name == names[i])
    requires Names(files[..k]) <= ledger
    ensures forall i :: 0 <= i < |entries| && IsMigration(entries[i]) ==> entries[i].name in ledger
  {
    hide IsMigration;
    forall i | 0 <= i < |entries| && IsMigration(entries[i])
      ensures entries[i].name in ledger
    {
      assert entries[i].name in names;
      var j :| 0 <= j < |names| && names[j] == entries[i].name;
      assert files[..k][j] == files[j];
      assert files[j].name in Names(files[..k]);
    }
  }
}
