/**
 The forward-only migrator: `Up` of pkg/dbmigrate/dbmigrate.go and the plan loop of
 services/migrator/cmd/main.go.

 Executing a file and recording it are two statements, so a run can be cut between them.  Every
 way a run can stop is a `Fault` met at some file; the theorems hold for every pattern of faults,
 every history of runs and every order `sort.Slice` may leave equal numbers in.
 */
module Migrations {
  import opened Text

  datatype File = File(dir: string, name: string, body: string)

  /** One execution of a file's SQL, and what was recorded when it happened. */
  datatype Execution = Execution(file: File, seen: set<string>)

  datatype Db = Db(executed: seq<Execution>, recorded: set<string>)

  const EMPTY_DB := Db([], {})

  /**
   What goes wrong at a file.  `CutAfterExec` stands for a crash, a lost reply or a failing
   INSERT after the file took effect; `CutAfterRecord` for the same after the INSERT took effect.
   */
  datatype Fault = Fine | CheckFails | ReadFails | ExecRefused | CutAfterExec | CutAfterRecord

  predicate Blank(f: File) {
    Trim(f.body, GoSpace) == ""
  }

  function Execute(db: Db, f: File): Db {
    db.(executed := db.executed + [Execution(f, db.recorded)])
  }

  function Record(db: Db, f: File): Db {
    db.(recorded := db.recorded + {f.name})
  }

  /** One turn of the loop in `Up`: the new database and whether the run goes on. */
  function Handle(db: Db, f: File, fault: Fault): (Db, bool) {
    if fault == CheckFails then (db, false)
    else if f.name in db.recorded then (db, true)
    else if fault == ReadFails then (db, false)
    else if Blank(f) then (db, true)
    else match fault
      case ExecRefused => (db, false)
      case CutAfterExec => (Execute(db, f), false)
      case CutAfterRecord => (Record(Execute(db, f), f), false)
      case _ => (Record(Execute(db, f), f), true)
  }

  function FaultAt(faults: seq<Fault>, i: nat): Fault {
    if i < |faults| then faults[i] else Fine
  }

  /** The loop over the first files of the list, stopping at the first error. */
  function UpFiles(db: Db, files: seq<File>, faults: seq<Fault>): (Db, bool) {
    if files == [] then (db, true)
    else
      var n := |files| - 1;
      var (db', ok) := UpFiles(db, files[..n], faults);
      if ok then Handle(db', files[n], FaultAt(faults, n)) else (db', false)
  }

  // ---------------------------------------------------------------- the number of a file

  function IndexOf(s: string, c: char): int
    ensures -1 <= IndexOf(s, c) < |s|
  {
    if s == "" then -1
    else if s[0] == c then 0
    else
      var i := IndexOf(s[1..], c);
      if i < 0 then -1 else i + 1
  }

  function DigitsValue(s: string): int
    requires forall c :: c in s ==> IsDigit(c)
  {
    if s == "" then 0
    else
      var c := s[|s| - 1];
      assert IsDigit(c);
      10 * DigitsValue(s[..|s| - 1]) + (c as int - '0' as int)
  }

  datatype Parsed = Number(value: int) | NotANumber

  /** `strconv.Atoi` on a 64-bit platform: an optional sign, at least one digit, in the range of int64. */
  function Atoi(s: string): Parsed {
    var signed := s != "" && (s[0] == '+' || s[0] == '-');
    var digits := if signed then s[1..] else s;
    if digits == "" || exists c :: c in digits && !IsDigit(c) then NotANumber
    else
      var n := if signed && s[0] == '-' then -DigitsValue(digits) else DigitsValue(digits);
      if -0x8000_0000_0000_0000 <= n <= 0x7fff_ffff_ffff_ffff then Number(n) else NotANumber
  }

  const NO_NUMBER := 0x4000_0000

  function MigrationSeq(name: string): int {
    var i := IndexOf(name, '_');
    if i <= 0 then NO_NUMBER
    else match Atoi(name[..i])
      case Number(n) => n
      case NotANumber => NO_NUMBER
  }

  predicate Sorted(files: seq<File>) {
    forall i, j :: 0 <= i < j < |files| ==> MigrationSeq(files[i].name) <= MigrationSeq(files[j].name)
  }

  // ---------------------------------------------------------------- the program

  datatype DirEntry = DirEntry(file: File, isDir: bool)

  predicate IsMigration(e: DirEntry) {
    !e.isDir && |e.file.name| >= |".up.sql"| && e.file.name[|e.file.name| - |".up.sql"|..] == ".up.sql"
  }

  function Selected(entries: seq<DirEntry>): seq<File> {
    if entries == [] then []
    else
      var n := |entries| - 1;
      Selected(entries[..n]) + (if IsMigration(entries[n]) then [entries[n].file] else [])
  }

  /** One Postgres database, as far as the migrator can tell: its schema history and `schema_migrations`. */
  class Database {
    var executed: seq<Execution>
    var recorded: set<string>

    constructor ()
      ensures View() == EMPTY_DB
    {
      executed, recorded := [], {};
    }

    function View(): Db
      reads this
    {
      Db(executed, recorded)
    }

    method Exec(f: File)
      modifies this`executed
      ensures View() == Execute(old(View()), f)
    {
      executed := executed + [Execution(f, recorded)];
    }

    method Insert(f: File)
      modifies this`recorded
      ensures View() == Record(old(View()), f)
    {
      recorded := recorded + {f.name};
    }
  }

  /** The files of a directory `Up` considers, before sorting. */
  method ListMigrations(entries: seq<DirEntry>) returns (files: seq<File>)
    ensures files == Selected(entries)
  {
    files := [];
    for i := 0 to |entries|
      invariant files == Selected(entries[..i])
    {
      assert entries[..i + 1][..i] == entries[..i];
      if IsMigration(entries[i]) {
        files := files + [entries[i].file];
      }
    }
    assert entries[..|entries|] == entries;
  }

  /** `Up` once the files are listed and sorted; `faults` says what goes wrong at which file. */
  method Up(db: Database, files: seq<File>, faults: seq<Fault>) returns (ok: bool)
    requires Sorted(files)
    modifies db
    ensures (db.View(), ok) == UpFiles(old(db.View()), files, faults)
  {
    var i := 0;
    while i < |files|
      invariant 0 <= i <= |files|
      invariant (db.View(), true) == UpFiles(old(db.View()), files[..i], faults)
    {
      assert files[..i + 1][..i] == files[..i];
      ghost var rest := UpFiles(old(db.View()), files[..i + 1], faults);
      var f, fault := files[i], FaultAt(faults, i);
      i := i + 1;
      if fault == CheckFails {
        StoppedStays(old(db.View()), files, faults, i);
        return false;
      }
      if f.name in db.recorded {
        continue;
      }
      if fault == ReadFails {
        StoppedStays(old(db.View()), files, faults, i);
        return false;
      }
      if Trim(f.body, GoSpace) == "" {
        continue;
      }
      if fault == ExecRefused {
        StoppedStays(old(db.View()), files, faults, i);
        return false;
      }
      db.Exec(f);
      if fault == CutAfterExec {
        StoppedStays(old(db.View()), files, faults, i);
        return false;
      }
      db.Insert(f);
      if fault == CutAfterRecord {
        StoppedStays(old(db.View()), files, faults, i);
        return false;
      }
    }
    assert files[..i] == files;
    return true;
  }

  lemma {:induction false} StoppedStays(db: Db, files: seq<File>, faults: seq<Fault>, i: nat)
    requires i <= |files| && !UpFiles(db, files[..i], faults).1
    ensures UpFiles(db, files, faults) == UpFiles(db, files[..i], faults)
  {
    if i == |files| {
      assert files[..i] == files;
    } else {
      var n := |files| - 1;
      assert files[..n][..i] == files[..i];
      StoppedStays(db, files[..n], faults, i);
    }
  }

  // ---------------------------------------------------------------- one run

  lemma {:induction false} OnlyGrows(db: Db, files: seq<File>, faults: seq<Fault>)
    ensures var db' := UpFiles(db, files, faults).0;
            db.executed <= db'.executed && db.recorded <= db'.recorded
  {
    if files != [] {
      OnlyGrows(db, files[..|files| - 1], faults);
    }
  }

  /** As long as the run goes on, every non-empty file met so far is recorded. */
  lemma {:induction false} GoingOnMeansRecorded(db: Db, files: seq<File>, faults: seq<Fault>)
    requires UpFiles(db, files, faults).1
    ensures forall f :: f in files && !Blank(f) ==> f.name in UpFiles(db, files, faults).0.recorded
  {
    if files != [] {
      GoingOnMeansRecorded(db, files[..|files| - 1], faults);
    }
  }

  /** The executions of the run, each with the files that preceded it. */
  ghost predicate InOrder(files: seq<File>, before: set<string>, e: Execution) {
    && before <= e.seen
    && exists i :: 0 <= i < |files| && files[i] == e.file && !Blank(files[i]) && files[i].name !in e.seen &&
                   forall j :: 0 <= j < i && !Blank(files[j]) ==> files[j].name in e.seen
  }

  lemma HandleExtends(db: Db, f: File, fault: Fault)
    ensures var db' := Handle(db, f, fault).0;
            db'.executed == db.executed ||
            (db'.executed == db.executed + [Execution(f, db.recorded)] && !Blank(f) && f.name !in db.recorded)
  {
    hide Blank;
  }

  /** Whatever a run adds to the history was executed in the order of its files. */
  lemma {:induction false} RunInOrder(db: Db, files: seq<File>, faults: seq<Fault>, k: nat)
    requires |db.executed| <= k < |UpFiles(db, files, faults).0.executed|
    ensures InOrder(files, db.recorded, UpFiles(db, files, faults).0.executed[k])
  {
    hide Handle, Blank;
    var n := |files| - 1;
    var front := UpFiles(db, files[..n], faults);
    OnlyGrows(db, files[..n], faults);
    HandleExtends(front.0, files[n], FaultAt(faults, n));
    if k < |front.0.executed| {
      RunInOrder(db, files[..n], faults, k);
      var e := front.0.executed[k];
      var i :| 0 <= i < n && files[..n][i] == e.file && !Blank(files[i]) && files[i].name !in e.seen &&
               forall j :: 0 <= j < i && !Blank(files[..n][j]) ==> files[..n][j].name in e.seen;
      assert files[i] == e.file;
      assert forall j :: 0 <= j < i ==> files[..n][j] == files[j];
    } else {
      GoingOnMeansRecorded(db, files[..n], faults);
      assert forall j :: 0 <= j < n ==> files[j] in files[..n];
      assert UpFiles(db, files, faults).0.executed[k] == Execution(files[n], front.0.recorded);
    }
  }

  /** A file is executed only when every non-empty file with a smaller number is recorded, and never when it is itself. */
  lemma SmallerNumbersFirst(db: Db, files: seq<File>, faults: seq<Fault>, k: nat, g: File)
    requires Sorted(files)
    requires |db.executed| <= k < |UpFiles(db, files, faults).0.executed|
    requires g in files && !Blank(g)
    ensures var e := UpFiles(db, files, faults).0.executed[k];
            && e.file in files && !Blank(e.file) && e.file.name !in e.seen
            && (MigrationSeq(g.name) < MigrationSeq(e.file.name) ==> g.name in e.seen)
  {
    RunInOrder(db, files, faults, k);
    var e := UpFiles(db, files, faults).0.executed[k];
    var i :| 0 <= i < |files| && files[i] == e.file && forall j :: 0 <= j < i && !Blank(files[j]) ==> files[j].name in e.seen;
    var j :| 0 <= j < |files| && files[j] == g;
  }

  /** The order `sort.Slice` may leave the files of a directory in. */
  predicate SortedListing(entries: seq<DirEntry>, files: seq<File>) {
    Sorted(files) && multiset(files) == multiset(Selected(entries))
  }

  lemma {:induction false} SelectedIs(entries: seq<DirEntry>, f: File)
    ensures f in Selected(entries) <==> exists i :: 0 <= i < |entries| && IsMigration(entries[i]) && entries[i].file == f
  {
    if entries != [] {
      SelectedIs(entries[..|entries| - 1], f);
    }
  }

  lemma ListingIs(entries: seq<DirEntry>, files: seq<File>, f: File)
    requires SortedListing(entries, files)
    ensures f in files <==> exists i :: 0 <= i < |entries| && IsMigration(entries[i]) && entries[i].file == f
  {
    SelectedIs(entries, f);
    assert f in multiset(files) <==> f in multiset(Selected(entries));
  }

  lemma UpIsMigration(e: DirEntry, stem: string)
    ensures !e.isDir && e.file.name == stem + ".up.sql" ==> IsMigration(e)
    ensures e.file.name == stem + ".down.sql" ==> !IsMigration(e)
  {
    var name := e.file.name;
    if name == stem + ".up.sql" {
      assert name[|name| - 7..] == ".up.sql";
    }
    if name == stem + ".down.sql" {
      assert name[|name| - 7] == 'o' && ".up.sql"[0] == '.';
    }
  }

  lemma MigrationIsUp(e: DirEntry) returns (stem: string)
    requires IsMigration(e)
    ensures !e.isDir && e.file.name == stem + ".up.sql"
  {
    stem := e.file.name[..|e.file.name| - 7];
  }

  /** The listed files are exactly those of the directory whose names end in `.up.sql`: never a down file, never a directory. */
  lemma ListedNames(entries: seq<DirEntry>, i: nat, f: File, stem: string)
    ensures i < |entries| && !entries[i].isDir && entries[i].file.name == stem + ".up.sql" ==> entries[i].file in Selected(entries)
    ensures f in Selected(entries) ==>
              (exists j :: 0 <= j < |entries| && !entries[j].isDir && entries[j].file == f) &&
              (exists before: string :: f.name == before + ".up.sql")
    ensures f.name == stem + ".down.sql" ==> f !in Selected(entries)
  {
    hide IsMigration;
    if i < |entries| {
      UpIsMigration(entries[i], stem);
      SelectedIs(entries, entries[i].file);
    }
    SelectedIs(entries, f);
    if f in Selected(entries) {
      var j :| 0 <= j < |entries| && IsMigration(entries[j]) && entries[j].file == f;
      var before := MigrationIsUp(entries[j]);
      assert f.name == before + ".up.sql";
      UpIsMigration(entries[j], stem);
    }
  }

  /** No down file of a directory is ever executed. */
  lemma DownFilesStay(db: Db, entries: seq<DirEntry>, files: seq<File>, faults: seq<Fault>, k: nat, stem: string)
    requires SortedListing(entries, files)
    requires |db.executed| <= k < |UpFiles(db, files, faults).0.executed|
    ensures UpFiles(db, files, faults).0.executed[k].file.name != stem + ".down.sql"
  {
    hide IsMigration, Selected;
    RunInOrder(db, files, faults, k);
    var f := UpFiles(db, files, faults).0.executed[k].file;
    assert f in files && f in multiset(files);
    ListedNames(entries, 0, f, stem);
  }

  /**
   From a directory's entries to what is executed: whatever the order of equal numbers, a run executes
   only non-empty migration files of the directory, none of them twice or out of order, and a run that
   succeeds has recorded them all.
   */
  lemma DirectoryIsApplied(db: Db, entries: seq<DirEntry>, files: seq<File>, faults: seq<Fault>, k: nat, i: nat)
    requires SortedListing(entries, files)
    requires i < |entries| && IsMigration(entries[i]) && !Blank(entries[i].file)
    ensures UpFiles(db, files, faults).1 ==> entries[i].file.name in UpFiles(db, files, faults).0.recorded
    ensures |db.executed| <= k < |UpFiles(db, files, faults).0.executed| ==>
              var e := UpFiles(db, files, faults).0.executed[k];
              && (exists j :: 0 <= j < |entries| && IsMigration(entries[j]) && entries[j].file == e.file)
              && !Blank(e.file) && e.file.name !in e.seen
              && (MigrationSeq(entries[i].file.name) < MigrationSeq(e.file.name) ==> entries[i].file.name in e.seen)
  {
    hide Blank, UpFiles, IsMigration, MigrationSeq;
    ListingIs(entries, files, entries[i].file);
    if UpFiles(db, files, faults).1 {
      GoingOnMeansRecorded(db, files, faults);
    }
    if |db.executed| <= k < |UpFiles(db, files, faults).0.executed| {
      SmallerNumbersFirst(db, files, faults, k, entries[i].file);
      ListingIs(entries, files, UpFiles(db, files, faults).0.executed[k].file);
    }
  }

  lemma {:induction false} NothingLeftToDo(db: Db, files: seq<File>, faults: seq<Fault>)
    requires forall f :: f in files && !Blank(f) ==> f.name in db.recorded
    ensures UpFiles(db, files, faults).0 == db
  {
    if files != [] {
      NothingLeftToDo(db, files[..|files| - 1], faults);
    }
  }

  /** A run that succeeds records every non-empty file, and no rerun, whatever befalls it, does anything more. */
  lemma RerunIsNoOp(db: Db, files: seq<File>, faults: seq<Fault>, faults': seq<Fault>)
    requires UpFiles(db, files, faults).1
    ensures var db' := UpFiles(db, files, faults).0;
            (forall f :: f in files && !Blank(f) ==> f.name in db'.recorded) && UpFiles(db', files, faults').0 == db'
  {
    GoingOnMeansRecorded(db, files, faults);
    NothingLeftToDo(UpFiles(db, files, faults).0, files, faults');
  }

  /** A run that nothing befalls succeeds, from any state. */
  lemma {:induction false} QuietRunSucceeds(db: Db, files: seq<File>)
    ensures UpFiles(db, files, []).1
  {
    if files != [] {
      QuietRunSucceeds(db, files[..|files| - 1]);
    }
  }

  /** The names a run over these files records, when it gets through all of them. */
  function Names(files: seq<File>): set<string> {
    set f | f in files && Trim(f.body, GoSpace) != "" :: f.name
  }

  /** What happens at file `i` lets the run go on: nothing goes wrong, or nothing that the file still needs. */
  predicate GoesOn(db: Db, files: seq<File>, faults: seq<Fault>, i: nat)
    requires i < |files|
  {
    var fault := FaultAt(faults, i);
    || fault == Fine
    || (files[i].name in db.recorded + Names(files[..i]) && fault != CheckFails)
    || (Trim(files[i].body, GoSpace) == "" && fault != CheckFails && fault != ReadFails)
  }

  lemma NamesSnoc(files: seq<File>, f: File)
    ensures Names(files + [f]) == Names(files) + (if Trim(f.body, GoSpace) != "" then {f.name} else {})
  {
    hide Trim;
  }

  lemma HandleGoesOn(db: Db, f: File, fault: Fault)
    ensures Handle(db, f, fault).1 <==>
            || fault == Fine || (f.name in db.recorded && fault != CheckFails)
            || (Trim(f.body, GoSpace) == "" && fault != CheckFails && fault != ReadFails)
    ensures Handle(db, f, fault).1 ==>
              Handle(db, f, fault).0.recorded == db.recorded + (if Trim(f.body, GoSpace) != "" then {f.name} else {})
    ensures Trim(f.body, GoSpace) == "" ==> Handle(db, f, fault).0 == db
  {
    hide Trim;
  }

  /**
   A run succeeds if and only if at every file nothing goes wrong that the file still needs, and then it
   records the names of the non-empty files and no others; a file of nothing but spaces is never run.
   */
  lemma {:induction false} SuccessIs(db: Db, files: seq<File>, faults: seq<Fault>)
    ensures UpFiles(db, files, faults).1 <==> forall i :: 0 <= i < |files| ==> GoesOn(db, files, faults, i)
    ensures UpFiles(db, files, faults).1 ==> UpFiles(db, files, faults).0.recorded == db.recorded + Names(files)
  {
    hide Handle, Names;
    if files == [] {
      NoNames();
    } else {
      var n := |files| - 1;
      var front := files[..n];
      SuccessIs(db, front, faults);
      assert files == front + [files[n]];
      NamesSnoc(front, files[n]);
      HandleGoesOn(UpFiles(db, front, faults).0, files[n], FaultAt(faults, n));
      GoesOnIs(db, files, faults, n);
      hide GoesOn, Trim;
      GoesOnFront(db, files, faults);
    }
  }

  lemma GoesOnIs(db: Db, files: seq<File>, faults: seq<Fault>, i: nat)
    requires i < |files|
    ensures var fault := FaultAt(faults, i);
            GoesOn(db, files, faults, i) <==>
            || fault == Fine || (files[i].name in db.recorded + Names(files[..i]) && fault != CheckFails)
            || (Trim(files[i].body, GoSpace) == "" && fault != CheckFails && fault != ReadFails)
  {
  }

  lemma GoesOnFront(db: Db, files: seq<File>, faults: seq<Fault>)
    requires files != []
    ensures var n := |files| - 1;
            (forall i :: 0 <= i < |files| ==> GoesOn(db, files, faults, i)) <==>
            (forall i :: 0 <= i < n ==> GoesOn(db, files[..n], faults, i)) && GoesOn(db, files, faults, n)
  {
    hide Names, Trim;
    var n := |files| - 1;
    forall i | 0 <= i < n
      ensures GoesOn(db, files[..n], faults, i) <==> GoesOn(db, files, faults, i)
    {
      assert files[..n][..i] == files[..i];
    }
  }

  lemma NoNames()
    ensures Names([]) == {}
  {
  }

  /** A file of nothing but spaces is never executed. */
  lemma EmptyFilesStay(db: Db, files: seq<File>, faults: seq<Fault>, k: nat)
    requires |db.executed| <= k < |UpFiles(db, files, faults).0.executed|
    ensures Trim(UpFiles(db, files, faults).0.executed[k].file.body, GoSpace) != ""
  {
    hide Trim, UpFiles;
    RunInOrder(db, files, faults, k);
  }

  // ---------------------------------------------------------------- histories of runs

  datatype Attempt = Attempt(files: seq<File>, faults: seq<Fault>)

  /** Any number of runs over the same database, each with its own files and its own faults. */
  function History(attempts: seq<Attempt>): Db {
    if attempts == [] then EMPTY_DB
    else
      var last := attempts[|attempts| - 1];
      UpFiles(History(attempts[..|attempts| - 1]), last.files, last.faults).0
  }

  function Executions(log: seq<Execution>, name: string): nat {
    if log == [] then 0
    else Executions(log[..|log| - 1], name) + (if log[|log| - 1].file.name == name then 1 else 0)
  }

  /** The file takes effect and the run ends before it is recorded. */
  predicate Cut(db: Db, f: File, fault: Fault, name: string) {
    f.name == name && name !in db.recorded && !Blank(f) && fault == CutAfterExec
  }

  /** How often a run was cut between executing the file and recording it. */
  function CutsInRun(db: Db, files: seq<File>, faults: seq<Fault>, name: string): nat {
    if files == [] then 0
    else
      var n := |files| - 1;
      var (db', ok) := UpFiles(db, files[..n], faults);
      CutsInRun(db, files[..n], faults, name) +
      (if ok && Cut(db', files[n], FaultAt(faults, n), name) then 1 else 0)
  }

  function Cuts(attempts: seq<Attempt>, name: string): nat {
    if attempts == [] then 0
    else
      var front, last := attempts[..|attempts| - 1], attempts[|attempts| - 1];
      Cuts(front, name) + CutsInRun(History(front), last.files, last.faults, name)
  }

  function RecordedOnce(db: Db, name: string): nat {
    if name in db.recorded then 1 else 0
  }

  lemma HandleLaw(db: Db, f: File, fault: Fault, name: string)
    ensures var db' := Handle(db, f, fault).0;
            Executions(db'.executed, name) + RecordedOnce(db, name) ==
            Executions(db.executed, name) + RecordedOnce(db', name) + (if Cut(db, f, fault, name) then 1 else 0)
  {
    hide Blank;
    assert (db.executed + [Execution(f, db.recorded)])[..|db.executed|] == db.executed;
  }

  lemma {:induction false} RunLaw(db: Db, files: seq<File>, faults: seq<Fault>, name: string)
    ensures var db' := UpFiles(db, files, faults).0;
            Executions(db'.executed, name) + RecordedOnce(db, name) ==
            Executions(db.executed, name) + RecordedOnce(db', name) + CutsInRun(db, files, faults, name)
  {
    hide Handle, Executions, RecordedOnce, Cut;
    if files != [] {
      var n := |files| - 1;
      RunLaw(db, files[..n], faults, name);
      HandleLaw(UpFiles(db, files[..n], faults).0, files[n], FaultAt(faults, n), name);
    }
  }

  /**
   Over any history, a file has been executed exactly once per cut between its execution and its
   record, and once more if it is recorded; so what is recorded was executed.
   */
  lemma {:induction false} ExecutionLaw(attempts: seq<Attempt>, name: string)
    ensures Executions(History(attempts).executed, name) == Cuts(attempts, name) + RecordedOnce(History(attempts), name)
  {
    if attempts != [] {
      var front, last := attempts[..|attempts| - 1], attempts[|attempts| - 1];
      ExecutionLaw(front, name);
      RunLaw(History(front), last.files, last.faults, name);
    }
  }

  // ---------------------------------------------------------------- numbering

  function Decimal(n: nat): string {
    if n < 10 then [(n + '0' as int) as char] else Decimal(n / 10) + [(n % 10 + '0' as int) as char]
  }

  function Padding(k: nat): string {
    if k == 0 then "" else Padding(k - 1) + "0"
  }

  lemma {:induction false} DecimalValue(k: nat, n: nat)
    ensures forall c :: c in Padding(k) + Decimal(n) ==> IsDigit(c)
    ensures DigitsValue(Padding(k) + Decimal(n)) == n
  {
    var s := Padding(k) + Decimal(n);
    if n < 10 {
      PaddingValue(k);
      assert s[..|s| - 1] == Padding(k);
    } else {
      DecimalValue(k, n / 10);
      assert s[..|s| - 1] == Padding(k) + Decimal(n / 10);
      assert forall c :: c in s ==> c in s[..|s| - 1] || c == s[|s| - 1];
    }
  }

  lemma {:induction false} PaddingValue(k: nat)
    ensures forall c :: c in Padding(k) ==> IsDigit(c)
    ensures DigitsValue(Padding(k)) == 0
  {
    if k > 0 {
      PaddingValue(k - 1);
      assert Padding(k)[..|Padding(k)| - 1] == Padding(k - 1);
    }
  }

  lemma {:induction false} IndexAfter(s: string, c: char, rest: string)
    requires c !in s
    ensures IndexOf(s + [c] + rest, c) == |s|
  {
    if s != "" {
      assert (s + [c] + rest)[1..] == s[1..] + [c] + rest;
      IndexAfter(s[1..], c, rest);
    }
  }

  lemma DecimalNonEmpty(n: nat)
    ensures Decimal(n) != ""
  {
  }

  lemma AtoiDigits(digits: string)
    requires digits != "" && forall c :: c in digits ==> IsDigit(c)
    requires 0 <= DigitsValue(digits) <= 0x7fff_ffff_ffff_ffff
    ensures Atoi(digits) == Number(DigitsValue(digits))
  {
    assert IsDigit(digits[0]) by {
      assert digits[0] in digits;
    }
  }

  /** A numbered file counts as its number, however it is padded; so `2_b` precedes `010_a`. */
  lemma NumberedFile(k: nat, n: nat, rest: string)
    requires n <= 0x7fff_ffff_ffff_ffff
    ensures MigrationSeq(Padding(k) + Decimal(n) + "_" + rest) == n
  {
    var digits := Padding(k) + Decimal(n);
    DecimalValue(k, n);
    assert '_' !in digits by {
      assert !IsDigit('_');
    }
    IndexAfter(digits, '_', rest);
    DecimalNonEmpty(n);
    AtoiDigits(digits);
    var name := digits + ['_'] + rest;
    assert name == digits + "_" + rest && name[..|digits|] == digits;
  }

  /** A number out of the range of a 64-bit integer is no number, and a sign counts. */
  lemma NumberRange(k: nat, n: int, rest: string)
    requires n >= 0
    ensures MigrationSeq(Padding(k) + Decimal(n) + "_" + rest) == if n <= 0x7fff_ffff_ffff_ffff then n else 0x4000_0000
    ensures MigrationSeq("-" + (Padding(k) + Decimal(n)) + "_" + rest) == if n <= 0x8000_0000_0000_0000 then -n else 0x4000_0000
    ensures MigrationSeq("+" + (Padding(k) + Decimal(n)) + "_" + rest) == if n <= 0x7fff_ffff_ffff_ffff then n else 0x4000_0000
  {
    hide *;
    var digits := Padding(k) + Decimal(n);
    DecimalValue(k, n);
    DecimalNonEmpty(n);
    NumberOf("", digits, n, rest);
    NumberOf("-", digits, n, rest);
    NumberOf("+", digits, n, rest);
    assert "" + digits == digits;
  }

  lemma NumberOf(sign: string, digits: string, n: int, rest: string)
    requires n >= 0 && (sign == "" || sign == "-" || sign == "+")
    requires digits != "" && (forall c :: c in digits ==> IsDigit(c)) && DigitsValue(digits) == n
    ensures MigrationSeq(sign + digits + "_" + rest) ==
            if sign == "-" then (if n <= 0x8000_0000_0000_0000 then -n else 0x4000_0000)
            else if n <= 0x7fff_ffff_ffff_ffff then n else 0x4000_0000
  {
    hide DigitsValue;
    var s := sign + digits;
    assert '_' !in s by {
      assert !IsDigit('_');
      assert forall c :: c in s ==> c in sign || c in digits;
    }
    IndexAfter(s, '_', rest);
    var name := s + ['_'] + rest;
    assert name == sign + digits + "_" + rest && name[..|s|] == s;
    assert digits[0] in digits;
    if sign == "" {
      assert s == digits && IsDigit(s[0]);
    } else {
      assert s[0] == sign[0] && (s[0] == '-' || s[0] == '+') && s[1..] == digits;
    }
    assert sign == "-" <==> s[0] == '-' by {
      assert "-"[0] == '-' && "+"[0] == '+';
    }
  }

  /** No underscore, nothing before it, or something before it that is not a 64-bit number. */
  predicate Unnumbered(name: string) {
    IndexOf(name, '_') <= 0 || Atoi(name[..IndexOf(name, '_')]) == NotANumber
  }

  /** Files without a number come after a numbered file exactly when its number is below 2^30. */
  lemma UnnumberedComeLast(k: nat, n: nat, rest: string, name: string)
    requires n <= 0x7fff_ffff_ffff_ffff && Unnumbered(name)
    ensures MigrationSeq(Padding(k) + Decimal(n) + "_" + rest) < MigrationSeq(name) <==> n < 0x4000_0000
  {
    NumberedFile(k, n, rest);
  }

  /** Which names those are: every name whose part before the first underscore does not begin like a number. */
  lemma NamedFile(name: string)
    requires '_' !in name || (name[0] != '+' && name[0] != '-' && !IsDigit(name[0]))
    ensures Unnumbered(name) && MigrationSeq(name) == NO_NUMBER
  {
    var i := IndexOf(name, '_');
    if '_' !in name {
      NoIndex(name, '_');
    } else if i > 0 {
      assert name[..i][0] == name[0] && name[0] in name[..i];
    }
  }

  lemma {:induction false} NoIndex(s: string, c: char)
    requires c !in s
    ensures IndexOf(s, c) == -1
  {
    if s != "" {
      NoIndex(s[1..], c);
    }
  }

  // ---------------------------------------------------------------- the plan

  /** A database and one migration directory that owns part of its schema. */
  datatype Step = Step(db: string, dir: string)

  datatype PlanEntry = PlanEntry(db: string, dirs: seq<string>)

  const PLAN := [
    PlanEntry("auth_db", ["auth-service"]),
    PlanEntry("user_db", ["user-service"]),
    PlanEntry("venue_db", ["venue-service", "crm-service"]),
    PlanEntry("booking_db", ["booking-service"]),
    PlanEntry("review_db", ["review-service"]),
    PlanEntry("payment_db", ["payment-service"]),
    PlanEntry("master_db", ["master-service"]),
    PlanEntry("chat_db", ["chat-service"]),
    PlanEntry("notification_db", ["notification-service"]),
    PlanEntry("support_db", ["api-gateway"]),
    PlanEntry("analytics_db", ["analytics-service"])
  ]

  /** How one directory of the plan fares: whether `Up` gets as far as its loop, and the faults it meets there. */
  datatype DirRun = DirRun(starts: bool, faults: seq<Fault>)

  type Listing = map<string, seq<File>>
  type Databases = map<string, Db>

  function FilesOf(listing: Listing, dir: string): seq<File> {
    if dir in listing then listing[dir] else []
  }

  function DbOf(dbs: Databases, name: string): Db {
    if name in dbs then dbs[name] else EMPTY_DB
  }

  function RunAt(runs: seq<DirRun>, i: nat): DirRun {
    if i < |runs| then runs[i] else DirRun(true, [])
  }

  function DirsOf(entry: PlanEntry, k: nat): seq<Step>
    requires k <= |entry.dirs|
  {
    if k == 0 then [] else DirsOf(entry, k - 1) + [Step(entry.db, entry.dirs[k - 1])]
  }

  function Steps(plan: seq<PlanEntry>): seq<Step> {
    if plan == [] then []
    else
      var last := plan[|plan| - 1];
      Steps(plan[..|plan| - 1]) + DirsOf(last, |last.dirs|)
  }

  /** The migrator: each directory in order, stopping for good at the first failure. */
  function Migrate(dbs: Databases, steps: seq<Step>, listing: Listing, runs: seq<DirRun>): (Databases, bool) {
    if steps == [] then (dbs, true)
    else
      var n := |steps| - 1;
      var (dbs', ok) := Migrate(dbs, steps[..n], listing, runs);
      if !ok || !RunAt(runs, n).starts then (dbs', false)
      else
        var (db, done) := UpFiles(DbOf(dbs', steps[n].db), FilesOf(listing, steps[n].dir), RunAt(runs, n).faults);
        (dbs'[steps[n].db := db], done)
  }

  /** Files are tagged with the directory they come from. */
  predicate Tagged(listing: Listing) {
    forall dir :: dir in listing ==> forall f :: f in listing[dir] ==> f.dir == dir
  }

  lemma {:induction false} SucceededStepsRecorded(dbs: Databases, steps: seq<Step>, listing: Listing, runs: seq<DirRun>, i: nat)
    requires i < |steps| && Migrate(dbs, steps, listing, runs).1
    ensures forall f :: f in FilesOf(listing, steps[i].dir) && !Blank(f) ==>
              f.name in DbOf(Migrate(dbs, steps, listing, runs).0, steps[i].db).recorded
  {
    hide Blank, UpFiles, FilesOf;
    var n := |steps| - 1;
    var dbs' := Migrate(dbs, steps[..n], listing, runs).0;
    var db, files, faults := DbOf(dbs', steps[n].db), FilesOf(listing, steps[n].dir), RunAt(runs, n).faults;
    if i < n {
      SucceededStepsRecorded(dbs, steps[..n], listing, runs, i);
      OnlyGrows(db, files, faults);
    } else {
      GoingOnMeansRecorded(db, files, faults);
    }
  }

  lemma {:induction false} LogOnlyGrows(dbs: Databases, steps: seq<Step>, listing: Listing, runs: seq<DirRun>, name: string)
    ensures DbOf(dbs, name).executed <= DbOf(Migrate(dbs, steps, listing, runs).0, name).executed
  {
    if steps != [] {
      var n := |steps| - 1;
      LogOnlyGrows(dbs, steps[..n], listing, runs, name);
      var dbs' := Migrate(dbs, steps[..n], listing, runs).0;
      OnlyGrows(DbOf(dbs', steps[n].db), FilesOf(listing, steps[n].dir), RunAt(runs, n).faults);
    }
  }

  /** The execution belongs to one step of the plan and saw every non-empty file of that database's earlier steps. */
  ghost predicate SawEarlier(steps: seq<Step>, listing: Listing, name: string, e: Execution) {
    exists j :: 0 <= j < |steps| && steps[j] == Step(name, e.file.dir) && SawUpTo(steps, listing, name, e, j)
  }

  ghost predicate SawUpTo(steps: seq<Step>, listing: Listing, name: string, e: Execution, j: nat)
    requires j <= |steps|
  {
    forall i, g | 0 <= i < j && steps[i].db == name && g in FilesOf(listing, steps[i].dir) && !Blank(g) :: g.name in e.seen
  }

  /** Whatever a run of the plan adds to a database's history was executed in the order of the plan. */
  lemma {:induction false} DirectoriesInOrder(dbs: Databases, steps: seq<Step>, listing: Listing, runs: seq<DirRun>,
                                              name: string, k: nat)
    requires Tagged(listing)
    requires |DbOf(dbs, name).executed| <= k < |DbOf(Migrate(dbs, steps, listing, runs).0, name).executed|
    ensures SawEarlier(steps, listing, name, DbOf(Migrate(dbs, steps, listing, runs).0, name).executed[k])
  {
    var n := |steps| - 1;
    var (dbs', ok) := Migrate(dbs, steps[..n], listing, runs);
    var before := DbOf(dbs', name);
    var db, files, faults := DbOf(dbs', steps[n].db), FilesOf(listing, steps[n].dir), RunAt(runs, n).faults;
    OnlyGrows(db, files, faults);
    if k < |before.executed| {
      DirectoriesInOrder(dbs, steps[..n], listing, runs, name, k);
      var e := before.executed[k];
      assert DbOf(Migrate(dbs, steps, listing, runs).0, name).executed[k] == e;
      var j :| 0 <= j < n && steps[..n][j] == Step(name, e.file.dir) && SawUpTo(steps[..n], listing, name, e, j);
      assert steps[j] == Step(name, e.file.dir) && SawUpTo(steps, listing, name, e, j) by {
        assert forall i :: 0 <= i < n ==> steps[..n][i] == steps[i];
      }
    } else {
      RunInOrder(db, files, faults, k);
      var e := UpFiles(db, files, faults).0.executed[k];
      forall i, g | 0 <= i < n && steps[i].db == name && g in FilesOf(listing, steps[i].dir) && !Blank(g)
        ensures g.name in e.seen
      {
        SucceededStepsRecorded(dbs, steps[..n], listing, runs, i);
      }
      assert steps[n] == Step(name, e.file.dir) && SawUpTo(steps, listing, name, e, n);
    }
  }

  lemma StepsSnoc(plan: seq<PlanEntry>, entry: PlanEntry)
    ensures Steps(plan + [entry]) == Steps(plan) + DirsOf(entry, |entry.dirs|)
  {
    assert (plan + [entry])[..|plan|] == plan;
  }

  lemma {:induction false} StepsPrefix(plan: seq<PlanEntry>, p: nat)
    requires p <= |plan|
    ensures Steps(plan[..p]) <= Steps(plan)
  {
    if p == |plan| {
      assert plan[..p] == plan;
    } else {
      var n := |plan| - 1;
      assert plan[..n][..p] == plan[..p];
      StepsPrefix(plan[..n], p);
    }
  }

  lemma FirstEntries()
    ensures |PLAN| >= 3
    ensures PLAN[..3] == [PlanEntry("auth_db", ["auth-service"]), PlanEntry("user_db", ["user-service"]),
                          PlanEntry("venue_db", ["venue-service", "crm-service"])]
  {
  }

  lemma NoSteps()
    ensures Steps([]) == []
  {
  }

  lemma StepsOfThree(a: PlanEntry, b: PlanEntry, c: PlanEntry)
    ensures Steps([a, b, c]) == DirsOf(a, |a.dirs|) + DirsOf(b, |b.dirs|) + DirsOf(c, |c.dirs|)
  {
    hide *;
    NoSteps();
    StepsSnoc([], a);
    StepsSnoc([a], b);
    StepsSnoc([a, b], c);
    assert [] + [a] == [a] && [a] + [b] == [a, b] && [a, b] + [c] == [a, b, c];
    assert Steps([]) + DirsOf(a, |a.dirs|) == DirsOf(a, |a.dirs|);
  }

  lemma OneDir(entry: PlanEntry)
    requires |entry.dirs| == 1
    ensures DirsOf(entry, 1) == [Step(entry.db, entry.dirs[0])]
  {
    assert DirsOf(entry, 0) == [];
  }

  lemma TwoDirs(entry: PlanEntry)
    requires |entry.dirs| == 2
    ensures DirsOf(entry, 2) == [Step(entry.db, entry.dirs[0]), Step(entry.db, entry.dirs[1])]
  {
    assert DirsOf(entry, 0) == [] && DirsOf(entry, 1) == [Step(entry.db, entry.dirs[0])];
  }

  /** The plan begins auth, user, venue, crm: the last two over the database they share. */
  lemma PlanStart()
    ensures |Steps(PLAN)| >= 4
    ensures Steps(PLAN)[0].db == "auth_db" && Steps(PLAN)[1].db == "user_db"
    ensures Steps(PLAN)[2] == Step("venue_db", "venue-service") && Steps(PLAN)[3] == Step("venue_db", "crm-service")
  {
    hide *;
    FirstEntries();
    var auth, user, venue := PLAN[..3][0], PLAN[..3][1], PLAN[..3][2];
    StepsOfThree(auth, user, venue);
    OneDir(auth);
    OneDir(user);
    TwoDirs(venue);
    StepsPrefix(PLAN, 3);
    assert PLAN[..3] == [auth, user, venue];
  }

  /** A service's database and directory share a name, but for two. */
  ghost predicate Belongs(step: Step) {
    || (exists name :: step == Step(name + "_db", name + "-service"))
    || step == Step("venue_db", "crm-service")
    || step == Step("support_db", "api-gateway")
  }

  lemma StemBelongs(name: string, db: string, dir: string)
    requires db == name + "_db" && dir == name + "-service"
    ensures Belongs(Step(db, dir))
  {
  }

  ghost predicate EntryBelongs(entry: PlanEntry) {
    forall d :: 0 <= d < |entry.dirs| ==> Belongs(Step(entry.db, entry.dirs[d]))
  }

  lemma {:induction false} DirsBelong(entry: PlanEntry, k: nat)
    requires EntryBelongs(entry) && k <= |entry.dirs|
    ensures forall step :: step in DirsOf(entry, k) ==> Belongs(step)
  {
    hide Belongs;
    if k > 0 {
      DirsBelong(entry, k - 1);
    }
  }

  lemma {:induction false} StepsBelong(plan: seq<PlanEntry>)
    requires forall i :: 0 <= i < |plan| ==> EntryBelongs(plan[i])
    ensures forall step :: step in Steps(plan) ==> Belongs(step)
  {
    hide Belongs, EntryBelongs, DirsOf;
    if plan != [] {
      StepsBelong(plan[..|plan| - 1]);
      DirsBelong(plan[|plan| - 1], |plan[|plan| - 1].dirs|);
    }
  }

  lemma FirstFiveBelong()
    ensures Belongs(Step("auth_db", "auth-service")) && Belongs(Step("user_db", "user-service"))
    ensures Belongs(Step("venue_db", "venue-service")) && Belongs(Step("booking_db", "booking-service"))
    ensures Belongs(Step("review_db", "review-service"))
  {
    hide Belongs;
    StemBelongs("auth", "auth_db", "auth-service");
    StemBelongs("user", "user_db", "user-service");
    StemBelongs("venue", "venue_db", "venue-service");
    StemBelongs("booking", "booking_db", "booking-service");
    StemBelongs("review", "review_db", "review-service");
  }

  lemma LastFiveBelong()
    ensures Belongs(Step("payment_db", "payment-service")) && Belongs(Step("master_db", "master-service"))
    ensures Belongs(Step("chat_db", "chat-service")) && Belongs(Step("notification_db", "notification-service"))
    ensures Belongs(Step("analytics_db", "analytics-service"))
  {
    hide Belongs;
    StemBelongs("payment", "payment_db", "payment-service");
    StemBelongs("master", "master_db", "master-service");
    StemBelongs("chat", "chat_db", "chat-service");
    StemBelongs("notification", "notification_db", "notification-service");
    StemBelongs("analytics", "analytics_db", "analytics-service");
  }

  /** Each database gets its own service's files, and only venue_db and support_db another's. */
  lemma PlanBelongs(step: Step)
    requires step in Steps(PLAN)
    ensures (exists name :: step == Step(name + "_db", name + "-service"))
            || step == Step("venue_db", "crm-service") || step == Step("support_db", "api-gateway")
    ensures |PLAN| == 11
  {
    FirstFiveBelong();
    LastFiveBelong();
    forall i | 0 <= i < |PLAN|
      ensures EntryBelongs(PLAN[i])
    {
    }
    StepsBelong(PLAN);
    assert Belongs(step);
  }

  lemma VenueIsNot()
    ensures "auth_db" != "venue_db" && "user_db" != "venue_db" && "venue-service" != "crm-service"
  {
    assert |"auth_db"| != |"venue_db"| && |"user_db"| != |"venue_db"| && |"venue-service"| != |"crm-service"|;
  }

  /** In venue_db no crm-service file is executed before every non-empty venue-service file is recorded. */
  lemma CrmAfterVenue(dbs: Databases, listing: Listing, runs: seq<DirRun>, k: nat, g: File)
    requires Tagged(listing)
    requires |DbOf(dbs, "venue_db").executed| <= k < |DbOf(Migrate(dbs, Steps(PLAN), listing, runs).0, "venue_db").executed|
    requires g in FilesOf(listing, "venue-service") && !Blank(g)
    ensures var e := DbOf(Migrate(dbs, Steps(PLAN), listing, runs).0, "venue_db").executed[k];
            e.file.dir == "crm-service" ==> g.name in e.seen
  {
    hide Migrate, Steps, DbOf, FilesOf, Blank;
    PlanStart();
    DirectoriesInOrder(dbs, Steps(PLAN), listing, runs, "venue_db", k);
    var e := DbOf(Migrate(dbs, Steps(PLAN), listing, runs).0, "venue_db").executed[k];
    var j :| 0 <= j < |Steps(PLAN)| && Steps(PLAN)[j] == Step("venue_db", e.file.dir) &&
             SawUpTo(Steps(PLAN), listing, "venue_db", e, j);
    if e.file.dir == "crm-service" {
      VenueIsNot();
      assert j > 2;
    }
  }

  // ---------------------------------------------------------------- the command

  /** The state of the databases behind their connections. */
  function Views(cluster: map<string, Database>): Databases
    reads cluster.Values
  {
    map name | name in cluster :: cluster[name].View()
  }

  predicate Wired(cluster: map<string, Database>, plan: seq<PlanEntry>, listing: Listing) {
    && (forall a, b :: a in cluster && b in cluster && cluster[a] == cluster[b] ==> a == b)
    && (forall entry :: entry in plan ==> entry.db in cluster)
    && (forall dir :: dir in listing ==> Sorted(listing[dir]))
  }

  /** The body of the inner loop: one directory of one database, as the step after `steps`. */
  method MigrateDir(cluster: map<string, Database>, step: Step, listing: Listing, run: DirRun,
                    ghost start: Databases, ghost steps: seq<Step>, ghost runs: seq<DirRun>) returns (ok: bool)
    requires Wired(cluster, [], listing) && step.db in cluster
    requires (Views(cluster), true) == Migrate(start, steps, listing, runs) && run == RunAt(runs, |steps|)
    modifies cluster.Values
    ensures (Views(cluster), ok) == Migrate(start, steps + [step], listing, runs)
  {
    MigrateSnoc(start, steps, step, listing, runs);
    if !run.starts {
      return false;
    }
    ghost var before := Views(cluster);
    ok := Up(cluster[step.db], FilesOf(listing, step.dir), run.faults);
    assert Views(cluster) == before[step.db := cluster[step.db].View()];
  }

  /** The nested loops of the command; `log.Fatal` ends the process, so nothing after a failure is touched. */
  method MigrateAll(cluster: map<string, Database>, plan: seq<PlanEntry>, listing: Listing, runs: seq<DirRun>)
    returns (ok: bool)
    requires Wired(cluster, plan, listing)
    modifies cluster.Values
    ensures (Views(cluster), ok) == Migrate(old(Views(cluster)), Steps(plan), listing, runs)
  {
    hide Migrate, RunAt;
    ghost var start, steps := Views(cluster), [];
    NothingMigrated(start, listing, runs);
    var count := 0;
    for p := 0 to |plan|
      invariant steps == Steps(plan[..p]) && count == |steps|
      invariant (Views(cluster), true) == Migrate(start, steps, listing, runs)
    {
      var entry := plan[p];
      ghost var done := steps;
      for d := 0 to |entry.dirs|
        invariant steps == done + DirsOf(entry, d) && count == |steps|
        invariant (Views(cluster), true) == Migrate(start, steps, listing, runs)
      {
        var step := Step(entry.db, entry.dirs[d]);
        var fine := MigrateDir(cluster, step, listing, RunAt(runs, count), start, steps, runs);
        steps, count := steps + [step], count + 1;
        if !fine {
          PlanPrefix(plan, p, d, steps);
          FailedStays(start, Steps(plan), listing, runs, |steps|);
          return false;
        }
      }
      StepsSnoc(plan[..p], entry);
      assert plan[..p + 1] == plan[..p] + [entry];
    }
    assert plan[..|plan|] == plan;
    return true;
  }

  lemma NothingMigrated(dbs: Databases, listing: Listing, runs: seq<DirRun>)
    ensures Migrate(dbs, [], listing, runs) == (dbs, true)
  {
  }

  lemma MigrateSnoc(dbs: Databases, steps: seq<Step>, step: Step, listing: Listing, runs: seq<DirRun>)
    ensures Migrate(dbs, steps + [step], listing, runs) ==
            var (dbs', ok) := Migrate(dbs, steps, listing, runs);
            if !ok || !RunAt(runs, |steps|).starts then (dbs', false)
            else
              var (db, done) := UpFiles(DbOf(dbs', step.db), FilesOf(listing, step.dir), RunAt(runs, |steps|).faults);
              (dbs'[step.db := db], done)
  {
    assert (steps + [step])[..|steps|] == steps;
  }

  lemma {:induction false} FailedStays(dbs: Databases, steps: seq<Step>, listing: Listing, runs: seq<DirRun>, i: nat)
    requires i <= |steps| && !Migrate(dbs, steps[..i], listing, runs).1
    ensures Migrate(dbs, steps, listing, runs) == Migrate(dbs, steps[..i], listing, runs)
  {
    if i == |steps| {
      assert steps[..i] == steps;
    } else {
      var n := |steps| - 1;
      assert steps[..n][..i] == steps[..i];
      FailedStays(dbs, steps[..n], listing, runs, i);
    }
  }

  lemma {:induction false} DirsPrefix(entry: PlanEntry, d: nat, k: nat)
    requires d <= k <= |entry.dirs|
    ensures DirsOf(entry, d) <= DirsOf(entry, k)
  {
    if d < k {
      DirsPrefix(entry, d, k - 1);
    }
  }

  lemma PlanPrefix(plan: seq<PlanEntry>, p: nat, d: nat, steps: seq<Step>)
    requires p < |plan| && d < |plan[p].dirs|
    requires steps == Steps(plan[..p]) + DirsOf(plan[p], d + 1)
    ensures |steps| <= |Steps(plan)| && Steps(plan)[..|steps|] == steps
  {
    StepsSnoc(plan[..p], plan[p]);
    assert plan[..p + 1] == plan[..p] + [plan[p]];
    StepsPrefix(plan, p + 1);
    DirsPrefix(plan[p], d + 1, |plan[p].dirs|);
  }
}
