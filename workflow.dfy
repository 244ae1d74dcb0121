/** The scan and check commands of checkr/checkr.py, after the command line
    and the config file have been read: a loop over the resolved file list
    that stores a fresh checksum for every file (scan) or compares a fresh
    checksum with the stored one and counts the files that pass and fail
    (check), against the database or the CSV ledger. */
module Workflow {
  import opened Basics
  import opened Checksums
  import opened FlatFile
  import opened Relational

  /** Every listed file is a regular file whose bytes the file system holds. */
  predicate Listed(fs: FileSystem, files: seq<string>) {
    forall i :: 0 <= i < |files| ==> files[i] in fs
  }

  /** The algorithms create_checksum knows. */
  predicate Supported(algorithm: string) {
    algorithm == "blake2b" || algorithm == "md5"
  }

  datatype Backend = UseDb | UseCsv | NoBackend

  /** The branch both loops take: the database when usedb is set, otherwise
      the CSV ledger when a CSV file name is given, otherwise neither. */
  function ChooseBackend(usedb: bool, csvfile: Option<string>): (b: Backend)
    ensures b == UseDb <==> usedb
    ensures b == UseCsv <==> !usedb && Truthy(csvfile)
    ensures b == NoBackend <==> !usedb && !Truthy(csvfile)
  {
    if usedb then UseDb else if Truthy(csvfile) then UseCsv else NoBackend
  }

  /** Both stores: the database tables and the CSV ledger. */
  datatype Stores = Stores(tables: Tables, ledger: Ledger)

  predicate Sound(s: Stores) {
    Consistent(s.tables) && WellFormed(s.ledger)
  }

  /** The stores a scan leaves, and whether it ran to the end. */
  datatype Run = Run(stores: Stores, outcome: Outcome)

  // ---------------------------------------------------------------------------
  // scan, one file

  /** scan_db as written: a truthy stored checksum is updated under the given
      algorithm; otherwise the result is stored without the algorithm, so
      under the default "blake2b". */
  function ScanDbStep(t: Tables, lib: HashLib, content: Bytes, path: string, algorithm: string): (r: Result<Tables>)
    requires Consistent(t)
    ensures r.Ok? ==> Consistent(r.value)
    ensures r.Err? ==> r.failure == MultipleResultsFound ||
                       (r.failure == NotNullViolation && Checksum(lib, algorithm, content).None?)
  {
    match GetChecksum(t, path, algorithm)
    case Err(e) => Err(e)
    case Ok(stored) =>
      var computed := Checksum(lib, algorithm, content);
      if Truthy(stored) then
        var r := UpdateChecksum(t, path, algorithm, computed);
        if r.Ok? then UpdateChecksumKeepsConsistent(t, path, algorithm, computed); r else r
      else Ok(CreateFile(t, DefaultAlgorithm, path, computed))
  }

  /** The CSV branch of scan: update the stored result when the ledger file
      exists and the lookup is truthy, store a new row otherwise. The csv
      writer turns a None checksum into an empty cell. */
  function ScanCsvStep(l: Ledger, lib: HashLib, content: Bytes, path: string, algorithm: string): (r: Ledger)
    requires WellFormed(l)
    ensures WellFormed(r) && r.isFile
    ensures |r.rows| == |l.rows| + (if l.isFile && Truthy(StoredChecksum(l.rows, path, algorithm)) then 0 else 1)
  {
    var cell := CellText(Checksum(lib, algorithm, content));
    if l.isFile && Truthy(StoredChecksum(l.rows, path, algorithm)) then AfterUpdate(l, path, cell, algorithm)
    else AfterStore(l, path, cell, algorithm)
  }

  /** One pass of the scan loop with a backend chosen: the database step
      keeps the tables and reports the exception when it raises; the CSV
      step always completes. */
  function ScanNext(b: Backend, s: Stores, lib: HashLib, content: Bytes, path: string, algorithm: string): (run: Run)
    requires Sound(s) && b != NoBackend
    ensures Sound(run.stores)
    ensures b == UseDb ==> run.stores.ledger == s.ledger && (run.outcome.Raised? ==> run.stores == s)
    ensures b == UseCsv ==> run.outcome == Done && run.stores.tables == s.tables
  {
    if b == UseDb then
      match ScanDbStep(s.tables, lib, content, path, algorithm)
      case Ok(next) => Run(Stores(next, s.ledger), Done)
      case Err(e) => Run(s, Raised(e))
    else Run(Stores(s.tables, ScanCsvStep(s.ledger, lib, content, path, algorithm)), Done)
  }

  /** The scan loop over the files in list order: nothing when neither
      backend is chosen (the loop breaks at the first file), and an exception
      ends the scan with the stores as the failing step found them. */
  function ScanRun(b: Backend, s: Stores, lib: HashLib, fs: FileSystem, files: seq<string>, algorithm: string)
    : (run: Run)
    requires Sound(s) && Listed(fs, files)
    ensures Sound(run.stores)
    ensures b != UseDb ==> run.outcome == Done && run.stores.tables == s.tables
    ensures b != UseCsv ==> run.stores.ledger == s.ledger
    ensures b == NoBackend ==> run.stores == s
    decreases |files|
  {
    if files == [] || b == NoBackend then Run(s, Done)
    else
      var next := ScanNext(b, s, lib, fs[files[0]], files[0], algorithm);
      if next.outcome.Raised? then next
      else ScanRun(b, next.stores, lib, fs, files[1..], algorithm)
  }

  /** scan_db. */
  method ScanDb(db: Database, lib: HashLib, fs: FileSystem, filename: string, algorithm: string)
    returns (outcome: Outcome)
    requires db.Valid() && filename in fs
    modifies db
    ensures db.Valid()
    ensures match ScanDbStep(old(db.Snapshot()), lib, fs[filename], filename, algorithm)
            case Ok(next) => outcome == Done && db.Snapshot() == next
            case Err(e) => outcome == Raised(e) && db.Snapshot() == old(db.Snapshot())
  {
    var stored := GetStoredChecksumFromDb(db, filename, algorithm);
    if stored.Err? {
      return Raised(stored.failure);
    }
    if Truthy(stored.value) {
      var computed := CreateChecksum(lib, fs, filename, algorithm);
      outcome := UpdateResultInDb(db, filename, computed, algorithm);
    } else {
      var computed := CreateChecksum(lib, fs, filename, algorithm);
      StoreResultInDb(db, filename, computed);
      outcome := Done;
    }
  }

  /** The CSV branch of the scan loop for one file. */
  method ScanCsv(csv: CsvFile, lib: HashLib, fs: FileSystem, filename: string, algorithm: string)
    requires csv.Valid() && filename in fs
    modifies csv
    ensures csv.Valid()
    ensures csv.State() == ScanCsvStep(old(csv.State()), lib, fs[filename], filename, algorithm)
  {
    var update := false;
    if csv.isFile {
      var stored := csv.GetStoredChecksum(filename, algorithm);
      update := stored.Ok? && Truthy(stored.value);
    }
    var computed := CreateChecksum(lib, fs, filename, algorithm);
    if update {
      var outcome := csv.UpdateResult(filename, CellText(computed), algorithm);
    } else {
      csv.StoreResult(filename, CellText(computed), algorithm);
    }
  }

  /** The body of the scan loop for one file, once a backend is chosen. */
  method ScanFile(b: Backend, db: Database, csv: CsvFile, lib: HashLib, fs: FileSystem, filename: string,
                  algorithm: string)
    returns (outcome: Outcome)
    requires b != NoBackend && db.Valid() && csv.Valid() && filename in fs
    modifies db, csv
    ensures db.Valid() && csv.Valid()
    ensures Run(Stores(db.Snapshot(), csv.State()), outcome) ==
            ScanNext(b, old(Stores(db.Snapshot(), csv.State())), lib, fs[filename], filename, algorithm)
  {
    if b == UseDb {
      outcome := ScanDb(db, lib, fs, filename, algorithm);
    } else {
      ScanCsv(csv, lib, fs, filename, algorithm);
      outcome := Done;
    }
  }

  /** A scan of a non-empty list is one pass over its first file followed,
      unless it raised, by the scan of the rest. */
  lemma ScanRunFirst(b: Backend, s: Stores, lib: HashLib, fs: FileSystem, files: seq<string>, algorithm: string)
    requires Sound(s) && Listed(fs, files) && b != NoBackend && files != []
    ensures var next := ScanNext(b, s, lib, fs[files[0]], files[0], algorithm);
            ScanRun(b, s, lib, fs, files, algorithm) ==
            if next.outcome.Raised? then next else ScanRun(b, next.stores, lib, fs, files[1..], algorithm)
  {
  }

  /** The scan of the files from position i on is one pass over file i
      followed, unless it raised, by the scan of the files from i + 1 on. */
  lemma ScanRunStep(b: Backend, s: Stores, lib: HashLib, fs: FileSystem, files: seq<string>, algorithm: string,
                    i: nat)
    requires Sound(s) && Listed(fs, files) && b != NoBackend && i < |files|
    ensures var next := ScanNext(b, s, lib, fs[files[i]], files[i], algorithm);
            ScanRun(b, s, lib, fs, files[i..], algorithm) ==
            if next.outcome.Raised? then next else ScanRun(b, next.stores, lib, fs, files[i + 1..], algorithm)
  {
    assert files[i..][0] == files[i] && files[i..][1..] == files[i + 1..];
  }

  /** The scan command's loop. */
  method Scan(lib: HashLib, fs: FileSystem, files: seq<string>, csvfile: Option<string>, usedb: bool,
              algorithm: string, db: Database, csv: CsvFile)
    returns (outcome: Outcome)
    requires Listed(fs, files) && db.Valid() && csv.Valid()
    modifies db, csv
    ensures db.Valid() && csv.Valid()
    ensures Run(Stores(db.Snapshot(), csv.State()), outcome) ==
            ScanRun(ChooseBackend(usedb, csvfile), old(Stores(db.Snapshot(), csv.State())), lib, fs, files, algorithm)
  {
    ghost var b := ChooseBackend(usedb, csvfile);
    ghost var goal := ScanRun(b, Stores(db.Snapshot(), csv.State()), lib, fs, files, algorithm);
    var i := 0;
    while i < |files|
      invariant 0 <= i <= |files| && Listed(fs, files[i..])
      invariant db.Valid() && csv.Valid()
      invariant ScanRun(b, Stores(db.Snapshot(), csv.State()), lib, fs, files[i..], algorithm) == goal
    {
      if !usedb && !Truthy(csvfile) {
        break;
      }
      ghost var before := Stores(db.Snapshot(), csv.State());
      ScanRunStep(b, before, lib, fs, files, algorithm, i);
      outcome := ScanFile(ChooseBackend(usedb, csvfile), db, csv, lib, fs, files[i], algorithm);
      assert Run(Stores(db.Snapshot(), csv.State()), outcome) == ScanNext(b, before, lib, fs[files[i]], files[i], algorithm);
      if outcome.Raised? {
        return;
      }
      assert Listed(fs, files[i + 1..]);
      i := i + 1;
    }
    outcome := Done;
  }

  // ---------------------------------------------------------------------------
  // check

  /** The counters of the check loop. */
  datatype Tally = Tally(good: nat, bad: nat, total: nat)

  /** How many verdicts are a pass. */
  function Passed(verdicts: seq<Result<Option<bool>>>): (n: nat)
    ensures n <= |verdicts|
    ensures n == |verdicts| <==> forall i :: 0 <= i < |verdicts| ==> verdicts[i] == Ok(Some(true))
    ensures n == 0 <==> forall i :: 0 <= i < |verdicts| ==> verdicts[i] != Ok(Some(true))
    decreases |verdicts|
  {
    if verdicts == [] then 0
    else (if verdicts[0] == Ok(Some(true)) then 1 else 0) + Passed(verdicts[1..])
  }

  /** One verdict counted: a truthy one is good, any other (False, or None
      for a missing record) is bad, and every file adds one to the total. */
  function Count(c: Tally, verdict: Option<bool>): Tally {
    if verdict == Some(true) then Tally(c.good + 1, c.bad, c.total + 1)
    else Tally(c.good, c.bad + 1, c.total + 1)
  }

  /** The counters after the verdicts in order, starting from `c`; the first
      exception ends the command and is what it raises. */
  function TallyFrom(c: Tally, verdicts: seq<Result<Option<bool>>>): (r: Result<Tally>)
    ensures r.Ok? ==> r.value.good == c.good + Passed(verdicts) &&
                      r.value.bad == c.bad + |verdicts| - Passed(verdicts) &&
                      r.value.total == c.total + |verdicts|
    decreases |verdicts|
  {
    if verdicts == [] then Ok(c)
    else match verdicts[0]
      case Err(e) => Err(e)
      case Ok(v) =>
        TallyFrom(Count(c, v), verdicts[1..])
  }

  /** The count raises exactly when some verdict is an exception, and then
      it raises the first one. */
  lemma {:induction false} TallyFromRaises(c: Tally, verdicts: seq<Result<Option<bool>>>)
    ensures TallyFrom(c, verdicts).Err? <==> exists i :: 0 <= i < |verdicts| && verdicts[i].Err?
    ensures TallyFrom(c, verdicts).Err? ==>
              exists i :: 0 <= i < |verdicts| && verdicts[i] == Err(TallyFrom(c, verdicts).failure) &&
                          forall j :: 0 <= j < i ==> verdicts[j].Ok?
    decreases |verdicts|
  {
    if verdicts != [] && verdicts[0].Ok? {
      TallyFromRaises(Count(c, verdicts[0].value), verdicts[1..]);
      assert forall i :: 0 <= i < |verdicts| - 1 ==> verdicts[1..][i] == verdicts[i + 1];
    }
  }

  /** The verdict of the check function of a backend for one file. */
  function Verdict(b: Backend, s: Stores, lib: HashLib, content: Bytes, path: string, algorithm: string)
    : Result<Option<bool>>
  {
    if b == UseDb then CheckAgainstDb(s.tables, lib, content, path, algorithm)
    else CheckAgainst(s.ledger, lib, content, path, algorithm)
  }

  /** The verdicts of a backend for every listed file, in list order. */
  function Verdicts(b: Backend, s: Stores, lib: HashLib, fs: FileSystem, files: seq<string>, algorithm: string)
    : (vs: seq<Result<Option<bool>>>)
    requires Listed(fs, files)
    ensures |vs| == |files|
    ensures forall i :: 0 <= i < |files| ==> vs[i] == Verdict(b, s, lib, fs[files[i]], files[i], algorithm)
  {
    seq(|files|, i requires 0 <= i < |files| => Verdict(b, s, lib, fs[files[i]], files[i], algorithm))
  }

  /** What the check command counts: nothing when neither backend is chosen
      (the loop breaks at the first file), otherwise the tally of the
      verdicts of the chosen backend. */
  function CheckResult(b: Backend, s: Stores, lib: HashLib, fs: FileSystem, files: seq<string>, algorithm: string)
    : (r: Result<Tally>)
    requires Listed(fs, files)
  {
    if b == NoBackend then Ok(Tally(0, 0, 0)) else TallyFrom(Tally(0, 0, 0), Verdicts(b, s, lib, fs, files, algorithm))
  }

  /** The check function of the chosen backend for one file. */
  method CheckFile(b: Backend, db: Database, csv: CsvFile, lib: HashLib, fs: FileSystem, filename: string,
                   algorithm: string)
    returns (verdict: Result<Option<bool>>)
    requires b != NoBackend && filename in fs
    ensures verdict == Verdict(b, Stores(db.Snapshot(), csv.State()), lib, fs[filename], filename, algorithm)
  {
    if b == UseDb {
      verdict := CheckFileAgainstDb(db, lib, fs, filename, algorithm);
    } else {
      verdict := csv.CheckFile(lib, fs, filename, algorithm);
    }
  }

  /** Counting the verdicts from position i on is counting verdict i and
      then, unless it is an exception, the verdicts from i + 1 on. */
  lemma TallyFromStep(c: Tally, verdicts: seq<Result<Option<bool>>>, i: nat)
    requires i < |verdicts|
    ensures verdicts[i].Err? ==> TallyFrom(c, verdicts[i..]) == Err(verdicts[i].failure)
    ensures verdicts[i].Ok? ==> TallyFrom(c, verdicts[i..]) == TallyFrom(Count(c, verdicts[i].value), verdicts[i + 1..])
  {
    assert verdicts[i..][0] == verdicts[i] && verdicts[i..][1..] == verdicts[i + 1..];
  }

  /** The check command's loop. */
  method Check(lib: HashLib, fs: FileSystem, files: seq<string>, csvfile: Option<string>, usedb: bool,
               algorithm: string, db: Database, csv: CsvFile)
    returns (r: Result<Tally>)
    requires Listed(fs, files)
    ensures r == CheckResult(ChooseBackend(usedb, csvfile), Stores(db.Snapshot(), csv.State()), lib, fs, files, algorithm)
  {
    ghost var b := ChooseBackend(usedb, csvfile);
    ghost var stores := Stores(db.Snapshot(), csv.State());
    ghost var vs := Verdicts(b, stores, lib, fs, files, algorithm);
    ghost var goal := TallyFrom(Tally(0, 0, 0), vs);
    var numGood, numBad, total := 0, 0, 0;
    var i := 0;
    while i < |files|
      invariant 0 <= i <= |files|
      invariant b != NoBackend ==> TallyFrom(Tally(numGood, numBad, total), vs[i..]) == goal
      invariant b == NoBackend ==> i == 0 && numGood == numBad == total == 0
    {
      if !usedb && !Truthy(csvfile) {
        break;
      }
      var verdict := CheckFile(ChooseBackend(usedb, csvfile), db, csv, lib, fs, files[i], algorithm);
      assert verdict == vs[i];
      ghost var before := Tally(numGood, numBad, total);
      TallyFromStep(before, vs, i);
      if verdict.Err? {
        return Err(verdict.failure);
      }
      if verdict.value == Some(true) {
        numGood := numGood + 1;
      } else {
        numBad := numBad + 1;
      }
      total := total + 1;
      ghost var after := Tally(numGood, numBad, total);
      assert after == Count(before, verdict.value);
      assert TallyFrom(after, vs[i + 1..]) == goal;
      i := i + 1;
    }
    assert b != NoBackend ==> vs[i..] == [];
    r := Ok(Tally(numGood, numBad, total));
  }

  // ---------------------------------------------------------------------------
  // What the counters say.

  /** With the counters at zero, every file is good exactly when every verdict is a pass. */
  lemma AllGoodIffAllPass(verdicts: seq<Result<Option<bool>>>)
    ensures TallyFrom(Tally(0, 0, 0), verdicts) == Ok(Tally(|verdicts|, 0, |verdicts|)) <==>
            forall i :: 0 <= i < |verdicts| ==> verdicts[i] == Ok(Some(true))
  {
    var r := TallyFrom(Tally(0, 0, 0), verdicts);
    var n := Passed(verdicts);
    if forall i :: 0 <= i < |verdicts| ==> verdicts[i] == Ok(Some(true)) {
      TallyFromRaises(Tally(0, 0, 0), verdicts);
      assert r.Ok? && n == |verdicts|;
      assert r.value == Tally(|verdicts|, 0, |verdicts|);
    } else {
      assert n != |verdicts|;
      assert r.Ok? ==> r.value.good != |verdicts|;
    }
  }

  /** Every counted file adds to exactly one of good and bad, the total is
      the number of listed files (none when neither backend is chosen), and
      good is the number of passes. */
  lemma CheckCountsAddUp(b: Backend, s: Stores, lib: HashLib, fs: FileSystem, files: seq<string>, algorithm: string)
    requires Listed(fs, files)
    ensures var r := CheckResult(b, s, lib, fs, files, algorithm);
            r.Ok? ==> && r.value.good + r.value.bad == r.value.total
                      && r.value.total == (if b == NoBackend then 0 else |files|)
                      && r.value.good == (if b == NoBackend then 0 else Passed(Verdicts(b, s, lib, fs, files, algorithm)))
  {
  }

  /** A file with no stored record counts as bad: a check against an empty
      table of files reports every file as failed. */
  lemma MissingRecordsCountBad(algorithms: seq<AlgorithmRow>, l: Ledger, lib: HashLib, fs: FileSystem,
                               files: seq<string>, algorithm: string)
    requires Listed(fs, files)
    ensures CheckResult(UseDb, Stores(Tables(algorithms, []), l), lib, fs, files, algorithm)
            == Ok(Tally(0, |files|, |files|))
  {
    var t := Tables(algorithms, []);
    var vs := Verdicts(UseDb, Stores(t, l), lib, fs, files, algorithm);
    forall i | 0 <= i < |files| ensures vs[i] == Ok(None) {
      GetChecksumMeaning(t, files[i], algorithm);
    }
    TallyFromRaises(Tally(0, 0, 0), vs);
  }

  // ---------------------------------------------------------------------------
  // Scan then check, against the database as written.

  /** With one row per path and no empty checksum, a scan_db step with a
      truthy fresh checksum records it for the path, keeps those two
      properties, and leaves get_checksum of every other path alone. */
  lemma ScanDbStepRecords(t: Tables, lib: HashLib, content: Bytes, path: string, algorithm: string)
    requires Consistent(t) && OneRowPerPath(t.files) && FilledChecksums(t.files)
    requires Truthy(Checksum(lib, algorithm, content))
    ensures var r := ScanDbStep(t, lib, content, path, algorithm);
            && r.Ok? && OneRowPerPath(r.value.files) && FilledChecksums(r.value.files)
            && GetChecksum(r.value, path, algorithm) == Ok(Checksum(lib, algorithm, content))
            && forall q :: q != path ==> GetChecksum(r.value, q, algorithm) == GetChecksum(t, q, algorithm)
  {
    var c := Checksum(lib, algorithm, content).value;
    GetChecksumOfOneRowPerPath(t, path, algorithm);
    WritesKeepChecksumsFilled(t, path, DefaultAlgorithm, c);
    WritesKeepChecksumsFilled(t, path, algorithm, c);
    if i :| 0 <= i < |t.files| && t.files[i].path == path {
      assert GetChecksum(t, path, algorithm) == Ok(Some(t.files[i].checksum));
      assert ScanDbStep(t, lib, content, path, algorithm) == UpdateChecksum(t, path, algorithm, Some(c));
      UpdateChecksumThenLookup(t, path, algorithm, c, i);
      forall q | q != path
        ensures GetChecksum(UpdateChecksum(t, path, algorithm, Some(c)).value, q, algorithm) == GetChecksum(t, q, algorithm)
      {
        UpdateChecksumKeepsOtherPaths(t, path, algorithm, c, q);
      }
    } else {
      assert GetChecksum(t, path, algorithm) == Ok(None);
      assert ScanDbStep(t, lib, content, path, algorithm) == Ok(CreateFile(t, DefaultAlgorithm, path, Some(c)));
      CreateFileThenLookup(t, DefaultAlgorithm, path, c);
      var r := CreateFile(t, DefaultAlgorithm, path, Some(c));
      forall q | q != path ensures GetChecksum(r, q, algorithm) == GetChecksum(t, q, algorithm) {
        CreateFileKeepsOtherPaths(t, DefaultAlgorithm, path, Some(c), q);
        GetChecksumMeaning(r, q, algorithm);
        GetChecksumMeaning(t, q, algorithm);
      }
    }
  }

  /** A database scan with a supported algorithm, from tables with one row
      per path and no empty checksum, runs to the end, keeps those two
      properties and leaves get_checksum of every unlisted path alone. */
  lemma {:induction false} ScanDbRunFrame(s: Stores, lib: HashLib, fs: FileSystem, files: seq<string>,
                                          algorithm: string)
    requires Sound(s) && Listed(fs, files) && HexDigests(lib) && Supported(algorithm)
    requires OneRowPerPath(s.tables.files) && FilledChecksums(s.tables.files)
    ensures var run := ScanRun(UseDb, s, lib, fs, files, algorithm);
            && run.outcome == Done
            && OneRowPerPath(run.stores.tables.files) && FilledChecksums(run.stores.tables.files)
            && (forall q :: q !in files ==>
                  GetChecksum(run.stores.tables, q, algorithm) == GetChecksum(s.tables, q, algorithm))
    decreases |files|
  {
    if files != [] {
      var f := files[0];
      SupportedChecksumIsTruthy(lib, algorithm, fs[f]);
      ScanDbStepRecords(s.tables, lib, fs[f], f, algorithm);
      var next := ScanNext(UseDb, s, lib, fs[f], f, algorithm);
      ScanDbRunFrame(next.stores, lib, fs, files[1..], algorithm);
      ScanRunFirst(UseDb, s, lib, fs, files, algorithm);
      var final := ScanRun(UseDb, next.stores, lib, fs, files[1..], algorithm).stores.tables;
      assert final == ScanRun(UseDb, s, lib, fs, files, algorithm).stores.tables;
      forall q | q !in files ensures GetChecksum(final, q, algorithm) == GetChecksum(s.tables, q, algorithm) {
        assert q != f && q !in files[1..];
      }
    }
  }

  /** A database scan with a supported algorithm, from tables with one row
      per path and no empty checksum, records the fresh checksum of the first
      listed file: a later listing of the same path records the same
      checksum again, and otherwise no later file touches its row. */
  lemma {:induction false} ScanDbRunRecordsFirst(s: Stores, lib: HashLib, fs: FileSystem, files: seq<string>,
                                                 algorithm: string)
    requires Sound(s) && Listed(fs, files) && HexDigests(lib) && Supported(algorithm) && files != []
    requires OneRowPerPath(s.tables.files) && FilledChecksums(s.tables.files)
    ensures GetChecksum(ScanRun(UseDb, s, lib, fs, files, algorithm).stores.tables, files[0], algorithm)
            == Ok(Checksum(lib, algorithm, fs[files[0]]))
    decreases |files|, 1
  {
    if j :| 0 < j < |files| && files[j] == files[0] {
      ScanDbRunRecordsLater(s, lib, fs, files, algorithm, j);
    } else {
      ScanDbRunRecordsOnce(s, lib, fs, files, algorithm);
    }
  }

  /** The same when the first listed file is not listed again: no later
      step touches its row. */
  lemma ScanDbRunRecordsOnce(s: Stores, lib: HashLib, fs: FileSystem, files: seq<string>, algorithm: string)
    requires Sound(s) && Listed(fs, files) && HexDigests(lib) && Supported(algorithm)
    requires files != [] && forall j :: 0 < j < |files| ==> files[j] != files[0]
    requires OneRowPerPath(s.tables.files) && FilledChecksums(s.tables.files)
    ensures GetChecksum(ScanRun(UseDb, s, lib, fs, files, algorithm).stores.tables, files[0], algorithm)
            == Ok(Checksum(lib, algorithm, fs[files[0]]))
  {
    var f := files[0];
    SupportedChecksumIsTruthy(lib, algorithm, fs[f]);
    ScanDbStepRecords(s.tables, lib, fs[f], f, algorithm);
    var next := ScanNext(UseDb, s, lib, fs[f], f, algorithm);
    ScanRunFirst(UseDb, s, lib, fs, files, algorithm);
    ScanDbRunFrame(next.stores, lib, fs, files[1..], algorithm);
  }

  /** The same for listed file k after the first: it is the first file of
      the scan that follows the first step. */
  lemma {:induction false} ScanDbRunRecordsLater(s: Stores, lib: HashLib, fs: FileSystem, files: seq<string>,
                                                 algorithm: string, k: nat)
    requires Sound(s) && Listed(fs, files) && HexDigests(lib) && Supported(algorithm) && 0 < k < |files|
    requires OneRowPerPath(s.tables.files) && FilledChecksums(s.tables.files)
    ensures GetChecksum(ScanRun(UseDb, s, lib, fs, files, algorithm).stores.tables, files[k], algorithm)
            == Ok(Checksum(lib, algorithm, fs[files[k]]))
    decreases |files|, 0
  {
    var f := files[0];
    SupportedChecksumIsTruthy(lib, algorithm, fs[f]);
    ScanDbStepRecords(s.tables, lib, fs[f], f, algorithm);
    var next := ScanNext(UseDb, s, lib, fs[f], f, algorithm);
    ScanRunFirst(UseDb, s, lib, fs, files, algorithm);
    assert files[1..][k - 1] == files[k];
    if k > 1 {
      ScanDbRunRecordsLater(next.stores, lib, fs, files[1..], algorithm, k - 1);
    } else {
      ScanDbRunRecordsFirst(next.stores, lib, fs, files[1..], algorithm);
    }
  }

  /** A database scan with a supported algorithm, from tables with one row
      per path and no empty checksum, records the fresh checksum of every
      listed file. */
  lemma ScanDbRunRecords(s: Stores, lib: HashLib, fs: FileSystem, files: seq<string>, algorithm: string)
    requires Sound(s) && Listed(fs, files) && HexDigests(lib) && Supported(algorithm)
    requires OneRowPerPath(s.tables.files) && FilledChecksums(s.tables.files)
    ensures var run := ScanRun(UseDb, s, lib, fs, files, algorithm);
            forall i :: 0 <= i < |files| ==>
              GetChecksum(run.stores.tables, files[i], algorithm) == Ok(Checksum(lib, algorithm, fs[files[i]]))
  {
    forall i | 0 <= i < |files|
      ensures GetChecksum(ScanRun(UseDb, s, lib, fs, files, algorithm).stores.tables, files[i], algorithm)
              == Ok(Checksum(lib, algorithm, fs[files[i]]))
    {
      if i == 0 {
        ScanDbRunRecordsFirst(s, lib, fs, files, algorithm);
      } else {
        ScanDbRunRecordsLater(s, lib, fs, files, algorithm, i);
      }
    }
  }

  /** Scanning and then checking the same unchanged files with the same
      supported algorithm passes every file, against the database as written
      whenever it starts with one row per path and no empty checksum. */
  lemma ScanThenCheckDbPasses(s: Stores, lib: HashLib, fs: FileSystem, files: seq<string>, algorithm: string)
    requires Sound(s) && Listed(fs, files) && HexDigests(lib) && Supported(algorithm)
    requires OneRowPerPath(s.tables.files) && FilledChecksums(s.tables.files)
    ensures var run := ScanRun(UseDb, s, lib, fs, files, algorithm);
            run.outcome == Done &&
            CheckResult(UseDb, run.stores, lib, fs, files, algorithm) == Ok(Tally(|files|, 0, |files|))
  {
    ScanDbRunFrame(s, lib, fs, files, algorithm);
    ScanDbRunRecords(s, lib, fs, files, algorithm);
    var final := ScanRun(UseDb, s, lib, fs, files, algorithm).stores;
    var vs := Verdicts(UseDb, final, lib, fs, files, algorithm);
    AllGoodIffAllPass(vs);
  }

  /** scan_db as written stores an md5 scan of a new file under "blake2b":
      the keyed record for md5 stays missing and the blake2b row holds the
      md5 digest. */
  lemma ScanDbDefaultAlgorithmCounterexample(lib: HashLib, content: Bytes)
    ensures var r := ScanDbStep(Tables([], []), lib, content, "/data/a", "md5");
            && r.Ok? && |r.value.files| == 1
            && KeyedChecksum(r.value, "/data/a", "md5") == None
            && KeyedChecksum(r.value, "/data/a", "blake2b") == Some(lib.md5(content))
  {
    var empty := Tables([], []);
    assert GetChecksum(empty, "/data/a", "md5") == Ok(None);
    assert Checksum(lib, "md5", content) == Some(lib.md5(content));
    var r := CreateFile(empty, DefaultAlgorithm, "/data/a", Some(lib.md5(content)));
    assert ScanDbStep(empty, lib, content, "/data/a", "md5") == Ok(r);
    CreateFileAppendsRecord(empty, DefaultAlgorithm, "/data/a", lib.md5(content));
    KeyedChecksumAt(r, 0);
    CreateFileKeepsOtherKeys(empty, DefaultAlgorithm, "/data/a", Some(lib.md5(content)), "/data/a", "md5");
  }

  // ---------------------------------------------------------------------------
  // Scan then check, against the database with keyed queries.

  /** scan_db as intended: record the fresh checksum under the given
      algorithm, replacing the record of that (path, algorithm) if there is
      one; an unsupported algorithm has no checksum and records nothing. */
  function ScanDbStepByKey(t: Tables, lib: HashLib, content: Bytes, path: string, algorithm: string): (r: Tables)
    requires Consistent(t)
    ensures Consistent(r)
  {
    match Checksum(lib, algorithm, content)
    case None => t
    case Some(c) => Upsert(t, path, algorithm, c)
  }

  /** The scan loop over the database with the keyed step. */
  function ScanDbRunByKey(t: Tables, lib: HashLib, fs: FileSystem, files: seq<string>, algorithm: string)
    : (r: Tables)
    requires Consistent(t) && Listed(fs, files)
    ensures Consistent(r)
    decreases |files|
  {
    if files == [] then t
    else ScanDbRunByKey(ScanDbStepByKey(t, lib, fs[files[0]], files[0], algorithm), lib, fs, files[1..], algorithm)
  }

  /** One keyed step with a supported algorithm records the fresh checksum. */
  lemma ScanDbStepByKeyRecords(t: Tables, lib: HashLib, content: Bytes, path: string, algorithm: string)
    requires Consistent(t) && Supported(algorithm)
    ensures KeyedChecksum(ScanDbStepByKey(t, lib, content, path, algorithm), path, algorithm)
            == Checksum(lib, algorithm, content)
  {
    UpsertThenLookup(t, path, algorithm, Checksum(lib, algorithm, content).value);
  }

  /** One keyed step leaves the record of every other key alone. */
  lemma ScanDbStepByKeyKeepsOthers(t: Tables, lib: HashLib, content: Bytes, path: string, algorithm: string,
                                   q: string, a: string)
    requires Consistent(t) && (q != path || a != algorithm)
    ensures KeyedChecksum(ScanDbStepByKey(t, lib, content, path, algorithm), q, a) == KeyedChecksum(t, q, a)
  {
    if Checksum(lib, algorithm, content).Some? {
      UpsertKeepsOtherKeys(t, path, algorithm, Checksum(lib, algorithm, content).value, q, a);
    }
  }

  /** The keyed scan leaves the record of a (path, algorithm) with an
      unlisted path or another algorithm alone. */
  lemma {:induction false} ScanDbRunByKeyFrameAt(t: Tables, lib: HashLib, fs: FileSystem, files: seq<string>,
                                                 algorithm: string, q: string, a: string)
    requires Consistent(t) && Listed(fs, files) && Supported(algorithm)
    requires q !in files || a != algorithm
    ensures KeyedChecksum(ScanDbRunByKey(t, lib, fs, files, algorithm), q, a) == KeyedChecksum(t, q, a)
    decreases |files|
  {
    if files != [] {
      var f := files[0];
      var next := ScanDbStepByKey(t, lib, fs[f], f, algorithm);
      ScanDbStepByKeyKeepsOthers(t, lib, fs[f], f, algorithm, q, a);
      assert q !in files[1..] || a != algorithm;
      ScanDbRunByKeyFrameAt(next, lib, fs, files[1..], algorithm, q, a);
    }
  }

  /** For any consistent tables, the keyed scan leaves the record of every
      (path, algorithm) with an unlisted path or another algorithm alone. */
  lemma ScanDbRunByKeyFrame(t: Tables, lib: HashLib, fs: FileSystem, files: seq<string>, algorithm: string)
    requires Consistent(t) && Listed(fs, files) && Supported(algorithm)
    ensures var r := ScanDbRunByKey(t, lib, fs, files, algorithm);
            forall q, a :: q !in files || a != algorithm ==> KeyedChecksum(r, q, a) == KeyedChecksum(t, q, a)
  {
    forall q, a | q !in files || a != algorithm
      ensures KeyedChecksum(ScanDbRunByKey(t, lib, fs, files, algorithm), q, a) == KeyedChecksum(t, q, a)
    {
      ScanDbRunByKeyFrameAt(t, lib, fs, files, algorithm, q, a);
    }
  }

  /** The keyed scan records the fresh checksum of the first listed file:
      a later listing of the same path records the same checksum again, and
      otherwise no later file touches its record. */
  lemma {:induction false} ScanDbRunByKeyRecordsFirst(t: Tables, lib: HashLib, fs: FileSystem,
                                                      files: seq<string>, algorithm: string)
    requires Consistent(t) && Listed(fs, files) && Supported(algorithm) && files != []
    ensures KeyedChecksum(ScanDbRunByKey(t, lib, fs, files, algorithm), files[0], algorithm)
            == Checksum(lib, algorithm, fs[files[0]])
    decreases |files|, 1
  {
    if j :| 0 < j < |files| && files[j] == files[0] {
      ScanDbRunByKeyRecordsLater(t, lib, fs, files, algorithm, j);
    } else {
      ScanDbRunByKeyRecordsOnce(t, lib, fs, files, algorithm);
    }
  }

  /** The same when the first listed file is not listed again. */
  lemma ScanDbRunByKeyRecordsOnce(t: Tables, lib: HashLib, fs: FileSystem, files: seq<string>, algorithm: string)
    requires Consistent(t) && Listed(fs, files) && Supported(algorithm)
    requires files != [] && forall j :: 0 < j < |files| ==> files[j] != files[0]
    ensures KeyedChecksum(ScanDbRunByKey(t, lib, fs, files, algorithm), files[0], algorithm)
            == Checksum(lib, algorithm, fs[files[0]])
  {
    var f := files[0];
    var next := ScanDbStepByKey(t, lib, fs[f], f, algorithm);
    ScanDbStepByKeyRecords(t, lib, fs[f], f, algorithm);
    ScanDbRunByKeyFrameAt(next, lib, fs, files[1..], algorithm, f, algorithm);
  }

  /** The keyed scan records the fresh checksum of listed file k after the
      first: it is the first file of the scan that follows the first step. */
  lemma {:induction false} ScanDbRunByKeyRecordsLater(t: Tables, lib: HashLib, fs: FileSystem, files: seq<string>,
                                                      algorithm: string, k: nat)
    requires Consistent(t) && Listed(fs, files) && Supported(algorithm) && 0 < k < |files|
    ensures KeyedChecksum(ScanDbRunByKey(t, lib, fs, files, algorithm), files[k], algorithm)
            == Checksum(lib, algorithm, fs[files[k]])
    decreases |files|, 0
  {
    var next := ScanDbStepByKey(t, lib, fs[files[0]], files[0], algorithm);
    assert files[1..][k - 1] == files[k];
    if k > 1 {
      ScanDbRunByKeyRecordsLater(next, lib, fs, files[1..], algorithm, k - 1);
    } else {
      ScanDbRunByKeyRecordsFirst(next, lib, fs, files[1..], algorithm);
    }
  }

  /** For any consistent tables, the keyed scan with a supported algorithm
      records the fresh checksum of every listed file under that algorithm. */
  lemma ScanDbRunByKeyRecords(t: Tables, lib: HashLib, fs: FileSystem, files: seq<string>, algorithm: string)
    requires Consistent(t) && Listed(fs, files) && Supported(algorithm)
    ensures var r := ScanDbRunByKey(t, lib, fs, files, algorithm);
            forall i :: 0 <= i < |files| ==>
              KeyedChecksum(r, files[i], algorithm) == Checksum(lib, algorithm, fs[files[i]])
  {
    forall i | 0 <= i < |files|
      ensures KeyedChecksum(ScanDbRunByKey(t, lib, fs, files, algorithm), files[i], algorithm)
              == Checksum(lib, algorithm, fs[files[i]])
    {
      if i == 0 {
        ScanDbRunByKeyRecordsFirst(t, lib, fs, files, algorithm);
      } else {
        ScanDbRunByKeyRecordsLater(t, lib, fs, files, algorithm, i);
      }
    }
  }

  /** check_file_against_db with the keyed lookup. */
  function CheckAgainstDbByKey(t: Tables, lib: HashLib, content: Bytes, path: string, algorithm: string)
    : (r: Result<Option<bool>>)
    requires Consistent(t)
    ensures r.Ok?
    ensures r.value.None? <==> KeyedChecksum(t, path, algorithm).None?
    ensures r.value == Some(true) <==> KeyedChecksum(t, path, algorithm) == Checksum(lib, algorithm, content) &&
                                       KeyedChecksum(t, path, algorithm).Some?
  {
    Ok(Compare(KeyedChecksum(t, path, algorithm), Checksum(lib, algorithm, content)))
  }

  /** The keyed verdicts of every listed file, in list order. */
  function VerdictsByKey(t: Tables, lib: HashLib, fs: FileSystem, files: seq<string>, algorithm: string)
    : (vs: seq<Result<Option<bool>>>)
    requires Consistent(t) && Listed(fs, files)
    ensures |vs| == |files|
    ensures forall i :: 0 <= i < |files| ==> vs[i] == CheckAgainstDbByKey(t, lib, fs[files[i]], files[i], algorithm)
  {
    seq(|files|, i requires 0 <= i < |files| => CheckAgainstDbByKey(t, lib, fs[files[i]], files[i], algorithm))
  }

  /** With keyed queries, scanning and then checking the same unchanged files
      with the same supported algorithm passes every file, whatever the
      tables held before. */
  lemma ScanThenCheckDbByKeyPasses(t: Tables, lib: HashLib, fs: FileSystem, files: seq<string>, algorithm: string)
    requires Consistent(t) && Listed(fs, files) && Supported(algorithm)
    ensures var r := ScanDbRunByKey(t, lib, fs, files, algorithm);
            TallyFrom(Tally(0, 0, 0), VerdictsByKey(r, lib, fs, files, algorithm)) == Ok(Tally(|files|, 0, |files|))
  {
    ScanDbRunByKeyRecords(t, lib, fs, files, algorithm);
    var r := ScanDbRunByKey(t, lib, fs, files, algorithm);
    AllGoodIffAllPass(VerdictsByKey(r, lib, fs, files, algorithm));
  }

  // ---------------------------------------------------------------------------
  // Scan then check, against the CSV ledger.

  /** Every checksum cell of the ledger is non-empty. */
  predicate FilledCells(rows: seq<Row>) {
    forall j :: 0 <= j < |rows| ==> rows[j].checksum != ""
  }

  /** Distinct listed files stay distinct after str.strip(). */
  predicate StripDistinct(files: seq<string>) {
    forall i, j :: 0 <= i < |files| && 0 <= j < |files| && Strip(files[i]) == Strip(files[j]) ==> files[i] == files[j]
  }

  /** The name does not strip to the stripped name of any listed file. */
  predicate StripsApart(name: string, files: seq<string>) {
    forall i :: 0 <= i < |files| ==> Strip(name) != Strip(files[i])
  }

  /** Dropping the first file keeps the rest distinct after stripping. */
  lemma StripDistinctTail(files: seq<string>)
    requires files != [] && StripDistinct(files)
    ensures StripDistinct(files[1..])
  {
    forall i, j | 0 <= i < |files[1..]| && 0 <= j < |files[1..]| && Strip(files[1..][i]) == Strip(files[1..][j])
      ensures files[1..][i] == files[1..][j]
    {
      assert files[1..][i] == files[i + 1] && files[1..][j] == files[j + 1];
    }
  }

  /** A name apart from all the files is apart from the first and from the rest. */
  lemma StripsApartTail(name: string, files: seq<string>)
    requires files != [] && StripsApart(name, files)
    ensures Strip(name) != Strip(files[0]) && StripsApart(name, files[1..])
  {
    forall j | 0 <= j < |files[1..]| ensures Strip(name) != Strip(files[1..][j]) {
      assert files[1..][j] == files[j + 1];
    }
  }

  /** Among files distinct after stripping, a first file that does not
      occur again is apart from the rest. */
  lemma FirstStripsApart(files: seq<string>)
    requires files != [] && StripDistinct(files) && files[0] !in files[1..]
    ensures StripsApart(files[0], files[1..])
  {
    forall j | 0 <= j < |files[1..]| ensures Strip(files[0]) != Strip(files[1..][j]) {
      assert files[1..][j] == files[j + 1];
    }
  }

  /** With no empty checksum cell, the CSV branch of scan with a truthy fresh
      checksum records it for the path and keeps the cells non-empty. */
  lemma ScanCsvStepRecords(l: Ledger, lib: HashLib, content: Bytes, path: string, algorithm: string)
    requires WellFormed(l) && FilledCells(l.rows) && Truthy(Checksum(lib, algorithm, content))
    ensures var r := ScanCsvStep(l, lib, content, path, algorithm);
            FilledCells(r.rows) && StoredChecksum(r.rows, path, algorithm) == Checksum(lib, algorithm, content)
  {
    var c := Checksum(lib, algorithm, content).value;
    if l.isFile && Truthy(StoredChecksum(l.rows, path, algorithm)) {
      UpdateThenLookup(l.rows, path, c, algorithm);
    } else {
      assert StoredChecksum(l.rows, path, algorithm).None?;
      StoreThenLookup(l.rows, path, c, algorithm);
    }
  }

  /** The CSV branch of scan leaves the lookup of a name that strips apart
      from the path alone. */
  lemma ScanCsvStepKeepsOthers(l: Ledger, lib: HashLib, content: Bytes, path: string, algorithm: string,
                               q: string)
    requires WellFormed(l) && Strip(q) != Strip(path)
    ensures StoredChecksum(ScanCsvStep(l, lib, content, path, algorithm).rows, q, algorithm)
            == StoredChecksum(l.rows, q, algorithm)
  {
    var cell := CellText(Checksum(lib, algorithm, content));
    if l.isFile && Truthy(StoredChecksum(l.rows, path, algorithm)) {
      UpdateKeepsOtherKeys(l.rows, path, cell, algorithm, q, algorithm);
    } else {
      StoreKeepsOtherKeys(l.rows, path, cell, algorithm, q, algorithm);
    }
  }

  /** A CSV scan with a supported algorithm, from a ledger with no empty
      checksum cell, keeps the cells non-empty and leaves the lookup of
      every name that strips apart from all the listed files alone. */
  lemma {:induction false} ScanCsvRunFrame(s: Stores, lib: HashLib, fs: FileSystem, files: seq<string>,
                                           algorithm: string)
    requires Sound(s) && Listed(fs, files) && HexDigests(lib) && Supported(algorithm)
    requires FilledCells(s.ledger.rows)
    ensures var l := ScanRun(UseCsv, s, lib, fs, files, algorithm).stores.ledger;
            && (files != [] ==> l.isFile) && FilledCells(l.rows)
            && (forall q :: StripsApart(q, files) ==>
                  StoredChecksum(l.rows, q, algorithm) == StoredChecksum(s.ledger.rows, q, algorithm))
    decreases |files|
  {
    if files != [] {
      var f := files[0];
      SupportedChecksumIsTruthy(lib, algorithm, fs[f]);
      ScanCsvStepRecords(s.ledger, lib, fs[f], f, algorithm);
      var next := ScanNext(UseCsv, s, lib, fs[f], f, algorithm);
      assert next.outcome == Done && next.stores.ledger == ScanCsvStep(s.ledger, lib, fs[f], f, algorithm);
      ScanCsvRunFrame(next.stores, lib, fs, files[1..], algorithm);
      var l := ScanRun(UseCsv, s, lib, fs, files, algorithm).stores.ledger;
      assert l == ScanRun(UseCsv, next.stores, lib, fs, files[1..], algorithm).stores.ledger;
      forall q | StripsApart(q, files)
        ensures StoredChecksum(l.rows, q, algorithm) == StoredChecksum(s.ledger.rows, q, algorithm)
      {
        StripsApartTail(q, files);
        ScanCsvStepKeepsOthers(s.ledger, lib, fs[f], f, algorithm, q);
      }
    }
  }

  /** A CSV scan with a supported algorithm of files that stay distinct after
      stripping, from a ledger with no empty checksum cell, records the fresh
      checksum of every listed file. */
  lemma {:induction false} ScanCsvRunRecords(s: Stores, lib: HashLib, fs: FileSystem, files: seq<string>,
                                             algorithm: string)
    requires Sound(s) && Listed(fs, files) && HexDigests(lib) && Supported(algorithm)
    requires FilledCells(s.ledger.rows) && StripDistinct(files)
    ensures var l := ScanRun(UseCsv, s, lib, fs, files, algorithm).stores.ledger;
            forall i :: 0 <= i < |files| ==>
              StoredChecksum(l.rows, files[i], algorithm) == Checksum(lib, algorithm, fs[files[i]])
    decreases |files|
  {
    if files != [] {
      var f := files[0];
      SupportedChecksumIsTruthy(lib, algorithm, fs[f]);
      ScanCsvStepRecords(s.ledger, lib, fs[f], f, algorithm);
      var next := ScanNext(UseCsv, s, lib, fs[f], f, algorithm);
      assert next.outcome == Done && next.stores.ledger == ScanCsvStep(s.ledger, lib, fs[f], f, algorithm);
      StripDistinctTail(files);
      ScanCsvRunRecords(next.stores, lib, fs, files[1..], algorithm);
      var l := ScanRun(UseCsv, s, lib, fs, files, algorithm).stores.ledger;
      assert l == ScanRun(UseCsv, next.stores, lib, fs, files[1..], algorithm).stores.ledger;
      if f in files[1..] {
        var j :| 0 <= j < |files[1..]| && files[1..][j] == f;
        assert StoredChecksum(l.rows, files[1..][j], algorithm) == Checksum(lib, algorithm, fs[files[1..][j]]);
      } else {
        FirstStripsApart(files);
        ScanCsvRunFrame(next.stores, lib, fs, files[1..], algorithm);
      }
      forall i | 0 < i < |files|
        ensures StoredChecksum(l.rows, files[i], algorithm) == Checksum(lib, algorithm, fs[files[i]])
      {
        assert files[1..][i - 1] == files[i];
      }
    }
  }

  /** Scanning and then checking the same unchanged files with the same
      supported algorithm passes every file, against the CSV ledger as
      written whenever the files stay distinct after stripping and the
      ledger starts with no empty checksum cell. */
  lemma ScanThenCheckCsvPasses(s: Stores, lib: HashLib, fs: FileSystem, files: seq<string>, algorithm: string)
    requires Sound(s) && Listed(fs, files) && HexDigests(lib) && Supported(algorithm)
    requires FilledCells(s.ledger.rows) && StripDistinct(files)
    ensures var run := ScanRun(UseCsv, s, lib, fs, files, algorithm);
            run.outcome == Done &&
            CheckResult(UseCsv, run.stores, lib, fs, files, algorithm) == Ok(Tally(|files|, 0, |files|))
  {
    ScanCsvRunRecords(s, lib, fs, files, algorithm);
    var final := ScanRun(UseCsv, s, lib, fs, files, algorithm).stores;
    AllGoodIffAllPass(Verdicts(UseCsv, final, lib, fs, files, algorithm));
  }

  /** The CSV branch of scan as intended: the update rewrites only the rows
      whose key matches exactly, as the lookup does. */
  function ScanCsvStepExact(l: Ledger, lib: HashLib, content: Bytes, path: string, algorithm: string): (r: Ledger)
    requires WellFormed(l)
    ensures WellFormed(r) && r.isFile
  {
    var cell := CellText(Checksum(lib, algorithm, content));
    if l.isFile && Truthy(StoredChecksum(l.rows, path, algorithm)) then
      Ledger(true, FieldNames, RewriteExact(l.rows, path, algorithm, cell))
    else AfterStore(l, path, cell, algorithm)
  }

  /** The scan loop over the CSV ledger with the exact update. */
  function ScanCsvRunExact(l: Ledger, lib: HashLib, fs: FileSystem, files: seq<string>, algorithm: string)
    : (r: Ledger)
    requires WellFormed(l) && Listed(fs, files)
    ensures WellFormed(r) && (files != [] ==> r.isFile)
    decreases |files|
  {
    if files == [] then l
    else ScanCsvRunExact(ScanCsvStepExact(l, lib, fs[files[0]], files[0], algorithm), lib, fs, files[1..], algorithm)
  }

  /** The exact update records the fresh checksum for the path and leaves
      the lookup of every other name alone. */
  lemma ScanCsvStepExactRecords(l: Ledger, lib: HashLib, content: Bytes, path: string, algorithm: string)
    requires WellFormed(l) && FilledCells(l.rows) && Truthy(Checksum(lib, algorithm, content))
    ensures var r := ScanCsvStepExact(l, lib, content, path, algorithm);
            && FilledCells(r.rows)
            && StoredChecksum(r.rows, path, algorithm) == Checksum(lib, algorithm, content)
            && forall q :: q != path ==> StoredChecksum(r.rows, q, algorithm) == StoredChecksum(l.rows, q, algorithm)
  {
    var c := Checksum(lib, algorithm, content).value;
    var r := ScanCsvStepExact(l, lib, content, path, algorithm);
    if l.isFile && Truthy(StoredChecksum(l.rows, path, algorithm)) {
      RewriteExactThenLookup(l.rows, path, c, algorithm);
      forall q | q != path ensures StoredChecksum(r.rows, q, algorithm) == StoredChecksum(l.rows, q, algorithm) {
        RewriteExactKeepsOtherKeys(l.rows, path, c, algorithm, q, algorithm);
      }
    } else {
      assert StoredChecksum(l.rows, path, algorithm).None?;
      StoreThenLookup(l.rows, path, c, algorithm);
      forall q | q != path ensures StoredChecksum(r.rows, q, algorithm) == StoredChecksum(l.rows, q, algorithm) {
        StoreKeepsOtherKeys(l.rows, path, c, algorithm, q, algorithm);
      }
    }
  }

  /** The exact scan with a supported algorithm, from a ledger with no empty
      checksum cell, records the fresh checksum of every listed file, however
      the names compare after stripping, and leaves every other name alone. */
  lemma {:induction false} ScanCsvRunExactRecords(l: Ledger, lib: HashLib, fs: FileSystem, files: seq<string>,
                                                  algorithm: string)
    requires WellFormed(l) && Listed(fs, files) && HexDigests(lib) && Supported(algorithm) && FilledCells(l.rows)
    ensures var r := ScanCsvRunExact(l, lib, fs, files, algorithm);
            && FilledCells(r.rows)
            && (forall i :: 0 <= i < |files| ==>
                  StoredChecksum(r.rows, files[i], algorithm) == Checksum(lib, algorithm, fs[files[i]]))
            && (forall q :: q !in files ==> StoredChecksum(r.rows, q, algorithm) == StoredChecksum(l.rows, q, algorithm))
    decreases |files|
  {
    if files != [] {
      var f := files[0];
      SupportedChecksumIsTruthy(lib, algorithm, fs[f]);
      ScanCsvStepExactRecords(l, lib, fs[f], f, algorithm);
      var next := ScanCsvStepExact(l, lib, fs[f], f, algorithm);
      ScanCsvRunExactRecords(next, lib, fs, files[1..], algorithm);
      var r := ScanCsvRunExact(l, lib, fs, files, algorithm);
      if f in files[1..] {
        var j :| 0 <= j < |files[1..]| && files[1..][j] == f;
        assert StoredChecksum(r.rows, files[1..][j], algorithm) == Checksum(lib, algorithm, fs[files[1..][j]]);
      } else {
        assert StoredChecksum(r.rows, f, algorithm) == StoredChecksum(next.rows, f, algorithm);
      }
      forall i | 0 < i < |files|
        ensures StoredChecksum(r.rows, files[i], algorithm) == Checksum(lib, algorithm, fs[files[i]])
      {
        assert files[1..][i - 1] == files[i];
      }
      forall q | q !in files ensures StoredChecksum(r.rows, q, algorithm) == StoredChecksum(l.rows, q, algorithm) {
        assert q != f && q !in files[1..];
      }
    }
  }

  /** The exact verdicts of every listed file, in list order. */
  function VerdictsExact(l: Ledger, lib: HashLib, fs: FileSystem, files: seq<string>, algorithm: string)
    : (vs: seq<Result<Option<bool>>>)
    requires Listed(fs, files)
    ensures |vs| == |files|
    ensures forall i :: 0 <= i < |files| ==> vs[i] == CheckAgainst(l, lib, fs[files[i]], files[i], algorithm)
  {
    seq(|files|, i requires 0 <= i < |files| => CheckAgainst(l, lib, fs[files[i]], files[i], algorithm))
  }

  /** With the exact update, scanning and then checking the same unchanged
      files with the same supported algorithm passes every file, with no
      condition on how the names compare after stripping. */
  lemma ScanThenCheckCsvExactPasses(l: Ledger, lib: HashLib, fs: FileSystem, files: seq<string>, algorithm: string)
    requires WellFormed(l) && Listed(fs, files) && HexDigests(lib) && Supported(algorithm) && FilledCells(l.rows)
    ensures var r := ScanCsvRunExact(l, lib, fs, files, algorithm);
            TallyFrom(Tally(0, 0, 0), VerdictsExact(r, lib, fs, files, algorithm)) == Ok(Tally(|files|, 0, |files|))
  {
    ScanCsvRunExactRecords(l, lib, fs, files, algorithm);
    var r := ScanCsvRunExact(l, lib, fs, files, algorithm);
    AllGoodIffAllPass(VerdictsExact(r, lib, fs, files, algorithm));
  }
}
