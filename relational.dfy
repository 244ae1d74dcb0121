/** The relational ledger of checkr/models/database.py and of its older
    revision checkr/models.py: an `algorithms` table with a unique name and a
    `files` table with a unique index on (path, algorithm_id). Sessions,
    engines and timestamps are not part of the model; a commit that the
    database refuses is rolled back and leaves both tables as they were. */
module Relational {
  import opened Basics
  import opened Checksums

  /** A row of `algorithms`. */
  datatype AlgorithmRow = AlgorithmRow(id: nat, name: string)

  /** A row of `files`; created and updated timestamps are not modelled. */
  datatype FileRow = FileRow(id: nat, path: string, algorithmId: nat, checksum: string)

  /** The contents of both tables. */
  datatype Tables = Tables(algorithms: seq<AlgorithmRow>, files: seq<FileRow>)

  /** A row of File.get_result: the file's columns with the joined algorithm name. */
  datatype ResultRow = ResultRow(id: nat, path: string, algorithmName: string, checksum: string)

  /** The algorithm the module-level functions use when none is given. */
  const DefaultAlgorithm: string := "blake2b"

  predicate UniqueNames(algs: seq<AlgorithmRow>) {
    forall i, j :: 0 <= i < j < |algs| ==> algs[i].name != algs[j].name
  }

  predicate UniqueKeys(files: seq<FileRow>) {
    forall i, j :: 0 <= i < j < |files| ==>
      files[i].path != files[j].path || files[i].algorithmId != files[j].algorithmId
  }

  /** What the schema guarantees of every state: ids are allocated in order
      (SQLite's rule for a table without deletions), `algorithms.name` is
      unique, the index on (path, algorithm_id) is unique, and every file row
      refers to an algorithm row. */
  predicate Consistent(t: Tables) {
    (forall i :: 0 <= i < |t.algorithms| ==> t.algorithms[i].id == i + 1) &&
    (forall i :: 0 <= i < |t.files| ==> t.files[i].id == i + 1) &&
    UniqueNames(t.algorithms) &&
    UniqueKeys(t.files) &&
    (forall i :: 0 <= i < |t.files| ==> 1 <= t.files[i].algorithmId <= |t.algorithms|)
  }

  /** The name of the algorithm a file row refers to. */
  function AlgorithmNameOf(t: Tables, row: FileRow): string
    requires 1 <= row.algorithmId <= |t.algorithms|
  {
    t.algorithms[row.algorithmId - 1].name
  }

  predicate NameTaken(algs: seq<AlgorithmRow>, name: string) {
    exists i :: 0 <= i < |algs| && algs[i].name == name
  }

  predicate KeyTaken(files: seq<FileRow>, path: string, algorithmId: nat) {
    exists i :: 0 <= i < |files| && files[i].path == path && files[i].algorithmId == algorithmId
  }

  // ---------------------------------------------------------------------------
  // Inserts: BaseMixin.create

  /** BaseMixin.create for an Algorithm: commit the new row, or roll back when
      the name is already taken. */
  function InsertAlgorithm(t: Tables, name: string): (r: Tables)
    ensures r.files == t.files && NameTaken(r.algorithms, name)
    ensures r == t <==> NameTaken(t.algorithms, name)
    ensures |t.algorithms| <= |r.algorithms| <= |t.algorithms| + 1 && r.algorithms[..|t.algorithms|] == t.algorithms
  {
    if NameTaken(t.algorithms, name) then t
    else
      var r := Tables(t.algorithms + [AlgorithmRow(|t.algorithms| + 1, name)], t.files);
      assert r.algorithms[|t.algorithms|].name == name;
      r
  }

  /** BaseMixin.create for a File: commit the new row, or roll back when the
      checksum is None (a NOT NULL column) or the key is already taken. */
  function InsertFile(t: Tables, path: string, algorithmId: nat, checksum: Option<string>): (r: Tables)
    ensures r.algorithms == t.algorithms
    ensures r == t <==> checksum.None? || KeyTaken(t.files, path, algorithmId)
    ensures r != t ==> KeyTaken(r.files, path, algorithmId) && |r.files| == |t.files| + 1 &&
                       r.files[..|t.files|] == t.files && r.files[|t.files|].checksum == checksum.value
  {
    if checksum.None? || KeyTaken(t.files, path, algorithmId) then t
    else
      var r := Tables(t.algorithms, t.files + [FileRow(|t.files| + 1, path, algorithmId, checksum.value)]);
      assert r.files[|t.files|].path == path && r.files[|t.files|].algorithmId == algorithmId;
      r
  }

  lemma InsertAlgorithmKeepsConsistent(t: Tables, name: string)
    requires Consistent(t)
    ensures Consistent(InsertAlgorithm(t, name))
  {
  }

  lemma InsertFileKeepsConsistent(t: Tables, path: string, algorithmId: nat, checksum: Option<string>)
    requires Consistent(t) && 1 <= algorithmId <= |t.algorithms|
    ensures Consistent(InsertFile(t, path, algorithmId, checksum))
  {
  }

  // ---------------------------------------------------------------------------
  // Algorithm.get_by_name

  function NameIndex(algs: seq<AlgorithmRow>, name: string): (r: Option<nat>)
    ensures r.Some? ==> r.value < |algs| && algs[r.value].name == name
    ensures r.None? ==> !NameTaken(algs, name)
  {
    if algs == [] then None
    else if algs[0].name == name then Some(0)
    else match NameIndex(algs[1..], name)
      case None => None
      case Some(k) => Some(k + 1)
  }

  /** Algorithm.get_by_name: the row with that name, if any. Because the name
      is unique, scalar_one_or_none never finds two. */
  function GetByName(algs: seq<AlgorithmRow>, name: string): (r: Option<AlgorithmRow>)
    requires UniqueNames(algs)
    ensures r.None? <==> !NameTaken(algs, name)
    ensures r.Some? ==> r.value.name == name
    ensures r.Some? ==> forall i :: 0 <= i < |algs| && algs[i].name == name ==> algs[i] == r.value
  {
    match NameIndex(algs, name)
    case None => None
    case Some(k) => Some(algs[k])
  }

  /** In a consistent state the row found by name is the one at position id - 1. */
  lemma GetByNameLocates(t: Tables, name: string)
    requires Consistent(t) && NameTaken(t.algorithms, name)
    ensures GetByName(t.algorithms, name).Some?
    ensures var a := GetByName(t.algorithms, name).value;
            1 <= a.id <= |t.algorithms| && t.algorithms[a.id - 1] == a
  {
    var k := NameIndex(t.algorithms, name).value;
    assert t.algorithms[k].id == k + 1;
  }

  // ---------------------------------------------------------------------------
  // File.create

  /** The id of the algorithm row File.create refers to: that of the row
      with the name, or the id the row it creates is given. */
  function AlgorithmIdFor(t: Tables, name: string): (id: nat)
    requires Consistent(t)
    ensures 1 <= id <= |InsertAlgorithm(t, name).algorithms|
    ensures InsertAlgorithm(t, name).algorithms[id - 1].name == name
    ensures id <= |t.algorithms| <==> NameTaken(t.algorithms, name)
  {
    match NameIndex(t.algorithms, name)
    case Some(k) => k + 1
    case None => |t.algorithms| + 1
  }

  /** After the algorithm insert File.create starts with, the lookup by name
      finds the row whose id the file row refers to. */
  lemma LookupAfterInsertAlgorithm(t: Tables, name: string)
    requires Consistent(t)
    ensures var t1 := InsertAlgorithm(t, name);
            Consistent(t1) && GetByName(t1.algorithms, name).Some? &&
            GetByName(t1.algorithms, name).value.id == AlgorithmIdFor(t, name)
  {
    var t1 := InsertAlgorithm(t, name);
    InsertAlgorithmKeepsConsistent(t, name);
    GetByNameLocates(t1, name);
    NameHeldOnce(t1, name, GetByName(t1.algorithms, name).value.id - 1, AlgorithmIdFor(t, name) - 1);
  }

  /** File.create: look the algorithm up by name, create it if it is missing
      and look it up again, then insert the file row that refers to it. */
  function CreateFile(t: Tables, algorithmName: string, path: string, checksum: Option<string>): (r: Tables)
    requires Consistent(t)
    ensures Consistent(r)
    ensures NameTaken(r.algorithms, algorithmName)
  {
    var withAlgorithm := InsertAlgorithm(t, algorithmName);
    InsertAlgorithmKeepsConsistent(t, algorithmName);
    InsertFileKeepsConsistent(withAlgorithm, path, AlgorithmIdFor(t, algorithmName), checksum);
    InsertFile(withAlgorithm, path, AlgorithmIdFor(t, algorithmName), checksum)
  }

  /** File.create adds the algorithm row only when the name is absent, keeps
      every earlier row, and adds at most one file row, for its own key. */
  lemma CreateFileExtends(t: Tables, algorithmName: string, path: string, checksum: Option<string>)
    requires Consistent(t)
    ensures var r := CreateFile(t, algorithmName, path, checksum);
            && r.algorithms == InsertAlgorithm(t, algorithmName).algorithms
            && |t.algorithms| <= |r.algorithms| && r.algorithms[..|t.algorithms|] == t.algorithms
            && |t.files| <= |r.files| <= |t.files| + 1 && r.files[..|t.files|] == t.files
            && (|r.files| > |t.files| ==>
                  r.files[|t.files|].path == path && r.files[|t.files|].algorithmId == AlgorithmIdFor(t, algorithmName) &&
                  AlgorithmNameOf(r, r.files[|t.files|]) == algorithmName)
  {
    var r := CreateFile(t, algorithmName, path, checksum);
    var id := AlgorithmIdFor(t, algorithmName);
    if |r.files| > |t.files| {
      assert r.files[|t.files|] == FileRow(|t.files| + 1, path, id, checksum.value);
    }
  }

  /** File.create on a free key with a checksum appends exactly that row. */
  lemma CreateFileOnFreeKey(t: Tables, algorithmName: string, path: string, checksum: string)
    requires Consistent(t) && !KeyTaken(t.files, path, AlgorithmIdFor(t, algorithmName))
    ensures |CreateFile(t, algorithmName, path, Some(checksum)).files| == |t.files| + 1
  {
  }

  // ---------------------------------------------------------------------------
  // Queries as written: the filter `cls.path == path and cls.algorithm == algorithm`
  // is a Python `and` whose left operand is falsy, so only `cls.path == path`
  // reaches the query.

  /** The positions of the file rows with the given path, in table order. */
  function PathIndices(files: seq<FileRow>, path: string): (r: seq<nat>)
    ensures forall k :: 0 <= k < |r| ==> r[k] < |files| && files[r[k]].path == path
    ensures forall i :: 0 <= i < |files| && files[i].path == path ==> i in r
    ensures forall a, b :: 0 <= a < b < |r| ==> r[a] < r[b]
  {
    if files == [] then []
    else
      var n := |files| - 1;
      PathIndices(files[..n], path) + (if files[n].path == path then [n] else [])
  }

  /** Two or more positions hold the path exactly when two rows share it. */
  lemma PathIndicesSeveral(files: seq<FileRow>, path: string)
    ensures |PathIndices(files, path)| >= 2 <==>
            exists i, j :: 0 <= i < j < |files| && files[i].path == path && files[j].path == path
  {
    var ix := PathIndices(files, path);
    if |ix| >= 2 {
      assert ix[0] < ix[1] && files[ix[0]].path == path && files[ix[1]].path == path;
    }
  }

  /** File.get_checksum as written: the checksum of the only row with that
      path, None when there is none, MultipleResultsFound when there are
      several; the algorithm name plays no part. */
  function GetChecksum(t: Tables, path: string, algorithmName: string): Result<Option<string>> {
    var ix := PathIndices(t.files, path);
    if |ix| == 0 then Ok(None)
    else if |ix| == 1 then Ok(Some(t.files[ix[0]].checksum))
    else Err(MultipleResultsFound)
  }

  /** What get_checksum as written returns, in terms of the rows with the path. */
  lemma GetChecksumMeaning(t: Tables, path: string, algorithmName: string)
    ensures var r := GetChecksum(t, path, algorithmName);
            && (r == Ok(None) <==> forall i :: 0 <= i < |t.files| ==> t.files[i].path != path)
            && (r.Err? <==> exists i, j :: 0 <= i < j < |t.files| && t.files[i].path == path && t.files[j].path == path)
            && (r.Err? ==> r.failure == MultipleResultsFound)
            && (r.Ok? && r.value.Some? ==>
                  exists i :: 0 <= i < |t.files| && t.files[i].path == path && t.files[i].checksum == r.value.value)
  {
    PathIndicesSeveral(t.files, path);
  }

  /** When the path has exactly one row, get_checksum as written returns its checksum. */
  lemma GetChecksumOfOnlyRow(t: Tables, path: string, algorithmName: string, i: nat)
    requires i < |t.files| && t.files[i].path == path
    requires forall j :: 0 <= j < |t.files| && j != i ==> t.files[j].path != path
    ensures GetChecksum(t, path, algorithmName) == Ok(Some(t.files[i].checksum))
  {
    PathIndicesSeveral(t.files, path);
    assert !exists a, b :: 0 <= a < b < |t.files| && t.files[a].path == path && t.files[b].path == path;
    assert i in PathIndices(t.files, path);
  }

  /** No two file rows share a path: the states in which the path-only
      queries find the one record of a file. */
  predicate OneRowPerPath(files: seq<FileRow>) {
    forall i, j :: 0 <= i < j < |files| ==> files[i].path != files[j].path
  }

  /** Every stored checksum is non-empty, so truthy. */
  predicate FilledChecksums(files: seq<FileRow>) {
    forall i :: 0 <= i < |files| ==> files[i].checksum != ""
  }

  /** Tables whose rows have the same paths, position by position, have the
      same positions for every path. */
  lemma {:induction false} PathIndicesOfSamePaths(a: seq<FileRow>, b: seq<FileRow>, path: string)
    requires |a| == |b| && forall i :: 0 <= i < |a| ==> a[i].path == b[i].path
    ensures PathIndices(a, path) == PathIndices(b, path)
  {
    if a != [] {
      var n := |a| - 1;
      PathIndicesOfSamePaths(a[..n], b[..n], path);
    }
  }

  /** With one row per path, get_checksum as written finds the row of the path, if any. */
  lemma GetChecksumOfOneRowPerPath(t: Tables, path: string, algorithmName: string)
    requires OneRowPerPath(t.files)
    ensures GetChecksum(t, path, algorithmName).Ok?
    ensures GetChecksum(t, path, algorithmName).value.None? <==>
            forall i :: 0 <= i < |t.files| ==> t.files[i].path != path
    ensures forall i :: 0 <= i < |t.files| && t.files[i].path == path ==>
              GetChecksum(t, path, algorithmName) == Ok(Some(t.files[i].checksum))
  {
    GetChecksumMeaning(t, path, algorithmName);
    forall i | 0 <= i < |t.files| && t.files[i].path == path
      ensures GetChecksum(t, path, algorithmName) == Ok(Some(t.files[i].checksum))
    {
      GetChecksumOfOnlyRow(t, path, algorithmName, i);
    }
  }

  /** The rows an UPDATE ... WHERE selects: the path, and the algorithm id
      when the filter names one. */
  predicate Selected(row: FileRow, path: string, algorithmId: Option<nat>) {
    row.path == path && (algorithmId.None? || row.algorithmId == algorithmId.value)
  }

  /** The rows of `files` after setting `checksum` on every selected row. */
  function SetChecksumWhere(files: seq<FileRow>, path: string, algorithmId: Option<nat>, checksum: string): (r: seq<FileRow>)
    ensures |r| == |files|
    ensures forall i :: 0 <= i < |files| ==>
              r[i] == if Selected(files[i], path, algorithmId) then files[i].(checksum := checksum) else files[i]
  {
    if files == [] then []
    else
      var n := |files| - 1;
      SetChecksumWhere(files[..n], path, algorithmId, checksum) +
        [if Selected(files[n], path, algorithmId) then files[n].(checksum := checksum) else files[n]]
  }

  /** File.update_checksum as written: one UPDATE of the checksum of every row
      with that path; setting None on a matched row violates NOT NULL, which is
      raised by the execute before the guarded commit. */
  function UpdateChecksum(t: Tables, path: string, algorithmName: string, checksum: Option<string>): (r: Result<Tables>)
    ensures r.Err? <==> checksum.None? && exists i :: 0 <= i < |t.files| && t.files[i].path == path
    ensures r.Err? ==> r.failure == NotNullViolation
    ensures r.Ok? ==> r.value.algorithms == t.algorithms && |r.value.files| == |t.files|
    ensures r.Ok? ==> forall i :: 0 <= i < |t.files| ==>
              var (before, after) := (t.files[i], r.value.files[i]);
              after.id == before.id && after.path == before.path && after.algorithmId == before.algorithmId &&
              after.checksum == if before.path == path then checksum.value else before.checksum
  {
    if checksum.None? then
      if exists i :: 0 <= i < |t.files| && t.files[i].path == path then Err(NotNullViolation) else Ok(t)
    else Ok(Tables(t.algorithms, SetChecksumWhere(t.files, path, None, checksum.value)))
  }

  lemma UpdateChecksumKeepsConsistent(t: Tables, path: string, algorithmName: string, checksum: Option<string>)
    requires Consistent(t) && UpdateChecksum(t, path, algorithmName, checksum).Ok?
    ensures Consistent(UpdateChecksum(t, path, algorithmName, checksum).value)
  {
    var r := UpdateChecksum(t, path, algorithmName, checksum).value;
    assert forall i :: 0 <= i < |t.files| ==> r.files[i].path == t.files[i].path && r.files[i].algorithmId == t.files[i].algorithmId;
  }
  /** The update as written with a checksum leaves get_checksum of every other path as it was. */
  lemma UpdateChecksumKeepsOtherPaths(t: Tables, path: string, algorithmName: string, checksum: string,
                                      otherPath: string)
    requires otherPath != path
    ensures UpdateChecksum(t, path, algorithmName, Some(checksum)).Ok?
    ensures GetChecksum(UpdateChecksum(t, path, algorithmName, Some(checksum)).value, otherPath, algorithmName)
            == GetChecksum(t, otherPath, algorithmName)
  {
    var r := UpdateChecksum(t, path, algorithmName, Some(checksum)).value;
    PathIndicesOfSamePaths(r.files, t.files, otherPath);
  }

  /** The update as written keeps one row per path and finds the new checksum for the path. */
  lemma UpdateChecksumThenLookup(t: Tables, path: string, algorithmName: string, checksum: string, i: nat)
    requires OneRowPerPath(t.files) && i < |t.files| && t.files[i].path == path
    ensures UpdateChecksum(t, path, algorithmName, Some(checksum)).Ok?
    ensures var r := UpdateChecksum(t, path, algorithmName, Some(checksum)).value;
            OneRowPerPath(r.files) && GetChecksum(r, path, algorithmName) == Ok(Some(checksum))
  {
    var r := UpdateChecksum(t, path, algorithmName, Some(checksum)).value;
    assert r.files[i].path == path;
    GetChecksumOfOneRowPerPath(r, path, algorithmName);
  }

  /** Neither the update as written nor File.create with a non-empty checksum
      brings in an empty checksum. */
  lemma WritesKeepChecksumsFilled(t: Tables, path: string, algorithmName: string, checksum: string)
    requires Consistent(t) && FilledChecksums(t.files) && checksum != ""
    ensures UpdateChecksum(t, path, algorithmName, Some(checksum)).Ok?
    ensures FilledChecksums(UpdateChecksum(t, path, algorithmName, Some(checksum)).value.files)
    ensures FilledChecksums(CreateFile(t, algorithmName, path, Some(checksum)).files)
  {
    var r := CreateFile(t, algorithmName, path, Some(checksum));
    CreateFileExtends(t, algorithmName, path, Some(checksum));
    forall i | 0 <= i < |r.files| ensures r.files[i].checksum != "" {
      if i < |t.files| {
        assert r.files[i] == r.files[..|t.files|][i];
      }
    }
  }

  /** File.create leaves get_checksum as written of every other path as it was. */
  lemma CreateFileKeepsOtherPaths(t: Tables, algorithmName: string, path: string, checksum: Option<string>,
                                  otherPath: string)
    requires Consistent(t) && otherPath != path
    ensures GetChecksum(CreateFile(t, algorithmName, path, checksum), otherPath, algorithmName)
            == GetChecksum(t, otherPath, algorithmName)
  {
    var r := CreateFile(t, algorithmName, path, checksum);
    CreateFileExtends(t, algorithmName, path, checksum);
    if |r.files| > |t.files| {
      assert r.files[..|t.files|] == t.files;
      assert PathIndices(r.files, otherPath) == PathIndices(t.files, otherPath);
      var ix := PathIndices(t.files, otherPath);
      if |ix| == 1 {
        assert r.files[ix[0]] == t.files[ix[0]];
      }
    }
  }

  /** File.create of a path without rows adds its one row and keeps one row per path. */
  lemma CreateFileThenLookup(t: Tables, algorithmName: string, path: string, checksum: string)
    requires Consistent(t) && OneRowPerPath(t.files)
    requires forall i :: 0 <= i < |t.files| ==> t.files[i].path != path
    ensures var r := CreateFile(t, algorithmName, path, Some(checksum));
            && r.files == t.files + [r.files[|t.files|]] && r.files[|t.files|].checksum == checksum
            && OneRowPerPath(r.files) && GetChecksum(r, path, algorithmName) == Ok(Some(checksum))
  {
    var r := CreateFile(t, algorithmName, path, Some(checksum));
    assert !KeyTaken(t.files, path, AlgorithmIdFor(t, algorithmName));
    CreateFileOnFreeKey(t, algorithmName, path, checksum);
    CreateFileExtends(t, algorithmName, path, Some(checksum));
    assert r.files == r.files[..|t.files|] + [r.files[|t.files|]];
    GetChecksumOfOneRowPerPath(r, path, algorithmName);
  }


  /** File.get_result as written: the only row with that path joined with its
      algorithm; `._asdict()` on the None of an empty result raises. */
  function GetResult(t: Tables, path: string, algorithmName: string): (r: Result<ResultRow>)
    requires Consistent(t)
    ensures r == Err(NoneHasNoAsDict) <==> forall i :: 0 <= i < |t.files| ==> t.files[i].path != path
    ensures r == Err(MultipleResultsFound) <==>
              exists i, j :: 0 <= i < j < |t.files| && t.files[i].path == path && t.files[j].path == path
    ensures r.Ok? ==>
              exists i :: 0 <= i < |t.files| && t.files[i].path == path &&
                r.value == ResultRow(t.files[i].id, path, AlgorithmNameOf(t, t.files[i]), t.files[i].checksum)
  {
    var ix := PathIndices(t.files, path);
    PathIndicesSeveral(t.files, path);
    if |ix| == 0 then Err(NoneHasNoAsDict)
    else if |ix| == 1 then
      var row := t.files[ix[0]];
      Ok(ResultRow(row.id, row.path, AlgorithmNameOf(t, row), row.checksum))
    else Err(MultipleResultsFound)
  }

  // ---------------------------------------------------------------------------
  // The key-based queries the docstrings describe: both path and algorithm.

  function KeyIndex(files: seq<FileRow>, path: string, algorithmId: nat): (r: Option<nat>)
    ensures r.Some? ==> r.value < |files| && files[r.value].path == path && files[r.value].algorithmId == algorithmId
    ensures r.None? ==> !KeyTaken(files, path, algorithmId)
  {
    if files == [] then None
    else if files[0].path == path && files[0].algorithmId == algorithmId then Some(0)
    else match KeyIndex(files[1..], path, algorithmId)
      case None => None
      case Some(k) => Some(k + 1)
  }

  /** The position of the row stored for (path, algorithm name), if any. */
  function RecordIndex(t: Tables, path: string, algorithmName: string): (r: Option<nat>)
    requires Consistent(t)
    ensures r.Some? ==> r.value < |t.files| && t.files[r.value].path == path &&
                        AlgorithmNameOf(t, t.files[r.value]) == algorithmName
    ensures r.None? ==> forall i :: 0 <= i < |t.files| && t.files[i].path == path ==>
                          AlgorithmNameOf(t, t.files[i]) != algorithmName
    ensures r.Some? ==> forall i :: (0 <= i < |t.files| && t.files[i].path == path &&
                                     AlgorithmNameOf(t, t.files[i]) == algorithmName) ==> i == r.value
  {
    match GetByName(t.algorithms, algorithmName)
    case None => None
    case Some(a) =>
      GetByNameLocates(t, algorithmName);
      KeyIndex(t.files, path, a.id)
  }

  /** The checksum stored for (path, algorithm name): what get_checksum's
      docstring describes. */
  function KeyedChecksum(t: Tables, path: string, algorithmName: string): (r: Option<string>)
    requires Consistent(t)
    ensures r.None? <==> forall i :: 0 <= i < |t.files| && t.files[i].path == path ==>
                           AlgorithmNameOf(t, t.files[i]) != algorithmName
    ensures r.Some? ==> exists i :: 0 <= i < |t.files| && t.files[i].path == path &&
                          AlgorithmNameOf(t, t.files[i]) == algorithmName && t.files[i].checksum == r.value
  {
    match RecordIndex(t, path, algorithmName)
    case None => None
    case Some(k) => Some(t.files[k].checksum)
  }

  /** Two rows with the same path and the same algorithm name are one row. */
  lemma RecordUnique(t: Tables, i: nat, j: nat)
    requires Consistent(t) && i < |t.files| && j < |t.files|
    requires t.files[i].path == t.files[j].path
    requires AlgorithmNameOf(t, t.files[i]) == AlgorithmNameOf(t, t.files[j])
    ensures i == j
  {
    var a, b := t.files[i].algorithmId - 1, t.files[j].algorithmId - 1;
    assert t.algorithms[a].name == t.algorithms[b].name;
    assert t.files[i].algorithmId == t.files[j].algorithmId;
  }

  /** A row with path p under algorithm n is what the keyed lookup returns. */
  lemma KeyedChecksumAt(t: Tables, i: nat)
    requires Consistent(t) && i < |t.files|
    ensures KeyedChecksum(t, t.files[i].path, AlgorithmNameOf(t, t.files[i])) == Some(t.files[i].checksum)
  {
    var p, n := t.files[i].path, AlgorithmNameOf(t, t.files[i]);
    var r := KeyedChecksum(t, p, n);
    assert r.Some?;
    var j :| 0 <= j < |t.files| && t.files[j].path == p && AlgorithmNameOf(t, t.files[j]) == n && t.files[j].checksum == r.value;
    RecordUnique(t, i, j);
  }

  /** An UPDATE restricted to the (path, algorithm) key. */
  function UpdateByKey(t: Tables, path: string, algorithmName: string, checksum: string): (r: Tables)
    requires Consistent(t)
    ensures Consistent(r) && r.algorithms == t.algorithms && |r.files| == |t.files|
  {
    match GetByName(t.algorithms, algorithmName)
    case None => t
    case Some(a) =>
      var r := Tables(t.algorithms, SetChecksumWhere(t.files, path, Some(a.id), checksum));
      assert forall i :: 0 <= i < |t.files| ==> r.files[i].path == t.files[i].path && r.files[i].algorithmId == t.files[i].algorithmId;
      r
  }

  /** UpdateByKey changes the checksum of row i exactly when it is the row
      stored for the key. */
  lemma UpdateByKeyFrameAt(t: Tables, path: string, algorithmName: string, checksum: string, i: nat)
    requires Consistent(t) && i < |t.files|
    ensures UpdateByKey(t, path, algorithmName, checksum).files[i]
            == if t.files[i].path == path && AlgorithmNameOf(t, t.files[i]) == algorithmName
               then t.files[i].(checksum := checksum) else t.files[i]
  {
    if NameTaken(t.algorithms, algorithmName) {
      GetByNameLocates(t, algorithmName);
      var a := GetByName(t.algorithms, algorithmName).value;
      var b := t.files[i].algorithmId - 1;
      assert t.algorithms[b].name == algorithmName <==> t.algorithms[b] == t.algorithms[a.id - 1];
    }
  }

  /** UpdateByKey changes the checksum of the row stored for the key and of no other row. */
  lemma UpdateByKeyFrame(t: Tables, path: string, algorithmName: string, checksum: string)
    requires Consistent(t)
    ensures var r := UpdateByKey(t, path, algorithmName, checksum);
            forall i :: 0 <= i < |t.files| ==>
              r.files[i] == if t.files[i].path == path && AlgorithmNameOf(t, t.files[i]) == algorithmName
                            then t.files[i].(checksum := checksum) else t.files[i]
  {
    forall i | 0 <= i < |t.files|
      ensures UpdateByKey(t, path, algorithmName, checksum).files[i]
              == if t.files[i].path == path && AlgorithmNameOf(t, t.files[i]) == algorithmName
                 then t.files[i].(checksum := checksum) else t.files[i]
    {
      UpdateByKeyFrameAt(t, path, algorithmName, checksum, i);
    }
  }

  /** The keyed scan step the get_checksum and update_checksum docstrings
      describe: replace the checksum of the record for (path, algorithm) if
      there is one, otherwise create the record with that algorithm. */
  function Upsert(t: Tables, path: string, algorithmName: string, checksum: string): (r: Tables)
    requires Consistent(t)
    ensures Consistent(r)
  {
    if KeyedChecksum(t, path, algorithmName).Some? then UpdateByKey(t, path, algorithmName, checksum)
    else CreateFile(t, algorithmName, path, Some(checksum))
  }

  /** File.create for a key with no record appends exactly one row for it. */
  lemma CreateFileAppendsRecord(t: Tables, algorithmName: string, path: string, checksum: string)
    requires Consistent(t) && KeyedChecksum(t, path, algorithmName).None?
    ensures var r := CreateFile(t, algorithmName, path, Some(checksum));
            |r.files| == |t.files| + 1 && r.files[|t.files|].path == path &&
            r.files[|t.files|].checksum == checksum &&
            AlgorithmNameOf(r, r.files[|t.files|]) == algorithmName
  {
    var id := AlgorithmIdFor(t, algorithmName);
    forall i | 0 <= i < |t.files| && t.files[i].path == path
      ensures t.files[i].algorithmId != id
    {
      assert AlgorithmNameOf(t, t.files[i]) != algorithmName;
      if id <= |t.algorithms| {
        assert t.algorithms[id - 1] == InsertAlgorithm(t, algorithmName).algorithms[id - 1];
      }
    }
    CreateFileOnFreeKey(t, algorithmName, path, checksum);
    CreateFileExtends(t, algorithmName, path, Some(checksum));
  }

  /** A keyed update of a stored record leaves the new checksum in it. */
  lemma UpdateByKeyThenLookup(t: Tables, path: string, algorithmName: string, checksum: string)
    requires Consistent(t) && KeyedChecksum(t, path, algorithmName).Some?
    ensures KeyedChecksum(UpdateByKey(t, path, algorithmName, checksum), path, algorithmName) == Some(checksum)
  {
    var r := UpdateByKey(t, path, algorithmName, checksum);
    var i :| 0 <= i < |t.files| && t.files[i].path == path && AlgorithmNameOf(t, t.files[i]) == algorithmName;
    UpdateByKeyFrame(t, path, algorithmName, checksum);
    assert r.files[i] == t.files[i].(checksum := checksum);
    KeyedChecksumAt(r, i);
  }

  /** After an upsert the record for the key holds the new checksum. */
  lemma UpsertThenLookup(t: Tables, path: string, algorithmName: string, checksum: string)
    requires Consistent(t)
    ensures KeyedChecksum(Upsert(t, path, algorithmName, checksum), path, algorithmName) == Some(checksum)
  {
    if KeyedChecksum(t, path, algorithmName).Some? {
      UpdateByKeyThenLookup(t, path, algorithmName, checksum);
    } else {
      CreateFileAppendsRecord(t, algorithmName, path, checksum);
      KeyedChecksumAt(CreateFile(t, algorithmName, path, Some(checksum)), |t.files|);
    }
  }

  /** A keyed update leaves the record of every other key as it was. */
  lemma UpdateByKeyKeepsOtherKeys(t: Tables, path: string, algorithmName: string, checksum: string,
                                  otherPath: string, otherAlgorithm: string)
    requires Consistent(t)
    requires otherPath != path || otherAlgorithm != algorithmName
    ensures KeyedChecksum(UpdateByKey(t, path, algorithmName, checksum), otherPath, otherAlgorithm)
            == KeyedChecksum(t, otherPath, otherAlgorithm)
  {
    if KeyedChecksum(t, otherPath, otherAlgorithm).Some? {
      UpdateByKeyKeepsOtherRecord(t, path, algorithmName, checksum, otherPath, otherAlgorithm);
    } else {
      UpdateByKeyKeepsKeys(t, path, algorithmName, checksum, otherPath, otherAlgorithm);
    }
  }

  /** A keyed update leaves the stored record of every other key as it was. */
  lemma UpdateByKeyKeepsOtherRecord(t: Tables, path: string, algorithmName: string, checksum: string,
                                    otherPath: string, otherAlgorithm: string)
    requires Consistent(t) && KeyedChecksum(t, otherPath, otherAlgorithm).Some?
    requires otherPath != path || otherAlgorithm != algorithmName
    ensures KeyedChecksum(UpdateByKey(t, path, algorithmName, checksum), otherPath, otherAlgorithm)
            == KeyedChecksum(t, otherPath, otherAlgorithm)
  {
    var r := UpdateByKey(t, path, algorithmName, checksum);
    var before := KeyedChecksum(t, otherPath, otherAlgorithm);
    var i :| 0 <= i < |t.files| && t.files[i].path == otherPath &&
             AlgorithmNameOf(t, t.files[i]) == otherAlgorithm && t.files[i].checksum == before.value;
    UpdateByKeyFrameAt(t, path, algorithmName, checksum, i);
    assert r.files[i] == t.files[i];
    KeyedChecksumAt(r, i);
  }

  /** A keyed update creates no record: a key without one still has none. */
  lemma UpdateByKeyKeepsKeys(t: Tables, path: string, algorithmName: string, checksum: string,
                             otherPath: string, otherAlgorithm: string)
    requires Consistent(t) && KeyedChecksum(t, otherPath, otherAlgorithm).None?
    ensures KeyedChecksum(UpdateByKey(t, path, algorithmName, checksum), otherPath, otherAlgorithm).None?
  {
    var r := UpdateByKey(t, path, algorithmName, checksum);
    forall i | 0 <= i < |r.files| && r.files[i].path == otherPath
      ensures AlgorithmNameOf(r, r.files[i]) != otherAlgorithm
    {
      assert r.files[i].path == t.files[i].path && r.files[i].algorithmId == t.files[i].algorithmId;
    }
  }

  /** File.create leaves the record of every other key as it was. */
  lemma CreateFileKeepsOtherKeys(t: Tables, algorithmName: string, path: string, checksum: Option<string>,
                                 otherPath: string, otherAlgorithm: string)
    requires Consistent(t)
    requires otherPath != path || otherAlgorithm != algorithmName
    ensures KeyedChecksum(CreateFile(t, algorithmName, path, checksum), otherPath, otherAlgorithm)
            == KeyedChecksum(t, otherPath, otherAlgorithm)
  {
    var r := CreateFile(t, algorithmName, path, checksum);
    CreateFileExtends(t, algorithmName, path, checksum);
    var before := KeyedChecksum(t, otherPath, otherAlgorithm);
    if before.Some? {
      var i :| 0 <= i < |t.files| && t.files[i].path == otherPath &&
               AlgorithmNameOf(t, t.files[i]) == otherAlgorithm && t.files[i].checksum == before.value;
      assert r.files[i] == r.files[..|t.files|][i];
      assert r.algorithms[t.files[i].algorithmId - 1] == r.algorithms[..|t.algorithms|][t.files[i].algorithmId - 1];
      KeyedChecksumAt(r, i);
    } else {
      forall i | 0 <= i < |r.files| && r.files[i].path == otherPath
        ensures AlgorithmNameOf(r, r.files[i]) != otherAlgorithm
      {
        if i < |t.files| {
          assert r.files[i] == r.files[..|t.files|][i];
          assert r.algorithms[t.files[i].algorithmId - 1] == r.algorithms[..|t.algorithms|][t.files[i].algorithmId - 1];
        }
      }
    }
  }

  /** An upsert leaves the record of every other key as it was. */
  lemma UpsertKeepsOtherKeys(t: Tables, path: string, algorithmName: string, checksum: string,
                             otherPath: string, otherAlgorithm: string)
    requires Consistent(t)
    requires otherPath != path || otherAlgorithm != algorithmName
    ensures KeyedChecksum(Upsert(t, path, algorithmName, checksum), otherPath, otherAlgorithm)
            == KeyedChecksum(t, otherPath, otherAlgorithm)
  {
    if KeyedChecksum(t, path, algorithmName).Some? {
      UpdateByKeyKeepsOtherKeys(t, path, algorithmName, checksum, otherPath, otherAlgorithm);
    } else {
      CreateFileKeepsOtherKeys(t, algorithmName, path, Some(checksum), otherPath, otherAlgorithm);
    }
  }

  // ---------------------------------------------------------------------------
  // The tables as the state the session methods change.

  /** The database the sessions open: both tables, changed only by committed
      inserts and updates. */
  class Database {
    var algorithms: seq<AlgorithmRow>
    var files: seq<FileRow>

    function Snapshot(): Tables
      reads this
    {
      Tables(algorithms, files)
    }

    ghost predicate Valid()
      reads this
    {
      Consistent(Snapshot())
    }

    constructor (initial: Tables)
      requires Consistent(initial)
      ensures Valid() && Snapshot() == initial
    {
      algorithms, files := initial.algorithms, initial.files;
    }

    /** BaseMixin.create for an Algorithm: the commit succeeds unless the name
        is taken, in which case the session is rolled back. */
    method CreateAlgorithm(name: string)
      requires Valid()
      modifies this
      ensures Valid()
      ensures Snapshot() == InsertAlgorithm(old(Snapshot()), name)
    {
      InsertAlgorithmKeepsConsistent(Snapshot(), name);
      if NameIndex(algorithms, name).None? {
        algorithms := algorithms + [AlgorithmRow(|algorithms| + 1, name)];
      }
    }

    /** BaseMixin.create for a File row that refers to an existing algorithm:
        the commit fails on a None checksum or a taken (path, algorithm_id). */
    method AddFile(path: string, algorithmId: nat, checksum: Option<string>)
      requires Valid() && 1 <= algorithmId <= |algorithms|
      modifies this
      ensures Valid()
      ensures Snapshot() == InsertFile(old(Snapshot()), path, algorithmId, checksum)
    {
      InsertFileKeepsConsistent(Snapshot(), path, algorithmId, checksum);
      if checksum.Some? && KeyIndex(files, path, algorithmId).None? {
        files := files + [FileRow(|files| + 1, path, algorithmId, checksum.value)];
      }
    }

    /** File.create: get the algorithm by name, create it and fetch it again
        when it is missing, then insert the file row that refers to it. */
    method CreateFileRecord(algorithmName: string, path: string, checksum: Option<string>)
      requires Valid()
      modifies this
      ensures Valid()
      ensures Snapshot() == CreateFile(old(Snapshot()), algorithmName, path, checksum)
    {
      ghost var t := Snapshot();
      LookupAfterInsertAlgorithm(t, algorithmName);
      var algorithm := GetByName(algorithms, algorithmName);
      if algorithm.None? {
        CreateAlgorithm(algorithmName);
        algorithm := GetByName(algorithms, algorithmName);
      } else {
        assert Snapshot() == InsertAlgorithm(t, algorithmName);
      }
      AddFile(path, algorithm.value.id, checksum);
    }

    /** File.update_checksum: the UPDATE is executed with the path-only filter;
        a NOT NULL violation raises out of the execute, so nothing is committed. */
    method UpdateFileChecksum(path: string, algorithmName: string, checksum: Option<string>)
      returns (outcome: Outcome)
      requires Valid()
      modifies this
      ensures Valid()
      ensures UpdateChecksum(old(Snapshot()), path, algorithmName, checksum).Err? ==>
                outcome == Raised(NotNullViolation) && Snapshot() == old(Snapshot())
      ensures UpdateChecksum(old(Snapshot()), path, algorithmName, checksum).Ok? ==>
                outcome == Done && Snapshot() == UpdateChecksum(old(Snapshot()), path, algorithmName, checksum).value
    {
      var updated := UpdateChecksum(Snapshot(), path, algorithmName, checksum);
      if updated.Err? {
        return Raised(updated.failure);
      }
      UpdateChecksumKeepsConsistent(Snapshot(), path, algorithmName, checksum);
      files := updated.value.files;
      outcome := Done;
    }
  }

  // ---------------------------------------------------------------------------
  // The module-level functions of checkr/models/database.py

  /** store_result_in_db: File.create under the given algorithm name. */
  method StoreResultInDb(db: Database, checkfilename: string, checksum: Option<string>,
                         algorithm: string := DefaultAlgorithm)
    requires db.Valid()
    modifies db
    ensures db.Valid()
    ensures db.Snapshot() == CreateFile(old(db.Snapshot()), algorithm, checkfilename, checksum)
  {
    db.CreateFileRecord(algorithm, checkfilename, checksum);
  }

  /** update_result_in_db: File.update_checksum under the given algorithm name. */
  method UpdateResultInDb(db: Database, checkfilename: string, checksum: Option<string>,
                          algorithm: string := DefaultAlgorithm)
    returns (outcome: Outcome)
    requires db.Valid()
    modifies db
    ensures db.Valid()
    ensures UpdateChecksum(old(db.Snapshot()), checkfilename, algorithm, checksum).Err? ==>
              outcome == Raised(NotNullViolation) && db.Snapshot() == old(db.Snapshot())
    ensures UpdateChecksum(old(db.Snapshot()), checkfilename, algorithm, checksum).Ok? ==>
              outcome == Done && db.Snapshot() == UpdateChecksum(old(db.Snapshot()), checkfilename, algorithm, checksum).value
  {
    outcome := db.UpdateFileChecksum(checkfilename, algorithm, checksum);
  }

  /** get_stored_checksum_from_db: File.get_checksum. */
  method GetStoredChecksumFromDb(db: Database, checkfilename: string, algorithm: string := DefaultAlgorithm)
    returns (r: Result<Option<string>>)
    ensures r == GetChecksum(db.Snapshot(), checkfilename, algorithm)
  {
    r := GetChecksum(db.Snapshot(), checkfilename, algorithm);
  }

  /** check_file_against_db on file content `content`: None when nothing is
      stored, otherwise whether the stored checksum equals a fresh one; the
      lookup's MultipleResultsFound propagates. */
  function CheckAgainstDb(t: Tables, lib: HashLib, content: Bytes, path: string, algorithm: string): Result<Option<bool>> {
    match GetChecksum(t, path, algorithm)
    case Err(e) => Err(e)
    case Ok(stored) => Ok(Compare(stored, Checksum(lib, algorithm, content)))
  }

  /** The verdict of check_file_against_db in terms of the rows with the path. */
  lemma CheckAgainstDbMeaning(t: Tables, lib: HashLib, content: Bytes, path: string, algorithm: string)
    ensures var r := CheckAgainstDb(t, lib, content, path, algorithm);
            && (r.Err? <==> exists i, j :: 0 <= i < j < |t.files| && t.files[i].path == path && t.files[j].path == path)
            && (r == Ok(None) <==> forall i :: 0 <= i < |t.files| ==> t.files[i].path != path)
            && (r == Ok(Some(true)) ==>
                  exists i :: 0 <= i < |t.files| && t.files[i].path == path &&
                    Checksum(lib, algorithm, content) == Some(t.files[i].checksum))
            && (r == Ok(Some(false)) ==>
                  exists i :: 0 <= i < |t.files| && t.files[i].path == path &&
                    Checksum(lib, algorithm, content) != Some(t.files[i].checksum))
  {
    GetChecksumMeaning(t, path, algorithm);
  }

  method CheckFileAgainstDb(db: Database, lib: HashLib, fs: FileSystem, checkfilename: string,
                            algorithm: string := DefaultAlgorithm)
    returns (r: Result<Option<bool>>)
    requires checkfilename in fs
    ensures r == CheckAgainstDb(db.Snapshot(), lib, fs[checkfilename], checkfilename, algorithm)
  {
    var stored := GetStoredChecksumFromDb(db, checkfilename, algorithm);
    if stored.Err? {
      return Err(stored.failure);
    }
    if stored.value.Some? {
      var computed := CreateChecksum(lib, fs, checkfilename, algorithm);
      r := Ok(Some(computed == stored.value));
    } else {
      r := Ok(None);
    }
  }

  // ---------------------------------------------------------------------------
  // The older revision, checkr/models.py, has the same tables and inserts.

  /** The unique name means a name is held by at most one algorithm row. */
  lemma NameHeldOnce(t: Tables, name: string, i: nat, j: nat)
    requires Consistent(t) && i < |t.algorithms| && j < |t.algorithms|
    requires t.algorithms[i].name == name && t.algorithms[j].name == name
    ensures i == j
  {
    assert t.algorithms[i].id == i + 1 && t.algorithms[j].id == j + 1;
  }

  /** A second insert of a stored (path, algorithm_id) is rolled back. */
  lemma DuplicateKeyInsertIsNoOp(t: Tables, i: nat, checksum: Option<string>)
    requires Consistent(t) && i < |t.files|
    ensures InsertFile(t, t.files[i].path, t.files[i].algorithmId, checksum) == t
  {
    assert KeyTaken(t.files, t.files[i].path, t.files[i].algorithmId);
  }

  // ---------------------------------------------------------------------------
  // Witnesses for the path-only filter and for get_result on a missing row.

  /** One blake2b record for /data/a. */
  function OneBlake2bRecord(): (t: Tables)
    ensures Consistent(t)
  {
    Tables([AlgorithmRow(1, "blake2b")], [FileRow(1, "/data/a", 1, "b2")])
  }

  /** A blake2b and an md5 record for /data/a, which the unique index allows. */
  function TwoRecordsOnePath(): (t: Tables)
    ensures Consistent(t)
  {
    Tables([AlgorithmRow(1, "blake2b"), AlgorithmRow(2, "md5")],
           [FileRow(1, "/data/a", 1, "b2"), FileRow(2, "/data/a", 2, "m5")])
  }

  /** Asked for the md5 checksum of a file that only has a blake2b record,
      get_checksum as written returns the blake2b checksum. */
  lemma PathOnlyLookupCounterexample()
    ensures GetChecksum(OneBlake2bRecord(), "/data/a", "md5") == Ok(Some("b2"))
    ensures KeyedChecksum(OneBlake2bRecord(), "/data/a", "md5") == None
  {
    var t := OneBlake2bRecord();
    assert PathIndices(t.files, "/data/a") == [0] by {
      assert t.files[..0] == [];
    }
    assert AlgorithmNameOf(t, t.files[0]) == "blake2b";
  }

  /** update_checksum as written for md5 overwrites the blake2b record; the
      keyed update leaves it alone. */
  lemma PathOnlyUpdateCounterexample()
    ensures UpdateChecksum(OneBlake2bRecord(), "/data/a", "md5", Some("m5")).Ok?
    ensures UpdateChecksum(OneBlake2bRecord(), "/data/a", "md5", Some("m5")).value.files[0].checksum == "m5"
    ensures UpdateByKey(OneBlake2bRecord(), "/data/a", "md5", "m5") == OneBlake2bRecord()
  {
    var t := OneBlake2bRecord();
    assert !NameTaken(t.algorithms, "md5") by {
      assert t.algorithms[0].name != "md5";
    }
  }

  /** Once a path has records under two algorithms, get_checksum as written
      raises for either of them; the keyed lookup finds each. */
  lemma PathOnlyMultipleCounterexample()
    ensures GetChecksum(TwoRecordsOnePath(), "/data/a", "blake2b") == Err(MultipleResultsFound)
    ensures KeyedChecksum(TwoRecordsOnePath(), "/data/a", "blake2b") == Some("b2")
    ensures KeyedChecksum(TwoRecordsOnePath(), "/data/a", "md5") == Some("m5")
  {
    var t := TwoRecordsOnePath();
    assert t.files[0].path == "/data/a" && t.files[1].path == "/data/a";
    KeyedChecksumAt(t, 0);
    KeyedChecksumAt(t, 1);
  }

  /** get_result as written on a path with no record raises, because
      one_or_none() returns None and None has no _asdict(). */
  lemma GetResultMissingCounterexample(path: string, algorithmName: string)
    ensures GetResult(Tables([], []), path, algorithmName) == Err(NoneHasNoAsDict)
  {
  }

  /** get_result as the docstring describes it: the record of (path,
      algorithm) joined with its algorithm name, or None when there is none. */
  function GetResultByKey(t: Tables, path: string, algorithmName: string): (r: Option<ResultRow>)
    requires Consistent(t)
    ensures r.None? <==> KeyedChecksum(t, path, algorithmName).None?
    ensures r.Some? ==> r.value.path == path && r.value.algorithmName == algorithmName &&
                        KeyedChecksum(t, path, algorithmName) == Some(r.value.checksum) &&
                        1 <= r.value.id <= |t.files|
  {
    match RecordIndex(t, path, algorithmName)
    case None => None
    case Some(k) =>
      var row := t.files[k];
      KeyedChecksumAt(t, k);
      Some(ResultRow(row.id, row.path, AlgorithmNameOf(t, row), row.checksum))
  }
}
