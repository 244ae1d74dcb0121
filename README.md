# checkr: a verified model of the checksum ledger and its scan/check workflow

checkr is a file integrity checker. `scan` computes a checksum for every file
in a list and records it in a ledger. `check` computes the checksums again
and counts the files whose stored checksum matches. The ledger is either a
CSV file (`filename,algorithm,checksum`), or two SQL tables: `algorithms`
with a unique name, and `files` with a unique index on `(path, algorithm_id)`.

The Dafny project models this core in five modules:

- `Basics` (`basics.dfy`): `Option`, `Result`, the exceptions the code can
  raise (`Failure`), the `Outcome` of a state-changing step, and Python's
  truth test on an optional string (`Truthy`).
- `Checksums` (`checksums.dfy`), for `checkr/helpers.py`.
  - The 8192-byte read loop of `md5` and `blake2b` works on a `BinaryReader`
    and a `HashObject` class.
  - The hash functions form a `HashLib` parameter: uninterpreted functions
    from the bytes fed to a hash to its hex digest.
  - `create_checksum` dispatches on the algorithm name.
- `FlatFile` (`flat_file.dfy`), for `checkr/models/csvfile.py`.
  - The ledger file is a `CsvFile` class with fields `isFile`, `header` and `rows`.
  - Its methods do what `write_csv`, `store_result_in_csv`,
    `update_result_in_csv`, `get_stored_checksum_from_csv` and
    `check_file_against_csv` do.
  - Each method is specified by a function on the `Ledger` value
    (`AfterStore`, `AfterUpdate`, `StoredChecksum`, `CheckAgainst`).
- `Relational` (`relational.dfy`), for `checkr/models/database.py` and its
  older revision `checkr/models.py`.
  - A `Database` class holds both tables. Its methods do what
    `BaseMixin.create`, `File.create` and `File.update_checksum` do.
  - Each method is specified by a function on the `Tables` value.
  - `Consistent` states what the schema guarantees:
    - ids are allocated in order;
    - algorithm names are unique;
    - the `(path, algorithm_id)` index is unique;
    - every file row refers to an algorithm row.
  - A commit that a constraint refuses is rolled back and changes nothing.
  - The older revision has the same tables and the same inserts, and its
    `File.create` inlines the commit-or-rollback of `BaseMixin.create`. The
    same definitions model both.
- `Workflow` (`workflow.dfy`), for `checkr/checkr.py`.
  - `scan_db` is the `ScanDb` method.
  - The per-file loop of `scan` is the `Scan` method, and the counting loop
    of `check` is the `Check` method.
  - Each method is proved equal to a function (`ScanRun`, `CheckResult`).
  - Lemmas then prove that scanning and then checking unchanged files passes
    every file, stating the conditions under which that holds for the code
    as written.

The database queries are modelled as written. Their filter
`cls.path == path and cls.algorithm == algorithm` is a Python `and`. The left
operand is a SQLAlchemy expression, and it is falsy, so only `cls.path == path`
reaches the query. `GetChecksum`, `UpdateChecksum` and `GetResult` therefore
select rows by path alone. The keyed versions the docstrings describe sit
beside them as the corrected definitions (`KeyedChecksum`, `UpdateByKey`,
`Upsert`, `GetResultByKey`). See "## Findings".

Behaviour of the code worth knowing, which the model follows:

- An unknown algorithm name gives no checksum (`None`), not an error.
- `check` has no separate outcome for a file without a stored record. The
  check function returns `None` for it, and the loop counts that as a failure.
- The get-or-create of the algorithm row happens only in `File.create`.
  Lookups and updates look the name up and never create it.
- New database records are stored under the default algorithm `"blake2b"`
  rather than under the algorithm given.
- An exception a database step raises ends the scan or the check. It is
  not skipped.
- A corrupt CSV ledger is not rejected with an error of its own. A row
  missing its algorithm cell makes `update_result_in_csv` raise
  AttributeError on `None.strip()`, and a
  header without `filename` makes the update and the lookup raise KeyError.
  The model covers only ledgers whose header is the three field names and
  whose rows are complete; see "## Left out".

## Model

| member | source | states |
|---|---|---|
| Checksums.BinaryReader.Read | checkr/helpers.py:64 | `f.read(size)` returns the next `min(size, remaining)` bytes from the current position and moves past them, so the chunk is empty exactly at the end of the file |
| Checksums.HashObject.Update | checkr/helpers.py:65 | `update` appends the chunk to the bytes fed so far, so streaming in pieces is the same as feeding their concatenation |
| Checksums.ChunkedAppend | checkr/helpers.py:64-65 | a non-empty chunk of at most 8192 bytes, read after a full chunk, keeps every chunk but the last exactly 8192 bytes long |
| Checksums.ReadStateStep | checkr/helpers.py:64-65 | one pass of the loop keeps its invariant: the bytes fed plus the pending chunk are the file's prefix up to the read position, a short chunk occurs only at end of file, and the chunks so far are well shaped |
| Checksums.DigestStream | checkr/helpers.py:62-66 | the loop returns the digest of the whole file content; the chunks it feeds concatenate, in order, to the content; each is 1 to 8192 bytes, and all but the last are exactly 8192 |
| Checksums.Md5 | checkr/helpers.py:53-66 | `md5(filename)` is the MD5 digest of the file's bytes |
| Checksums.Blake2b | checkr/helpers.py:69-82 | `blake2b(filename)` is the BLAKE2b digest of the file's bytes |
| Checksums.CreateChecksum | checkr/helpers.py:85-98 | `"blake2b"` gives the BLAKE2b digest and `"md5"` the MD5 digest; the result is None exactly for any other name; the result depends only on the file's bytes and the name, not on the file name |
| Checksums.SupportedChecksumIsTruthy | checkr/helpers.py:95-98 | since hashlib's hex digests are never empty, the checksum is truthy exactly when the algorithm is blake2b or md5 |
| Checksums.Compare | checkr/models/csvfile.py:131-140 | the comparison gives None exactly when nothing is stored, True exactly when the fresh checksum equals the stored one, and False exactly when they differ |
| FlatFile.TrimLeftRemovesLeadingSpace | checkr/models/csvfile.py:79-80 | the left trim drops exactly the leading whitespace: what it drops is all whitespace, and what remains does not start with whitespace |
| FlatFile.TrimRightRemovesTrailingSpace | checkr/models/csvfile.py:79-80 | the right trim drops exactly the trailing whitespace |
| FlatFile.StripKeepsInnerSlice | checkr/models/csvfile.py:79-80 | `str.strip()` returns a slice of its argument with only whitespace on either side of it, and the slice neither starts nor ends with whitespace |
| FlatFile.FirstMatchAt | checkr/models/csvfile.py:109-111 | the position found holds an exact match of filename and algorithm and no earlier row matches; when none is found, no row matches |
| FlatFile.SameKeysSameMatch | checkr/models/csvfile.py:84-89 | a rewrite that keeps every row's filename and algorithm keeps the row the lookup finds |
| FlatFile.Rewrite | checkr/models/csvfile.py:77-89 | the rewrite keeps the number and order of rows and every filename and algorithm, and drops extra columns; the checksum is replaced exactly in the rows whose stripped key matches, and every other row keeps its checksum |
| FlatFile.CheckAgainstMeaning | checkr/models/csvfile.py:114-140 | the check raises exactly when the ledger file is missing; it gives None exactly when no row matches exactly; it passes exactly when the fresh checksum equals that of the first exact match |
| FlatFile.CsvFile.WriteCsv | checkr/models/csvfile.py:11-24 | the file is created or overwritten with the three-field header followed by every result, in order |
| FlatFile.CsvFile.StoreResult | checkr/models/csvfile.py:27-54 | one row is appended at the end and earlier rows are unchanged; the header is written when the file did not exist and kept when it did |
| FlatFile.CsvFile.UpdateResult | checkr/models/csvfile.py:57-90 | an existing file becomes the three-field header followed by the rewritten rows; a missing file raises FileNotFound and nothing changes |
| FlatFile.CsvFile.GetStoredChecksum | checkr/models/csvfile.py:93-111 | the loop returns the checksum of the first row whose filename and algorithm are exactly equal, None when there is none, and FileNotFound when the file is missing |
| FlatFile.CsvFile.CheckFile | checkr/models/csvfile.py:114-140 | the method's verdict is the three-way comparison of the stored checksum with a fresh one |
| FlatFile.StoreThenLookup | checkr/models/csvfile.py:44-54 | after a store under a key with no row, the lookup finds the new checksum; under a key that has a row, the earlier row still wins |
| FlatFile.StoreKeepsOtherKeys | checkr/models/csvfile.py:44-54 | a store leaves the lookup of every other (filename, algorithm) as it was |
| FlatFile.UpdateThenLookup | checkr/models/csvfile.py:77-89 | after an update of a key that has a row, the lookup finds the new checksum |
| FlatFile.UpdateKeepsOtherKeys | checkr/models/csvfile.py:77-89 | an update leaves the lookup of every key whose stripped form differs as it was |
| FlatFile.StripCollisionCounterexample | checkr/models/csvfile.py:78-81 | with rows for `/d/x` and `/d/x `, updating `/d/x` also changes what the lookup of `/d/x ` finds |
| FlatFile.RewriteExact | checkr/models/csvfile.py:78-81 | the corrected rewrite replaces the checksum exactly in the rows that the lookup's exact match selects, and keeps everything else the rewrite keeps |
| FlatFile.RewriteExactThenLookup | checkr/models/csvfile.py:78-81 | after the corrected update of a key that has a row, the lookup finds the new checksum |
| FlatFile.RewriteExactKeepsOtherKeys | checkr/models/csvfile.py:78-81 | the corrected update leaves the lookup of every other key as it was, however the keys compare after stripping |
| Relational.InsertAlgorithm | checkr/models/database.py:42-53 | creating an algorithm leaves the tables unchanged exactly when the name is taken (rollback); otherwise it appends one row; afterwards the name is present and earlier rows are kept |
| Relational.InsertFile | checkr/models/database.py:42-53 | creating a file row leaves the tables unchanged exactly when the checksum is None (NOT NULL) or the (path, algorithm_id) is taken; otherwise it appends exactly that row |
| Relational.InsertAlgorithmKeepsConsistent | checkr/models/database.py:62 | creating an algorithm keeps the name unique and the schema invariant |
| Relational.InsertFileKeepsConsistent | checkr/models/database.py:178 | creating a file row keeps the (path, algorithm_id) index unique and the schema invariant |
| Relational.NameIndex | checkr/models/database.py:74-77 | the scan for a name finds a row with that name, or reports that no row has it |
| Relational.GetByName | checkr/models/database.py:64-77 | `get_by_name` returns None exactly when no row has the name; otherwise it returns the one row with it (the name is unique) |
| Relational.GetByNameLocates | checkr/models/database.py:61-62 | the row found by name is the row whose position its id gives |
| Relational.AlgorithmIdFor | checkr/models/database.py:98-101 | the id `File.create` uses refers to a row with the name; it is an existing id exactly when the name was already present |
| Relational.LookupAfterInsertAlgorithm | checkr/models/database.py:98-101 | after the get-or-create, the second `get_by_name` finds the row whose id the file row will refer to |
| Relational.CreateFile | checkr/models/database.py:91-103 | `File.create` keeps the schema invariant and leaves an algorithm row with the name |
| Relational.CreateFileExtends | checkr/models/database.py:91-103 | `File.create` adds an algorithm row only when the name is absent and keeps every earlier row; it adds at most one file row, for its own path and that algorithm |
| Relational.CreateFileOnFreeKey | checkr/models.py:83-89 | creating a file with a checksum under a free (path, algorithm) adds exactly one row |
| Relational.PathIndices | checkr/models/database.py:151-153 | the filter as written selects exactly the rows with the path, in table order |
| Relational.PathIndicesSeveral | checkr/models/database.py:150-154 | two or more rows are selected exactly when two rows share the path |
| Relational.GetChecksumMeaning | checkr/models/database.py:135-154 | `get_checksum` as written returns None exactly when no row has the path; it raises MultipleResultsFound exactly when two rows share the path; otherwise it returns the checksum of a row with the path |
| Relational.GetChecksumOfOnlyRow | checkr/models/database.py:150-154 | when exactly one row has the path, `get_checksum` returns that row's checksum, whatever the algorithm asked for |
| Relational.GetChecksumOfOneRowPerPath | checkr/models.py:91-99 | when no two rows share a path, the lookup never raises, and it finds the row of the path if there is one |
| Relational.PathIndicesOfSamePaths | checkr/models/database.py:152 | tables whose rows have the same paths, position by position, select the same rows |
| Relational.SetChecksumWhere | checkr/models/database.py:167-170 | the UPDATE sets the checksum in exactly the selected rows and leaves every other row and column unchanged |
| Relational.UpdateChecksum | checkr/models/database.py:156-175 | `update_checksum` as written changes only the checksum column, and changes it in every row with the path; it raises a NOT NULL violation exactly when the checksum is None and some row has the path |
| Relational.UpdateChecksumKeepsConsistent | checkr/models/database.py:178 | the update keeps the unique index and the schema invariant |
| Relational.UpdateChecksumKeepsOtherPaths | checkr/models/database.py:167-170 | the update leaves `get_checksum` of every other path as it was |
| Relational.UpdateChecksumThenLookup | checkr/models/database.py:167-170 | with one row per path, the update keeps that property, and the lookup of the path then finds the new checksum |
| Relational.WritesKeepChecksumsFilled | checkr/models/database.py:89 | neither the update nor `File.create` with a non-empty checksum brings in an empty checksum |
| Relational.CreateFileKeepsOtherPaths | checkr/models/database.py:91-103 | `File.create` leaves `get_checksum` of every other path as it was |
| Relational.CreateFileThenLookup | checkr/models/database.py:91-103 | creating a file for a path without rows appends its row and keeps one row per path; the lookup of the path then finds the new checksum |
| Relational.GetResult | checkr/models/database.py:105-133 | `get_result` as written raises exactly when no row has the path (`None._asdict()`); it raises MultipleResultsFound exactly when two rows share the path; otherwise it returns the joined row of the path |
| Relational.RecordIndex | checkr/models/database.py:107-109 | the record of (path, algorithm name) is a row with that path whose algorithm has that name; there is at most one, and it is absent only when no such row exists |
| Relational.KeyedChecksum | checkr/models/database.py:137-139 | the keyed lookup is None exactly when no row has both the path and the algorithm; otherwise it is the checksum of such a row |
| Relational.RecordUnique | checkr/models/database.py:178 | two rows with the same path and the same algorithm name are the same row |
| Relational.KeyedChecksumAt | checkr/models/database.py:178 | every row is what the keyed lookup of its own path and algorithm returns |
| Relational.UpdateByKey | checkr/models/database.py:169 | the keyed update keeps the schema invariant, the algorithm rows and the number of file rows |
| Relational.UpdateByKeyFrameAt | checkr/models/database.py:167-170 | the keyed update changes a row exactly when the row holds the key, and then changes only its checksum |
| Relational.UpdateByKeyFrame | checkr/models/database.py:167-170 | the keyed update changes the checksum of the record for the key and of no other row |
| Relational.Upsert | checkr/checkr.py:40-53 | the upsert of the scan keeps the schema invariant |
| Relational.CreateFileAppendsRecord | checkr/models/database.py:91-103 | `File.create` for a key with no record appends exactly one row, with that path, that checksum and that algorithm name |
| Relational.UpdateByKeyThenLookup | checkr/models/database.py:156-175 | after the keyed update of a stored record, the keyed lookup finds the new checksum |
| Relational.UpsertThenLookup | checkr/checkr.py:40-53 | after an upsert, the keyed lookup of (path, algorithm) returns the new checksum, whether the record existed or not |
| Relational.UpdateByKeyKeepsOtherKeys | checkr/models/database.py:167-170 | the keyed update leaves the record of every other (path, algorithm) as it was |
| Relational.UpdateByKeyKeepsOtherRecord | checkr/models/database.py:167-170 | the keyed update leaves every other stored record as it was |
| Relational.UpdateByKeyKeepsKeys | checkr/models/database.py:167-170 | the keyed update creates no record: a key without one still has none |
| Relational.CreateFileKeepsOtherKeys | checkr/models/database.py:91-103 | `File.create` leaves the record of every other (path, algorithm) as it was |
| Relational.UpsertKeepsOtherKeys | checkr/checkr.py:40-53 | an upsert under one algorithm leaves the records of other paths and of other algorithms for the same path as they were |
| Relational.Database.CreateAlgorithm | checkr/models/database.py:42-53 | the method commits the algorithm row, or rolls back when the name is taken, as `InsertAlgorithm` states, and keeps the schema invariant |
| Relational.Database.AddFile | checkr/models/database.py:42-53 | the method commits the file row, or rolls back on a None checksum or a taken key, as `InsertFile` states |
| Relational.Database.CreateFileRecord | checkr/models/database.py:91-103 | the get-or-create of the algorithm followed by the insert leaves the tables `CreateFile` describes |
| Relational.Database.UpdateFileChecksum | checkr/models/database.py:156-175 | the method raises a NOT NULL violation and keeps the tables, or completes with the tables `UpdateChecksum` describes |
| Relational.StoreResultInDb | checkr/models/database.py:183-193 | `store_result_in_db` is `File.create` under the given algorithm, `"blake2b"` by default |
| Relational.UpdateResultInDb | checkr/models/database.py:196-208 | `update_result_in_db` is `File.update_checksum` under the given algorithm, `"blake2b"` by default |
| Relational.GetStoredChecksumFromDb | checkr/models/database.py:211-223 | the function returns what `get_checksum` as written returns |
| Relational.CheckAgainstDbMeaning | checkr/models/database.py:226-249 | `check_file_against_db` raises exactly when two rows share the path; it gives None exactly when no row has it; True and False mean the fresh checksum equals or differs from a row of the path |
| Relational.CheckFileAgainstDb | checkr/models/database.py:226-249 | the method returns the verdict `CheckAgainstDb` describes |
| Relational.NameHeldOnce | checkr/models.py:58 | a name is held by at most one algorithm row |
| Relational.DuplicateKeyInsertIsNoOp | checkr/models.py:84-89 | a second insert of a stored (path, algorithm_id) is rolled back and changes nothing |
| Relational.PathOnlyLookupCounterexample | checkr/models/database.py:152 | asked for md5, `get_checksum` as written returns the blake2b checksum of a file that has only a blake2b record; the keyed lookup returns None |
| Relational.PathOnlyUpdateCounterexample | checkr/models/database.py:169 | `update_checksum` as written for md5 overwrites the blake2b record; the keyed update changes nothing |
| Relational.PathOnlyMultipleCounterexample | checkr/models/database.py:150-154 | with a blake2b and an md5 record for one path (the index allows this), `get_checksum` as written raises; the keyed lookup finds each record |
| Relational.GetResultMissingCounterexample | checkr/models/database.py:131-132 | `get_result` on a path with no record raises instead of returning None |
| Relational.GetResultByKey | checkr/models/database.py:105-117 | the corrected `get_result` is None exactly when (path, algorithm) has no record; otherwise it is the record's row, with that path, that algorithm name and the stored checksum |
| Workflow.ChooseBackend | checkr/checkr.py:135-161 | the database is used exactly when `usedb` is set; the CSV ledger exactly when `usedb` is unset and a CSV file is given; neither otherwise |
| Workflow.ScanDbStep | checkr/checkr.py:40-53 | `scan_db` keeps the schema invariant; it raises only MultipleResultsFound, or a NOT NULL violation when the algorithm is unknown |
| Workflow.ScanCsvStep | checkr/checkr.py:137-157 | the CSV branch leaves an existing, well-formed ledger file; it adds a row exactly when the file was missing or the lookup was falsy |
| Workflow.ScanNext | checkr/checkr.py:134-161 | one pass touches only the chosen ledger; a database exception leaves both stores as they were; the CSV branch always completes |
| Workflow.ScanRun | checkr/checkr.py:129-161 | the scan loop touches only the chosen ledger, changes nothing when neither is chosen, and only the database branch can raise |
| Workflow.ScanDb | checkr/checkr.py:40-53 | the method leaves the tables `ScanDbStep` describes, or raises and keeps them |
| Workflow.ScanCsv | checkr/checkr.py:137-157 | the method leaves the ledger `ScanCsvStep` describes |
| Workflow.ScanFile | checkr/checkr.py:132-161 | one pass of the loop body leaves the stores and outcome `ScanNext` describes |
| Workflow.ScanRunFirst | checkr/checkr.py:131 | a scan is one pass over the first file followed, unless that pass raised, by the scan of the rest |
| Workflow.ScanRunStep | checkr/checkr.py:131 | the scan from position i on is one pass over file i followed, unless that pass raised, by the scan from i + 1 on |
| Workflow.Scan | checkr/checkr.py:127-161 | the loop processes the files once each, in list order, and leaves the stores and outcome `ScanRun` describes |
| Workflow.Passed | checkr/checkr.py:244-252 | the number of passes is at most the number of verdicts; it equals that number exactly when every verdict passes, and is zero exactly when none does |
| Workflow.TallyFrom | checkr/checkr.py:237-268 | the counters grow as follows: good by the number of passes, bad by the number of other verdicts, and total by the number of verdicts |
| Workflow.TallyFromRaises | checkr/checkr.py:241-268 | counting raises exactly when some verdict is an exception, and then it raises the first one |
| Workflow.Verdicts | checkr/checkr.py:241-263 | verdict i is the chosen backend's check of listed file i |
| Workflow.CheckFile | checkr/checkr.py:244-263 | the method's verdict is the chosen backend's check of the file |
| Workflow.TallyFromStep | checkr/checkr.py:241-268 | counting from verdict i on either raises verdict i's exception, or counts verdict i and then counts from i + 1 on |
| Workflow.Check | checkr/checkr.py:236-268 | the counting loop returns exactly the counters `CheckResult` describes, or the first exception |
| Workflow.AllGoodIffAllPass | checkr/checkr.py:237-268 | the count reports every file good, and none bad, exactly when every verdict is a pass |
| Workflow.CheckCountsAddUp | checkr/checkr.py:237-268 | every counted file adds to exactly one of good and bad, so good + bad = total; total is the number of listed files (zero when neither backend is chosen), and good is the number of passes |
| Workflow.MissingRecordsCountBad | checkr/checkr.py:245-252 | a file without a stored record counts as bad: checking against an empty files table reports every file as failed |
| Workflow.ScanDbStepRecords | checkr/checkr.py:40-53 | with one row per path and no empty checksum, a `scan_db` step with a truthy checksum keeps both properties; the lookup of the path then finds the fresh checksum, and every other path's lookup is unchanged |
| Workflow.ScanDbRunFrame | checkr/checkr.py:131-136 | a database scan from such tables runs to the end, keeps both properties and leaves the lookup of every unlisted path unchanged |
| Workflow.ScanDbRunRecordsFirst | checkr/checkr.py:131-136 | the scan records the fresh checksum of the first listed file |
| Workflow.ScanDbRunRecordsOnce | checkr/checkr.py:131-136 | the scan records the fresh checksum of a first listed file that is not listed again |
| Workflow.ScanDbRunRecordsLater | checkr/checkr.py:131-136 | the scan records the fresh checksum of every listed file after the first |
| Workflow.ScanDbRunRecords | checkr/checkr.py:131-136 | a database scan from tables with one row per path and no empty checksum records the fresh checksum of every listed file |
| Workflow.ScanThenCheckDbPasses | checkr/checkr.py:244-252 | scanning and then checking unchanged files against the database with the same supported algorithm passes every file, when the tables start with one row per path and no empty checksum |
| Workflow.ScanDbDefaultAlgorithmCounterexample | checkr/checkr.py:50-53 | an md5 scan of a new file stores the md5 digest under blake2b, and no md5 record exists |
| Workflow.ScanDbStepByKey | checkr/checkr.py:40-53 | the corrected `scan_db`, an upsert under the given algorithm, keeps the schema invariant |
| Workflow.ScanDbRunByKey | checkr/checkr.py:131-136 | the scan loop with the corrected step keeps the schema invariant |
| Workflow.ScanDbStepByKeyRecords | checkr/checkr.py:40-53 | the corrected step with a supported algorithm records the fresh checksum under that algorithm |
| Workflow.ScanDbStepByKeyKeepsOthers | checkr/checkr.py:40-53 | the corrected step leaves the record of every other (path, algorithm) as it was |
| Workflow.ScanDbRunByKeyFrameAt | checkr/checkr.py:131-136 | the corrected scan leaves the record of an unlisted path, or of another algorithm, as it was |
| Workflow.ScanDbRunByKeyFrame | checkr/checkr.py:131-136 | the same for every such (path, algorithm) at once |
| Workflow.ScanDbRunByKeyRecordsFirst | checkr/checkr.py:131-136 | the corrected scan records the fresh checksum of the first listed file |
| Workflow.ScanDbRunByKeyRecordsOnce | checkr/checkr.py:131-136 | the corrected scan records the fresh checksum of a first listed file that is not listed again |
| Workflow.ScanDbRunByKeyRecordsLater | checkr/checkr.py:131-136 | the corrected scan records the fresh checksum of every listed file after the first |
| Workflow.ScanDbRunByKeyRecords | checkr/checkr.py:131-136 | from any consistent tables, the corrected scan records the fresh checksum of every listed file under the given algorithm |
| Workflow.CheckAgainstDbByKey | checkr/models/database.py:226-249 | the keyed check never raises; it is None exactly when no record exists, and True exactly when the record holds the fresh checksum |
| Workflow.VerdictsByKey | checkr/checkr.py:241-252 | keyed verdict i is the keyed check of listed file i |
| Workflow.ScanThenCheckDbByKeyPasses | checkr/checkr.py:244-252 | with keyed queries, scanning and then checking unchanged files with the same supported algorithm passes every file, whatever the tables held before |
| Workflow.StripDistinctTail | checkr/checkr.py:131 | dropping the first file keeps the rest distinct after stripping |
| Workflow.StripsApartTail | checkr/checkr.py:131 | a name that strips apart from every listed file strips apart from the first one and from the rest |
| Workflow.FirstStripsApart | checkr/checkr.py:131 | among files that stay distinct after stripping, a first file that is not listed again strips apart from the rest |
| Workflow.ScanCsvStepRecords | checkr/checkr.py:139-157 | with no empty checksum cell, the CSV branch with a truthy checksum records it for the path and keeps the cells non-empty |
| Workflow.ScanCsvStepKeepsOthers | checkr/checkr.py:139-157 | the CSV branch leaves the lookup of every name that strips apart from the path unchanged |
| Workflow.ScanCsvRunFrame | checkr/checkr.py:131-157 | a CSV scan leaves an existing ledger file, keeps the cells non-empty and leaves the lookup of every name that strips apart from all listed files unchanged |
| Workflow.ScanCsvRunRecords | checkr/checkr.py:131-157 | a CSV scan of files that stay distinct after stripping records the fresh checksum of every listed file |
| Workflow.ScanThenCheckCsvPasses | checkr/checkr.py:253-263 | scanning and then checking unchanged files against the CSV ledger passes every file, when the files stay distinct after stripping and no cell starts empty |
| Workflow.ScanCsvStepExact | checkr/checkr.py:139-149 | the CSV branch with the corrected update leaves an existing, well-formed ledger file |
| Workflow.ScanCsvRunExact | checkr/checkr.py:131-157 | the scan loop with the corrected update leaves a well-formed ledger, and an existing file once any file was listed |
| Workflow.ScanCsvStepExactRecords | checkr/checkr.py:139-157 | the corrected step records the fresh checksum for the path, leaves every other name's lookup unchanged and keeps the cells non-empty |
| Workflow.ScanCsvRunExactRecords | checkr/checkr.py:131-157 | the corrected CSV scan records the fresh checksum of every listed file, whatever their stripped forms, and leaves every unlisted name's lookup unchanged |
| Workflow.VerdictsExact | checkr/checkr.py:253-263 | verdict i is the CSV check of listed file i |
| Workflow.ScanThenCheckCsvExactPasses | checkr/checkr.py:253-263 | with the corrected update, scanning and then checking unchanged files against the CSV ledger passes every file, with no condition on the file names |

## Left out

- The command line, the YAML config file, the log level, the Rich console and the progress bar are not modelled. `Scan` and `Check` take the resolved values as parameters.
- Logging is not modelled: `start_logging` and every `logger` call.
- `get_filelist` is not modelled. Its ordered result is the `files` parameter, and every listed file is in the file system map (`Listed`).
- Opening and reading files is not modelled. A `FileNotFoundError` or an I/O error on a listed file cannot happen in the model. Only the missing CSV ledger raises.
- MD5 and BLAKE2b are not computed. They are uninterpreted functions of the bytes fed (`HashLib`). `HexDigests` assumes only the digest length and alphabet hashlib documents. "A changed file fails the check" therefore holds exactly when the digest changes, which is what `Compare` states. The MD5 digest of `"abc"` is not a fact of the model.
- SQLAlchemy sessions, the engine, the environment configuration and the `time_created`/`time_updated` timestamps are not modelled.
- The tables are changed only by committed inserts and updates. No row is ever deleted, and under SQLite's rowid assignment (the largest id plus one) ids are positions plus one. On an engine backed by a sequence, the rolled-back insert of a `None` checksum in `BaseMixin.create` would use up an id; that is not modelled.
- The CSV file is modelled at row level. The csv module's quoting and encoding, and the `mkdir` calls, are not modelled.
- FlatFile.CsvFile.UpdateResult and FlatFile.CsvFile.GetStoredChecksum: only ledgers whose header is `filename,algorithm,checksum` and whose rows have all three cells are modelled (`WellFormed`, three `string` fields per `Row`). Ledgers with short rows or a foreign header are not: the AttributeError the update raises on a row missing its algorithm cell (`None.strip()`), the `""` it writes for a row missing only its checksum, the `None` the lookup returns for such a row, the KeyError both raise for a header without `filename`, and a header with the three names in another order, which the code reads correctly.
- Files are resolved to absolute paths by `Path.resolve()`. For the model, paths are already absolute.
- The temporary-file swap in `update_result_in_csv` is a one-step replacement of the rows. Whether it is atomic is not modelled. The temporary file is created in the system temporary directory, so `Path.replace` raises OSError (EXDEV) when the ledger is on another filesystem; that error path of the update is not modelled.
- Concurrency is not modelled: the code is single-threaded.
- FlatFile.CsvFile.WriteCsv: requires a non-empty list. The code takes the header from `results[0]`, which raises IndexError on an empty list after the file has been truncated, and that path is not modelled. The header is the three field names, which are the keys every result carries.
- Workflow.ScanDbDefaultAlgorithmCounterexample: states the keyed facts of a single step from empty tables, not of a whole scan.
- Relational.GetResultMissingCounterexample: states the empty-table case. The general case, that `get_result` raises exactly when no row has the path, is the contract of Relational.GetResult.
- Workflow.ScanThenCheckDbPasses: the database round trip as written is proved only from tables with one row per path and no empty checksum. Outside those states the path-only queries can raise or return another algorithm's record; see "## Findings".
- Workflow.ScanThenCheckCsvPasses: the CSV round trip as written is proved only for files that stay distinct after `str.strip()`, from a ledger with no empty checksum cell.

## Findings

| source | as written | input that shows it | evidently intended | confidence | as-written member | corrected member |
|---|---|---|---|---|---|---|
| checkr/models/database.py:152 | `cls.path == path and cls.algorithm == algorithm` is a Python `and`, so `get_checksum` filters by path only (the same line is at checkr/models.py:97) | a file with only a blake2b record, looked up for md5, returns the blake2b checksum | select the record of (path, algorithm) | not executed | Relational.PathOnlyLookupCounterexample | Relational.KeyedChecksum |
| checkr/models/database.py:150-154 | with records for one path under two algorithms, which the unique index allows, `scalar_one_or_none()` raises MultipleResultsFound | a blake2b and an md5 record for `/data/a`, looked up for blake2b; checkr's own scan never creates this state, since it stores new records only under `"blake2b"` and keeps one row per path (Workflow.ScanDbRunFrame), so it arises only from a `store_result_in_db` call with an explicit algorithm or from another writer | the lookup finds the one record for the algorithm, and a scan followed by a check passes | not executed | Relational.PathOnlyMultipleCounterexample | Workflow.ScanThenCheckDbByKeyPasses |
| checkr/models/database.py:169 | `update_checksum` sets the checksum of every row with the path, whatever the algorithm | an md5 update of a file that has only a blake2b record overwrites the blake2b checksum | update only the record of (path, algorithm) | not executed | Relational.PathOnlyUpdateCounterexample | Relational.UpdateByKeyKeepsOtherKeys |
| checkr/checkr.py:50-53 | `scan_db` calls `store_result_in_db` without the algorithm, so a new record is stored under `"blake2b"` | an md5 scan of a new file stores its md5 digest as the blake2b record | store the record under the algorithm of the scan | not executed | Workflow.ScanDbDefaultAlgorithmCounterexample | Workflow.ScanDbRunByKeyRecords |
| checkr/models/database.py:131-132 | `.one_or_none()._asdict()` raises AttributeError when no row matches | `get_result` of any path on an empty files table | return None for a missing record | not executed | Relational.GetResultMissingCounterexample | Relational.GetResultByKey |
| checkr/models/csvfile.py:78-81 | the update matches stripped keys, while the lookup at line 110 matches exact ones | rows for `/d/x` and `/d/x `: updating `/d/x` also changes the checksum the lookup for `/d/x ` finds | the rewrite's trimmed matching is deliberate, so the update and the lookup should select the same row; either side can be changed, and the model's corrected member matches exact keys in the rewrite as the lookup does | not executed | FlatFile.StripCollisionCounterexample | Workflow.ScanThenCheckCsvExactPasses |
