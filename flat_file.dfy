/** The flat-file ledger of checkr/models/csvfile.py: a CSV file whose header
    names the fields filename, algorithm and checksum, followed by one row per
    stored result. The file is modelled at row level: the csv module's quoting
    and the file's bytes are not part of the model. */
module FlatFile {
  import opened Basics
  import opened Checksums

  /** The header this program writes. */
  const FieldNames: seq<string> := ["filename", "algorithm", "checksum"]

  /** A result as callers hand it to write_csv: a dictionary with the keys
      filename, algorithm and checksum, in that order. */
  datatype Record = Record(filename: string, algorithm: string, checksum: string)

  /** A data row as csv.DictReader reads it: the three named fields, and the
      cells of any columns after them. */
  datatype Row = Row(filename: string, algorithm: string, checksum: string, extra: seq<string>)

  /** The ledger file: whether it exists, its header and its data rows. */
  datatype Ledger = Ledger(isFile: bool, header: seq<string>, rows: seq<Row>)

  /** A missing file has no header and no rows; an existing one starts with
      the header this program writes, possibly followed by further columns. */
  predicate WellFormed(l: Ledger) {
    (!l.isFile ==> l.header == [] && l.rows == []) &&
    (l.isFile ==> |l.header| >= 3 && l.header[..3] == FieldNames)
  }

  function AsRow(r: Record): Row {
    Row(r.filename, r.algorithm, r.checksum, [])
  }

  /** What the csv writer puts in a cell for a value: None becomes "". */
  function CellText(value: Option<string>): string {
    if value.Some? then value.value else ""
  }

  /** The characters Python's str.isspace() accepts, which str.strip() removes. */
  predicate IsSpace(c: char) {
    c == ' ' || '\t' <= c <= '\r' || '\U{1c}' <= c <= '\U{1f}' || c == '\U{85}' || c == '\U{a0}' ||
    c == '\U{1680}' || '\U{2000}' <= c <= '\U{200a}' || c == '\U{2028}' || c == '\U{2029}' ||
    c == '\U{202f}' || c == '\U{205f}' || c == '\U{3000}'
  }

  function TrimLeft(s: string): string {
    if s != [] && IsSpace(s[0]) then TrimLeft(s[1..]) else s
  }

  function TrimRight(s: string): string {
    if s != [] && IsSpace(s[|s| - 1]) then TrimRight(s[..|s| - 1]) else s
  }

  /** TrimLeft removes exactly the leading whitespace. */
  lemma {:induction false} TrimLeftRemovesLeadingSpace(s: string)
    ensures var r := TrimLeft(s);
            |r| <= |s| && r == s[|s| - |r|..] && (r == [] || !IsSpace(r[0])) &&
            forall k :: 0 <= k < |s| - |r| ==> IsSpace(s[k])
  {
    if s != [] && IsSpace(s[0]) {
      var r := TrimLeft(s[1..]);
      TrimLeftRemovesLeadingSpace(s[1..]);
      assert TrimLeft(s) == r;
      assert s[|s| - |r|..] == s[1..][|s| - 1 - |r|..];
      forall k | 0 <= k < |s| - |r| ensures IsSpace(s[k]) {
        if k > 0 {
          assert s[k] == s[1..][k - 1];
        }
      }
    }
  }

  /** TrimRight removes exactly the trailing whitespace. */
  lemma {:induction false} TrimRightRemovesTrailingSpace(s: string)
    ensures var r := TrimRight(s);
            |r| <= |s| && r == s[..|r|] && (r == [] || !IsSpace(r[|r| - 1])) &&
            forall k :: |r| <= k < |s| ==> IsSpace(s[k])
  {
    if s != [] && IsSpace(s[|s| - 1]) {
      var r := TrimRight(s[..|s| - 1]);
      TrimRightRemovesTrailingSpace(s[..|s| - 1]);
      assert TrimRight(s) == r;
      assert s[..|r|] == s[..|s| - 1][..|r|];
      forall k | |r| <= k < |s| ensures IsSpace(s[k]) {
        if k < |s| - 1 {
          assert s[k] == s[..|s| - 1][k];
        }
      }
    }
  }

  /** str.strip(): the string without leading and trailing whitespace. */
  function Strip(s: string): string {
    TrimRight(TrimLeft(s))
  }

  /** Strip keeps a slice of its argument that neither starts nor ends with
      whitespace, and everything it drops on either side is whitespace. */
  lemma StripKeepsInnerSlice(s: string)
    ensures exists i, j :: 0 <= i <= j <= |s| && Strip(s) == s[i..j] &&
              (forall k :: 0 <= k < i ==> IsSpace(s[k])) &&
              (forall k :: j <= k < |s| ==> IsSpace(s[k]))
    ensures Strip(s) == [] || (!IsSpace(Strip(s)[0]) && !IsSpace(Strip(s)[|Strip(s)| - 1]))
  {
    var left := TrimLeft(s);
    TrimLeftRemovesLeadingSpace(s);
    TrimRightRemovesTrailingSpace(left);
    var i := |s| - |left|;
    var j := i + |Strip(s)|;
    assert Strip(s) == s[i..j];
    forall k | j <= k < |s| ensures IsSpace(s[k]) {
      assert s[k] == left[k - i];
    }
  }

  /** The match of get_stored_checksum_from_csv: both fields equal exactly. */
  predicate ExactKey(row: Row, filename: string, algorithm: string) {
    row.filename == filename && row.algorithm == algorithm
  }

  /** The match of update_result_in_csv: both fields equal after stripping. */
  predicate StrippedKey(row: Row, filename: string, algorithm: string) {
    Strip(row.filename) == Strip(filename) && Strip(row.algorithm) == Strip(algorithm)
  }

  /** The position of the first row whose key matches exactly, if any. */
  function FirstMatchAt(rows: seq<Row>, filename: string, algorithm: string): (r: Option<nat>)
    ensures r.Some? ==> r.value < |rows| && ExactKey(rows[r.value], filename, algorithm)
    ensures r.Some? ==> forall j :: 0 <= j < r.value ==> !ExactKey(rows[j], filename, algorithm)
    ensures r.None? ==> forall j :: 0 <= j < |rows| ==> !ExactKey(rows[j], filename, algorithm)
  {
    if rows == [] then None
    else if ExactKey(rows[0], filename, algorithm) then Some(0)
    else match FirstMatchAt(rows[1..], filename, algorithm)
      case None => None
      case Some(k) => Some(k + 1)
  }

  /** Rows with the same keys, position by position, have the same first match. */
  lemma SameKeysSameMatch(a: seq<Row>, b: seq<Row>, filename: string, algorithm: string)
    requires |a| == |b|
    requires forall i :: 0 <= i < |a| ==> a[i].filename == b[i].filename && a[i].algorithm == b[i].algorithm
    ensures FirstMatchAt(a, filename, algorithm) == FirstMatchAt(b, filename, algorithm)
  {
    var ra, rb := FirstMatchAt(a, filename, algorithm), FirstMatchAt(b, filename, algorithm);
    if ra.Some? {
      assert ExactKey(b[ra.value], filename, algorithm);
    }
    if rb.Some? {
      assert ExactKey(a[rb.value], filename, algorithm);
    }
  }

  /** The checksum a lookup finds: that of the first exact match. */
  function StoredChecksum(rows: seq<Row>, filename: string, algorithm: string): Option<string> {
    match FirstMatchAt(rows, filename, algorithm)
    case None => None
    case Some(k) => Some(rows[k].checksum)
  }

  /** The rows update_result_in_csv writes to the temporary file: every row
      whose stripped key matches gets the new checksum, and only the three
      named fields are written. */
  function Rewrite(rows: seq<Row>, filename: string, algorithm: string, checksum: string): (r: seq<Row>)
    ensures |r| == |rows|
    ensures forall i :: 0 <= i < |rows| ==>
              r[i].filename == rows[i].filename && r[i].algorithm == rows[i].algorithm && r[i].extra == []
    ensures forall i :: 0 <= i < |rows| ==>
              r[i].checksum == if StrippedKey(rows[i], filename, algorithm) then checksum else rows[i].checksum
  {
    if rows == [] then []
    else
      var last := rows[|rows| - 1];
      var written := if StrippedKey(last, filename, algorithm) then checksum else last.checksum;
      Rewrite(rows[..|rows| - 1], filename, algorithm, checksum) + [Row(last.filename, last.algorithm, written, [])]
  }

  /** The ledger after store_result_in_csv. */
  function AfterStore(l: Ledger, filename: string, checksum: string, algorithm: string): Ledger {
    Ledger(true, if l.isFile then l.header else FieldNames, l.rows + [Row(filename, algorithm, checksum, [])])
  }

  /** The ledger after update_result_in_csv on an existing file. */
  function AfterUpdate(l: Ledger, filename: string, checksum: string, algorithm: string): Ledger
    requires l.isFile
  {
    Ledger(true, FieldNames, Rewrite(l.rows, filename, algorithm, checksum))
  }

  /** check_file_against_csv on file content `content`. */
  function CheckAgainst(l: Ledger, lib: HashLib, content: Bytes, filename: string, algorithm: string): Result<Option<bool>> {
    if !l.isFile then Err(FileNotFound)
    else Ok(Compare(StoredChecksum(l.rows, filename, algorithm), Checksum(lib, algorithm, content)))
  }

  /** The verdict of check_file_against_csv in terms of the rows: an error
      for a missing file, None when no row matches exactly, and a pass
      exactly when the first exact match holds the fresh checksum. */
  lemma CheckAgainstMeaning(l: Ledger, lib: HashLib, content: Bytes, filename: string, algorithm: string)
    ensures var r := CheckAgainst(l, lib, content, filename, algorithm);
            && (r.Err? <==> !l.isFile)
            && (r == Ok(None) <==> l.isFile && forall j :: 0 <= j < |l.rows| ==> !ExactKey(l.rows[j], filename, algorithm))
            && (r == Ok(Some(true)) <==>
                  l.isFile && exists k :: FirstMatchAt(l.rows, filename, algorithm) == Some(k) &&
                                          Checksum(lib, algorithm, content) == Some(l.rows[k].checksum))
  {
  }

  /** A ledger file at one path. */
  class CsvFile {
    var isFile: bool
    var header: seq<string>
    var rows: seq<Row>

    function State(): Ledger
      reads this
    {
      Ledger(isFile, header, rows)
    }

    ghost predicate Valid()
      reads this
    {
      WellFormed(State())
    }

    constructor (initial: Ledger)
      requires WellFormed(initial)
      ensures Valid() && State() == initial
    {
      isFile, header, rows := initial.isFile, initial.header, initial.rows;
    }

    /** write_csv(filename, results): the file is created or overwritten with
        the header taken from the keys of the first result, then every result. */
    method WriteCsv(results: seq<Record>)
      requires |results| > 0
      modifies this
      ensures Valid()
      ensures isFile && header == FieldNames
      ensures |rows| == |results| && forall i :: 0 <= i < |results| ==> rows[i] == AsRow(results[i])
    {
      isFile, header := true, FieldNames;
      rows := seq(|results|, i requires 0 <= i < |results| => AsRow(results[i]));
    }

    /** store_result_in_csv: append one row, writing the header first when the
        file does not exist yet. */
    method StoreResult(checkfilename: string, checksum: string, algorithm: string := "blake2b")
      requires Valid()
      modifies this
      ensures Valid()
      ensures isFile
      ensures header == if old(isFile) then old(header) else FieldNames
      ensures rows == old(rows) + [Row(checkfilename, algorithm, checksum, [])]
      ensures State() == AfterStore(old(State()), checkfilename, checksum, algorithm)
    {
      if !isFile {
        header := FieldNames;
        isFile := true;
      }
      rows := rows + [Row(checkfilename, algorithm, checksum, [])];
    }

    /** update_result_in_csv: copy every row to a temporary file, replacing the
        checksum of the rows whose stripped key matches, then move the
        temporary file over the ledger. A missing ledger raises on open. */
    method UpdateResult(checkfilename: string, checksum: string, algorithm: string := "blake2b")
      returns (outcome: Outcome)
      requires Valid()
      modifies this
      ensures Valid()
      ensures outcome == if old(isFile) then Done else Raised(FileNotFound)
      ensures !old(isFile) ==> State() == old(State())
      ensures old(isFile) ==> State() == AfterUpdate(old(State()), checkfilename, checksum, algorithm)
    {
      if !isFile {
        return Raised(FileNotFound);
      }
      var written: seq<Row> := [];
      var i := 0;
      while i < |rows|
        invariant 0 <= i <= |rows|
        invariant written == Rewrite(rows[..i], checkfilename, algorithm, checksum)
      {
        var row := rows[i];
        if StrippedKey(row, checkfilename, algorithm) {
          row := row.(checksum := checksum);
        }
        written := written + [Row(row.filename, row.algorithm, row.checksum, [])];
        assert rows[..i + 1][..i] == rows[..i];
        i := i + 1;
      }
      assert rows[..i] == rows;
      header, rows := FieldNames, written;
      outcome := Done;
    }

    /** get_stored_checksum_from_csv: a scan that returns at the first row
        whose filename and algorithm are equal to the given ones. */
    method GetStoredChecksum(checkfilename: string, algorithm: string := "blake2b")
      returns (r: Result<Option<string>>)
      ensures !isFile ==> r == Err(FileNotFound)
      ensures isFile ==> r == Ok(StoredChecksum(rows, checkfilename, algorithm))
    {
      if !isFile {
        return Err(FileNotFound);
      }
      var i := 0;
      while i < |rows|
        invariant 0 <= i <= |rows|
        invariant forall j :: 0 <= j < i ==> !ExactKey(rows[j], checkfilename, algorithm)
      {
        if rows[i].filename == checkfilename && rows[i].algorithm == algorithm {
          return Ok(Some(rows[i].checksum));
        }
        i := i + 1;
      }
      return Ok(None);
    }

    /** check_file_against_csv: None when nothing is stored, otherwise whether
        the stored checksum equals a fresh one. */
    method CheckFile(lib: HashLib, fs: FileSystem, checkfilename: string, algorithm: string := "blake2b")
      returns (r: Result<Option<bool>>)
      requires checkfilename in fs
      ensures r == CheckAgainst(State(), lib, fs[checkfilename], checkfilename, algorithm)
    {
      var stored := GetStoredChecksum(checkfilename, algorithm);
      if stored.Err? {
        return Err(stored.failure);
      }
      if stored.value.Some? {
        var computed := CreateChecksum(lib, fs, checkfilename, algorithm);
        r := Ok(Some(computed == stored.value));
      } else {
        r := Ok(None);
      }
    }
  }

  /** Storing under a key that has no exact match makes the new row the one a
      lookup finds; under a key that has one, the earlier row still wins. */
  lemma {:induction false} StoreThenLookup(rows: seq<Row>, filename: string, checksum: string, algorithm: string)
    ensures StoredChecksum(rows + [Row(filename, algorithm, checksum, [])], filename, algorithm)
            == if StoredChecksum(rows, filename, algorithm).Some? then StoredChecksum(rows, filename, algorithm)
               else Some(checksum)
  {
    var grown := rows + [Row(filename, algorithm, checksum, [])];
    match FirstMatchAt(rows, filename, algorithm)
    case None =>
      assert ExactKey(grown[|rows|], filename, algorithm);
      assert FirstMatchAt(grown, filename, algorithm) == Some(|rows|);
    case Some(k) =>
      assert grown[k] == rows[k];
      assert FirstMatchAt(grown, filename, algorithm) == Some(k);
  }

  /** Storing a row leaves the lookup of every other key as it was. */
  lemma StoreKeepsOtherKeys(rows: seq<Row>, filename: string, checksum: string, algorithm: string,
                            otherName: string, otherAlgorithm: string)
    requires otherName != filename || otherAlgorithm != algorithm
    ensures StoredChecksum(rows + [Row(filename, algorithm, checksum, [])], otherName, otherAlgorithm)
            == StoredChecksum(rows, otherName, otherAlgorithm)
  {
    var grown := rows + [Row(filename, algorithm, checksum, [])];
    match FirstMatchAt(rows, otherName, otherAlgorithm)
    case None =>
      forall j | 0 <= j < |grown| ensures !ExactKey(grown[j], otherName, otherAlgorithm) {
        if j < |rows| {
          assert grown[j] == rows[j];
        }
      }
    case Some(k) =>
      assert grown[k] == rows[k];
      assert FirstMatchAt(grown, otherName, otherAlgorithm) == Some(k);
  }

  /** After a rewrite, a lookup of a key that was present finds the new checksum. */
  lemma UpdateThenLookup(rows: seq<Row>, filename: string, checksum: string, algorithm: string)
    requires StoredChecksum(rows, filename, algorithm).Some?
    ensures StoredChecksum(Rewrite(rows, filename, algorithm, checksum), filename, algorithm) == Some(checksum)
  {
    var k := FirstMatchAt(rows, filename, algorithm).value;
    var out := Rewrite(rows, filename, algorithm, checksum);
    SameKeysSameMatch(out, rows, filename, algorithm);
    assert StrippedKey(rows[k], filename, algorithm);
  }

  /** A rewrite leaves the lookup of every key whose stripped form differs
      from the updated one as it was. */
  lemma UpdateKeepsOtherKeys(rows: seq<Row>, filename: string, checksum: string, algorithm: string,
                             otherName: string, otherAlgorithm: string)
    requires Strip(otherName) != Strip(filename) || Strip(otherAlgorithm) != Strip(algorithm)
    ensures StoredChecksum(Rewrite(rows, filename, algorithm, checksum), otherName, otherAlgorithm)
            == StoredChecksum(rows, otherName, otherAlgorithm)
  {
    var out := Rewrite(rows, filename, algorithm, checksum);
    SameKeysSameMatch(out, rows, otherName, otherAlgorithm);
    match FirstMatchAt(rows, otherName, otherAlgorithm)
    case None =>
    case Some(k) =>
      assert !StrippedKey(rows[k], filename, algorithm);
  }

  // ---------------------------------------------------------------------------
  // The update matches stripped keys while the lookup matches exact ones.

  /** Two distinct file names that strip to the same key: the update of one
      also overwrites the checksum the lookup finds for the other. */
  lemma StripCollisionCounterexample()
    ensures var rows := [Row("/d/x", "blake2b", "c1", []), Row("/d/x ", "blake2b", "c2", [])];
            StoredChecksum(rows, "/d/x ", "blake2b") == Some("c2") &&
            StoredChecksum(Rewrite(rows, "/d/x", "blake2b", "c3"), "/d/x ", "blake2b") == Some("c3")
  {
    var rows := [Row("/d/x", "blake2b", "c1", []), Row("/d/x ", "blake2b", "c2", [])];
    assert Strip("/d/x ") == "/d/x" by {
      assert TrimLeft("/d/x ") == "/d/x ";
      assert ("/d/x ")[..4] == "/d/x";
      assert TrimRight("/d/x ") == TrimRight("/d/x");
    }
    assert Strip("/d/x") == "/d/x" by {
      assert TrimLeft("/d/x") == "/d/x";
      assert TrimRight("/d/x") == "/d/x";
    }
    assert Strip("blake2b") == "blake2b" by {
      assert TrimLeft("blake2b") == "blake2b";
      assert TrimRight("blake2b") == "blake2b";
    }
    assert !ExactKey(rows[0], "/d/x ", "blake2b");
    assert FirstMatchAt(rows, "/d/x ", "blake2b") == Some(1);
    var out := Rewrite(rows, "/d/x", "blake2b", "c3");
    SameKeysSameMatch(out, rows, "/d/x ", "blake2b");
    assert StrippedKey(rows[1], "/d/x", "blake2b");
  }

  /** The rewrite with the lookup's own exact match: the row stored for the
      key, and no other, gets the new checksum. */
  function RewriteExact(rows: seq<Row>, filename: string, algorithm: string, checksum: string): (r: seq<Row>)
    ensures |r| == |rows|
    ensures forall i :: 0 <= i < |rows| ==>
              r[i].filename == rows[i].filename && r[i].algorithm == rows[i].algorithm && r[i].extra == []
    ensures forall i :: 0 <= i < |rows| ==>
              r[i].checksum == if ExactKey(rows[i], filename, algorithm) then checksum else rows[i].checksum
  {
    if rows == [] then []
    else
      var last := rows[|rows| - 1];
      var written := if ExactKey(last, filename, algorithm) then checksum else last.checksum;
      RewriteExact(rows[..|rows| - 1], filename, algorithm, checksum) + [Row(last.filename, last.algorithm, written, [])]
  }

  /** After the exact rewrite, a lookup of a key that was present finds the new checksum. */
  lemma RewriteExactThenLookup(rows: seq<Row>, filename: string, checksum: string, algorithm: string)
    requires StoredChecksum(rows, filename, algorithm).Some?
    ensures StoredChecksum(RewriteExact(rows, filename, algorithm, checksum), filename, algorithm) == Some(checksum)
  {
    var k := FirstMatchAt(rows, filename, algorithm).value;
    var out := RewriteExact(rows, filename, algorithm, checksum);
    assert FirstMatchAt(out, filename, algorithm) == Some(k);
  }

  /** The exact rewrite leaves the lookup of every other key as it was, however
      the two keys compare after stripping. */
  lemma RewriteExactKeepsOtherKeys(rows: seq<Row>, filename: string, checksum: string, algorithm: string,
                                   otherName: string, otherAlgorithm: string)
    requires otherName != filename || otherAlgorithm != algorithm
    ensures StoredChecksum(RewriteExact(rows, filename, algorithm, checksum), otherName, otherAlgorithm)
            == StoredChecksum(rows, otherName, otherAlgorithm)
  {
    var out := RewriteExact(rows, filename, algorithm, checksum);
    match FirstMatchAt(rows, otherName, otherAlgorithm)
    case None =>
      forall j | 0 <= j < |out| ensures !ExactKey(out[j], otherName, otherAlgorithm) {
        assert !ExactKey(rows[j], otherName, otherAlgorithm);
      }
    case Some(k) =>
      assert !ExactKey(rows[k], filename, algorithm);
      assert FirstMatchAt(out, otherName, otherAlgorithm) == Some(k);
  }
}
