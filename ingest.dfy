/** Upload ingestion of the web application: the server's file-type check,
    the choice of spreadsheet reader, the required-column check and the
    construction of one student draft per parsed row. */
module Ingest {
  import opened Text
  import opened Optional
  import opened Grading
  import Config
  import Helpers

  /** The server's own file check: the configured extension set. */
  function AllowedFile(filename: string): (ok: bool)
    ensures ok <==> exists i :: 0 <= i < |filename| && filename[i] == '.'
                               && (forall j :: i < j < |filename| ==> filename[j] != '.')
                               && Lower(filename[i + 1..]) in {"csv", "xlsx"}
  {
    Helpers.AllowedFile(filename, Config.AllowedExtensions)
  }

  /** `.xls` is not accepted by the server. */
  lemma XlsRejected()
    ensures !AllowedFile("marks.xls")
  {
    var f := "marks.xls";
    assert f[5] == '.' && f[6] == 'x' && f[7] == 'l' && f[8] == 's';
    assert LastIndexOf(f, '.') == 5;
    assert f[6..] == "xls";
    assert Lower("xls") == "xls";
  }

  /** Which pandas reader parses the upload. */
  datatype Reader = CsvReader | ExcelReader

  predicate EndsWith(s: string, suffix: string) {
    |suffix| <= |s| && s[|s| - |suffix|..] == suffix
  }

  /** The reader choice as written: a case-sensitive test for `.csv`. */
  function ReaderAsWritten(filename: string): (r: Reader)
    ensures r == CsvReader ==> ReaderFor(filename) == CsvReader
  {
    if EndsWith(filename, ".csv") then
      CsvSuffixSurvivesLower(filename);
      CsvReader
    else ExcelReader
  }

  /** A `.csv` ending is still there after lower-casing. */
  lemma CsvSuffixSurvivesLower(filename: string)
    requires EndsWith(filename, ".csv")
    ensures EndsWith(Lower(filename), ".csv")
  {
    var n := |filename|;
    LowerSuffix(filename, n - 4);
    assert filename[n - 4..] == ".csv";
    assert Lower(".csv") == ".csv";
  }

  /** The as-written choice sends an accepted upper-case CSV name to the
      Excel reader. */
  lemma UpperCaseCsvGoesToExcel()
    ensures AllowedFile("MARKS.CSV")
    ensures ReaderAsWritten("MARKS.CSV") == ExcelReader
  {
    var f := "MARKS.CSV";
    assert f[5] == '.' && f[6] == 'C' && f[7] == 'S' && f[8] == 'V';
    assert LastIndexOf(f, '.') == 5;
    assert f[6..] == "CSV";
    assert Lower("CSV") == "csv";
    assert f[5..] != ".csv" by { assert f[6] != ".csv"[1]; }
  }

  /** The two reader choices differ exactly on names that end in `.csv`
      only once lower-cased, such as `MARKS.CSV`. */
  lemma ReaderChoicesDiffer(filename: string)
    ensures ReaderAsWritten(filename) != ReaderFor(filename)
            <==> EndsWith(Lower(filename), ".csv") && !EndsWith(filename, ".csv")
  {
    if EndsWith(filename, ".csv") {
      CsvSuffixSurvivesLower(filename);
    }
  }

  /** The reader choice with the same case folding as `AllowedFile`. */
  function ReaderFor(filename: string): (r: Reader)
    ensures r == CsvReader ==> |filename| >= 4 && filename[|filename| - 4] == '.'
  {
    if EndsWith(Lower(filename), ".csv") then CsvReader else ExcelReader
  }

  /** The name's last extension, lower-cased, is `csv`. */
  predicate HasCsvExtension(filename: string) {
    exists i :: 0 <= i < |filename| && filename[i] == '.'
                && (forall j :: i < j < |filename| ==> filename[j] != '.')
                && Lower(filename[i + 1..]) == "csv"
  }

  /** The corrected choice picks the CSV reader exactly when the name's last
      extension is `csv` in any letter case. */
  lemma ReaderForMatchesExtension(filename: string)
    ensures ReaderFor(filename) == CsvReader <==> HasCsvExtension(filename)
  {
    if ReaderFor(filename) == CsvReader {
      CsvReaderHasCsvExtension(filename);
    }
    if HasCsvExtension(filename) {
      var i :| 0 <= i < |filename| && filename[i] == '.'
               && (forall j :: i < j < |filename| ==> filename[j] != '.')
               && Lower(filename[i + 1..]) == "csv";
      CsvExtensionGetsCsvReader(filename, i);
    }
  }

  lemma CsvReaderHasCsvExtension(filename: string)
    requires EndsWith(Lower(filename), ".csv")
    ensures HasCsvExtension(filename)
  {
    var n := |filename|;
    var low := Lower(filename);
    var i := n - 4;
    assert low[i..] == ".csv";
    assert low[i] == '.';
    assert filename[i] == '.';
    forall j | i < j < n ensures filename[j] != '.' {
      assert low[j] == ".csv"[j - i];
    }
    LowerSuffix(filename, i + 1);
    assert low[i + 1..] == "csv";
  }

  lemma CsvExtensionGetsCsvReader(filename: string, i: nat)
    requires i < |filename| && filename[i] == '.'
    requires Lower(filename[i + 1..]) == "csv"
    ensures EndsWith(Lower(filename), ".csv")
  {
    var low := Lower(filename);
    LowerSuffix(filename, i + 1);
    assert |filename[i + 1..]| == 3;
    assert low[i] == '.';
    assert low[i..] == [low[i]] + low[i + 1..];
  }

  /** The columns every upload must carry, in the order they are reported. */
  const RequiredColumns: seq<string> :=
    ["first_name", "last_name", "email", "class",
     "final_english", "final_english_it", "final_pl",
     "final_algorithm", "final_web_design", "final_git"]

  /** The required columns absent from the header, in required-list order. */
  function MissingColumns(required: seq<string>, columns: seq<string>): (missing: seq<string>)
    ensures forall c :: c in missing <==> c in required && c !in columns
    ensures IsSubsequence(missing, required)
  {
    if required == [] then []
    else if required[0] in columns then MissingColumns(required[1..], columns)
    else [required[0]] + MissingColumns(required[1..], columns)
  }

  /** A header that lacks `email` is reported as missing exactly that column
      when the others are present. */
  lemma MissingEmailReported(columns: seq<string>)
    requires "email" !in columns
    requires forall c :: c in RequiredColumns && c != "email" ==> c in columns
    ensures MissingColumns(RequiredColumns, columns) == ["email"]
  {
    forall j | 0 <= j < |RequiredColumns| && j != 2
      ensures RequiredColumns[j] in columns
    {
      assert RequiredColumns[j] in RequiredColumns;
      assert |RequiredColumns[j]| != 5 || RequiredColumns[j][0] != 'e';
    }
    MissingExactlyOne(RequiredColumns, columns, 2);
  }

  /** When exactly one required column is absent, that column alone is reported. */
  lemma {:induction false} MissingExactlyOne(required: seq<string>, columns: seq<string>, k: nat)
    requires k < |required| && required[k] !in columns
    requires forall j :: 0 <= j < |required| && j != k ==> required[j] in columns
    ensures MissingColumns(required, columns) == [required[k]]
  {
    if k == 0 {
      MissingNoneWhenAllPresent(required[1..], columns);
    } else {
      MissingExactlyOne(required[1..], columns, k - 1);
    }
  }

  lemma {:induction false} MissingNoneWhenAllPresent(required: seq<string>, columns: seq<string>)
    requires forall k :: 0 <= k < |required| ==> required[k] in columns
    ensures MissingColumns(required, columns) == []
  {
    if required != [] {
      MissingNoneWhenAllPresent(required[1..], columns);
    }
  }

  /** The six subject scores of a row, in sheet order. */
  datatype Scores = Scores(english: real, englishIt: real, professionalLife: real,
                           algorithm: real, webDesign: real, git: real)

  function Total(s: Scores): real {
    s.english + s.englishIt + s.professionalLife + s.algorithm + s.webDesign + s.git
  }

  /** One parsed sheet row; `comments` is None when the sheet has no such field. */
  datatype Row = Row(firstName: string, lastName: string, email: string, className: string,
                     scores: Scores, comments: Option<string>)

  /** A parsed sheet: header and rows. */
  datatype Sheet = Sheet(columns: seq<string>, rows: seq<Row>)

  /** A student record before it is stored. */
  datatype Draft = Draft(studentId: string, firstName: string, lastName: string,
                         email: string, className: string, scores: Scores,
                         total: real, grade: Grade, comments: string)

  const DefaultComment := "Good work! Keep it up."

  /** The derived fields agree with the scores. */
  predicate Consistent(d: Draft) {
    d.total == Total(d.scores) && d.grade == CalculateGrade(d.total)
  }

  /** The draft for one row; `token` is the random hex token of its id. */
  function MakeDraft(row: Row, token: string): (d: Draft)
    ensures Consistent(d)
    ensures StartsWith(d.studentId, "STU")
    ensures d.scores == row.scores && d.email == row.email
    ensures d.firstName == row.firstName && d.lastName == row.lastName
    ensures d.className == row.className
    ensures row.comments.None? ==> d.comments == DefaultComment
    ensures row.comments.Some? ==> d.comments == row.comments.value
  {
    var total := Total(row.scores);
    Draft("STU" + Upper(token), row.firstName, row.lastName, row.email, row.className,
          row.scores, total, CalculateGrade(total),
          match row.comments case Some(c) => c case None => DefaultComment)
  }

  /** The worked example: scores 80, 75, 90, 85, 70, 95 total 495, grade A. */
  lemma ExampleTotal(token: string)
    ensures MakeDraft(Row("Ana", "Li", "ana@example.org", "C1",
                          Scores(80.0, 75.0, 90.0, 85.0, 70.0, 95.0), None), token).total == 495.0
    ensures MakeDraft(Row("Ana", "Li", "ana@example.org", "C1",
                          Scores(80.0, 75.0, 90.0, 85.0, 70.0, 95.0), None), token).grade == A
  {
  }

  /** The draft loop of the upload route: one draft per row, in row order,
      the i-th drawing the i-th generated token. */
  method BuildDrafts(rows: seq<Row>, tokens: nat -> string) returns (drafts: seq<Draft>)
    ensures |drafts| == |rows|
    ensures forall i :: 0 <= i < |rows| ==> drafts[i] == MakeDraft(rows[i], tokens(i))
    ensures forall i :: 0 <= i < |rows| ==>
              Consistent(drafts[i]) && drafts[i].scores == rows[i].scores
              && drafts[i].email == rows[i].email
  {
    drafts := [];
    var i := 0;
    while i < |rows|
      invariant 0 <= i <= |rows|
      invariant |drafts| == i
      invariant forall k :: 0 <= k < i ==> drafts[k] == MakeDraft(rows[k], tokens(k))
    {
      drafts := drafts + [MakeDraft(rows[i], tokens(i))];
      i := i + 1;
    }
  }

  /** Why an upload is refused before anything is stored. */
  datatype UploadError =
    | NoFileSelected
    | InvalidFileType
    | ProcessingError
    | MissingRequiredColumns(columns: seq<string>)

  datatype Checked = Accepted(sheet: Sheet) | Rejected(error: UploadError)

  /** The checks of the upload route, in the route's order: a file with a
      name, an allowed extension, a sheet the reader can parse (`parse`
      stands for pandas and returns None when it raises), and every required
      column present. */
  function CheckUpload(file: Option<string>, parse: Reader -> Option<Sheet>): (r: Checked)
    ensures (file.None? || file.value == "") <==> r == Rejected(NoFileSelected)
    ensures r.Accepted? <==>
      && file.Some? && file.value != "" && AllowedFile(file.value)
      && parse(ReaderFor(file.value)).Some?
      && MissingColumns(RequiredColumns, parse(ReaderFor(file.value)).value.columns) == []
    ensures r.Accepted? ==> r.sheet == parse(ReaderFor(file.value)).value
                            && forall c :: c in RequiredColumns ==> c in r.sheet.columns
    ensures r.Rejected? && r.error.MissingRequiredColumns? ==>
      && file.Some? && AllowedFile(file.value) && parse(ReaderFor(file.value)).Some?
      && r.error.columns != []
      && forall c :: c in r.error.columns <==>
           c in RequiredColumns && c !in parse(ReaderFor(file.value)).value.columns
    ensures file.Some? && file.value != "" && !AllowedFile(file.value) ==> r == Rejected(InvalidFileType)
    ensures (file.Some? && file.value != "" && AllowedFile(file.value)
             && parse(ReaderFor(file.value)).None?) ==> r == Rejected(ProcessingError)
  {
    match file
    case None => Rejected(NoFileSelected)
    case Some(name) =>
      if name == "" then Rejected(NoFileSelected)
      else if !AllowedFile(name) then Rejected(InvalidFileType)
      else match parse(ReaderFor(name))
        case None => Rejected(ProcessingError)
        case Some(sheet) =>
          var missing := MissingColumns(RequiredColumns, sheet.columns);
          if missing != [] then Rejected(MissingRequiredColumns(missing)) else Accepted(sheet)
  }
}
