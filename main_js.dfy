/** The browser front end: its own copy of the grade bands, the colour of
    each band, and the client-side file check that guards the selected file. */
module MainJs {
  import opened Optional
  import opened Text
  import opened Grading
  import Ingest

  /** The front end's grade chain; it picks the letter of the shared bands. */
  function ClientGrade(score: real): (letter: string)
    ensures letter == Letter(CalculateGrade(score))
  {
    if score >= 90.0 then "A"
    else if score >= 80.0 then "B"
    else if score >= 70.0 then "C"
    else if score >= 60.0 then "D"
    else "F"
  }

  const Green := "text-green-600"
  const Blue := "text-blue-600"
  const Yellow := "text-yellow-600"
  const Orange := "text-orange-600"
  const Red := "text-red-600"

  /** The colour class of each grade. */
  function ColorFor(g: Grade): string {
    match g
    case A => Green
    case B => Blue
    case C => Yellow
    case D => Orange
    case F => Red
  }

  /** Distinct grades are shown in distinct colours. */
  lemma ColorForInjective(g1: Grade, g2: Grade)
    requires ColorFor(g1) == ColorFor(g2)
    ensures g1 == g2
  {
    assert ColorFor(g1)[5] == ColorFor(g2)[5];
  }

  /** The colour chain uses the grade bands: the colour of a score is the
      colour of its grade. */
  function GradeColor(score: real): (c: string)
    ensures c == ColorFor(CalculateGrade(score))
  {
    if score >= 90.0 then Green
    else if score >= 80.0 then Blue
    else if score >= 70.0 then Yellow
    else if score >= 60.0 then Orange
    else Red
  }

  /** Letter and colour always agree: two scores share a colour exactly when
      they share a grade. */
  lemma ColorAgreesWithGrade(s1: real, s2: real)
    ensures GradeColor(s1) == GradeColor(s2) <==> ClientGrade(s1) == ClientGrade(s2)
  {
    if GradeColor(s1) == GradeColor(s2) {
      ColorForInjective(CalculateGrade(s1), CalculateGrade(s2));
    }
    if ClientGrade(s1) == ClientGrade(s2) {
      LetterInjective(CalculateGrade(s1), CalculateGrade(s2));
    }
  }

  /** The extensions the page accepts, with their leading dot. */
  const ClientExtensions: set<string> := {".csv", ".xlsx", ".xls"}

  /** The extension the page derives: a dot, then the lower-cased text after
      the last dot. */
  function ExtensionOf(name: string): (e: string)
    ensures |e| >= 1 && e[0] == '.'
    ensures forall i :: 1 <= i < |e| ==> e[i] != '.'
  {
    var d := LastIndexOf(name, '.');
    "." + Lower(name[d + 1..])
  }

  /** The page's file check: the derived extension is an accepted one. */
  function ClientAccepts(name: string): (ok: bool)
    ensures ok <==> ExtensionOf(name)[1..] in BareExtensions
  {
    var e := ExtensionOf(name);
    DottedLookup(e[1..]);
    assert e == "." + e[1..];
    e in ClientExtensions
  }

  /** The accepted extensions without their dot. */
  const BareExtensions: set<string> := {"csv", "xlsx", "xls"}

  /** Prefixing a dot and looking the result up in the dotted list is the
      same as looking the bare text up. */
  lemma DottedLookup(x: string)
    ensures "." + x in ClientExtensions <==> x in BareExtensions
  {
    var y := "." + x;
    assert y[1..] == x;
    if y == ".csv" { assert x == ".csv"[1..]; }
    if y == ".xlsx" { assert x == ".xlsx"[1..]; }
    if y == ".xls" { assert x == ".xls"[1..]; }
  }

  /** A position holding a dot (or -1) with no dot after it is the position
      of the last dot (or -1 when there is none). */
  lemma LastDotAt(name: string, i: int)
    requires -1 <= i < |name| && (i == -1 || name[i] == '.')
    requires forall j :: i < j < |name| ==> name[j] != '.'
    ensures i == LastIndexOf(name, '.')
  {
    if i == -1 {
      LastIndexOfAbsent(name, '.');
    }
  }

  /** The check judges the text after the last dot: for `i` the position of
      the last dot, or -1 when there is none (splitting a name without a dot
      yields the whole name), the name passes exactly when that text,
      lower-cased, is an accepted extension. */
  lemma ClientAcceptsLastSegment(name: string, i: int)
    requires -1 <= i < |name| && (i == -1 || name[i] == '.')
    requires forall j :: i < j < |name| ==> name[j] != '.'
    ensures ClientAccepts(name) <==> Lower(name[i + 1..]) in BareExtensions
  {
    ExtensionAfterLastDot(name, i);
    DottedLookup(Lower(name[i + 1..]));
  }

  lemma ExtensionAfterLastDot(name: string, i: int)
    requires -1 <= i < |name| && (i == -1 || name[i] == '.')
    requires forall j :: i < j < |name| ==> name[j] != '.'
    ensures ExtensionOf(name) == "." + Lower(name[i + 1..])
  {
    LastDotAt(name, i);
  }

  /** A name without a dot is judged by its whole text. */
  lemma DotlessJudgedWhole(name: string)
    requires '.' !in name
    ensures ClientAccepts(name) <==> Lower(name) in BareExtensions
  {
    ClientAcceptsLastSegment(name, -1);
    assert name[0..] == name;
  }

  /** The derived extension ignores letter case, and so does the check. */
  lemma ClientAcceptsCaseInsensitive(name: string)
    ensures ExtensionOf(Lower(name)) == ExtensionOf(name)
    ensures ClientAccepts(Lower(name)) == ClientAccepts(name)
  {
    var low := Lower(name);
    var d := LastIndexOf(name, '.');
    LowerKeepsLastDot(name);
    LowerSuffix(name, d + 1);
    var seg := name[d + 1..];
    assert low[d + 1..] == Lower(seg);
    LowerIdempotent(seg);
    assert ExtensionOf(low) == "." + Lower(Lower(seg));
  }

  /** Client and server disagree: the page accepts a file named `csv` and a
      `.xls` file, both of which the server refuses. */
  lemma ClientAcceptsWhatServerRefuses()
    ensures ClientAccepts("csv") && !Ingest.AllowedFile("csv")
    ensures ClientAccepts("marks.xls") && !Ingest.AllowedFile("marks.xls")
  {
    BareCsvAccepted();
    Ingest.XlsRejected();
    XlsAccepted();
  }

  lemma BareCsvAccepted()
    ensures ClientAccepts("csv")
  {
    DotlessCsvAccepted("csv");
  }

  lemma DotlessCsvAccepted(name: string)
    requires |name| == 3 && name[0] == 'c' && name[1] == 's' && name[2] == 'v'
    ensures ClientAccepts(name)
  {
    ClientAcceptsLastSegment(name, -1);
    assert name[0..] == name;
    var low := Lower(name);
    assert low[0] == 'c' && low[1] == 's' && low[2] == 'v';
    assert low == "csv";
  }

  lemma XlsAccepted()
    ensures ClientAccepts("marks.xls")
  {
    var f := "marks.xls";
    assert f[5] == '.' && f[6] == 'x' && f[7] == 'l' && f[8] == 's';
    ClientAcceptsLastSegment(f, 5);
    assert f[6..] == "xls";
    assert Lower("xls") == "xls";
  }

  /** Every name the server accepts passes the client check too. */
  lemma ServerAcceptedPassesClient(name: string)
    requires Ingest.AllowedFile(name)
    ensures ClientAccepts(name)
  {
    var i :| 0 <= i < |name| && name[i] == '.'
             && (forall j :: i < j < |name| ==> name[j] != '.')
             && Lower(name[i + 1..]) in {"csv", "xlsx"};
    ClientAcceptsLastSegment(name, i);
  }

  /** A file picked in the browser. */
  datatype SelectedFile = SelectedFile(name: string, size: nat)

  /** The page controller; it remembers the file chosen for upload. */
  class StudentResultSystem {
    var currentFile: Option<SelectedFile>

    /** The remembered file, if any, passed the client check. */
    ghost predicate Valid()
      reads this
    {
      currentFile.Some? ==> ClientAccepts(currentFile.value.name)
    }

    constructor()
      ensures Valid() && currentFile == None
    {
      currentFile := None;
    }

    /** A selection of `files`: nothing happens for an empty selection; a
        first file that fails the check shows an error notice and leaves
        the remembered file as it was; otherwise it becomes the remembered
        file. */
    method HandleFileSelect(files: seq<SelectedFile>) returns (invalid: bool)
      requires Valid()
      modifies this
      ensures Valid()
      ensures invalid <==> files != [] && !ClientAccepts(files[0].name)
      ensures files == [] || invalid ==> currentFile == old(currentFile)
      ensures files != [] && !invalid ==> currentFile == Some(files[0])
    {
      if files == [] {
        return false;
      }
      var file := files[0];
      var d := LastIndexOf(file.name, '.');
      var extension := "." + Lower(file.name[d + 1..]);
      assert extension == ExtensionOf(file.name);
      if extension !in ClientExtensions {
        return true;
      }
      currentFile := Some(file);
      return false;
    }

    /** Forget the remembered file. */
    method ClearFile()
      modifies this
      ensures Valid() && currentFile == None
    {
      currentFile := None;
    }
  }
}
