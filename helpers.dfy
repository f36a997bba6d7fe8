/** The stateless helpers: the parameterised file-extension check and the
    summary report over a list of scored students. */
module Helpers {
  import opened Text
  import opened Optional

  /** A file is allowed when its name contains a dot and the text after the
      LAST dot, lower-cased, is one of the allowed extensions. */
  function AllowedFile(filename: string, allowedExtensions: set<string>): (ok: bool)
    ensures ok <==> exists i :: 0 <= i < |filename| && filename[i] == '.'
                               && (forall j :: i < j < |filename| ==> filename[j] != '.')
                               && Lower(filename[i + 1..]) in allowedExtensions
  {
    var d := LastIndexOf(filename, '.');
    d >= 0 && Lower(filename[d + 1..]) in allowedExtensions
  }

  /** A name without a dot is never allowed, whatever the extension set. */
  lemma DotlessRejected(filename: string, allowedExtensions: set<string>)
    requires '.' !in filename
    ensures !AllowedFile(filename, allowedExtensions)
  {
  }

  /** The check ignores letter case. */
  lemma AllowedFileCaseInsensitive(filename: string, allowedExtensions: set<string>)
    ensures AllowedFile(Lower(filename), allowedExtensions) == AllowedFile(filename, allowedExtensions)
  {
    var low := Lower(filename);
    var d := LastIndexOf(filename, '.');
    LowerKeepsLastDot(filename);
    assert LastIndexOf(low, '.') == d;
    assert AllowedFile(low, allowedExtensions) == (d >= 0 && Lower(low[d + 1..]) in allowedExtensions);
    assert AllowedFile(filename, allowedExtensions)
           == (d >= 0 && Lower(filename[d + 1..]) in allowedExtensions);
    if d >= 0 {
      var seg := filename[d + 1..];
      LowerSuffix(filename, d + 1);
      assert low[d + 1..] == Lower(seg);
      LowerIdempotent(seg);
      assert Lower(low[d + 1..]) == Lower(seg);
    }
  }

  /** Only the last extension counts, and upper case is accepted. */
  lemma LastExtensionOnly()
    ensures !AllowedFile("a.csv.exe", {"csv"})
    ensures AllowedFile("A.CSV", {"csv"})
  {
    var bad, good := "a.csv.exe", "A.CSV";
    assert bad[5] == '.' && bad[6] == 'e' && bad[7] == 'x' && bad[8] == 'e';
    assert LastIndexOf(bad, '.') == 5;
    assert bad[6..] == "exe";
    assert good[1] == '.' && good[2] == 'C' && good[3] == 'S' && good[4] == 'V';
    assert LastIndexOf(good, '.') == 1;
    assert good[2..] == "CSV";
    assert Lower("CSV") == "csv";
  }

  /** One record handed to the report: a score and an optional subject. */
  datatype ScoredStudent = ScoredStudent(score: real, subject: Option<string>)

  datatype ScoreRange = ScoreRange(min: real, max: real, average: real)

  datatype Report = Report(totalStudents: nat, subjects: set<string>, scoreRange: ScoreRange)

  /** What `generate_report` does: return a summary, return None, or raise
      (`min` of an empty sequence raises ValueError). */
  datatype ReportOutcome = Summary(report: Report) | NoReport | RaisesValueError

  /** A student's subject, `General` when it has none. */
  function SubjectOf(s: ScoredStudent): string {
    match s.subject
    case Some(name) => name
    case None => "General"
  }

  function SubjectSet(students: seq<ScoredStudent>): (r: set<string>)
    ensures forall x :: x in r <==> exists i :: 0 <= i < |students| && SubjectOf(students[i]) == x
  {
    set i | 0 <= i < |students| :: SubjectOf(students[i])
  }

  function MinScore(students: seq<ScoredStudent>): (m: real)
    requires students != []
    ensures exists i :: 0 <= i < |students| && students[i].score == m
    ensures forall i :: 0 <= i < |students| ==> m <= students[i].score
  {
    if |students| == 1 then students[0].score
    else
      var rest := MinScore(students[1..]);
      assert forall i :: 1 <= i < |students| ==> students[i] == students[1..][i - 1];
      if students[0].score <= rest then students[0].score else rest
  }

  function MaxScore(students: seq<ScoredStudent>): (m: real)
    requires students != []
    ensures exists i :: 0 <= i < |students| && students[i].score == m
    ensures forall i :: 0 <= i < |students| ==> students[i].score <= m
  {
    if |students| == 1 then students[0].score
    else
      var rest := MaxScore(students[1..]);
      assert forall i :: 1 <= i < |students| ==> students[i] == students[1..][i - 1];
      if students[0].score >= rest then students[0].score else rest
  }

  function SumScores(students: seq<ScoredStudent>): real {
    if students == [] then 0.0 else students[0].score + SumScores(students[1..])
  }

  /** The sum of the scores lies between |students| times the least and
      |students| times the greatest score. */
  lemma {:induction false} SumBetween(students: seq<ScoredStudent>, lo: real, hi: real)
    requires forall i :: 0 <= i < |students| ==> lo <= students[i].score <= hi
    ensures |students| as real * lo <= SumScores(students) <= |students| as real * hi
  {
    if students != [] {
      var rest := students[1..];
      assert forall i :: 0 <= i < |rest| ==> rest[i] == students[i + 1];
      SumBetween(rest, lo, hi);
      var k := |rest| as real;
      var first, others := students[0].score, SumScores(rest);
      var klo, khi := k * lo, k * hi;
      assert klo <= others <= khi;
      assert lo <= first <= hi;
      assert SumScores(students) == first + others;
      assert |students| as real == k + 1.0;
      assert |students| as real * lo == klo + lo;
      assert |students| as real * hi == khi + hi;
    }
  }

  lemma MeanBetween(total: real, n: real, lo: real, hi: real)
    requires n > 0.0 && n * lo <= total <= n * hi
    ensures lo <= total / n <= hi
  {
    var m := total / n;
    assert total == n * m;
  }

  /** The mean score of a non-empty list lies between its least and its
      greatest score. */
  function Mean(students: seq<ScoredStudent>): (m: real)
    requires students != []
    ensures MinScore(students) <= m <= MaxScore(students)
  {
    var lo, hi := MinScore(students), MaxScore(students);
    var n := |students| as real;
    SumBetween(students, lo, hi);
    MeanBetween(SumScores(students), n, lo, hi);
    SumScores(students) / n
  }

  /** The statistics of a non-empty list: its size, its distinct subjects,
      and the lowest, highest and mean score, the mean lying between the
      other two and both extremes being scores of some student. */
  function Summarize(students: seq<ScoredStudent>): (rep: Report)
    requires students != []
    ensures rep.totalStudents == |students|
    ensures forall x :: x in rep.subjects <==>
              exists i :: 0 <= i < |students| && SubjectOf(students[i]) == x
    ensures rep.scoreRange.average == SumScores(students) / |students| as real
    ensures rep.scoreRange.min <= rep.scoreRange.average <= rep.scoreRange.max
    ensures exists i :: 0 <= i < |students| && students[i].score == rep.scoreRange.min
    ensures exists i :: 0 <= i < |students| && students[i].score == rep.scoreRange.max
    ensures forall i :: 0 <= i < |students| ==>
              rep.scoreRange.min <= students[i].score <= rep.scoreRange.max
  {
    Report(|students|, SubjectSet(students),
           ScoreRange(MinScore(students), MaxScore(students), Mean(students)))
  }

  /** The summary report. Only report type `summary` (the default) yields a
      report; an empty list raises. */
  function GenerateReport(students: seq<ScoredStudent>, reportType: string := "summary"): (r: ReportOutcome)
    ensures reportType != "summary" ==> r == NoReport
    ensures reportType == "summary" && students == [] ==> r == RaisesValueError
    ensures reportType == "summary" && students != [] ==> r == Summary(Summarize(students))
  {
    if reportType != "summary" then NoReport
    else if students == [] then RaisesValueError
    else Summary(Summarize(students))
  }
}
