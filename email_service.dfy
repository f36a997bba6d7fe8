/** The bulk e-mail service: an hourly rate limiter held in the service
    object, template substitution, and the dispatch loop over the unsent
    rows of the student table. */
module EmailService {
  import opened Optional
  import opened Text
  import opened Grading
  import opened Mail

  // ---------------------------------------------------------------- limiter

  /** Length of one rate-limit window, in seconds. */
  const Window: real := 3600.0

  /** The limiter state: permits granted in the current window and the time
      the window opened. */
  datatype Limiter = Limiter(count: nat, start: real)

  /** The state a check at `now` starts from: a fresh window once a whole
      window has elapsed, the old state otherwise. */
  function Renewed(l: Limiter, now: real): (m: Limiter)
    ensures now - l.start >= Window ==> m == Limiter(0, now)
    ensures now - l.start < Window ==> m == l
  {
    if now - l.start >= Window then Limiter(0, now) else l
  }

  /** One rate-limit check at time `now` with `cap` permits per window:
      whether a permit is granted, and the new state. */
  function RateLimitStep(l: Limiter, now: real, cap: nat): (r: (bool, Limiter))
    ensures r.0 <==> Renewed(l, now).count < cap
    ensures r.1.start == Renewed(l, now).start
    ensures r.1.count == Renewed(l, now).count + (if r.0 then 1 else 0)
    ensures l.count <= cap ==> r.1.count <= cap
  {
    var m := Renewed(l, now);
    if m.count >= cap then (false, m) else (true, m.(count := m.count + 1))
  }

  /** A refusal inside the window changes nothing. */
  lemma RefusalKeepsState(l: Limiter, now: real, cap: nat)
    requires now - l.start < Window && l.count >= cap
    ensures RateLimitStep(l, now, cap) == (false, l)
  {
  }

  /** After a whole window the count restarts, so the check is granted
      whenever the cap is positive. */
  lemma GrantedAfterWindow(l: Limiter, now: real, cap: nat)
    requires now - l.start >= Window && cap > 0
    ensures RateLimitStep(l, now, cap) == (true, Limiter(1, now))
  {
  }

  /** How many of the checks at `times`, made in order, are granted. */
  function Grants(l: Limiter, times: seq<real>, cap: nat): (n: nat)
    ensures n <= |times|
    decreases |times|
  {
    if times == [] then 0
    else
      var (ok, l') := RateLimitStep(l, times[0], cap);
      (if ok then 1 else 0) + Grants(l', times[1..], cap)
  }

  /** Checks that all fall inside the current window are granted at most
      `cap - count` times: no window grants more than `cap` permits. */
  lemma {:induction false} AtMostCapPerWindow(l: Limiter, times: seq<real>, cap: nat)
    requires l.count <= cap
    requires forall i :: 0 <= i < |times| ==> times[i] - l.start < Window
    ensures Grants(l, times, cap) <= cap - l.count
    decreases |times|
  {
    if times != [] {
      var (ok, l') := RateLimitStep(l, times[0], cap);
      assert l'.start == l.start;
      AtMostCapPerWindow(l', times[1..], cap);
    }
  }

  /** The service object as far as the limiter goes: the configured cap and
      the two counters the checks update. */
  class Service {
    const rateLimit: nat
    var rateLimitCount: nat
    var rateLimitStart: real

    ghost predicate Valid()
      reads this
    {
      rateLimitCount <= rateLimit
    }

    function State(): Limiter
      reads this
    {
      Limiter(rateLimitCount, rateLimitStart)
    }

    /** A new service: no permits used, window opened at `now`. */
    constructor(rateLimit: nat, now: real)
      ensures Valid()
      ensures this.rateLimit == rateLimit && State() == Limiter(0, now)
    {
      this.rateLimit := rateLimit;
      rateLimitCount := 0;
      rateLimitStart := now;
    }

    /** Take one permit at time `now` if the window has one left. */
    method CheckRateLimit(now: real) returns (ok: bool)
      requires Valid()
      modifies this
      ensures Valid()
      ensures (ok, State()) == RateLimitStep(old(State()), now, rateLimit)
    {
      if now - rateLimitStart >= Window {
        rateLimitCount := 0;
        rateLimitStart := now;
      }
      if rateLimitCount >= rateLimit {
        return false;
      }
      rateLimitCount := rateLimitCount + 1;
      return true;
    }

    /** The bulk dispatch: fetch up to `batchSize` unsent rows, and for each
        take a permit (stopping at the first refusal), render the default
        template and hand the message to the transport; a delivery marks the
        row sent, and every attempt appends one log row. `clock(k)` is the
        time of the k-th attempt, `transport(k, m)` its outcome. The batch
        size defaults to 50. */
    method SendBulkEmails(db: Database, batchSize: int := 50, batchId: string,
                          clock: nat -> real, transport: (nat, Message) -> MailResult,
                          fmt: real -> string)
      returns (resp: BulkResponse)
      requires Valid()
      modifies this, db
      ensures Valid()
      ensures var (r, p) := BulkSend(old(db.students), old(db.emailLogs), db.templates,
                                     old(State()), rateLimit, batchSize, batchId,
                                     clock, transport, fmt);
              resp == r && State() == p.limiter
              && db.students == p.table && db.emailLogs == p.logs
      ensures db.templates == old(db.templates)
    {
      var fetched := Fetch(db.students, batchSize);
      if fetched == [] {
        return NothingToSend;
      }
      if DefaultTemplateName !in db.templates {
        return NoTemplate;
      }
      var queue := Outgoings(fetched, db.templates[DefaultTemplateName], fmt);
      var env := Dispatch(rateLimit, batchId, clock, transport);
      var sent, failed, errors := DispatchLoop(db, queue, env);
      resp := Finished(sent, failed, batchId, ErrorsField(errors));
    }

    /** The loop over the fetched rows and their messages, proved against
        `Run`. */
    method DispatchLoop(db: Database, fetched: seq<Outgoing>, env: Dispatch)
      returns (sent: nat, failed: nat, errors: seq<string>)
      requires Valid() && env.cap == rateLimit
      modifies this, db
      ensures Valid()
      ensures Run(fetched, 0, Progress(old(State()), old(db.students), old(db.emailLogs), 0, 0, []), env)
              == Progress(State(), db.students, db.emailLogs, sent, failed, errors)
      ensures db.templates == old(db.templates)
    {
      ghost var p0 := Progress(State(), db.students, db.emailLogs, 0, 0, []);
      sent, failed, errors := 0, 0, [];
      var i := 0;
      while i < |fetched|
        invariant 0 <= i <= |fetched|
        invariant Valid()
        invariant db.templates == old(db.templates)
        invariant Run(fetched, 0, p0, env)
                  == Run(fetched, i, Progress(State(), db.students, db.emailLogs,
                                              sent, failed, errors), env)
        decreases |fetched| - i
      {
        var o := fetched[i];
        ghost var cur := Progress(State(), db.students, db.emailLogs, sent, failed, errors);
        ghost var c := RateLimitStep(cur.limiter, env.clock(i), rateLimit);
        var ok := CheckRateLimit(env.clock(i));
        assert (ok, State()) == c;
        if !ok {
          errors := errors + ["Rate limit exceeded"];
          assert Run(fetched, i, cur, env)
                 == Progress(State(), db.students, db.emailLogs, sent, failed, errors);
          break;
        }
        sent, failed, errors := AttemptOne(db, o, i, env, State(), sent, failed, errors);
        i := i + 1;
      }
    }

    /** The body of the loop once a permit was granted: send the student's
        message; on delivery mark the student's rows sent and log success,
        on failure log the error and note it. */
    method AttemptOne(db: Database, o: Outgoing, k: nat, env: Dispatch, ghost l: Limiter,
                      sent: nat, failed: nat, errors: seq<string>)
      returns (sent': nat, failed': nat, errors': seq<string>)
      modifies db
      ensures Progress(l, db.students, db.emailLogs, sent', failed', errors')
              == Attempt(Progress(l, old(db.students), old(db.emailLogs), sent, failed, errors),
                         o, k, env)
      ensures db.templates == old(db.templates)
    {
      var s := o.student;
      var at := env.clock(k);
      sent', failed', errors' := sent, failed, errors;
      match env.transport(k, o.message) {
        case Delivered =>
          db.students := MarkSent(db.students, s.id, at);
          db.emailLogs := db.emailLogs + [BulkLog(s.email, s.name, Sent, at, env.batchId)];
          sent' := sent + 1;
        case Raised(e) =>
          failed' := failed + 1;
          errors' := errors + [s.email + ": " + e];
          db.emailLogs := db.emailLogs + [BulkLog(s.email, s.name, Failed(e), at, env.batchId)];
      }
    }
  }

  // -------------------------------------------------------------- templates

  /** One row of the `students` table the service reads. `subject` and
      `semester` are None when the row has no such field. */
  datatype Student = Student(id: int, name: string, email: string, score: real,
                             subject: Option<string>, semester: Option<string>,
                             sent: bool, sentAt: Option<real>)

  /** A stored e-mail template: subject line and HTML body. */
  datatype Template = Template(subject: string, content: string)

  /** The outgoing message: recipient, rendered subject and HTML body. */
  datatype Message = Message(recipient: string, subject: string, html: string)

  const DefaultTemplateName := "Default Template"
  const DefaultSubject := "General"
  const DefaultSemester := "Spring 2024"

  function SubjectOf(s: Student): string {
    match s.subject case Some(v) => v case None => DefaultSubject
  }

  function SemesterOf(s: Student): string {
    match s.semester case Some(v) => v case None => DefaultSemester
  }

  /** The service's own grade chain; it picks the letter of the shared bands. */
  function ServiceGrade(score: real): (letter: string)
    ensures letter == Letter(CalculateGrade(score))
  {
    if score >= 90.0 then "A"
    else if score >= 80.0 then "B"
    else if score >= 70.0 then "C"
    else if score >= 60.0 then "D"
    else "F"
  }

  /** None of `tokens` occurs in `s`. */
  predicate FreeOf(s: string, tokens: seq<string>) {
    forall k :: 0 <= k < |tokens| ==> !Contains(s, tokens[k])
  }

  /** The six body placeholders, in the order they are replaced. */
  const BodyTokens: seq<string> :=
    ["{{student_name}}", "{{subject}}", "{{score}}", "{{grade}}",
     "{{semester}}", "{{custom_message}}"]

  /** The two subject-line placeholders, in the order they are replaced. */
  const SubjectTokens: seq<string> := ["{{subject}}", "{{student_name}}"]

  /** The personalised (subject, body) of a student: the six body
      placeholders are replaced one after the other, each in the text the
      previous replacement produced, then the two subject placeholders.
      `fmt` renders a score as Python's `str` would. A template without any
      placeholder passes through unchanged. */
  function CreatePersonalizedEmail(s: Student, tpl: Template, fmt: real -> string): (r: (string, string))
    ensures FreeOf(tpl.content, BodyTokens) ==> r.1 == tpl.content
    ensures FreeOf(tpl.subject, SubjectTokens) ==> r.0 == tpl.subject
  {
    var c1 := ReplaceAll(tpl.content, "{{student_name}}", s.name);
    var c2 := ReplaceAll(c1, "{{subject}}", SubjectOf(s));
    var c3 := ReplaceAll(c2, "{{score}}", fmt(s.score));
    var c4 := ReplaceAll(c3, "{{grade}}", ServiceGrade(s.score));
    var c5 := ReplaceAll(c4, "{{semester}}", SemesterOf(s));
    var c6 := ReplaceAll(c5, "{{custom_message}}", CustomMessage(s.score));
    var s1 := ReplaceAll(tpl.subject, "{{subject}}", SubjectOf(s));
    var s2 := ReplaceAll(s1, "{{student_name}}", s.name);
    assert FreeOf(tpl.content, BodyTokens) ==>
             c1 == tpl.content && c2 == tpl.content && c3 == tpl.content
             && c4 == tpl.content && c5 == tpl.content && c6 == tpl.content by {
      if FreeOf(tpl.content, BodyTokens) {
        assert !Contains(tpl.content, BodyTokens[0]) && !Contains(tpl.content, BodyTokens[1]);
        assert !Contains(tpl.content, BodyTokens[2]) && !Contains(tpl.content, BodyTokens[3]);
        assert !Contains(tpl.content, BodyTokens[4]) && !Contains(tpl.content, BodyTokens[5]);
      }
    }
    assert FreeOf(tpl.subject, SubjectTokens) ==> s1 == tpl.subject && s2 == tpl.subject by {
      if FreeOf(tpl.subject, SubjectTokens) {
        assert !Contains(tpl.subject, SubjectTokens[0]) && !Contains(tpl.subject, SubjectTokens[1]);
      }
    }
    (s2, c6)
  }

  /** A body that is just the grade placeholder renders as the letter. */
  lemma GradeTokenRendered(s: Student, subject: string, fmt: real -> string)
    ensures CreatePersonalizedEmail(s, Template(subject, "{{grade}}"), fmt).1
            == Letter(CalculateGrade(s.score))
  {
    var c := "{{grade}}";
    assert !StartsWith(c, "{{score}}") by { assert c[2] != "{{score}}"[2]; }
    assert !Contains(c[1..], "{{score}}");
    assert !Contains(c, "{{score}}");
    ReplaceWhole(c, ServiceGrade(s.score));
  }

  /** An unknown placeholder is left as it is. */
  lemma UnknownTokenKept(s: Student, fmt: real -> string)
    ensures CreatePersonalizedEmail(s, Template("{{name}}", "{{name}}"), fmt)
            == ("{{name}}", "{{name}}")
  {
  }

  /** Replacements cascade: a name that itself reads `{{grade}}` is expanded
      again by the later grade replacement. */
  lemma NameTokensCascade(s: Student, subject: string, fmt: real -> string)
    requires s.name == "{{grade}}"
    ensures CreatePersonalizedEmail(s, Template(subject, "{{student_name}}"), fmt).1
            == Letter(CalculateGrade(s.score))
  {
    ReplaceWhole("{{student_name}}", s.name);
    GradeTokenRendered(s, subject, fmt);
  }

  /** A subject line of just `{{subject}}` falls back to `General` when the
      row has no subject. */
  lemma SubjectDefaultsToGeneral(s: Student, content: string, fmt: real -> string)
    requires s.subject.None?
    ensures CreatePersonalizedEmail(s, Template("{{subject}}", content), fmt).0 == "General"
  {
    ReplaceWhole("{{subject}}", DefaultSubject);
  }

  /** The service's placeholders are all well formed. */
  lemma TokensArePlaceholders()
    ensures IsPlaceholder("{{student_name}}") && IsPlaceholder("{{subject}}")
    ensures IsPlaceholder("{{score}}") && IsPlaceholder("{{grade}}")
    ensures IsPlaceholder("{{semester}}") && IsPlaceholder("{{custom_message}}")
  {
  }

  /** A placeholder other than the pattern is left as it is. */
  lemma OtherTokenKept(t: string, pat: string, rep: string)
    requires IsPlaceholder(t) && IsPlaceholder(pat) && t != pat
    ensures ReplaceAll(t, pat, rep) == t
  {
    ReplaceSkipsPlaceholder(t, "", pat, rep);
    assert t + "" == t;
  }

  /** The first four body replacements leave a `{{semester}}` alone. */
  lemma SemesterSurvivesEarlierTokens(s: Student, fmt: real -> string)
    ensures ReplaceAll(ReplaceAll(ReplaceAll(ReplaceAll("{{semester}}",
              "{{student_name}}", s.name), "{{subject}}", SubjectOf(s)),
              "{{score}}", fmt(s.score)), "{{grade}}", ServiceGrade(s.score))
            == "{{semester}}"
  {
    var c := "{{semester}}";
    TokensArePlaceholders();
    OtherTokenKept(c, "{{student_name}}", s.name);
    OtherTokenKept(c, "{{subject}}", SubjectOf(s));
    OtherTokenKept(c, "{{score}}", fmt(s.score));
    OtherTokenKept(c, "{{grade}}", ServiceGrade(s.score));
  }

  /** The custom-message replacement leaves the default semester alone. */
  lemma DefaultSemesterKept(m: string)
    ensures ReplaceAll(DefaultSemester, "{{custom_message}}", m) == DefaultSemester
  {
    var d := DefaultSemester;
    assert NoDoubleBrace(d) by {
      assert forall i :: 0 <= i < |d| ==> d[i] != '{';
    }
    ReplaceSkips(d, "", "{{custom_message}}", m);
    assert d + "" == d;
  }

  /** A body of just `{{semester}}` falls back to `Spring 2024` when the row
      has no semester. */
  lemma SemesterDefaultsToSpring(s: Student, subject: string, fmt: real -> string)
    requires s.semester.None?
    ensures CreatePersonalizedEmail(s, Template(subject, "{{semester}}"), fmt).1 == "Spring 2024"
  {
    SemesterSurvivesEarlierTokens(s, fmt);
    ReplaceWhole("{{semester}}", DefaultSemester);
    DefaultSemesterKept(CustomMessage(s.score));
  }

  /** The value each body placeholder takes for a student, in the order
      the service replaces them. */
  function BodyValues(s: Student, fmt: real -> string): seq<(string, string)> {
    [("{{student_name}}", s.name), ("{{subject}}", SubjectOf(s)),
     ("{{score}}", fmt(s.score)), ("{{grade}}", ServiceGrade(s.score)),
     ("{{semester}}", SemesterOf(s)), ("{{custom_message}}", CustomMessage(s.score))]
  }

  /** The value each subject-line placeholder takes for a student. */
  function SubjectValues(s: Student): seq<(string, string)> {
    [("{{subject}}", SubjectOf(s)), ("{{student_name}}", s.name)]
  }

  /** The body is the six body replacements applied in order. */
  lemma BodyIsChain(s: Student, tpl: Template, fmt: real -> string)
    ensures CreatePersonalizedEmail(s, tpl, fmt).1 == ReplaceChain(tpl.content, BodyValues(s, fmt))
  {
    var vs := BodyValues(s, fmt);
    var c0 := tpl.content;
    var c1 := ReplaceAll(c0, vs[0].0, vs[0].1);
    var c2 := ReplaceAll(c1, vs[1].0, vs[1].1);
    var c3 := ReplaceAll(c2, vs[2].0, vs[2].1);
    var c4 := ReplaceAll(c3, vs[3].0, vs[3].1);
    var c5 := ReplaceAll(c4, vs[4].0, vs[4].1);
    ChainCons(c5, vs[5].0, vs[5].1, []);
    ChainCons(c4, vs[4].0, vs[4].1, vs[5..]);
    ChainCons(c3, vs[3].0, vs[3].1, vs[4..]);
    ChainCons(c2, vs[2].0, vs[2].1, vs[3..]);
    ChainCons(c1, vs[1].0, vs[1].1, vs[2..]);
    ChainCons(c0, vs[0].0, vs[0].1, vs[1..]);
    assert vs == [vs[0]] + vs[1..];
  }

  /** The body values form a substitution when the values replaced before
      the custom message hold no `{{` and do not end in `{`. */
  lemma BodySubstitution(s: Student, fmt: real -> string)
    requires NoDoubleBrace(s.name) && NoDoubleBrace(SubjectOf(s)) && NoDoubleBrace(fmt(s.score))
    requires NoDoubleBrace(SemesterOf(s))
    ensures Substitution(BodyValues(s, fmt))
  {
    TokensArePlaceholders();
    assert NoDoubleBrace(ServiceGrade(s.score));
  }

  /** A body made of placeholders and text without `{{` (CSS rules such as
      `body { ... }` included) renders as that text with every recognised
      placeholder replaced by the student's value and every other
      placeholder kept, provided the values replaced before the last one
      hold no `{{` and do not end in `{`. */
  lemma BodyRendersSlots(s: Student, subject: string, ps: seq<Piece>, fmt: real -> string)
    requires WellCut(ps)
    requires NoDoubleBrace(s.name) && NoDoubleBrace(SubjectOf(s)) && NoDoubleBrace(fmt(s.score))
    requires NoDoubleBrace(SemesterOf(s))
    ensures CreatePersonalizedEmail(s, Template(subject, Source(ps)), fmt).1
            == Fill(ps, BodyValues(s, fmt))
  {
    BodySubstitution(s, fmt);
    ChainFills(ps, BodyValues(s, fmt));
    BodyIsChain(s, Template(subject, Source(ps)), fmt);
  }

  /** The subject line's analogue: its two placeholders are replaced and
      the rest of a well-cut subject line is kept, provided the subject
      holds no `{{` and does not end in `{`. */
  lemma SubjectRendersSlots(s: Student, ps: seq<Piece>, content: string, fmt: real -> string)
    requires WellCut(ps) && NoDoubleBrace(SubjectOf(s))
    ensures CreatePersonalizedEmail(s, Template(Source(ps), content), fmt).0
            == Fill(ps, SubjectValues(s))
  {
    var vs := SubjectValues(s);
    TokensArePlaceholders();
    assert Substitution(vs);
    ChainFills(ps, vs);
    var c0 := Source(ps);
    var c1 := ReplaceAll(c0, vs[0].0, vs[0].1);
    assert ReplaceChain(c0, vs) == ReplaceChain(c1, vs[1..]);
  }

  /** The message for one student. */
  function Compose(s: Student, tpl: Template, fmt: real -> string): (m: Message)
    ensures m.recipient == s.email
    ensures (m.subject, m.html) == CreatePersonalizedEmail(s, tpl, fmt)
  {
    var (subject, html) := CreatePersonalizedEmail(s, tpl, fmt);
    Message(s.email, subject, html)
  }

  // -------------------------------------------------------------- dispatch

  /** One row of the `email_logs` table the service writes. */
  datatype BulkLog = BulkLog(email: string, name: string, status: LogStatus,
                             sentAt: real, batchId: string)

  /** The tables the service reads and writes. */
  class Database {
    var students: seq<Student>
    var emailLogs: seq<BulkLog>
    var templates: map<string, Template>

    constructor(students: seq<Student>, templates: map<string, Template>)
      ensures this.students == students && this.templates == templates
      ensures emailLogs == []
    {
      this.students := students;
      this.templates := templates;
      emailLogs := [];
    }
  }

  /** Number of rows marked sent. */
  function SentCount(table: seq<Student>): (n: nat)
    ensures n <= |table|
  {
    if table == [] then 0 else (if table[0].sent then 1 else 0) + SentCount(table[1..])
  }

  /** The unsent rows, in table order: every unsent row once per occurrence,
      no sent row, and the order of the table kept. */
  function Unsent(table: seq<Student>): (r: seq<Student>)
    ensures forall s :: s in r <==> s in table && !s.sent
    ensures IsSubsequence(r, table)
    ensures |r| == |table| - SentCount(table)
  {
    if table == [] then []
    else if table[0].sent then Unsent(table[1..])
    else [table[0]] + Unsent(table[1..])
  }

  /** The rows `SELECT ... WHERE sent = FALSE LIMIT batchSize` returns; a
      negative limit means no limit, as in SQLite. */
  function Fetch(table: seq<Student>, batchSize: int): (r: seq<Student>)
    ensures batchSize >= 0 ==> |r| <= batchSize
    ensures forall s :: s in r ==> s in table && !s.sent
    ensures |r| <= |Unsent(table)| && r == Unsent(table)[..|r|]
    ensures (batchSize < 0 || |Unsent(table)| <= batchSize) ==> r == Unsent(table)
    ensures 0 <= batchSize < |Unsent(table)| ==> |r| == batchSize
  {
    var u := Unsent(table);
    if batchSize < 0 || |u| <= batchSize then u else u[..batchSize]
  }

  /** `UPDATE students SET sent = TRUE, sent_at = at WHERE id = id`. */
  function MarkSent(table: seq<Student>, id: int, at: real): (r: seq<Student>)
    ensures |r| == |table|
    ensures forall i :: 0 <= i < |table| && table[i].id == id ==>
              r[i] == table[i].(sent := true, sentAt := Some(at))
    ensures forall i :: 0 <= i < |table| && table[i].id != id ==> r[i] == table[i]
  {
    seq(|table|, i requires 0 <= i < |table| =>
      if table[i].id == id then table[i].(sent := true, sentAt := Some(at)) else table[i])
  }

  /** A fetched student with the message rendered for it. */
  datatype Outgoing = Outgoing(student: Student, message: Message)

  /** The fetched students paired with their messages. */
  function Outgoings(fetched: seq<Student>, tpl: Template, fmt: real -> string): (r: seq<Outgoing>)
    ensures |r| == |fetched|
    ensures forall k :: 0 <= k < |fetched| ==>
              r[k].student == fetched[k] && r[k].message == Compose(fetched[k], tpl, fmt)
  {
    seq(|fetched|, k requires 0 <= k < |fetched| =>
      Outgoing(fetched[k], Compose(fetched[k], tpl, fmt)))
  }

  /** What stays fixed for one run. */
  datatype Dispatch = Dispatch(cap: nat, batchId: string,
                               clock: nat -> real,
                               transport: (nat, Message) -> MailResult)

  /** The state the loop threads through. */
  datatype Progress = Progress(limiter: Limiter, table: seq<Student>, logs: seq<BulkLog>,
                               sent: nat, failed: nat, errors: seq<string>)

  /** `after` is `before` with some rows marked sent and nothing else changed. */
  predicate OnlyMarked(before: seq<Student>, after: seq<Student>) {
    |after| == |before|
    && forall i :: 0 <= i < |before| ==>
         after[i] == before[i]
         || (after[i].sent && after[i].sentAt.Some?
             && after[i] == before[i].(sent := true, sentAt := after[i].sentAt))
  }

  /** One attempt after a permit was granted: send, then either mark the row
      sent and log success, or log the error and keep the row unsent. */
  function Attempt(p: Progress, o: Outgoing, k: nat, env: Dispatch): (q: Progress)
    ensures q.limiter == p.limiter
    ensures q.sent >= p.sent && q.failed >= p.failed
    ensures q.sent + q.failed == p.sent + p.failed + 1
    ensures |q.logs| == |p.logs| + 1 && q.logs[..|p.logs|] == p.logs
    ensures q.logs[|p.logs|].batchId == env.batchId && q.logs[|p.logs|].email == o.student.email
    ensures OnlyMarked(p.table, q.table)
  {
    var s := o.student;
    var at := env.clock(k);
    match env.transport(k, o.message)
    case Delivered =>
      p.(table := MarkSent(p.table, s.id, at),
         logs := p.logs + [BulkLog(s.email, s.name, Sent, at, env.batchId)],
         sent := p.sent + 1)
    case Raised(e) =>
      p.(logs := p.logs + [BulkLog(s.email, s.name, Failed(e), at, env.batchId)],
         failed := p.failed + 1,
         errors := p.errors + [s.email + ": " + e])
  }

  /** The outcome of one attempt: a delivery marks every row with the
      student's id sent at the attempt's time, logs `sent` and adds no error;
      a failure leaves the table as it was, logs `failed` with the error and
      adds `email: error` to the error list. */
  lemma AttemptOutcome(p: Progress, o: Outgoing, k: nat, env: Dispatch)
    ensures var q := Attempt(p, o, k, env);
            var s := o.student;
            var r := env.transport(k, o.message);
            q.logs[|p.logs|].status == StatusOf(r)
            && (r.Delivered? ==>
                  q.sent == p.sent + 1 && q.failed == p.failed
                  && q.table == MarkSent(p.table, s.id, env.clock(k)) && q.errors == p.errors)
            && (r.Raised? ==>
                  q.failed == p.failed + 1 && q.sent == p.sent
                  && q.table == p.table && q.errors == p.errors + [s.email + ": " + r.error])
  {
  }

  /** The loop from the k-th fetched row on: take a permit at `clock(k)`;
      on refusal record `Rate limit exceeded` and stop, else attempt the row
      and go on. */
  function Run(fetched: seq<Outgoing>, k: nat, p: Progress, env: Dispatch): (q: Progress)
    requires k <= |fetched|
    ensures |q.table| == |p.table|
    ensures q.sent >= p.sent && q.failed >= p.failed
    decreases |fetched| - k
  {
    if k == |fetched| then p
    else
      var c := RateLimitStep(p.limiter, env.clock(k), env.cap);
      if !c.0 then p.(limiter := c.1, errors := p.errors + ["Rate limit exceeded"])
      else Run(fetched, k + 1, Attempt(p.(limiter := c.1), fetched[k], k, env), env)
  }

  /** Attempts made by a run (sent plus failed) never exceed the rows left,
      and the error list grows by the failures plus at most the one refusal. */
  lemma {:induction false} RunCounts(fetched: seq<Outgoing>, k: nat, p: Progress, env: Dispatch)
    requires k <= |fetched|
    ensures var q := Run(fetched, k, p, env);
            q.sent >= p.sent && q.failed >= p.failed
            && q.sent + q.failed <= p.sent + p.failed + (|fetched| - k)
            && |p.errors| + (q.failed - p.failed) <= |q.errors|
            && |q.errors| <= |p.errors| + (q.failed - p.failed) + 1
    decreases |fetched| - k
  {
    if k < |fetched| {
      var c := RateLimitStep(p.limiter, env.clock(k), env.cap);
      if c.0 {
        var a := Attempt(p.(limiter := c.1), fetched[k], k, env);
        RunCounts(fetched, k + 1, a, env);
        assert Run(fetched, k, p, env) == Run(fetched, k + 1, a, env);
      }
    }
  }

  /** A run that stops before its last row was stopped by the limiter: the
      last error is the refusal. */
  lemma {:induction false} EarlyStopIsRefusal(fetched: seq<Outgoing>, k: nat, p: Progress, env: Dispatch)
    requires k <= |fetched|
    ensures var q := Run(fetched, k, p, env);
            q.sent + q.failed < p.sent + p.failed + (|fetched| - k) ==>
              q.errors != [] && q.errors[|q.errors| - 1] == "Rate limit exceeded"
    decreases |fetched| - k
  {
    if k < |fetched| {
      var c := RateLimitStep(p.limiter, env.clock(k), env.cap);
      if c.0 {
        var a := Attempt(p.(limiter := c.1), fetched[k], k, env);
        EarlyStopIsRefusal(fetched, k + 1, a, env);
        assert Run(fetched, k, p, env) == Run(fetched, k + 1, a, env);
      }
    }
  }

  /** The run keeps the limiter within its cap. */
  lemma {:induction false} RunKeepsCap(fetched: seq<Outgoing>, k: nat, p: Progress, env: Dispatch)
    requires k <= |fetched| && p.limiter.count <= env.cap
    ensures Run(fetched, k, p, env).limiter.count <= env.cap
    decreases |fetched| - k
  {
    if k < |fetched| {
      var c := RateLimitStep(p.limiter, env.clock(k), env.cap);
      if c.0 {
        var a := Attempt(p.(limiter := c.1), fetched[k], k, env);
        RunKeepsCap(fetched, k + 1, a, env);
        assert Run(fetched, k, p, env) == Run(fetched, k + 1, a, env);
      }
    }
  }

  /** Every attempt appends exactly one log row, and earlier rows are kept. */
  lemma {:induction false} RunLogs(fetched: seq<Outgoing>, k: nat, p: Progress, env: Dispatch)
    requires k <= |fetched|
    ensures var q := Run(fetched, k, p, env);
            q.sent >= p.sent && q.failed >= p.failed
            && |q.logs| == |p.logs| + (q.sent - p.sent) + (q.failed - p.failed)
            && q.logs[..|p.logs|] == p.logs
    decreases |fetched| - k
  {
    if k < |fetched| {
      var c := RateLimitStep(p.limiter, env.clock(k), env.cap);
      if c.0 {
        var a := Attempt(p.(limiter := c.1), fetched[k], k, env);
        RunLogs(fetched, k + 1, a, env);
        var q := Run(fetched, k, p, env);
        assert q == Run(fetched, k + 1, a, env);
        assert q.logs[..|a.logs|] == a.logs;
        assert a.logs[..|p.logs|] == p.logs;
        assert q.logs[..|p.logs|] == q.logs[..|a.logs|][..|p.logs|];
      }
    }
  }

  /** Every log row a run appends carries the run's batch id. */
  lemma {:induction false} RunLogsTagged(fetched: seq<Outgoing>, k: nat, p: Progress, env: Dispatch)
    requires k <= |fetched|
    ensures var q := Run(fetched, k, p, env);
            forall i :: |p.logs| <= i < |q.logs| ==> q.logs[i].batchId == env.batchId
    decreases |fetched| - k
  {
    if k < |fetched| {
      var c := RateLimitStep(p.limiter, env.clock(k), env.cap);
      if c.0 {
        var a := Attempt(p.(limiter := c.1), fetched[k], k, env);
        RunLogsTagged(fetched, k + 1, a, env);
        RunLogs(fetched, k + 1, a, env);
        var q := Run(fetched, k, p, env);
        assert q == Run(fetched, k + 1, a, env);
        forall i | |p.logs| <= i < |q.logs|
          ensures q.logs[i].batchId == env.batchId
        {
          if i == |p.logs| {
            assert q.logs[i] == q.logs[..|a.logs|][i] == a.logs[i];
          }
        }
      }
    }
  }

  /** A run only ever marks rows sent: no row is removed, added or otherwise
      edited, and no sent row goes back to unsent. */
  lemma {:induction false} RunOnlyMarks(fetched: seq<Outgoing>, k: nat, p: Progress, env: Dispatch)
    requires k <= |fetched|
    ensures OnlyMarked(p.table, Run(fetched, k, p, env).table)
    decreases |fetched| - k
  {
    if k < |fetched| {
      var c := RateLimitStep(p.limiter, env.clock(k), env.cap);
      if c.0 {
        var a := Attempt(p.(limiter := c.1), fetched[k], k, env);
        RunOnlyMarks(fetched, k + 1, a, env);
        var q := Run(fetched, k, p, env);
        forall i | 0 <= i < |p.table|
          ensures q.table[i] == p.table[i]
                  || (q.table[i].sent && q.table[i].sentAt.Some?
                      && q.table[i] == p.table[i].(sent := true, sentAt := q.table[i].sentAt))
        {
          if a.table[i] != p.table[i] && q.table[i] != a.table[i] {
            assert q.table[i] == a.table[i].(sent := true, sentAt := q.table[i].sentAt);
          }
        }
      }
    }
  }

  /** Some row attempted between positions `from` and `to` of the run has
      student id `id` and was delivered. */
  predicate DeliveredTo(fetched: seq<Outgoing>, from: nat, to: int, id: int, env: Dispatch) {
    exists j :: from <= j < to && j < |fetched| && fetched[j].student.id == id
                && env.transport(j, fetched[j].message).Delivered?
  }

  /** Splitting off the first position of the range. */
  lemma DeliveredToFirst(fetched: seq<Outgoing>, k: nat, m: nat, id: int, env: Dispatch)
    requires k < |fetched|
    ensures DeliveredTo(fetched, k, k + 1 + m, id, env)
            <==> (fetched[k].student.id == id && env.transport(k, fetched[k].message).Delivered?)
                 || DeliveredTo(fetched, k + 1, k + 1 + m, id, env)
  {
    if DeliveredTo(fetched, k, k + 1 + m, id, env) {
      var j :| k <= j < k + 1 + m && j < |fetched| && fetched[j].student.id == id
               && env.transport(j, fetched[j].message).Delivered?;
      if j != k {
        assert DeliveredTo(fetched, k + 1, k + 1 + m, id, env);
      }
    }
    if fetched[k].student.id == id && env.transport(k, fetched[k].message).Delivered? {
      assert DeliveredTo(fetched, k, k + 1 + m, id, env);
    }
  }

  /** One attempt marks exactly the rows carrying the student's id, and only
      when the send was delivered; no row changes its id. */
  lemma AttemptMarks(p: Progress, o: Outgoing, k: nat, env: Dispatch)
    ensures var q := Attempt(p, o, k, env);
            var hit := env.transport(k, o.message).Delivered?;
            && |q.table| == |p.table|
            && forall i :: 0 <= i < |p.table| ==>
                 q.table[i].id == p.table[i].id
                 && (q.table[i].sent <==> p.table[i].sent || (hit && o.student.id == p.table[i].id))
  {
    AttemptOutcome(p, o, k, env);
  }

  /** `after` is `before` with exactly the rows marked sent whose id a
      delivered attempt in positions `from` to `to` carried. */
  predicate MarkedBy(before: seq<Student>, after: seq<Student>, fetched: seq<Outgoing>,
                     from: nat, to: int, env: Dispatch)
  {
    && |after| == |before|
    && forall i :: 0 <= i < |before| ==>
         (after[i].sent <==> before[i].sent || DeliveredTo(fetched, from, to, before[i].id, env))
  }

  /** One attempt at position `k` followed by the marks of the next `m`
      attempts gives the marks of all `1 + m` attempts. */
  lemma MarksCompose(fetched: seq<Outgoing>, k: nat, m: nat,
                     before: seq<Student>, mid: seq<Student>, after: seq<Student>, env: Dispatch)
    requires k < |fetched|
    requires |mid| == |before|
    requires forall i :: 0 <= i < |before| ==>
               mid[i].id == before[i].id
               && (mid[i].sent <==>
                     (before[i].sent
                      || (env.transport(k, fetched[k].message).Delivered?
                          && fetched[k].student.id == before[i].id)))
    requires MarkedBy(mid, after, fetched, k + 1, k + 1 + m, env)
    ensures MarkedBy(before, after, fetched, k, k + 1 + m, env)
  {
    forall i | 0 <= i < |before|
      ensures after[i].sent <==> before[i].sent || DeliveredTo(fetched, k, k + 1 + m, before[i].id, env)
    {
      DeliveredToFirst(fetched, k, m, before[i].id, env);
    }
  }

  /** Which rows a run marks. The run attempts the rows from `k` on, one
      after the other, `n` of them in all; afterwards a row is sent exactly
      when it was sent before or one of those `n` attempts carried its id and
      was delivered. A failed attempt and a row never reached leave the row
      as unsent as it was. */
  lemma {:induction false} RunMarksDelivered(fetched: seq<Outgoing>, k: nat, p: Progress, env: Dispatch)
    requires k <= |fetched|
    ensures var q := Run(fetched, k, p, env);
            MarkedBy(p.table, q.table, fetched, k, k + (q.sent + q.failed) - (p.sent + p.failed), env)
    decreases |fetched| - k
  {
    var q := Run(fetched, k, p, env);
    var n := (q.sent + q.failed) - (p.sent + p.failed);
    var c := if k < |fetched| then RateLimitStep(p.limiter, env.clock(k), env.cap) else (false, p.limiter);
    if k < |fetched| && c.0 {
      var a := Attempt(p.(limiter := c.1), fetched[k], k, env);
      assert q == Run(fetched, k + 1, a, env);
      RunMarksDelivered(fetched, k + 1, a, env);
      RunCounts(fetched, k + 1, a, env);
      AttemptMarks(p.(limiter := c.1), fetched[k], k, env);
      var m := (q.sent + q.failed) - (a.sent + a.failed);
      assert n == 1 + m;
      MarksCompose(fetched, k, m, p.table, a.table, q.table, env);
    } else {
      assert q == p.(limiter := q.limiter, errors := q.errors);
      forall i | 0 <= i < |p.table|
        ensures !DeliveredTo(fetched, k, k, p.table[i].id, env)
      {
      }
    }
  }

  /** While no window boundary is crossed, every attempt, delivered or not,
      used exactly one permit. */
  lemma {:induction false} PermitPerAttempt(fetched: seq<Outgoing>, k: nat, p: Progress, env: Dispatch)
    requires k <= |fetched|
    requires forall j :: k <= j < |fetched| ==> env.clock(j) - p.limiter.start < Window
    ensures var q := Run(fetched, k, p, env);
            q.sent >= p.sent && q.failed >= p.failed
            && q.limiter.count == p.limiter.count + (q.sent - p.sent) + (q.failed - p.failed)
    decreases |fetched| - k
  {
    if k < |fetched| {
      var c := RateLimitStep(p.limiter, env.clock(k), env.cap);
      assert Renewed(p.limiter, env.clock(k)) == p.limiter;
      if c.0 {
        var a := Attempt(p.(limiter := c.1), fetched[k], k, env);
        assert a.limiter == Limiter(p.limiter.count + 1, p.limiter.start);
        assert a.sent + a.failed == p.sent + p.failed + 1;
        PermitPerAttempt(fetched, k + 1, a, env);
        assert Run(fetched, k, p, env) == Run(fetched, k + 1, a, env);
      }
    }
  }

  /** Inside one window a run makes at most as many attempts as permits are
      left: with `cap - count` permits and more rows, the rest stay unsent. */
  lemma AttemptsWithinPermits(fetched: seq<Outgoing>, p: Progress, env: Dispatch)
    requires p.limiter.count <= env.cap
    requires forall j :: 0 <= j < |fetched| ==> env.clock(j) - p.limiter.start < Window
    ensures var q := Run(fetched, 0, p, env);
            (q.sent - p.sent) + (q.failed - p.failed) <= env.cap - p.limiter.count
  {
    PermitPerAttempt(fetched, 0, p, env);
    RunKeepsCap(fetched, 0, p, env);
  }

  /** What the service answers. `NothingToSend` is the successful reply
      with zero counts; `errors` is present only when some error occurred. */
  datatype BulkResponse =
    | NothingToSend
    | NoTemplate
    | Finished(sent: nat, failed: nat, batchId: string, errors: Option<seq<string>>)

  /** The `success` field of the reply. */
  predicate Success(r: BulkResponse) {
    !r.NoTemplate?
  }

  /** The reply's error field: the first ten errors, absent when there are none. */
  function ErrorsField(errors: seq<string>): (f: Option<seq<string>>)
    ensures f.None? <==> errors == []
    ensures f.Some? ==> 1 <= |f.value| <= 10 && |f.value| <= |errors|
                        && f.value == errors[..|f.value|]
    ensures f.Some? && |errors| <= 10 ==> f.value == errors
  {
    if errors == [] then None
    else if |errors| <= 10 then Some(errors)
    else Some(errors[..10])
  }

  /** The whole bulk send on values: the reply and the final state (limiter,
      students, logs; the counters are those of the reply). */
  function BulkSend(table: seq<Student>, logs: seq<BulkLog>, templates: map<string, Template>,
                    limiter: Limiter, cap: nat, batchSize: int, batchId: string,
                    clock: nat -> real, transport: (nat, Message) -> MailResult,
                    fmt: real -> string): (r: (BulkResponse, Progress))
    ensures r.0.Finished? <==> Fetch(table, batchSize) != [] && DefaultTemplateName in templates
    ensures !r.0.Finished? ==> r.1 == Progress(limiter, table, logs, 0, 0, [])
    ensures r.0.Finished? ==> r.0.sent == r.1.sent && r.0.failed == r.1.failed
                              && r.0.batchId == batchId
                              && r.0.sent + r.0.failed <= |Fetch(table, batchSize)|
  {
    var fetched := Fetch(table, batchSize);
    var p0 := Progress(limiter, table, logs, 0, 0, []);
    if fetched == [] then (NothingToSend, p0)
    else if DefaultTemplateName !in templates then (NoTemplate, p0)
    else
      var queue := Outgoings(fetched, templates[DefaultTemplateName], fmt);
      var env := Dispatch(cap, batchId, clock, transport);
      var q := Run(queue, 0, p0, env);
      RunCounts(queue, 0, p0, env);
      (Finished(q.sent, q.failed, batchId, ErrorsField(q.errors)), q)
  }

  /** With nothing unsent (or a zero limit) the reply is a success with no
      sends, and nothing changes. */
  lemma NothingToSendChangesNothing(table: seq<Student>, logs: seq<BulkLog>,
                                    templates: map<string, Template>, limiter: Limiter,
                                    cap: nat, batchSize: int, batchId: string,
                                    clock: nat -> real, transport: (nat, Message) -> MailResult,
                                    fmt: real -> string)
    requires (forall i :: 0 <= i < |table| ==> table[i].sent) || batchSize == 0
    ensures var (r, p) := BulkSend(table, logs, templates, limiter, cap, batchSize, batchId,
                                   clock, transport, fmt);
            r == NothingToSend && Success(r)
            && p.limiter == limiter && p.table == table && p.logs == logs
  {
    if batchSize != 0 {
      NoneUnsentWhenAllSent(table);
    }
  }

  lemma {:induction false} NoneUnsentWhenAllSent(table: seq<Student>)
    requires forall i :: 0 <= i < |table| ==> table[i].sent
    ensures Unsent(table) == []
  {
    if table != [] {
      NoneUnsentWhenAllSent(table[1..]);
    }
  }

  /** Without the default template the reply is a failure and nothing
      changes. */
  lemma NoTemplateChangesNothing(table: seq<Student>, logs: seq<BulkLog>,
                                 templates: map<string, Template>, limiter: Limiter,
                                 cap: nat, batchSize: int, batchId: string,
                                 clock: nat -> real, transport: (nat, Message) -> MailResult,
                                 fmt: real -> string)
    requires DefaultTemplateName !in templates
    ensures var (r, p) := BulkSend(table, logs, templates, limiter, cap, batchSize, batchId,
                                   clock, transport, fmt);
            (r == NothingToSend || (r == NoTemplate && !Success(r)))
            && p.limiter == limiter && p.table == table && p.logs == logs
  {
  }

  /** A finished run attempted no more rows than were fetched, hence no more
      than the batch size; each attempt left one log row with the batch id;
      the limiter kept its cap; only marks were made in the table. */
  lemma FinishedBounds(table: seq<Student>, logs: seq<BulkLog>,
                       templates: map<string, Template>, limiter: Limiter,
                       cap: nat, batchSize: int, batchId: string,
                       clock: nat -> real, transport: (nat, Message) -> MailResult,
                       fmt: real -> string)
    requires limiter.count <= cap
    ensures var (r, p) := BulkSend(table, logs, templates, limiter, cap, batchSize, batchId,
                                   clock, transport, fmt);
            r.Finished? ==>
              && r.sent + r.failed <= |Fetch(table, batchSize)|
              && (batchSize >= 0 ==> r.sent + r.failed <= batchSize)
              && r.batchId == batchId
              && p.limiter.count <= cap
              && |p.logs| == |logs| + r.sent + r.failed && p.logs[..|logs|] == logs
              && (forall i :: |logs| <= i < |p.logs| ==> p.logs[i].batchId == batchId)
              && OnlyMarked(table, p.table)
  {
    var fetched := Fetch(table, batchSize);
    var p0 := Progress(limiter, table, logs, 0, 0, []);
    if fetched != [] && DefaultTemplateName in templates {
      var queue := Outgoings(fetched, templates[DefaultTemplateName], fmt);
      var env := Dispatch(cap, batchId, clock, transport);
      RunCounts(queue, 0, p0, env);
      RunKeepsCap(queue, 0, p0, env);
      RunLogs(queue, 0, p0, env);
      RunLogsTagged(queue, 0, p0, env);
      RunOnlyMarks(queue, 0, p0, env);
    }
  }
}
