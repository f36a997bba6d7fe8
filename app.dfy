/** The web application's stored state and its state-changing routes: the
    upload route that parks parsed drafts under the client's session, the
    send route that upserts each draft by e-mail, attempts a send and logs
    one outcome per draft, and the statistics view over the logs. */
module App {
  import opened Optional
  import opened Grading
  import opened Ingest
  import opened Mail

  /** A stored student: the primary key, the draft's fields and the
      creation time. */
  datatype StudentResult = StudentResult(id: nat, fields: Draft, createdAt: int)

  /** The student table, looked up by e-mail, and the next primary key. */
  datatype Table = Table(rows: map<string, StudentResult>, nextId: nat)

  /** Each row is filed under its own e-mail, keys are below `nextId` and no
      two rows share a key. */
  predicate TableValid(t: Table) {
    && (forall e :: e in t.rows ==> t.rows[e].fields.email == e && t.rows[e].id < t.nextId)
    && (forall e1, e2 :: e1 in t.rows && e2 in t.rows && e1 != e2 ==> t.rows[e1].id != t.rows[e2].id)
  }

  /** Every stored row's total and grade agree with its scores. */
  predicate RowsConsistent(t: Table) {
    forall e :: e in t.rows ==> Consistent(t.rows[e].fields)
  }

  /** Store one draft: a row with the same e-mail takes every draft field,
      keeping its key and creation time; otherwise a new row is added. */
  function Upsert(t: Table, d: Draft, now: int): (r: Table)
    ensures r.rows.Keys == t.rows.Keys + {d.email}
    ensures forall e :: e in t.rows && e != d.email ==> r.rows[e] == t.rows[e]
    ensures r.rows[d.email].fields == d
    ensures d.email in t.rows ==>
              && r.rows[d.email].id == t.rows[d.email].id
              && r.rows[d.email].createdAt == t.rows[d.email].createdAt
              && r.nextId == t.nextId
    ensures d.email !in t.rows ==> r.rows[d.email] == StudentResult(t.nextId, d, now) && r.nextId == t.nextId + 1
  {
    if d.email in t.rows then Table(t.rows[d.email := t.rows[d.email].(fields := d)], t.nextId)
    else Table(t.rows[d.email := StudentResult(t.nextId, d, now)], t.nextId + 1)
  }

  /** Storing a draft keeps the table's invariant, and keeps every row
      consistent when the draft is. */
  lemma UpsertValid(t: Table, d: Draft, now: int)
    requires TableValid(t)
    ensures TableValid(Upsert(t, d, now))
    ensures RowsConsistent(t) && Consistent(d) ==> RowsConsistent(Upsert(t, d, now))
  {
  }

  /** Store a batch of drafts one after another. */
  function UpsertAll(t: Table, ds: seq<Draft>, now: int): (r: Table)
    ensures t.rows.Keys <= r.rows.Keys
    ensures t.nextId <= r.nextId <= t.nextId + |ds|
    decreases |ds|
  {
    if ds == [] then t else Upsert(UpsertAll(t, ds[..|ds| - 1], now), ds[|ds| - 1], now)
  }

  lemma UpsertAllSnoc(t: Table, ds: seq<Draft>, i: nat, now: int)
    requires i < |ds|
    ensures UpsertAll(t, ds[..i + 1], now) == Upsert(UpsertAll(t, ds[..i], now), ds[i], now)
  {
    assert ds[..i + 1][..i] == ds[..i];
  }

  /** The e-mails of a batch of drafts. */
  function Emails(ds: seq<Draft>): (r: set<string>)
    ensures forall x :: x in r <==> exists k :: 0 <= k < |ds| && ds[k].email == x
    decreases |ds|
  {
    if ds == [] then {}
    else
      var init := ds[..|ds| - 1];
      assert forall k :: 0 <= k < |init| ==> init[k] == ds[k];
      Emails(init) + {ds[|ds| - 1].email}
  }

  /** After a batch the table holds exactly the old e-mails and the batch's. */
  lemma {:induction false} UpsertAllKeys(t: Table, ds: seq<Draft>, now: int)
    ensures UpsertAll(t, ds, now).rows.Keys == t.rows.Keys + Emails(ds)
    decreases |ds|
  {
    if ds != [] {
      UpsertAllKeys(t, ds[..|ds| - 1], now);
    }
  }

  /** The last draft of a batch with a given e-mail decides that row's fields. */
  lemma {:induction false} UpsertAllLastWins(t: Table, ds: seq<Draft>, now: int, i: nat)
    requires i < |ds|
    requires forall j :: i < j < |ds| ==> ds[j].email != ds[i].email
    ensures ds[i].email in UpsertAll(t, ds, now).rows
    ensures UpsertAll(t, ds, now).rows[ds[i].email].fields == ds[i]
    decreases |ds|
  {
    var init := ds[..|ds| - 1];
    if i < |ds| - 1 {
      UpsertAllLastWins(t, init, now, i);
    }
  }

  /** A row that existed before a batch keeps its key and creation time. */
  lemma {:induction false} UpsertAllKeepsIdentity(t: Table, ds: seq<Draft>, now: int, e: string)
    requires e in t.rows
    ensures e in UpsertAll(t, ds, now).rows
    ensures UpsertAll(t, ds, now).rows[e].id == t.rows[e].id
    ensures UpsertAll(t, ds, now).rows[e].createdAt == t.rows[e].createdAt
    decreases |ds|
  {
    if ds != [] {
      UpsertAllKeepsIdentity(t, ds[..|ds| - 1], now, e);
    }
  }

  /** A row whose e-mail no draft of the batch carries is left as it was. */
  lemma {:induction false} UpsertAllKeepsOthers(t: Table, ds: seq<Draft>, now: int, e: string)
    requires e in t.rows && e !in Emails(ds)
    ensures e in UpsertAll(t, ds, now).rows && UpsertAll(t, ds, now).rows[e] == t.rows[e]
    decreases |ds|
  {
    if ds != [] {
      var init := ds[..|ds| - 1];
      assert forall x :: x in Emails(init) ==> x in Emails(ds);
      UpsertAllKeepsOthers(t, init, now, e);
      assert ds[|ds| - 1].email != e;
    }
  }

  /** Two drafts with one e-mail leave one row holding the second draft. */
  lemma DuplicateEmailKeepsSecond(d1: Draft, d2: Draft, now: int)
    requires d1.email == d2.email
    ensures UpsertAll(Table(map[], 0), [d1, d2], now).rows == map[d2.email := StudentResult(0, d2, now)]
  {
    var t0 := Table(map[], 0);
    var t1 := Upsert(t0, d1, now);
    assert [d1, d2][..1] == [d1];
    assert [d1][..0] == [];
    assert UpsertAll(t0, [d1], now) == t1;
    var t2 := Upsert(t1, d2, now);
    assert UpsertAll(t0, [d1, d2], now) == t2;
    assert t1.rows == map[d1.email := StudentResult(0, d1, now)];
    assert t2.rows.Keys == {d2.email};
  }

  /** Every draft of a batch is consistent. */
  predicate AllConsistent(ds: seq<Draft>) {
    forall k :: 0 <= k < |ds| ==> Consistent(ds[k])
  }

  /** A batch keeps the table's invariant and the consistency of its rows. */
  lemma {:induction false} UpsertAllValid(t: Table, ds: seq<Draft>, now: int)
    requires TableValid(t) && RowsConsistent(t)
    requires AllConsistent(ds)
    ensures TableValid(UpsertAll(t, ds, now)) && RowsConsistent(UpsertAll(t, ds, now))
    decreases |ds|
  {
    if ds != [] {
      UpsertAllValid(t, ds[..|ds| - 1], now);
      UpsertValid(UpsertAll(t, ds[..|ds| - 1], now), ds[|ds| - 1], now);
    }
  }

  /** One row of the e-mail log. */
  datatype EmailLog = EmailLog(studentId: string, email: string, status: LogStatus,
                               sentAt: int, batchId: string)

  /** The log rows a batch appends: one per draft, in draft order, all tagged
      with the batch id, `sent` exactly for the drafts the transport took. */
  function BatchLogs(ds: seq<Draft>, batchId: string, now: int,
                     transport: (nat, Draft) -> MailResult): (logs: seq<EmailLog>)
    ensures |logs| == |ds|
    ensures forall k :: 0 <= k < |ds| ==>
              && logs[k].batchId == batchId
              && logs[k].email == ds[k].email
              && logs[k].studentId == ds[k].studentId
              && (logs[k].status == Sent <==> transport(k, ds[k]).Delivered?)
              && (logs[k].status.Failed? ==> logs[k].status.error == transport(k, ds[k]).error)
  {
    seq(|ds|, k requires 0 <= k < |ds| =>
      EmailLog(ds[k].studentId, ds[k].email, StatusOf(transport(k, ds[k])), now, batchId))
  }

  lemma BatchLogsSnoc(ds: seq<Draft>, i: nat, batchId: string, now: int,
                      transport: (nat, Draft) -> MailResult)
    requires i < |ds|
    ensures BatchLogs(ds[..i + 1], batchId, now, transport)
         == BatchLogs(ds[..i], batchId, now, transport)
            + [EmailLog(ds[i].studentId, ds[i].email, StatusOf(transport(i, ds[i])), now, batchId)]
  {
  }

  /** Number of the first `n` drafts the transport delivered. */
  function DeliveredCount(ds: seq<Draft>, transport: (nat, Draft) -> MailResult, n: nat): (c: nat)
    requires n <= |ds|
    ensures c <= n
  {
    if n == 0 then 0
    else DeliveredCount(ds, transport, n - 1) + (if transport(n - 1, ds[n - 1]).Delivered? then 1 else 0)
  }

  /** One entry of the response's `details` list. */
  datatype Detail = Detail(student: string, email: string, status: LogStatus)

  function DetailFor(d: Draft, outcome: MailResult): (r: Detail)
    ensures r.email == d.email && r.status == StatusOf(outcome)
  {
    Detail(d.firstName + " " + d.lastName, d.email, StatusOf(outcome))
  }

  function BatchDetails(ds: seq<Draft>, transport: (nat, Draft) -> MailResult): (r: seq<Detail>)
    ensures |r| == |ds|
    ensures forall k :: 0 <= k < |ds| ==>
              && r[k].student == ds[k].firstName + " " + ds[k].lastName
              && r[k].email == ds[k].email
              && r[k].status == StatusOf(transport(k, ds[k]))
              && (r[k].status == Sent <==> transport(k, ds[k]).Delivered?)
  {
    var r := seq(|ds|, k requires 0 <= k < |ds| => DetailFor(ds[k], transport(k, ds[k])));
    assert forall k :: 0 <= k < |ds| ==> r[k] == DetailFor(ds[k], transport(k, ds[k]));
    r
  }

  lemma BatchDetailsSnoc(ds: seq<Draft>, i: nat, transport: (nat, Draft) -> MailResult)
    requires i < |ds|
    ensures BatchDetails(ds[..i + 1], transport)
         == BatchDetails(ds[..i], transport) + [DetailFor(ds[i], transport(i, ds[i]))]
  {
  }

  datatype SendResponse =
    | NoStudentData
    | Processed(sent: nat, failed: nat, details: seq<Detail>)

  /** Number of log rows with status `sent`. */
  function CountSent(logs: seq<EmailLog>): (c: nat)
    ensures c <= |logs|
  {
    if logs == [] then 0 else CountSent(logs[..|logs| - 1]) + (if logs[|logs| - 1].status == Sent then 1 else 0)
  }

  lemma {:induction false} CountSentAppend(a: seq<EmailLog>, b: seq<EmailLog>)
    ensures CountSent(a + b) == CountSent(a) + CountSent(b)
    decreases |b|
  {
    if b == [] {
      assert a + b == a;
    } else {
      assert (a + b)[..|a + b| - 1] == a + b[..|b| - 1];
      CountSentAppend(a, b[..|b| - 1]);
    }
  }

  /** The `sent` rows a batch appends are exactly the drafts delivered. */
  lemma {:induction false} BatchLogsCountSent(ds: seq<Draft>, batchId: string, now: int,
                                              transport: (nat, Draft) -> MailResult, n: nat)
    requires n <= |ds|
    ensures CountSent(BatchLogs(ds, batchId, now, transport)[..n]) == DeliveredCount(ds, transport, n)
  {
    var logs := BatchLogs(ds, batchId, now, transport);
    if n > 0 {
      BatchLogsCountSent(ds, batchId, now, transport, n - 1);
      assert logs[..n][..n - 1] == logs[..n - 1];
    }
  }

  /** The dashboard statistics. */
  datatype Stats = Stats(totalStudents: nat, sentEmails: nat, failedEmails: nat, successRate: real)

  /** Counts of students and of `sent`/`failed` log rows, and the percentage
      of attempts that were sent (0 when nothing was attempted; the rounding
      to two decimals is not modelled). */
  function ApiStats(t: Table, logs: seq<EmailLog>): (s: Stats)
    ensures s.totalStudents == |t.rows|
    ensures s.sentEmails == CountSent(logs) && s.sentEmails + s.failedEmails == |logs|
    ensures 0.0 <= s.successRate <= 100.0
    ensures s.successRate == 0.0 <==> s.sentEmails == 0
    ensures s.successRate == 100.0 <==> s.sentEmails > 0 && s.failedEmails == 0
    ensures |logs| > 0 ==> s.successRate == s.sentEmails as real / |logs| as real * 100.0
  {
    var sent := CountSent(logs);
    var failed := |logs| - sent;
    var attempted := sent + failed;
    var rate := if attempted > 0 then (sent as real / attempted as real) * 100.0 else 0.0;
    RateBounds(sent, attempted);
    Stats(|t.rows|, sent, failed, rate)
  }

  lemma RateBounds(sent: nat, attempted: nat)
    requires sent <= attempted
    ensures attempted > 0 ==> 0.0 <= (sent as real / attempted as real) * 100.0 <= 100.0
    ensures attempted > 0 ==> ((sent as real / attempted as real) * 100.0 == 100.0 <==> sent == attempted)
    ensures attempted > 0 ==> ((sent as real / attempted as real) * 100.0 == 0.0 <==> sent == 0)
  {
    if attempted > 0 {
      var q := sent as real / attempted as real;
      assert q * attempted as real == sent as real;
      assert 0.0 <= q <= 1.0;
    }
  }

  /** A send run adds its delivered count to the `sent` statistic and the
      rest of its drafts to the `failed` statistic. */
  lemma SendRunStats(t: Table, logs: seq<EmailLog>, ds: seq<Draft>, batchId: string, now: int,
                     transport: (nat, Draft) -> MailResult)
    ensures ApiStats(UpsertAll(t, ds, now), logs + BatchLogs(ds, batchId, now, transport)).sentEmails
            == ApiStats(t, logs).sentEmails + DeliveredCount(ds, transport, |ds|)
    ensures ApiStats(UpsertAll(t, ds, now), logs + BatchLogs(ds, batchId, now, transport)).failedEmails
            == ApiStats(t, logs).failedEmails + (|ds| - DeliveredCount(ds, transport, |ds|))
  {
    var b := BatchLogs(ds, batchId, now, transport);
    CountSentAppend(logs, b);
    BatchLogsCountSent(ds, batchId, now, transport, |ds|);
    assert b[..|ds|] == b;
  }

  /** The loop of the send route over the pending drafts, on the table and
      log it starts from: every draft is stored, every draft gets exactly one
      log row, and the counts add up to the number of drafts. */
  method SendLoop(table: Table, emailLogs: seq<EmailLog>, ds: seq<Draft>, batchId: string, now: int,
                  transport: (nat, Draft) -> MailResult)
    returns (t: Table, logs: seq<EmailLog>, sent: nat, failed: nat, details: seq<Detail>)
    ensures t == UpsertAll(table, ds, now)
    ensures logs == emailLogs + BatchLogs(ds, batchId, now, transport)
    ensures sent == DeliveredCount(ds, transport, |ds|) && sent + failed == |ds|
    ensures details == BatchDetails(ds, transport)
  {
    t, logs := table, emailLogs;
    sent, failed := 0, 0;
    details := [];
    var i := 0;
    assert ds[..0] == [];
    assert logs == emailLogs + BatchLogs(ds[..0], batchId, now, transport);
    while i < |ds|
      invariant 0 <= i <= |ds|
      invariant t == UpsertAll(table, ds[..i], now)
      invariant logs == emailLogs + BatchLogs(ds[..i], batchId, now, transport)
      invariant sent == DeliveredCount(ds, transport, i) && failed == i - sent
      invariant details == BatchDetails(ds[..i], transport)
    {
      var d := ds[i];
      UpsertAllSnoc(table, ds, i, now);
      t := Upsert(t, d, now);
      var outcome := transport(i, d);
      var entry := EmailLog(d.studentId, d.email, StatusOf(outcome), now, batchId);
      BatchLogsSnoc(ds, i, batchId, now, transport);
      assert logs + [entry] == emailLogs + (BatchLogs(ds[..i], batchId, now, transport) + [entry]);
      logs := logs + [entry];
      BatchDetailsSnoc(ds, i, transport);
      details := details + [DetailFor(d, outcome)];
      if outcome.Delivered? {
        sent := sent + 1;
      } else {
        failed := failed + 1;
      }
      i := i + 1;
    }
    assert ds[..|ds|] == ds;
  }

  /** What the upload route reports. */
  datatype UploadOutcome = Refused(error: UploadError) | Stored(sessionId: string)

  /** The server's state as one client sees it. */
  class WebApp {
    var table: Table
    var emailLogs: seq<EmailLog>
    /** Parsed uploads awaiting preview and sending, by upload session id. */
    var tempStudentData: map<string, seq<Draft>>
    /** The `upload_session_id` entry of this client's session. */
    var uploadSessionId: Option<string>

    ghost predicate Valid()
      reads this
    {
      && TableValid(table)
      && RowsConsistent(table)
      && (forall s :: s in tempStudentData ==> AllConsistent(tempStudentData[s]))
    }

    constructor ()
      ensures Valid()
      ensures table == Table(map[], 0) && emailLogs == []
      ensures tempStudentData == map[] && uploadSessionId == None
    {
      table := Table(map[], 0);
      emailLogs := [];
      tempStudentData := map[];
      uploadSessionId := None;
    }

    /** The drafts the session's upload left, if the session names one that
        is still there (an empty id counts as none). */
    function PendingDrafts(): (p: Option<seq<Draft>>)
      reads this
      ensures p.None? <==> uploadSessionId.None? || uploadSessionId.value == ""
                           || uploadSessionId.value !in tempStudentData
      ensures p.Some? ==> p.value == tempStudentData[uploadSessionId.value]
    {
      match uploadSessionId
      case Some(sid) =>
        if sid != "" && sid in tempStudentData then Some(tempStudentData[sid]) else None
      case None => None
    }

    /** The upload route: validate, build one draft per row and park the
        drafts under a fresh session id. Nothing changes when a check fails. */
    method UploadFile(file: Option<string>, parse: Reader -> Option<Sheet>,
                      tokens: nat -> string, sessionToken: string) returns (outcome: UploadOutcome)
      requires Valid()
      modifies this
      ensures Valid()
      ensures CheckUpload(file, parse).Rejected? ==>
                outcome == Refused(CheckUpload(file, parse).error) && unchanged(this)
      ensures CheckUpload(file, parse).Accepted? ==>
                var rows := CheckUpload(file, parse).sheet.rows;
                && outcome == Stored(sessionToken)
                && sessionToken in tempStudentData
                && tempStudentData == old(tempStudentData)[sessionToken := tempStudentData[sessionToken]]
                && |tempStudentData[sessionToken]| == |rows|
                && (forall i :: 0 <= i < |rows| ==>
                      tempStudentData[sessionToken][i] == MakeDraft(rows[i], tokens(i)))
                && uploadSessionId == Some(sessionToken)
                && table == old(table) && emailLogs == old(emailLogs)
    {
      var checked := CheckUpload(file, parse);
      match checked
      case Rejected(error) =>
        outcome := Refused(error);
      case Accepted(sheet) =>
        var drafts := BuildDrafts(sheet.rows, tokens);
        tempStudentData := tempStudentData[sessionToken := drafts];
        uploadSessionId := Some(sessionToken);
        outcome := Stored(sessionToken);
    }

    /** The send route: for each pending draft, upsert it by e-mail, then try
        the transport (`transport(k, d)` is the outcome of the k-th send) and
        log the outcome under one batch id. A failed send never stops the
        loop. The session's pending drafts are then discarded. */
    method SendEmails(batchId: string, now: int, transport: (nat, Draft) -> MailResult)
      returns (resp: SendResponse)
      requires Valid()
      modifies this
      ensures Valid()
      ensures old(PendingDrafts()).None? ==> resp == NoStudentData && unchanged(this)
      ensures old(PendingDrafts()).Some? ==>
                var ds := old(PendingDrafts()).value;
                && table == UpsertAll(old(table), ds, now)
                && emailLogs == old(emailLogs) + BatchLogs(ds, batchId, now, transport)
                && resp == Processed(DeliveredCount(ds, transport, |ds|),
                                     |ds| - DeliveredCount(ds, transport, |ds|),
                                     BatchDetails(ds, transport))
                && tempStudentData == old(tempStudentData) - {old(uploadSessionId).value}
                && uploadSessionId == None
    {
      var pending := PendingDrafts();
      if pending.None? {
        resp := NoStudentData;
        return;
      }
      resp := SendPending(pending.value, uploadSessionId.value, batchId, now, transport);
    }

    /** The part of `SendEmails` that runs when the session has drafts `ds`
        parked under `sid`. */
    method SendPending(ds: seq<Draft>, sid: string, batchId: string, now: int,
                       transport: (nat, Draft) -> MailResult)
      returns (resp: SendResponse)
      requires Valid() && sid in tempStudentData && ds == tempStudentData[sid]
      modifies this
      ensures Valid()
      ensures table == UpsertAll(old(table), ds, now)
      ensures emailLogs == old(emailLogs) + BatchLogs(ds, batchId, now, transport)
      ensures resp == Processed(DeliveredCount(ds, transport, |ds|),
                                |ds| - DeliveredCount(ds, transport, |ds|),
                                BatchDetails(ds, transport))
      ensures tempStudentData == old(tempStudentData) - {sid}
      ensures uploadSessionId == None
    {
      var sent, failed, details := StoreBatch(ds, batchId, now, transport);
      DropSession(sid);
      resp := Processed(sent, failed, details);
    }

    /** Run the send loop and keep its table and log; the table stays valid. */
    method StoreBatch(ds: seq<Draft>, batchId: string, now: int,
                      transport: (nat, Draft) -> MailResult)
      returns (sent: nat, failed: nat, details: seq<Detail>)
      requires TableValid(table) && RowsConsistent(table) && AllConsistent(ds)
      modifies this
      ensures TableValid(table) && RowsConsistent(table)
      ensures table == UpsertAll(old(table), ds, now)
      ensures emailLogs == old(emailLogs) + BatchLogs(ds, batchId, now, transport)
      ensures sent == DeliveredCount(ds, transport, |ds|) && failed == |ds| - sent
      ensures details == BatchDetails(ds, transport)
      ensures tempStudentData == old(tempStudentData) && uploadSessionId == old(uploadSessionId)
    {
      UpsertAllValid(table, ds, now);
      var t, logs;
      t, logs, sent, failed, details := SendLoop(table, emailLogs, ds, batchId, now, transport);
      table, emailLogs := t, logs;
    }

    /** Discard the drafts parked under `sid` and forget the session's id. */
    method DropSession(sid: string)
      requires forall s :: s in tempStudentData ==> AllConsistent(tempStudentData[s])
      modifies this
      ensures forall s :: s in tempStudentData ==> AllConsistent(tempStudentData[s])
      ensures tempStudentData == old(tempStudentData) - {sid} && uploadSessionId == None
      ensures table == old(table) && emailLogs == old(emailLogs)
    {
      ghost var before := tempStudentData;
      tempStudentData := tempStudentData - {sid};
      assert forall s :: s in tempStudentData ==> tempStudentData[s] == before[s];
      uploadSessionId := None;
    }
  }
}
