# Send Students Result — a verified model

This project is a Dafny model of the logic behind the "Send Students Result" web
application. A teacher uploads a CSV or Excel sheet of student marks. The server
turns each row into a draft result with a total and a letter grade, and keeps the
drafts under the client's upload session. On request it stores each draft by
e-mail address, mails it, and logs one outcome per student.

Beside the web routes, a separate e-mail service works through the unsent rows of a
student table in batches. It throttles itself with an hourly rate limiter and fills
an e-mail template for each student. A small report helper summarises scores, and
the browser page repeats the grade bands, colours each band and checks the
extension of the file it is given.

Modules, one per part of the program:

- `Grading`: the letter-grade step function (90/80/70/60, inclusive lower bounds)
  and the custom message of each band. `app.py`, `utils/email_service.py` and
  `static/js/main.js` each carry their own copy of the chain. All three are modelled
  and proved equal to this one.
- `Text`: the string operations the program relies on. These are ASCII
  lower/upper-casing, the last index of a character (Python's `rsplit('.', 1)`,
  JavaScript's `split('.').pop()`) and Python's `str.replace`.
- `Mail`: a send outcome (`Delivered` or `Raised(error)`) and the log status it
  leads to.
- `Config`: the server's allowed extensions.
- `Ingest`: the checks of the upload route and the draft built for each row.
- `App`: the student table, the e-mail log and the upload-session map of the web
  application. It also holds the upload and send routes (class `WebApp`) and the
  statistics endpoint.
- `EmailService`: the rate limiter (class `Service`), template substitution, and
  the bulk dispatch loop over a `Database` object. Each dispatch is specified by a
  function on values (`Run`, `BulkSend`).
- `Helpers`: the parameterised extension check and the summary report.
- `MainJs`: the page's grade and colour chains, its extension check, and the
  `currentFile` field of the page controller (class `StudentResultSystem`).

Everything outside the program's own logic is passed in as a parameter:

- The mail transport is an oracle `(attempt number, message) -> outcome`.
- The spreadsheet reader is `Reader -> Option<Sheet>`, where `None` means that
  pandas raised.
- The e-mail service's clock is `attempt number -> seconds`. The web routes take
  one timestamp `now` per send request.
- The random hex tokens are `row index -> string`.
- Python's `str(float)` is `fmt: real -> string`.
- The rate limit is a constructor argument.

## Model

| member | source | states |
|---|---|---|
| Grading.CalculateGrade | app.py:68-78 | A exactly for scores of at least 90, B for [80, 90), C for [70, 80), D for [60, 70) and F below 60; each band in both directions |
| Grading.GradeMonotone | app.py:68-78 | a higher score never gets a lower grade |
| Grading.LetterInjective | utils/email_service.py:49-54 | distinct grades have distinct letters |
| Grading.CustomMessage | utils/email_service.py:56-66 | the message of a score is the message of its grade band |
| Grading.MessageForInjective | utils/email_service.py:56-66 | distinct bands have distinct messages |
| Grading.SameMessageIffSameGrade | utils/email_service.py:49-66 | two scores get the same message exactly when they get the same grade |
| Text.Lower | app.py:66 | lower-casing keeps the length and maps every character on its own |
| Text.LowerIdempotent | static/js/main.js:42 | lower-casing twice is lower-casing once |
| Text.LowerSuffix | static/js/main.js:42 | lower-casing commutes with taking a suffix |
| Text.LastIndexOf | app.py:66 | the result is -1 or a position holding the character, with no occurrence after it |
| Text.LastIndexOfAbsent | static/js/main.js:42 | the result is -1 exactly when the character does not occur |
| Text.LowerKeepsLastDot | static/js/main.js:42 | lower-casing does not move the last dot |
| Text.ReplaceAll | utils/email_service.py:36-45 | a text without the pattern is returned unchanged; a text starting with the pattern yields one starting with the replacement |
| Text.ReplaceWhole | utils/email_service.py:36-45 | a text that is exactly the pattern becomes exactly the replacement |
| Text.ReplaceSkips | utils/email_service.py:36-45 | a text without `{{` in front of the rest is kept whole by the replacement of a pattern starting with `{{` |
| Text.ReplaceSkipsAfter | utils/email_service.py:36-45 | a text that does not start the pattern and has no `{{` after its first character is kept whole |
| Text.ReplaceAtPattern | utils/email_service.py:36-45 | a text starting with the pattern gets the replacement, then the rest replaced on its own |
| Text.ReplaceDistributes | utils/email_service.py:36-45 | replacing in text without `{{` (nor a trailing `{`), then the pattern, then a rest gives the text, the replacement, and the rest replaced |
| Text.PlaceholderNotPrefix | utils/email_service.py:36-45 | a placeholder is never the start of a text that begins with a different placeholder |
| Text.ReplaceSkipsPlaceholder | utils/email_service.py:36-45 | a different placeholder at the start of a text is skipped whole |
| Text.ReplaceSettles | utils/email_service.py:36-45 | in a template of placeholders and text without `{{`, replacing a placeholder replaces exactly its slots; with a value without `{{` the result is again such a template |
| Text.ChainFills | utils/email_service.py:36-45 | replacements applied one after the other to such a template fill every slot with its value and keep every other character |
| Mail.StatusOf | app.py:284-310 | the status is `sent` exactly when the transport delivered, and a failure carries the raised error |
| Ingest.AllowedFile | app.py:65-66 | accepted exactly when the name has a dot and the lower-cased text after the last dot is `csv` or `xlsx` |
| Ingest.XlsRejected | config.py:20 | a `.xls` file is refused by the server |
| Ingest.ReaderAsWritten | app.py:179-182 | the program's case-sensitive choice picks the CSV reader only where the corrected choice does too |
| Ingest.CsvSuffixSurvivesLower | app.py:179 | a name ending in `.csv` still ends in `.csv` once lower-cased |
| Ingest.ReaderFor | app.py:179-182 | corrected reader choice: the CSV reader only for a name whose fourth character from the end is a dot |
| Ingest.UpperCaseCsvGoesToExcel | app.py:176-182 | `MARKS.CSV` passes the extension check yet is read by the Excel reader (finding below) |
| Ingest.ReaderForMatchesExtension | app.py:179-182 | corrected reader choice: the CSV reader exactly when the extension after the last dot is `csv` in any case |
| Ingest.CsvReaderHasCsvExtension | app.py:179-182 | a name whose lower-cased form ends in `.csv` has `csv` as its last extension |
| Ingest.CsvExtensionGetsCsvReader | app.py:179-182 | a name whose last extension is `csv` ends in `.csv` once lower-cased |
| Ingest.ReaderChoicesDiffer | app.py:179-182 | the program's reader choice and the corrected one differ exactly on names that end in `.csv` only once lower-cased |
| Ingest.MissingColumns | app.py:185-192 | the missing columns are exactly the required columns absent from the header, in required-list order |
| Ingest.MissingEmailReported | app.py:185-192 | a header lacking only `email` reports exactly `["email"]` |
| Ingest.MissingExactlyOne | app.py:189-192 | a header lacking exactly one required column reports exactly that column |
| Ingest.MissingNoneWhenAllPresent | app.py:189-192 | a header with every required column reports nothing missing |
| Ingest.MakeDraft | app.py:196-221 | the draft's total and grade agree with its scores, its id starts with `STU`, the row's fields are copied, and the comment is the row's own or else `Good work! Keep it up.` |
| Ingest.ExampleTotal | app.py:197-219 | scores 80, 75, 90, 85, 70 and 95 give total 495 and grade A |
| Ingest.BuildDrafts | app.py:195-222 | one draft per row in row order, each built from its row and its own token |
| Ingest.CheckUpload | app.py:166-192 | no file or an empty name gives "no file selected"; a name that fails the extension check gives "invalid file type"; a sheet the reader cannot parse gives a processing error; acceptance exactly when the name passes, the sheet parses and no required column is missing; a missing-columns refusal names exactly the absent columns; the sheet is read with the corrected reader choice (see Left out) |
| App.Upsert | app.py:263-274 | the table gains the draft's e-mail and no other key; an existing row takes every draft field and keeps its key and creation time; a new row takes the next key; other rows are untouched |
| App.UpsertAll | app.py:260-274 | storing a batch keeps every stored e-mail and hands out at most one new key per draft |
| App.UpsertValid | app.py:263-274 | storing a draft keeps rows filed under their own e-mail with distinct keys, and keeps the rows consistent |
| App.UpsertAllKeys | app.py:260-274 | after a batch the table's e-mails are the old ones plus the batch's |
| App.UpsertAllLastWins | app.py:263-268 | the last draft of a batch with a given e-mail decides that row's fields |
| App.UpsertAllKeepsIdentity | app.py:264-268 | a row stored before the batch keeps its key and creation time |
| App.UpsertAllKeepsOthers | app.py:260-274 | a stored row whose e-mail is not in the batch is left exactly as it was |
| App.DuplicateEmailKeepsSecond | app.py:260-274 | two drafts with one e-mail leave a single row holding the second |
| App.UpsertAllValid | app.py:260-274 | a batch of consistent drafts keeps the table invariant and every row consistent |
| App.BatchLogs | app.py:284-310 | one log row per draft in draft order, all with the batch id, `sent` exactly when delivered, failures carrying the error |
| App.BatchDetails | app.py:295-317 | one detail per draft in draft order, with the student's first and last name joined by a space, the draft's e-mail, and the status: `sent` exactly when delivered, otherwise a failure carrying the error |
| App.BatchLogsCountSent | app.py:284-311 | the `sent` rows a batch appends are exactly the delivered drafts |
| App.CountSent | app.py:385 | the `sent` log rows never outnumber the log rows |
| App.ApiStats | app.py:381-394 | counts of students and of sent and failed log rows; the rate is the sent rows over all log rows times 100 (0 with no log rows); so 0 when nothing was sent, 100 exactly when something was sent and nothing failed, and between the two otherwise |
| App.RateBounds | app.py:390-392 | the sent percentage lies in [0, 100] and hits each end exactly at the extremes |
| App.SendRunStats | app.py:381-394 | a send run adds its delivered count to the sent statistic and the rest of its drafts to the failed one |
| App.SendLoop | app.py:258-319 | every draft is stored and gets exactly one log row and one detail; sent counts the deliveries and sent + failed is the number of drafts; a failure never stops the loop |
| App.WebApp.constructor | app.py:150-152 | an empty table, log and session map |
| App.WebApp.UploadFile | app.py:164-229 | a refused upload changes nothing; an accepted one parks one draft per row under a new session id and records the id in the session |
| App.WebApp.PendingDrafts | app.py:252-256 | no drafts exactly when the session has no upload id, an empty one, or one with nothing parked under it; otherwise the drafts parked under that id |
| App.WebApp.SendEmails | app.py:250-330 | with no pending drafts, `NoStudentData` and nothing changes; otherwise the table is the batch upsert, the log gains the batch's rows, the reply counts sent and failed, and the session's drafts and id are dropped |
| App.WebApp.SendPending | app.py:256-330 | the send route once the session's drafts are known: store, log and reply, then drop the session's drafts |
| App.WebApp.StoreBatch | app.py:258-319 | runs the send loop on the stored table and log and keeps the table valid |
| App.WebApp.DropSession | app.py:321-324 | removes exactly the session's entry from the pending map and clears the session id |
| EmailService.Renewed | utils/email_service.py:69-72 | a full hour after the window opened, the count resets to 0 and the window restarts now; otherwise the state is kept |
| EmailService.RateLimitStep | utils/email_service.py:68-78 | a permit exactly when the renewed count is below the cap; a grant adds exactly 1; a count within the cap stays within it |
| EmailService.RefusalKeepsState | utils/email_service.py:74-75 | inside the window at the cap, the check refuses and changes nothing |
| EmailService.GrantedAfterWindow | utils/email_service.py:70-78 | after a full hour, a check grants and leaves count 1 in a window opened now |
| EmailService.Grants | utils/email_service.py:68-78 | a sequence of checks grants at most one permit per check |
| EmailService.AtMostCapPerWindow | utils/email_service.py:74-78 | within one window, checks grant at most the permits the cap has left |
| EmailService.Service.constructor | utils/email_service.py:11-15 | a fresh limiter with count 0 and a window opened at construction |
| EmailService.Service.CheckRateLimit | utils/email_service.py:68-78 | the reply and the new count and window are those of `RateLimitStep`, and the count stays within the limit |
| EmailService.ServiceGrade | utils/email_service.py:49-54 | the service's letter is the letter of the shared grade bands |
| EmailService.CreatePersonalizedEmail | utils/email_service.py:31-47 | a body without any of the six placeholders and a subject without either of its two placeholders pass through unchanged |
| EmailService.GradeTokenRendered | utils/email_service.py:32-39 | a `{{grade}}` body becomes the student's letter grade |
| EmailService.UnknownTokenKept | utils/email_service.py:31-47 | an unrecognised `{{name}}` placeholder is left as it is in body and subject |
| EmailService.NameTokensCascade | utils/email_service.py:35-39 | a student name that is itself `{{grade}}` is replaced again by the later grade step |
| EmailService.SubjectDefaultsToGeneral | utils/email_service.py:43-44 | a student without a subject gets `General` in the subject line |
| EmailService.SemesterDefaultsToSpring | utils/email_service.py:40 | a student without a semester gets `Spring 2024` for a `{{semester}}` body |
| EmailService.BodyIsChain | utils/email_service.py:35-41 | the body is the six body replacements applied in the service's order |
| EmailService.BodyRendersSlots | utils/email_service.py:31-41 | a body of placeholders and text without `{{` (CSS rules included) renders as that text with each of the six placeholders replaced by the student's value and any other placeholder kept, when the values before the custom message hold no `{{` |
| EmailService.SubjectRendersSlots | utils/email_service.py:43-45 | the same for the subject line and its two placeholders, when the subject value holds no `{{` |
| EmailService.Compose | utils/email_service.py:110-117 | the message goes to the student's e-mail with the personalised subject and body |
| EmailService.Unsent | utils/email_service.py:85-88 | exactly the table's rows not yet marked sent, in table order and each as often as in the table: a subsequence of the table, as long as the table less its sent rows |
| EmailService.Fetch | utils/email_service.py:85-88 | a prefix of the unsent rows, all unsent: all of them when the batch size is negative or covers them, and exactly the batch size when more rows are unsent |
| EmailService.MarkSent | utils/email_service.py:122-125 | rows with the id become sent at the given time; every other row is untouched |
| EmailService.Outgoings | utils/email_service.py:102-117 | one composed message per fetched row, in order |
| EmailService.Attempt | utils/email_service.py:109-147 | one attempt adds exactly one to sent or failed and one log row with the batch id and the student's e-mail, and only marks rows |
| EmailService.AttemptOutcome | utils/email_service.py:109-147 | a delivery marks the row sent and logs `sent`; a failure logs the error, leaves the table and appends `email: error` |
| EmailService.Run | utils/email_service.py:102-147 | the run keeps the number of rows and never lowers the sent or failed counts |
| EmailService.RunCounts | utils/email_service.py:102-147 | no more attempts than rows; one error per failure, plus at most one refusal |
| EmailService.EarlyStopIsRefusal | utils/email_service.py:105-107 | a run that ends before its last row ends on a `Rate limit exceeded` error |
| EmailService.RunKeepsCap | utils/email_service.py:102-107 | the run keeps the limiter within its cap |
| EmailService.RunLogs | utils/email_service.py:127-147 | the log gains one row per attempt and keeps its old rows |
| EmailService.RunLogsTagged | utils/email_service.py:128-147 | every row the run appends carries the batch id |
| EmailService.RunOnlyMarks | utils/email_service.py:121-125 | the run changes rows only by marking them sent with a time |
| EmailService.AttemptMarks | utils/email_service.py:119-125 | one attempt marks exactly the rows with the student's id, and only when the message was delivered |
| EmailService.RunMarksDelivered | utils/email_service.py:102-147 | after a run a row is sent exactly when it was sent before or a message to its id was delivered during the run |
| EmailService.PermitPerAttempt | utils/email_service.py:105-107 | within one window, each attempt consumed exactly one permit, whether it failed or not |
| EmailService.AttemptsWithinPermits | utils/email_service.py:102-107 | within one window, a run attempts at most the permits the limiter has left |
| EmailService.ErrorsField | utils/email_service.py:160-161 | absent exactly when there are no errors; otherwise the first errors, at least 1 and at most 10, all of them when there are 10 or fewer |
| EmailService.NothingToSendChangesNothing | utils/email_service.py:90-91 | with nothing unsent (or a zero limit) the reply is a success with no sends and nothing changes |
| EmailService.NoneUnsentWhenAllSent | utils/email_service.py:85-91 | a table whose rows are all sent has no unsent rows |
| EmailService.NoTemplateChangesNothing | utils/email_service.py:93-95 | without the default template the reply is a failure (or nothing to send) and nothing changes |
| EmailService.BulkSend | utils/email_service.py:80-163 | finished exactly when there are rows to fetch and the default template exists, otherwise nothing changes; a finished reply carries the batch id and the run's counts, with at most one attempt per fetched row |
| EmailService.FinishedBounds | utils/email_service.py:85-161 | a finished run attempted at most the fetched rows and the batch size, kept the cap, appended one batch-tagged log row per attempt and only marked rows |
| EmailService.Service.AttemptOne | utils/email_service.py:109-147 | the database and counters after one send are those of `Attempt` |
| EmailService.Service.DispatchLoop | utils/email_service.py:102-147 | the loop ends in the state `Run` gives from the starting limiter, table and log |
| EmailService.Service.SendBulkEmails | utils/email_service.py:80-163 | the batch size defaults to 50; the reply and the final limiter, students and log are those of `BulkSend`; templates are untouched |
| Helpers.AllowedFile | utils/helpers.py:4-6 | accepted exactly when the name has a dot and the lower-cased text after the last dot is in the given set |
| Helpers.DotlessRejected | utils/helpers.py:4-6 | a name without a dot is refused |
| Helpers.AllowedFileCaseInsensitive | utils/helpers.py:4-6 | the check gives the same answer for a name and its lower-cased form |
| Helpers.LastExtensionOnly | utils/helpers.py:4-6 | `a.csv.exe` is refused and `A.CSV` accepted for `{csv}` |
| Helpers.SubjectSet | utils/helpers.py:17 | exactly the subjects of the records, `General` for a record without one |
| Helpers.MinScore | utils/helpers.py:19 | a score of some record, at most every score |
| Helpers.MaxScore | utils/helpers.py:20 | a score of some record, at least every score |
| Helpers.SumBetween | utils/helpers.py:21 | scores between two bounds sum to between n times each bound |
| Helpers.MeanBetween | utils/helpers.py:21 | a total between n·lo and n·hi has its mean between lo and hi |
| Helpers.Mean | utils/helpers.py:21 | the mean of the scores lies between the lowest and the highest score |
| Helpers.Summarize | utils/helpers.py:15-23 | the count of records, exactly their subjects, min and max attained, and the average the sum of the scores over their count, between min and max |
| Helpers.GenerateReport | utils/helpers.py:13-25 | the report type defaults to `summary`; another report type gives no report; a summary of no records raises; otherwise the summary |
| MainJs.ClientGrade | static/js/main.js:152-158 | the page's letter is the letter of the shared grade bands |
| MainJs.ColorForInjective | static/js/main.js:160-166 | distinct grades have distinct colours |
| MainJs.GradeColor | static/js/main.js:160-166 | the colour of a score is the colour of its grade band |
| MainJs.ColorAgreesWithGrade | static/js/main.js:152-166 | two scores share a colour exactly when they share a letter |
| MainJs.ExtensionOf | static/js/main.js:42 | the derived extension is a dot followed by text without a dot |
| MainJs.ClientAccepts | static/js/main.js:41-44 | a name passes exactly when its derived extension without the dot is `csv`, `xlsx` or `xls` |
| MainJs.DottedLookup | static/js/main.js:41-44 | looking up a dot plus a text among the dotted extensions is looking up the text among the bare ones |
| MainJs.LastDotAt | static/js/main.js:42 | a dot (or -1) with no dot after it is the last dot |
| MainJs.ExtensionAfterLastDot | static/js/main.js:42 | the derived extension is a dot plus the lower-cased text after the last dot |
| MainJs.ClientAcceptsLastSegment | static/js/main.js:41-44 | a name passes exactly when the lower-cased text after its last dot is `csv`, `xlsx` or `xls` |
| MainJs.DotlessJudgedWhole | static/js/main.js:42 | a name without a dot is judged by its whole text |
| MainJs.ClientAcceptsCaseInsensitive | static/js/main.js:42 | the derived extension, and so the check, ignore letter case |
| MainJs.ClientAcceptsWhatServerRefuses | static/js/main.js:41-44 | the page accepts `csv` and `marks.xls`, which the server refuses |
| MainJs.ServerAcceptedPassesClient | static/js/main.js:41-44 | every name the server accepts passes the page's check |
| MainJs.StudentResultSystem.constructor | static/js/main.js:2-5 | no file is remembered |
| MainJs.StudentResultSystem.HandleFileSelect | static/js/main.js:36-52 | an empty selection changes nothing; a first file that fails the check makes the page show an error notice and keeps the remembered file; otherwise it becomes the remembered file |
| MainJs.StudentResultSystem.ClearFile | static/js/main.js:204-209 | the remembered file is cleared |

## Left out

- The upload page offers `.xls` files, but the server allows only `csv` and `xlsx`
  (config.py:20), so such a file is refused after upload (`Ingest.XlsRejected`,
  `MainJs.ClientAcceptsWhatServerRefuses`).
- The default comment is used only when the row has no `comments` field at all
  (app.py:220); a blank value is kept as it is.
- Ingest.CheckUpload: reads the sheet with the corrected reader choice
  (`ReaderFor`), not with the case-sensitive `endswith('.csv')` of app.py:179. On
  a name such as `MARKS.CSV` the model parses a CSV sheet where the program hands
  the file to the Excel reader. `Ingest.ReaderChoicesDiffer` states exactly which
  names are affected.
- App.WebApp.UploadFile: inherits the corrected reader choice from
  `Ingest.CheckUpload`, with the same difference on names like `MARKS.CSV`.
- EmailService.BodyRendersSlots: covers templates whose text between placeholders,
  and values replaced before the custom message, hold no `{{` and do not end in a
  single `{`. A CSS rule such as `body { ... }` is covered. Text or a value ending
  in `{` right before a placeholder is not. The same holds for
  EmailService.SubjectRendersSlots and the subject value.
- Text.Lower: only ASCII letters are mapped. Python's `str.lower` and JavaScript's
  `toLowerCase` also map other Unicode letters.
- Flask routing, templates, `flash`/`redirect`, cookies, the error handlers and
  `generate_email_template` (an HTML f-string) are left out. The mail message of
  `send_emails` is the draft itself as the transport sees it.
- SQL, connections, commits and transactions are left out. The web store is a map
  from e-mail to row plus an append-only log. The service's store is a `Database`
  object holding a sequence of students, a log and the templates. The `SELECT`
  without `ORDER BY` is taken to return rows in table order.
- The outer `except` of `send_bulk_emails` (a database error) is not modelled.
  Nor is a `subject` or `semester` column that is present but NULL, where
  `.replace` would raise: `None` in the model means the key is absent.
- An exception raised by the upsert or commit inside the try of `send_emails` is
  not modelled. Only the transport can fail, so a failure never leaves a
  half-stored row.
- App.ApiStats: `success_rate` is not rounded to two decimals. The message
  strings of the replies (the f-strings with the counts) are left out.
- Python's `str(float)` is the `fmt` parameter. The model does not say which text
  it yields.
- App.SendLoop: one timestamp `now` serves the whole batch, as the `created_at` of
  every new row and the `sent_at` of every log row. The program takes
  `datetime.utcnow` separately for each inserted row (app.py:53, app.py:61), so the
  order of timestamps within one request is not modelled. The same holds for
  App.WebApp.SendEmails, App.WebApp.SendPending and App.WebApp.StoreBatch.
- `time.time()` and both `datetime.now()` calls of one attempt are one clock value
  per attempt, passed in. The timestamp batch id of the service and the random
  tokens of the web routes are parameters.
- `time.sleep(0.1)` has no logical effect and is left out.
- Template rendering is pure, so the messages of a fetched batch are composed
  before the loop (`Outgoings`). The program composes each one inside the loop.
  The transport sees the same messages in the same order.
- Helpers.SubjectSet: `list(set(...))` is modelled as a set, so the order of the
  `subjects` list is not modelled.
- Average, min and max use exact reals, not floating point.
- `secure_filename_with_timestamp` (helpers.py) wraps werkzeug and uses `datetime`
  without importing it. It is not modelled.
- The `/preview`, `/results`, `/logs`, `/export-logs` and `/clear-data` routes are
  not modelled. Neither are `displayFileInfo`, `formatFileSize`, `uploadFile`,
  `displayPreview`, `sendEmails` and `clearAllData` of the page, nor
  `static/js/charts.js` and `static/js/dashboard.js`. All of these are display,
  network or DOM code.
- The global `_temp_student_data` shared between concurrent requests is not
  modelled. Each `WebApp` object is the server as one client sees it.
- `RATE_LIMIT` is not defined in config.py, so it is a constructor argument of
  `Service`.

## Findings

| source | as written | input that shows it | evidently intended | confidence | as-written member | corrected member |
|---|---|---|---|---|---|---|
| app.py:179 | the reader is chosen by a case-sensitive `endswith('.csv')`, while `allowed_file` lower-cases the extension | `MARKS.CSV` passes `allowed_file` and is handed to `read_excel` | the CSV reader for every name whose extension is `csv` in any case | not executed | Ingest.UpperCaseCsvGoesToExcel | Ingest.ReaderForMatchesExtension |
