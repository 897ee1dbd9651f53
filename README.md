# Aivora worker: a verified model of the job-worker core

Aivora's local worker (`Aivora.py`) polls a remote job queue and picks up
one job at a time. For each job it downloads a spreadsheet of posts and
comments, and a browser bot (`XCommentBot`) posts each comment with up to
three attempts. The bot marks every processed row "Y" or "N" in a retained
copy of the sheet. The worker then reports the job COMPLETED or FAILED to
the queue and uploads the updated sheet.

This project models that core in Dafny and proves properties of it. It has
seven modules:

- `Text` (`text.dfy`) holds the Python string operations the loader uses:
  `strip`, `lower`, `upper`, one-character `replace`, `in` and `startswith`.
- `Schema` (`schema.dfy`) holds column-name normalisation (`_normalize`),
  the alias and substring heuristics, and `_detect_column`.
- `Sheet` (`sheet.dfy`) covers the decoded sheet and the part of
  `load_spreadsheet` that follows decoding:
  - header clean-up;
  - detection of the URL, comment and status columns;
  - text standardisation;
  - the blank, "nan" and completion-marker filters.

  The result is the work set, in row order.
- `RowLedger` (`ledger.dfy`) is the retained copy of the sheet
  (`original_df` and `_status_col_name`). It is modelled as the class
  `Ledger`, whose methods update it in place, together with the status
  write-back `update_excel_file`.
- `ItemProcessor` (`item.dfy`) models `process_single_post`. It is a loop
  of at most three attempts with backoffs of 1 and 2 time units, and the
  tab is closed after every attempt.
- `BatchRunner` (`batch.dfy`) covers `process_posts`, the counts of
  `generate_summary_report`, and `run` with its exit codes. It is modelled
  as the class `Bot`, which owns the result list and the ledger.
- `JobWorker` (`worker.dfy`) models `worker_main`, the polling loop with
  its empty-poll ceiling, the first-run marker and the status updates sent
  to the queue.

Each imperative method is proved against a specification function:

- `ProcessSinglePost` against `Retry` and `Backoffs`;
- `Bot.ProcessPosts` against `BatchOutcomes` and `MarkAll`;
- `Bot.Run` against `RunSpec`;
- `WorkerMain` against `Worker`.

The properties the source promises are then lemmas about those functions.

The outside world is passed in as parameters:

- The browser's answer to every attempt is an oracle from a post number
  and an attempt index to `Posted`, `NotPosted` or `Raised(error)`.
- The login is two booleans: whether the driver started and whether the
  login was confirmed.
- Decoding the downloaded bytes is a function from bytes to an optional
  well-formed sheet.
- The queue's answers to the polls are a finite script.

Two behaviours of the code are easy to miss, and the model keeps both:

- A job whose download fails leaves the poll counter unchanged, because
  `continue` skips the reset (`Aivora.py:961-965`; `StepEffect`).
- `update_excel_file` creates a missing status column even when the row
  id is unknown (`Aivora.py:502-511`; `SetStatusUnknownRow`).

Two quirks of the code are kept in the model:

- The status column is detected from stripped header names, but the
  retained copy keeps the raw names. A status header with white space
  around it therefore gets a second, stripped status column.
- The status aliases "commented_(y/n)" and "commented" also fit the
  comment heuristics. A status column placed before the comment column is
  therefore taken for the comment column (`StatusColumnTakenForComment`).

As written, `process_single_post` has a `finally:` after a statement that
follows its `except` block (`Aivora.py:587-597`). That is not valid Python,
so the file does not parse. The model follows the evidently intended order:

- a backoff of `2**attempt` only before a further attempt;
- the tab closed after every attempt.

## Model

| member | source | states |
|---|---|---|
| Text.Lower | Aivora.py:343 | `str.lower` maps each character to its ASCII lower case and keeps the length |
| Text.Upper | Aivora.py:489 | `str.upper` maps each character to its ASCII upper case and keeps the length |
| Text.Replace | Aivora.py:344-345 | `replace(a, b)` puts `b` exactly where `a` was and leaves every other character |
| Text.SkipSpaceSkipsSpace | Aivora.py:342 | everything the leading scan of `strip` passes over is white space |
| Text.BackSpaceDropsSpace | Aivora.py:342 | everything the trailing scan of `strip` drops is white space |
| Text.Strip | Aivora.py:342 | `strip` leaves no white space at either end and never lengthens the string |
| Text.StripRemovesSpaceOnly | Aivora.py:342 | the stripped string is a contiguous piece of the input, and everything cut off on either side is white space |
| Text.StripTrimmed | Aivora.py:342 | stripping a string with no white space at its ends leaves it unchanged |
| Text.ReplaceRemoves | Aivora.py:344-345 | after `replace(a, b)` with `a != b` no `a` is left |
| Text.ReplaceKeepsTrimmed | Aivora.py:344-345 | replacing with a non-space character keeps the ends free of white space |
| Text.LowerKeepsTrimmed | Aivora.py:343 | lower-casing keeps the ends free of white space |
| Text.ContainsAt | Aivora.py:355 | `t in s` holds whenever `t` occurs at some position of `s` |
| Text.LacksFirstChar | Aivora.py:360 | `t in s` fails when the first character of `t` does not occur in `s` |
| Schema.Normalize | Aivora.py:335-346 | a normalised name has no space, no hyphen, no upper-case letter, no white space at its ends, and is no longer than the raw name |
| Schema.NormalizeIdempotent | Aivora.py:335-346 | normalising a normalised name changes nothing |
| Schema.IsUrlName | Aivora.py:353-356 | every name the URL heuristic accepts contains "url", except the aliases "link" and "post_link" |
| Schema.IsCommentName | Aivora.py:358-361 | the comment heuristic accepts a name iff it contains "comment" or "reply"; the alias list and the "generated" rule add nothing |
| Schema.IsStatusName | Aivora.py:460-463 | of the status aliases, exactly "commented_(y/n)" and "commented" also pass the comment heuristic |
| Schema.OtherStatusNamesLackComment | Aivora.py:460 | the status aliases "done", "posted" and "status" contain neither "comment" nor "reply" |
| Schema.NormalizeUrlHeader | Aivora.py:335-346 | a header written "URL" normalises to the alias "url" |
| Schema.FirstMatch | Aivora.py:348-365 | a position found is a valid position in the name list |
| Schema.FirstMatchFirst | Aivora.py:348-365 | the search fails iff no normalised name fits; otherwise it returns the first name that fits, and none before it fits |
| Schema.DetectColumn | Aivora.py:348-365 | `_detect_column` returns `None` iff no zipped name fits; otherwise it returns a raw name whose normalised partner fits |
| Schema.NormalizeAll | Aivora.py:431 | the normalised list has one entry per raw name, each `_normalize` of it |
| Schema.FindColumn | Aivora.py:430-436 | over the cleaned headers, a column is found iff some header normalises to a fitting name, and the one found is the first such header |
| Schema.DefaultStatusNameIsAlias | Aivora.py:460-468 | the default "Commented (Y/N)" normalises to the alias "commented_(y/n)" |
| Sheet.KeptColumns | Aivora.py:428 | the surviving columns are listed in strictly increasing order, and a column survives iff it is not an "Unnamed…" column whose cells are all NaN |
| Sheet.CleanedKeepsData | Aivora.py:426-428 | every column holding a value in some row, and every column whose stripped header does not start with "Unnamed", survives the clean-up |
| Sheet.Cleaned | Aivora.py:426-428 | the cleaned view has every row and exactly the surviving columns in order; each header is the stripped original and each cell is the original cell |
| Sheet.MissingList | Aivora.py:438-441 | the error lists the URL column iff it is undetected, the comment column iff it is undetected, and is non-empty iff either is |
| Sheet.Detect | Aivora.py:430-468 | detected column positions are valid positions of the cleaned view; a failure names at least one column |
| Sheet.DetectMissing | Aivora.py:434-444 | loading fails iff the URL or comment column is absent, and the error names exactly the absent ones |
| Sheet.DetectFound | Aivora.py:434-468 | URL, comment and status columns are each the first fitting header; the status column is absent iff no header is a status alias, and then the default name is used |
| Sheet.StatusColumnTakenForComment | Aivora.py:435-465 | with headers "Commented (Y/N)", "URL", "Generated comment", column 0 is both the comment column and the status column |
| Sheet.DetectAgreesWithDetectColumn | Aivora.py:348-365 | the URL and comment columns `Detect` finds are the raw names `_detect_column` returns for the same headers |
| Sheet.UrlText | Aivora.py:450 | the standardised URL has no white space at its ends, is no longer than the cell text, and is "nan" for a NaN cell |
| Sheet.CommentText | Aivora.py:451-457 | the standardised comment contains no line break or carriage return, and is "nan" for a NaN cell |
| Sheet.Blank | Aivora.py:480-483 | a text is rejected iff it is empty or is "nan" in any mix of upper and lower case |
| Sheet.IsCompletionMarker | Aivora.py:488-491 | a NaN status cell never marks a row as already done |
| Sheet.Keep | Aivora.py:479-491 | a row that passes the filters has a URL cell and a comment cell that are not NaN, and a non-empty URL and comment |
| Sheet.Candidates | Aivora.py:450-457 | one candidate per row, built from that row's URL and comment cells |
| Sheet.Verdicts | Aivora.py:476-491 | one verdict per row, true iff the row passes the blank, "nan" and completion-marker filters |
| Sheet.Select | Aivora.py:479-491 | boolean-mask selection never yields more rows than it was given |
| Sheet.SelectChosen | Aivora.py:479-491 | every selected row is unchanged from its candidate and had a true verdict |
| Sheet.SelectAscending | Aivora.py:479-491 | selection keeps the sheet's row order |
| Sheet.SelectCovers | Aivora.py:479-491 | no row with a true verdict is dropped |
| Sheet.WorkSet | Aivora.py:476-491 | the work set is in strictly increasing row order and names only existing rows |
| Sheet.WorkSetClean | Aivora.py:476-491 | every work item carries its own row's standardised URL and comment, neither blank nor "nan", and its row has no completion marker |
| Sheet.WorkSetComplete | Aivora.py:476-491 | every row that passes the filters appears in the work set |
| Sheet.LoadSheet | Aivora.py:423-495 | a loaded work set is in row order and refers only to rows of the decoded sheet |
| RowLedger.WithColumn | Aivora.py:470-472 | a missing status column is appended and nothing else changes; an existing one leaves the sheet unchanged |
| RowLedger.WithColumnCells | Aivora.py:470-472 | existing cells keep their values and the new column holds "" in every row |
| RowLedger.SetStatus | Aivora.py:497-514 | a status write keeps the sheet well formed and the row count, with the status column present |
| RowLedger.SetStatusCells | Aivora.py:506-508 | exactly the status cell of the target row takes the new value; every other cell is as before |
| RowLedger.SetStatusUnknownRow | Aivora.py:506-511 | a row id that labels no row changes nothing except, when it was missing, adding the status column |
| RowLedger.Ledger.StatusColumnName | Aivora.py:502 | the status column written to is the recorded one when there is one, and otherwise the default "Commented (Y/N)" |
| RowLedger.Ledger.constructor | Aivora.py:58-61 | a new bot has no retained sheet and no status column name |
| RowLedger.Ledger.Attach | Aivora.py:423-424 | the ledger keeps the decoded sheet exactly |
| RowLedger.Ledger.AdoptStatusColumn | Aivora.py:467-474 | the status column is created when missing and its name recorded |
| RowLedger.Ledger.UpdateStatus | Aivora.py:497-514 | `update_excel_file` is a no-op without a ledger; otherwise it writes the status into the named row's status cell, creating the column first if needed |
| ItemProcessor.FailureMessage | Aivora.py:580-584 | an unsuccessful attempt `k` leaves the message of attempt `k + 1`: an error message carrying the exception's text iff the attempt raised, otherwise "failed to post" |
| ItemProcessor.Preview | Aivora.py:561 | a comment of at most 50 characters is kept; a longer one becomes its first 50 characters plus "..." |
| ItemProcessor.Retry | Aivora.py:566-590 | the number of attempts stays between the attempts already made and three |
| ItemProcessor.RetryOutcome | Aivora.py:566-590 | success iff some remaining attempt posts, and then the first one that posts ends the loop with "posted"; a failure uses every attempt and keeps the last attempt's message |
| ItemProcessor.Backoffs | Aivora.py:587-590 | one wait fewer than the attempts, the `i`-th being `2**i` |
| ItemProcessor.SinglePost | Aivora.py:555-599 | the record carries the item's post number, row id, URL and preview; its status is "success" iff its message is the posted message |
| ItemProcessor.ProcessSinglePost | Aivora.py:555-599 | the loop's record, attempt count, waits and tab closes are those of `Retry` and `Backoffs`, with one close per attempt |
| ItemProcessor.SinglePostSucceedsIff | Aivora.py:567-581 | an item succeeds iff one of its three attempts posts, and it stops at the first that does |
| ItemProcessor.AllAttemptsRaise | Aivora.py:582-590 | when every attempt raises, the item fails after three attempts with the third error, having waited 1 and then 2 |
| BatchRunner.Marker | Aivora.py:541-542 | the marker is "Y" iff the item succeeded and "N" iff it failed |
| BatchRunner.BatchOutcomes | Aivora.py:524-538 | one record per work item, in order; item `i` is post number `i + 1` and carries its own row id, URL and comment preview |
| BatchRunner.MarkAll | Aivora.py:537-542 | writing all markers keeps the sheet well formed, its rows and its columns |
| BatchRunner.MarkAllStep | Aivora.py:537-542 | marking one more item extends the marking of the items before it |
| BatchRunner.MarkAllEffect | Aivora.py:524-542 | each processed row's status cell holds "Y" or "N" by its item's result; every other cell, including rows outside the batch, is unchanged |
| BatchRunner.CountSuccess | Aivora.py:764 | the number of successes is at most the number of results, and zero iff every result failed |
| BatchRunner.Failures | Aivora.py:779-783 | the failure list is no longer than the results and holds only failed results |
| BatchRunner.SummaryReport | Aivora.py:761-765 | the total is the number of results, and the failed count is the total minus the successes |
| BatchRunner.FailuresExact | Aivora.py:779-783 | the failure list holds each failed result exactly as often as it occurs among the results, and nothing else |
| BatchRunner.SummaryCounts | Aivora.py:761-784 | successes plus listed failures equal the total, every listed failure is a failed result, and there is a success iff some result succeeded |
| BatchRunner.SummaryConsistent | Aivora.py:761-784 | successes plus listed failures equal the total; the failures listed are exactly the failed results, each as often as it occurs, so the success count is the number of results that succeeded; there is a success iff some result succeeded |
| BatchRunner.LoadedRun | Aivora.py:823-845 | once the sheet is decoded the code is 0, 1, 3 or 4, it is 1 iff the schema check fails, and the bot always keeps a well-formed ledger with the decoded sheet's rows |
| BatchRunner.RunSpec | Aivora.py:807-845 | the exit code is 0 to 4, and the bot keeps a ledger iff the driver started, the login was confirmed and the sheet decoded; that ledger is well formed and has the sheet's rows |
| BatchRunner.RunCodes | Aivora.py:807-845 | exit codes are 0 to 4; 2 iff login fails; 4 iff the loaded work set is empty; 0 iff some item posted; no item is attempted unless the code is 0 or 3 |
| BatchRunner.RunLedger | Aivora.py:823-830 | after a non-empty batch the ledger is the decoded sheet plus the status column, marked item by item, and the outcomes are the batch's |
| BatchRunner.AttemptItem | Aivora.py:533-538 | item `i` is processed as post number `i + 1` and every tab it opens is closed |
| BatchRunner.Bot.constructor | Aivora.py:51-64 | a new bot has no results, a fresh empty ledger and no pauses or cleanups |
| BatchRunner.Bot.ProcessItem | Aivora.py:524-551 | one loop pass appends the item's outcome, writes its marker, and pauses unless it is the last item |
| BatchRunner.Bot.ProcessPosts | Aivora.py:516-553 | results grow by the batch's outcomes in order, the ledger becomes `MarkAll` of the batch, pauses are one fewer than items, and an empty work set changes nothing |
| BatchRunner.Bot.RunLoaded | Aivora.py:823-838 | after login: the ledger keeps the decoded sheet; schema failure gives 1, an empty work set gives 4, otherwise 0 or 3 with the marked ledger |
| BatchRunner.Bot.RunWork | Aivora.py:829-838 | a non-empty batch ends with code 0 iff some item posted, else 3, and a summary of the results |
| BatchRunner.Bot.Run | Aivora.py:807-845 | `run` returns `RunSpec`'s code, summary, results and ledger, and `cleanup` runs exactly once |
| JobWorker.FinalStatus | Aivora.py:987-993 | the final status is COMPLETED iff the exit code is 0 or 4, and never RUNNING |
| JobWorker.Decoded | Aivora.py:378-414 | the sheet handed to the bot exists iff the bytes decode, and it is well formed |
| JobWorker.JobRun | Aivora.py:975-982 | a job's run ends with a code from 0 to 4, and leaves a well-formed ledger iff the session came up and the bytes decoded |
| JobWorker.Terminal | Aivora.py:961-995 | a job's terminal update carries its id and is COMPLETED or FAILED; a file is uploaded only for a job whose download worked, and it is well formed |
| JobWorker.FinishJob | Aivora.py:961-995 | after RUNNING, a job whose download failed is reported FAILED; otherwise a fresh bot's exit code, summary and ledger make the terminal update |
| JobWorker.WorkerMain | Aivora.py:930-1008 | `worker_main` sends exactly the updates, runs exactly the bots, and leaves the marker and poll count that `Worker` gives |
| JobWorker.Step | Aivora.py:947-1008 | one pass consumes one poll answer, appends at most two updates, only appends to the headless list and never removes the marker |
| JobWorker.Worker | Aivora.py:946-1008 | the loop ends when the script runs out or the empty-poll count reaches 1000, having only appended to the updates and the bot runs |
| JobWorker.StepEffect | Aivora.py:947-1008 | an empty poll counts one more; a job sends RUNNING and then its terminal update; only a job that ran resets the count, runs a bot and sets the marker on a first run |
| JobWorker.TerminalStatus | Aivora.py:961-995 | a failed download ends FAILED with no file; otherwise COMPLETED iff the code is 0 or 4, and a file is uploaded iff the session came up and the bytes decoded |
| JobWorker.ReporterReports | Aivora.py:958-995 | every job's terminal update carries the job's id and is COMPLETED or FAILED |
| JobWorker.CompletedIff | Aivora.py:987-993 | a job that ran completes iff some item posted or its loaded work set was empty |
| JobWorker.PairedAppend | Aivora.py:958-995 | one job's RUNNING and terminal updates extend a paired update log |
| JobWorker.WorkerPaired | Aivora.py:947-1008 | the updates sent form RUNNING/terminal pairs with matching job ids, and are only ever appended to |
| JobWorker.WorkerPolls | Aivora.py:947-1008 | the empty-poll count never exceeds 1000, and the loop stops early only when it reaches 1000 |
| JobWorker.HeadlessAndMarker | Aivora.py:935-1000 | every bot of a session runs headless iff the marker existed at start, and the marker exists at the end iff it did at start or some job ran |
| JobWorker.WorkerMainFacts | Aivora.py:930-1008 | from start-up: paired updates, the poll ceiling, a constant headless flag and the marker rule together |
| JobWorker.EmptyPollsStop | Aivora.py:1005-1008 | from a count of `c`, `1000 - c` further empty polls stop the loop after exactly that many |
| JobWorker.NoJobsStopAtMaxPolls | Aivora.py:947-1008 | a worker that never finds a job stops after exactly 1000 polls and sends nothing |

## Left out

- Browser automation (`setup_chrome_driver`, `navigate_to_login`, `wait_for_manual_login`, `post_comment`): each is reduced to the booleans of `Session` and to the attempt oracle. `post_comment` catches everything and returns a boolean, so an attempt either posts, does not post, or raises from the tab or page-load calls.
- Spreadsheet decoding (the Excel and CSV fallbacks, `Aivora.py:378-414`) and `to_excel` are not modelled. Decoding is the `Decoder` parameter, and the uploaded file is the ledger table rather than its bytes. An exception during decoding is swallowed and the later `df.copy()` fails. Both cases are modelled as "no sheet", which gives exit code 1 and no upload.
- pandas rendering: cells are `Missing` (NaN, rendered "nan") or the text `str()` gives. Numeric and date formatting is not modelled, and neither are duplicate headers after stripping or a cleaned header that collides with "URL" or "generated_comment".
- Case conversion is ASCII only. Python's full Unicode case mapping is not modelled.
- HTTP, base64, log streaming (`api_stream_log`), `print` and logging, timestamps, `success_rate` and the rendered summary text are left out. Summaries and messages are datatypes. A malformed base64 payload, which would raise out of `worker_main`, is treated as a download that returned bytes or nothing.
- Sleeps, the job's `delay`, random jitter and `POLLING_INTERVAL` are left out. Only the number of pauses and the backoff lengths are counted.
- WorkerMain: the queue's answers are a finite script, so the model also stops when the script runs out. The real loop only stops at `MAX_POLLS` empty polls.
- Bot.Run: it is modelled for a freshly built bot, which is how `worker_main` uses it. Reusing a bot across runs is not modelled.
- The file-system marker is a boolean read once at start-up and set after each job that ran on a first run. The profile directory is not modelled.
