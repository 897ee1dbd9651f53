/**
 * The batch runner and the bot's job run: `process_posts`,
 * `generate_summary_report` (its counts) and `run` with its exit codes.
 * The bot owns the result list and the ledger.
 */
module BatchRunner {
  import opened Schema
  import opened Sheet
  import opened RowLedger
  import opened ItemProcessor

  /** The browser's answers for a whole batch: `oracle(p, k)` is attempt `k` of post number `p`. */
  type Oracle = (nat, nat) -> Attempt

  function TriesFor(oracle: Oracle, postNumber: nat): Tries {
    (k: nat) => oracle(postNumber, k)
  }

  /** The ledger marker written for a result. */
  function Marker(s: Status): (m: string)
    ensures m == "Y" <==> s == Success
    ensures m == "N" <==> s.Failed?
  {
    assert "Y"[0] != "N"[0];
    if s == Success then "Y" else "N"
  }

  /** The outcome record of each work item, in work-set order; post numbers count from 1. */
  function BatchOutcomes(work: seq<Row>, oracle: Oracle): (outs: seq<Outcome>)
    ensures |outs| == |work|
    ensures forall i :: 0 <= i < |work| ==>
              && outs[i].postNumber == i + 1 && outs[i].originalIndex == work[i].id
              && outs[i].url == work[i].url && outs[i].preview == Preview(work[i].comment)
  {
    seq(|work|, i requires 0 <= i < |work| =>
      SinglePost(work[i].url, work[i].comment, i + 1, work[i].id, TriesFor(oracle, i + 1)))
  }

  /** The ledger after writing each item's marker in turn. */
  function MarkAll(t: Table, name: string, work: seq<Row>, outs: seq<Outcome>): (r: Table)
    requires WellFormed(t) && |outs| == |work|
    ensures WellFormed(r) && |r.rows| == |t.rows|
    ensures name in t.columns ==> r.columns == t.columns
  {
    if |work| == 0 then t
    else
      var n := |work| - 1;
      SetStatus(MarkAll(t, name, work[..n], outs[..n]), name, work[n].id, Marker(outs[n].status))
  }

  lemma PrefixStep<T>(a: seq<T>, s: seq<T>, i: nat)
    requires i < |s|
    ensures s[..i + 1] == s[..i] + [s[i]]
    ensures a + s[..i + 1] == (a + s[..i]) + [s[i]]
  {
    assert s[..i + 1] == s[..i] + [s[i]];
  }

  /** Marking one more item extends the marking of the items before it. */
  lemma MarkAllStep(t: Table, name: string, work: seq<Row>, outs: seq<Outcome>, i: nat)
    requires WellFormed(t) && |outs| == |work| && i < |work|
    ensures MarkAll(t, name, work[..i + 1], outs[..i + 1])
            == SetStatus(MarkAll(t, name, work[..i], outs[..i]), name, work[i].id, Marker(outs[i].status))
  {
    assert work[..i + 1][..i] == work[..i] && outs[..i + 1][..i] == outs[..i];
  }

  /**
   * Writing the markers of a batch with distinct row ids sets the status cell
   * of each item's row to that item's marker and leaves every other cell,
   * including every cell of a row outside the batch, as it was.
   */
  lemma {:induction false} MarkAllEffect(t: Table, name: string, work: seq<Row>, outs: seq<Outcome>)
    requires WellFormed(t) && |outs| == |work| && name in t.columns
    requires Ascending(work)
    ensures forall j, c :: 0 <= j < |work| && work[j].id < |t.rows| && 0 <= c < |t.columns| && t.columns[c] == name ==>
              MarkAll(t, name, work, outs).rows[work[j].id][c] == Value(Marker(outs[j].status))
    ensures forall i, c :: 0 <= i < |t.rows| && 0 <= c < |t.columns| &&
                           (t.columns[c] != name || forall j :: 0 <= j < |work| ==> work[j].id != i) ==>
              MarkAll(t, name, work, outs).rows[i][c] == t.rows[i][c]
  {
    if |work| > 0 {
      var n := |work| - 1;
      MarkAllEffect(t, name, work[..n], outs[..n]);
      var prev := MarkAll(t, name, work[..n], outs[..n]);
      var r := MarkAll(t, name, work, outs);
      assert r == SetStatus(prev, name, work[n].id, Marker(outs[n].status));
      assert WithColumn(prev, name) == prev;
      SetStatusCells(prev, name, work[n].id, Marker(outs[n].status));
      forall j, c | 0 <= j < |work| && work[j].id < |t.rows| && 0 <= c < |t.columns| && t.columns[c] == name
        ensures r.rows[work[j].id][c] == Value(Marker(outs[j].status))
      {
        if j < n {
          assert work[j].id < work[n].id;
          assert work[..n][j] == work[j] && outs[..n][j] == outs[j];
        }
      }
      forall i, c | 0 <= i < |t.rows| && 0 <= c < |t.columns| &&
                    (t.columns[c] != name || forall j :: 0 <= j < |work| ==> work[j].id != i)
        ensures r.rows[i][c] == t.rows[i][c]
      {
        if t.columns[c] == name {
          assert forall j :: 0 <= j < n ==> work[..n][j].id == work[j].id;
          assert work[n].id != i;
        }
      }
    }
  }

  /** `len([r for r in results if r["status"] == "success"])` */
  function CountSuccess(results: seq<Outcome>): (n: nat)
    ensures n <= |results|
    ensures n == 0 <==> forall i :: 0 <= i < |results| ==> results[i].status == Failed
  {
    if |results| == 0 then 0
    else CountSuccess(results[..|results| - 1]) + (if results[|results| - 1].status == Success then 1 else 0)
  }

  /** The results whose status is "failed", in order. */
  function Failures(results: seq<Outcome>): (f: seq<Outcome>)
    ensures |f| <= |results|
    ensures forall i :: 0 <= i < |f| ==> f[i].status == Failed && f[i] in results
  {
    if |results| == 0 then []
    else Failures(results[..|results| - 1]) + (if results[|results| - 1].status == Failed then [results[|results| - 1]] else [])
  }

  /** The counts and the failed-post list of the session summary. */
  datatype Report = Report(total: nat, successful: nat, failed: int, failures: seq<Outcome>)

  function SummaryReport(results: seq<Outcome>): (r: Report)
    ensures r.total == |results| && r.successful <= r.total
    ensures r.failed == r.total - r.successful
  {
    var ok := CountSuccess(results);
    Report(|results|, ok, |results| - ok, Failures(results))
  }

  /** The failure list holds each failed result as often as it occurs, and nothing else. */
  lemma {:induction false} FailuresExact(results: seq<Outcome>)
    ensures forall x :: multiset(Failures(results))[x] == if x.status == Failed then multiset(results)[x] else 0
  {
    if |results| > 0 {
      var n := |results| - 1;
      FailuresExact(results[..n]);
      assert results == results[..n] + [results[n]];
    }
  }

  /**
   * The summary's counts agree: successes and listed failures add up to the
   * total, every listed failure failed, every failed result is listed (as
   * often as it occurs), so `successful` is the number of results that
   * succeeded, and there is a success iff some result succeeded.
   */
  lemma {:induction false} SummaryConsistent(results: seq<Outcome>)
    ensures var r := SummaryReport(results);
            && r.successful + |r.failures| == r.total
            && r.failed == |r.failures|
            && (forall i :: 0 <= i < |r.failures| ==> r.failures[i].status == Failed && r.failures[i] in results)
            && (forall i :: 0 <= i < |results| && results[i].status == Failed ==> results[i] in r.failures)
            && (forall x :: multiset(r.failures)[x] == if x.status == Failed then multiset(results)[x] else 0)
            && (r.successful > 0 <==> exists i :: 0 <= i < |results| && results[i].status == Success)
  {
    FailuresExact(results);
    var r := SummaryReport(results);
    forall i | 0 <= i < |results| && results[i].status == Failed
      ensures results[i] in r.failures
    {
      assert multiset(r.failures)[results[i]] == multiset(results)[results[i]] > 0;
    }
    SummaryCounts(results);
  }

  /** The counts part of `SummaryConsistent`. */
  lemma {:induction false} SummaryCounts(results: seq<Outcome>)
    ensures var r := SummaryReport(results);
            && r.successful + |r.failures| == r.total
            && (forall i :: 0 <= i < |r.failures| ==> r.failures[i].status == Failed && r.failures[i] in results)
            && (r.successful > 0 <==> exists i :: 0 <= i < |results| && results[i].status == Success)
  {
    if |results| > 0 {
      var n := |results| - 1;
      SummaryCounts(results[..n]);
      assert results == results[..n] + [results[n]];
      assert forall i :: 0 <= i < n ==> results[..n][i] == results[i];
    }
  }

  /** Why a run ended with exit code 1. */
  datatype FatalReason = SessionError | UnreadableSheet | SchemaError(missing: seq<RequiredColumn>)

  /** What `run` returns beside its exit code. */
  datatype Summary = LoginFailed | NothingToDo | Finished(report: Report) | Fatal(reason: FatalReason)

  /**
   * The session controller reduced to its two observable facts: whether the
   * driver started and the login page opened without raising, and whether
   * the login was confirmed.
   */
  datatype Session = Session(driverStarts: bool, loginConfirmed: bool)

  /** Exit code, summary, final ledger (if one was ever attached) and outcome records of one run. */
  datatype RunResult = RunResult(code: int, summary: Summary, ledger: Option<Table>, outcomes: seq<Outcome>)

  /** What `run` does once the session is up and the sheet has been decoded into `t`. */
  function LoadedRun(t: Table, oracle: Oracle): (rr: RunResult)
    requires WellFormed(t)
    ensures rr.code in {0, 1, 3, 4}
    ensures rr.code == 1 <==> LoadSheet(t).SchemaFailure?
    ensures rr.ledger.Some? && WellFormed(rr.ledger.value) && |rr.ledger.value.rows| == |t.rows|
  {
    match LoadSheet(t)
    case SchemaFailure(m) => RunResult(1, Fatal(SchemaError(m)), Some(t), [])
    case Ready(work, name) =>
      if |work| == 0 then RunResult(4, NothingToDo, Some(WithColumn(t, name)), [])
      else
        var outs := BatchOutcomes(work, oracle);
        RunResult(if CountSuccess(outs) > 0 then 0 else 3, Finished(SummaryReport(outs)),
                  Some(MarkAll(WithColumn(t, name), name, work, outs)), outs)
  }

  /** What `run` does with a freshly built bot. */
  function RunSpec(sheet: Option<Table>, session: Session, oracle: Oracle): (rr: RunResult)
    requires sheet.Some? ==> WellFormed(sheet.value)
    ensures rr.code in {0, 1, 2, 3, 4}
    ensures rr.ledger.Some? <==> session.driverStarts && session.loginConfirmed && sheet.Some?
    ensures rr.ledger.Some? ==> WellFormed(rr.ledger.value) && |rr.ledger.value.rows| == |sheet.value.rows|
  {
    if !session.driverStarts then RunResult(1, Fatal(SessionError), None, [])
    else if !session.loginConfirmed then RunResult(2, LoginFailed, None, [])
    else match sheet
      case None => RunResult(1, Fatal(UnreadableSheet), None, [])
      case Some(t) => LoadedRun(t, oracle)
  }

  /**
   * The exit codes of `run`: 2 exactly when the session starts but the
   * login is not confirmed, 4 exactly when loading succeeds with an empty
   * work set, 0 exactly when some item posted, 3 when items ran and none
   * posted, 1 for every failure before that; no item is attempted unless
   * the code is 0 or 3.
   */
  lemma RunCodes(sheet: Option<Table>, session: Session, oracle: Oracle)
    requires sheet.Some? ==> WellFormed(sheet.value)
    ensures var rr := RunSpec(sheet, session, oracle);
            && rr.code in {0, 1, 2, 3, 4}
            && (rr.code == 2 <==> session.driverStarts && !session.loginConfirmed)
            && (rr.code == 4 <==> session.driverStarts && session.loginConfirmed && sheet.Some?
                                  && LoadSheet(sheet.value).Ready? && |LoadSheet(sheet.value).work| == 0)
            && (rr.code == 0 <==> exists i :: 0 <= i < |rr.outcomes| && rr.outcomes[i].status == Success)
            && (rr.code !in {0, 3} ==> rr.outcomes == [])
            && (rr.code in {0, 3} ==> |rr.outcomes| == |LoadSheet(sheet.value).work| > 0)
  {
    var rr := RunSpec(sheet, session, oracle);
    SummaryConsistent(rr.outcomes);
  }

  /**
   * After a run that processed items, the ledger is the decoded sheet plus
   * the status column, with each processed row's status cell holding "Y"
   * if its item posted and "N" otherwise, and every other cell as decoded.
   */
  lemma RunLedger(t: Table, session: Session, oracle: Oracle, work: seq<Row>, name: string)
    requires WellFormed(t)
    requires session.driverStarts && session.loginConfirmed
    requires LoadSheet(t) == Ready(work, name) && |work| > 0
    ensures RunSpec(Some(t), session, oracle).outcomes == BatchOutcomes(work, oracle)
    ensures RunSpec(Some(t), session, oracle).ledger == Some(MarkAll(WithColumn(t, name), name, work, BatchOutcomes(work, oracle)))
  {
  }

  /** Item `i` of the work set goes through `process_single_post` as post number `i + 1`. */
  method AttemptItem(work: seq<Row>, oracle: Oracle, i: nat) returns (result: Outcome, tabs: nat, closes: nat)
    requires i < |work|
    ensures result == BatchOutcomes(work, oracle)[i]
    ensures tabs == closes
  {
    var waits;
    result, tabs, waits, closes :=
      ProcessSinglePost(work[i].url, work[i].comment, i + 1, work[i].id, TriesFor(oracle, i + 1));
  }

  class Bot {
    /** `self.results`: the outcome records, append-only. */
    var results: seq<Outcome>
    /** `original_df` and `_status_col_name`. */
    const ledger: Ledger
    /** Pauses taken between items. */
    var pauses: nat
    /** Tabs opened and closed by item attempts. */
    var tabsOpened: nat
    var tabsClosed: nat
    /** Times `cleanup` ran. */
    var cleanups: nat

    constructor ()
      ensures fresh(ledger) && ledger.Valid() && !ledger.loaded && ledger.statusName == None
      ensures results == [] && pauses == 0 && tabsOpened == 0 && tabsClosed == 0 && cleanups == 0
    {
      results := [];
      ledger := new Ledger();
      pauses, tabsOpened, tabsClosed, cleanups := 0, 0, 0, 0;
    }

    /**
     * One pass of `process_posts`' loop: process item `i`, append its result,
     * write its marker into the ledger and pause unless it is the last item.
     */
    method ProcessItem(work: seq<Row>, oracle: Oracle, i: nat)
      requires i < |work|
      requires ledger.Valid() && tabsOpened == tabsClosed
      modifies this, ledger
      ensures ledger.Valid() && tabsOpened == tabsClosed
      ensures results == old(results) + [BatchOutcomes(work, oracle)[i]]
      ensures ledger.loaded == old(ledger.loaded) && ledger.statusName == old(ledger.statusName)
      ensures ledger.loaded ==>
                ledger.Snapshot() == SetStatus(old(ledger.Snapshot()), old(ledger.StatusColumnName()), work[i].id, Marker(BatchOutcomes(work, oracle)[i].status))
      ensures !ledger.loaded ==> ledger.Snapshot() == old(ledger.Snapshot())
      ensures pauses == old(pauses) + (if i + 1 < |work| then 1 else 0)
      ensures cleanups == old(cleanups)
    {
      var result, tabs, closes := AttemptItem(work, oracle, i);
      results := results + [result];
      tabsOpened, tabsClosed := tabsOpened + tabs, tabsClosed + closes;
      ledger.UpdateStatus(work[i].id, Marker(result.status));
      if i + 1 < |work| {
        pauses := pauses + 1;
      }
    }

    /**
     * `process_posts`: processes the work set in order, appends one result
     * per item, writes each item's marker into its ledger row, pauses
     * between items but not after the last, and does nothing for an empty
     * work set. Every tab an item opens is closed again.
     */
    method ProcessPosts(work: seq<Row>, oracle: Oracle)
      requires ledger.Valid()
      requires tabsOpened == tabsClosed
      modifies this, ledger
      ensures ledger.Valid() && tabsOpened == tabsClosed
      ensures results == old(results) + BatchOutcomes(work, oracle)
      ensures ledger.loaded == old(ledger.loaded) && ledger.statusName == old(ledger.statusName)
      ensures ledger.loaded ==>
                ledger.Snapshot() == MarkAll(old(ledger.Snapshot()), old(ledger.StatusColumnName()), work, BatchOutcomes(work, oracle))
      ensures !ledger.loaded ==> ledger.Snapshot() == old(ledger.Snapshot())
      ensures pauses == old(pauses) + (if |work| == 0 then 0 else |work| - 1)
      ensures cleanups == old(cleanups)
    {
      if |work| == 0 {
        return;
      }
      ghost var outs := BatchOutcomes(work, oracle);
      ghost var name := ledger.StatusColumnName();
      ghost var t0 := ledger.Snapshot();
      ghost var marked := t0;
      ghost var loaded0, status0 := ledger.loaded, ledger.statusName;
      ghost var results0, pauses0, cleanups0 := results, pauses, cleanups;
      var i := 0;
      while i < |work|
        invariant 0 <= i <= |work|
        invariant ledger.Valid() && tabsOpened == tabsClosed
        invariant ledger.loaded == loaded0 && ledger.statusName == status0 && ledger.StatusColumnName() == name
        invariant results == results0 + outs[..i]
        invariant marked == MarkAll(t0, name, work[..i], outs[..i])
        invariant ledger.Snapshot() == if loaded0 then marked else t0
        invariant pauses == pauses0 + (if i == |work| then i - 1 else i)
        invariant cleanups == cleanups0
      {
        ProcessItem(work, oracle, i);
        marked := SetStatus(marked, name, work[i].id, Marker(outs[i].status));
        PrefixStep(results0, outs, i);
        MarkAllStep(t0, name, work, outs, i);
        i := i + 1;
      }
      assert work[..i] == work && outs[..i] == outs;
    }

    /**
     * The part of `run` after a successful login: keep the decoded sheet,
     * detect the schema, adopt the status column, process the work set and
     * compute the exit code and summary.
     */
    method RunLoaded(t: Table, oracle: Oracle) returns (code: int, summary: Summary)
      requires WellFormed(t)
      requires ledger.Valid() && ledger.statusName == None
      requires results == [] && tabsOpened == tabsClosed
      modifies this, ledger
      ensures code == LoadedRun(t, oracle).code && summary == LoadedRun(t, oracle).summary
      ensures results == LoadedRun(t, oracle).outcomes
      ensures ledger.loaded && LoadedRun(t, oracle).ledger == Some(ledger.Snapshot())
      ensures ledger.Valid() && tabsOpened == tabsClosed
      ensures cleanups == old(cleanups)
    {
      ledger.Attach(t);
      match LoadSheet(t)
      case SchemaFailure(m) =>
        code, summary := 1, Fatal(SchemaError(m));
        assert LoadedRun(t, oracle) == RunResult(code, summary, Some(t), []);
      case Ready(work, name) =>
        ledger.AdoptStatusColumn(name);
        if |work| == 0 {
          code, summary := 4, NothingToDo;
          assert LoadedRun(t, oracle) == RunResult(code, summary, Some(WithColumn(t, name)), []);
        } else {
          code, summary := RunWork(t, oracle, work, name);
        }
    }

    /** `run` with a non-empty work set: process it, then derive the exit code and summary from the results. */
    method RunWork(t: Table, oracle: Oracle, work: seq<Row>, name: string) returns (code: int, summary: Summary)
      requires WellFormed(t) && LoadSheet(t) == Ready(work, name) && |work| > 0
      requires ledger.Valid() && ledger.loaded && ledger.statusName == Some(name) && ledger.Snapshot() == WithColumn(t, name)
      requires results == [] && tabsOpened == tabsClosed
      modifies this, ledger
      ensures code == LoadedRun(t, oracle).code && summary == LoadedRun(t, oracle).summary
      ensures results == LoadedRun(t, oracle).outcomes
      ensures ledger.loaded && LoadedRun(t, oracle).ledger == Some(ledger.Snapshot())
      ensures ledger.Valid() && tabsOpened == tabsClosed
      ensures cleanups == old(cleanups)
    {
      ProcessPosts(work, oracle);
      ghost var outs := BatchOutcomes(work, oracle);
      assert results == outs;
      var successful := CountSuccess(results);
      code := if successful > 0 then 0 else 3;
      summary := Finished(SummaryReport(results));
      assert LoadedRun(t, oracle) == RunResult(code, summary, Some(MarkAll(WithColumn(t, name), name, work, outs)), outs);
    }

    /**
     * `run` on a freshly built bot: start the session, require a confirmed
     * login, load the sheet, process the work set and report; `cleanup`
     * runs exactly once whichever way the run ends.
     */
    method Run(sheet: Option<Table>, session: Session, oracle: Oracle) returns (code: int, summary: Summary)
      requires sheet.Some? ==> WellFormed(sheet.value)
      requires ledger.Valid() && !ledger.loaded && ledger.statusName == None
      requires results == [] && tabsOpened == tabsClosed
      modifies this, ledger
      ensures code == RunSpec(sheet, session, oracle).code && summary == RunSpec(sheet, session, oracle).summary
      ensures results == RunSpec(sheet, session, oracle).outcomes
      ensures ledger.loaded <==> RunSpec(sheet, session, oracle).ledger.Some?
      ensures ledger.loaded ==> RunSpec(sheet, session, oracle).ledger == Some(ledger.Snapshot())
      ensures ledger.Valid() && tabsOpened == tabsClosed
      ensures cleanups == old(cleanups) + 1
    {
      if !session.driverStarts {
        code, summary := 1, Fatal(SessionError);
      } else if !session.loginConfirmed {
        code, summary := 2, LoginFailed;
      } else if sheet.None? {
        code, summary := 1, Fatal(UnreadableSheet);
      } else {
        code, summary := RunLoaded(sheet.value, oracle);
      }
      cleanups := cleanups + 1;
    }
  }
}
