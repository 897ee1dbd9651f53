/**
 * The decoded spreadsheet and the part of `load_spreadsheet` that turns it
 * into the work set: column-name clean-up, column detection, the status
 * column, text standardisation and the row filters.
 */
module Sheet {
  import opened Text
  import opened Schema

  /** One decoded cell: `Missing` is pandas' NaN, `Value` holds `str()` of the decoded value. */
  datatype Cell = Missing | Value(text: string)

  /** `astype(str)`: NaN is rendered as "nan". */
  function Str(c: Cell): string {
    match c
    case Missing => "nan"
    case Value(t) => t
  }

  /** A decoded sheet; row `r` has pandas index label `r`. */
  datatype Table = Table(columns: seq<string>, rows: seq<seq<Cell>>)

  ghost predicate WellFormed(t: Table) {
    forall r :: 0 <= r < |t.rows| ==> |t.rows[r]| == |t.columns|
  }

  /** One work item: its row id in the ledger and its standardised URL and comment. */
  datatype Row = Row(id: nat, url: string, comment: string)

  /** The two columns without which loading fails. */
  datatype RequiredColumn = UrlRequired | CommentRequired

  /** Where the detected columns sit in the cleaned view. */
  datatype Layout = Layout(urlCol: nat, commentCol: nat, statusCol: Option<nat>, statusName: string)

  datatype Detection = MissingColumns(missing: seq<RequiredColumn>) | Detected(layout: Layout)

  /** A column that is dropped from the view: an "Unnamed…" header over nothing but NaN. */
  predicate DroppedColumn(t: Table, c: nat)
    requires c < |t.columns|
    requires WellFormed(t)
  {
    StartsWith(Strip(t.columns[c]), "Unnamed") && forall r :: 0 <= r < |t.rows| ==> t.rows[r][c].Missing?
  }

  /** Positions, in order, of the columns that survive the clean-up. */
  function KeptColumns(t: Table, from: nat): (ks: seq<nat>)
    requires WellFormed(t) && from <= |t.columns|
    ensures |ks| <= |t.columns| - from
    ensures forall j :: 0 <= j < |ks| ==> from <= ks[j] < |t.columns|
    ensures forall i, j :: 0 <= i < j < |ks| ==> ks[i] < ks[j]
    ensures forall c :: from <= c < |t.columns| ==> (c in ks <==> !DroppedColumn(t, c))
    decreases |t.columns| - from
  {
    if from == |t.columns| then []
    else
      var rest := KeptColumns(t, from + 1);
      if DroppedColumn(t, from) then rest else [from] + rest
  }

  /**
   * The clean-up loses no data: every column holding a value somewhere, and
   * every column whose stripped header does not start with "Unnamed", is kept.
   */
  lemma CleanedKeepsData(t: Table)
    requires WellFormed(t)
    ensures forall r, c :: 0 <= r < |t.rows| && 0 <= c < |t.columns| && t.rows[r][c].Value? ==> c in KeptColumns(t, 0)
    ensures forall c :: 0 <= c < |t.columns| && !StartsWith(Strip(t.columns[c]), "Unnamed") ==> c in KeptColumns(t, 0)
  {
  }

  /**
   * The frame the detection runs on: header names stripped, empty "Unnamed"
   * columns dropped, rows and their ids unchanged.
   */
  function Cleaned(t: Table): (v: Table)
    requires WellFormed(t)
    ensures WellFormed(v)
    ensures |v.rows| == |t.rows| && |v.columns| == |KeptColumns(t, 0)| <= |t.columns|
    ensures forall j :: 0 <= j < |v.columns| ==> v.columns[j] == Strip(t.columns[KeptColumns(t, 0)[j]])
    ensures forall r, j :: 0 <= r < |v.rows| && 0 <= j < |v.columns| ==> v.rows[r][j] == t.rows[r][KeptColumns(t, 0)[j]]
  {
    var ks := KeptColumns(t, 0);
    Table(seq(|ks|, j requires 0 <= j < |ks| => Strip(t.columns[ks[j]])),
          seq(|t.rows|, r requires 0 <= r < |t.rows| => seq(|ks|, j requires 0 <= j < |ks| => t.rows[r][ks[j]])))
  }

  /** The error's list of undetected columns, URL first. */
  function MissingList(noUrl: bool, noComment: bool): (m: seq<RequiredColumn>)
    ensures UrlRequired in m <==> noUrl
    ensures CommentRequired in m <==> noComment
    ensures |m| > 0 <==> noUrl || noComment
  {
    (if noUrl then [UrlRequired] else []) + (if noComment then [CommentRequired] else [])
  }

  /** Detection of the URL, comment and status columns on the cleaned view. */
  function Detect(v: Table): (d: Detection)
    ensures d.MissingColumns? ==> |d.missing| > 0
    ensures d.Detected? ==> d.layout.urlCol < |v.columns| && d.layout.commentCol < |v.columns|
    ensures d.Detected? && d.layout.statusCol.Some? ==> d.layout.statusCol.value < |v.columns|
  {
    var norms := NormalizeAll(v.columns);
    var url := FirstMatch(norms, UrlColumn);
    var comment := FirstMatch(norms, CommentColumn);
    if url.None? || comment.None? then
      MissingColumns(MissingList(url.None?, comment.None?))
    else
      var status := FirstMatch(norms, StatusColumn);
      Detected(Layout(url.value, comment.value, status,
                      if status.Some? then v.columns[status.value] else DefaultStatusName))
  }

  /** Loading fails iff a required column is undetected, and the error names exactly the undetected ones. */
  lemma DetectMissing(v: Table)
    ensures Detect(v).MissingColumns? <==> Absent(v.columns, UrlColumn) || Absent(v.columns, CommentColumn)
    ensures Detect(v).MissingColumns? ==> (UrlRequired in Detect(v).missing <==> Absent(v.columns, UrlColumn))
    ensures Detect(v).MissingColumns? ==> (CommentRequired in Detect(v).missing <==> Absent(v.columns, CommentColumn))
  {
    FindColumn(v.columns, UrlColumn);
    FindColumn(v.columns, CommentColumn);
  }

  /**
   * On success each detected column is the first, in column order, whose
   * normalised name fits; the status column is the first whose normalised
   * name is a status alias, and without one the default name is used.
   */
  lemma DetectFound(v: Table)
    requires Detect(v).Detected?
    ensures Matches(Normalize(v.columns[Detect(v).layout.urlCol]), UrlColumn)
    ensures forall i :: 0 <= i < Detect(v).layout.urlCol ==> !Matches(Normalize(v.columns[i]), UrlColumn)
    ensures Matches(Normalize(v.columns[Detect(v).layout.commentCol]), CommentColumn)
    ensures forall i :: 0 <= i < Detect(v).layout.commentCol ==> !Matches(Normalize(v.columns[i]), CommentColumn)
    ensures Detect(v).layout.statusCol.None? <==> Absent(v.columns, StatusColumn)
    ensures Detect(v).layout.statusCol.None? ==> Detect(v).layout.statusName == DefaultStatusName
    ensures Detect(v).layout.statusCol.Some? ==>
              Detect(v).layout.statusName == v.columns[Detect(v).layout.statusCol.value]
              && Matches(Normalize(Detect(v).layout.statusName), StatusColumn)
              && forall i :: 0 <= i < Detect(v).layout.statusCol.value ==> !Matches(Normalize(v.columns[i]), StatusColumn)
  {
    FindColumn(v.columns, UrlColumn);
    FindColumn(v.columns, CommentColumn);
    FindColumn(v.columns, StatusColumn);
  }

  /** The URL cell as standardised: `astype(str).str.strip()`. */
  function UrlText(c: Cell): (r: string)
    ensures Trimmed(r) && |r| <= |Str(c)|
    ensures c.Missing? ==> r == "nan"
  {
    StripTrimmed("nan");
    Strip(Str(c))
  }

  /** The comment cell as standardised: line breaks become spaces, then the ends are stripped. */
  function CommentText(c: Cell): (r: string)
    ensures '\n' !in r && '\r' !in r
    ensures c.Missing? ==> r == "nan"
  {
    ReplaceAbsent("nan", '\n', ' ');
    ReplaceAbsent("nan", '\r', ' ');
    StripTrimmed("nan");
    Strip(Replace(Replace(Str(c), '\n', ' '), '\r', ' '))
  }

  /** A status that marks the row as already done. */
  predicate IsCompletionMarker(c: Cell): (b: bool)
    ensures c.Missing? ==> !b
  {
    assert Upper("nan") == "NAN";
    StripTrimmed("NAN");
    Strip(Upper(Str(c))) in {"Y", "YES", "TRUE", "1"}
  }

  /** A text that the blank-or-"nan" filter rejects. */
  predicate Blank(s: string): (b: bool)
    ensures b <==> |s| == 0 || (|s| == 3 && s[0] in "nN" && s[1] in "aA" && s[2] in "nN")
  {
    assert |s| == 3 ==> (Lower(s) == "nan" <==> Lower(s)[0] == 'n' && Lower(s)[1] == 'a' && Lower(s)[2] == 'n');
    |s| == 0 || Lower(s) == "nan"
  }

  /** Row `r` of the cleaned view survives both filters. */
  predicate Keep(v: Table, l: Layout, r: nat): (b: bool)
    requires WellFormed(v) && r < |v.rows|
    requires l.urlCol < |v.columns| && l.commentCol < |v.columns|
    requires l.statusCol.Some? ==> l.statusCol.value < |v.columns|
    ensures b ==> v.rows[r][l.urlCol].Value? && v.rows[r][l.commentCol].Value?
    ensures b ==> |MakeRow(v, l, r).url| > 0 && |MakeRow(v, l, r).comment| > 0
  {
    assert Blank("nan");
    && !Blank(UrlText(v.rows[r][l.urlCol]))
    && !Blank(CommentText(v.rows[r][l.commentCol]))
    && !(l.statusCol.Some? && IsCompletionMarker(v.rows[r][l.statusCol.value]))
  }

  function MakeRow(v: Table, l: Layout, r: nat): Row
    requires WellFormed(v) && r < |v.rows|
    requires l.urlCol < |v.columns| && l.commentCol < |v.columns|
  {
    Row(r, UrlText(v.rows[r][l.urlCol]), CommentText(v.rows[r][l.commentCol]))
  }

  /** Every row of the cleaned view as a candidate work item; candidate `r` has id `r`. */
  function Candidates(v: Table, l: Layout): (cs: seq<Row>)
    requires WellFormed(v)
    requires l.urlCol < |v.columns| && l.commentCol < |v.columns|
    ensures |cs| == |v.rows|
    ensures forall r :: 0 <= r < |cs| ==> cs[r] == MakeRow(v, l, r)
  {
    seq(|v.rows|, r requires 0 <= r < |v.rows| => MakeRow(v, l, r))
  }

  /** The filter verdict of every row of the cleaned view. */
  function Verdicts(v: Table, l: Layout): (ks: seq<bool>)
    requires WellFormed(v)
    requires l.urlCol < |v.columns| && l.commentCol < |v.columns|
    requires l.statusCol.Some? ==> l.statusCol.value < |v.columns|
    ensures |ks| == |v.rows|
    ensures forall r :: 0 <= r < |ks| ==> ks[r] == Keep(v, l, r)
  {
    seq(|v.rows|, r requires 0 <= r < |v.rows| => Keep(v, l, r))
  }

  /** The candidates whose verdict is true, in order (the boolean-mask indexing `df[mask]`). */
  function Select(cs: seq<Row>, keep: seq<bool>): (ws: seq<Row>)
    requires |keep| == |cs|
    ensures |ws| <= |cs|
  {
    if |cs| == 0 then []
    else Select(cs[..|cs| - 1], keep[..|cs| - 1]) + (if keep[|cs| - 1] then [cs[|cs| - 1]] else [])
  }

  /** Ids strictly increase: the work set is a subsequence of the sheet, in sheet order. */
  ghost predicate Ascending(ws: seq<Row>) {
    forall i, j :: 0 <= i < j < |ws| ==> ws[i].id < ws[j].id
  }

  /** Each selected row is the candidate its id names, and its verdict is true. */
  ghost predicate Chosen(ws: seq<Row>, cs: seq<Row>, keep: seq<bool>)
    requires |keep| == |cs|
  {
    forall i :: 0 <= i < |ws| ==> ws[i].id < |cs| && keep[ws[i].id] && ws[i] == cs[ws[i].id]
  }
  /** Every candidate whose verdict is true is selected. */
  ghost predicate Covers(ws: seq<Row>, cs: seq<Row>, keep: seq<bool>)
    requires |keep| == |cs|
  {
    forall r :: 0 <= r < |cs| && keep[r] ==> exists i :: 0 <= i < |ws| && ws[i].id == r
  }
  /** Selection keeps candidates unchanged and only those with a true verdict. */
  lemma {:induction false} SelectChosen(cs: seq<Row>, keep: seq<bool>)
    requires |keep| == |cs|
    requires forall r :: 0 <= r < |cs| ==> cs[r].id == r
    ensures Chosen(Select(cs, keep), cs, keep)
  {
    var n := |cs|;
    if n > 0 {
      var cs', keep' := cs[..n - 1], keep[..n - 1];
      SelectChosen(cs', keep');
      var prev := Select(cs', keep');
      var ws := Select(cs, keep);
      forall i | 0 <= i < |ws|
        ensures ws[i].id < n && keep[ws[i].id] && ws[i] == cs[ws[i].id]
      {
        if i < |prev| {
          assert ws[i] == prev[i];
        } else {
          assert ws[i] == cs[n - 1];
        }
      }
    }
  }

  /** Selection keeps the candidates' order. */
  lemma {:induction false} SelectAscending(cs: seq<Row>, keep: seq<bool>)
    requires |keep| == |cs|
    requires forall r :: 0 <= r < |cs| ==> cs[r].id == r
    ensures Ascending(Select(cs, keep))
  {
    var n := |cs|;
    if n > 0 {
      var cs', keep' := cs[..n - 1], keep[..n - 1];
      SelectAscending(cs', keep');
      SelectChosen(cs', keep');
      var prev := Select(cs', keep');
      var ws := Select(cs, keep);
      assert forall i :: 0 <= i < |prev| ==> ws[i] == prev[i] && prev[i].id < n - 1;
      assert |ws| > |prev| ==> ws[|prev|].id == n - 1;
    }
  }

  /** Selection drops no candidate with a true verdict. */
  lemma {:induction false} SelectCovers(cs: seq<Row>, keep: seq<bool>)
    requires |keep| == |cs|
    requires forall r :: 0 <= r < |cs| ==> cs[r].id == r
    ensures Covers(Select(cs, keep), cs, keep)
  {
    var n := |cs|;
    if n > 0 {
      var cs', keep' := cs[..n - 1], keep[..n - 1];
      SelectCovers(cs', keep');
      var prev := Select(cs', keep');
      var ws := Select(cs, keep);
      forall r | 0 <= r < n && keep[r]
        ensures exists i :: 0 <= i < |ws| && ws[i].id == r
      {
        if r < n - 1 {
          var i :| 0 <= i < |prev| && prev[i].id == r;
          assert ws[i] == prev[i];
        } else {
          assert ws[|prev|].id == r;
        }
      }
    }
  }

  /** Outcome of loading a decoded sheet. */
  datatype Load = SchemaFailure(missing: seq<RequiredColumn>) | Ready(work: seq<Row>, statusName: string)

  /** The rows of the cleaned view that pass the filters, in row order. */
  function WorkSet(v: Table, l: Layout): (ws: seq<Row>)
    requires WellFormed(v)
    requires l.urlCol < |v.columns| && l.commentCol < |v.columns|
    requires l.statusCol.Some? ==> l.statusCol.value < |v.columns|
    ensures Ascending(ws)
    ensures forall i :: 0 <= i < |ws| ==> ws[i].id < |v.rows|
  {
    var cs, ks := Candidates(v, l), Verdicts(v, l);
    SelectAscending(cs, ks);
    SelectChosen(cs, ks);
    Select(cs, ks)
  }

  /**
   * Every work item is the standardised URL and comment of its own row, and
   * that row passed the filters: neither text is blank or "nan", and a
   * detected status column holds no completion marker there.
   */
  lemma WorkSetClean(v: Table, l: Layout, i: nat)
    requires WellFormed(v)
    requires l.urlCol < |v.columns| && l.commentCol < |v.columns|
    requires l.statusCol.Some? ==> l.statusCol.value < |v.columns|
    requires i < |WorkSet(v, l)|
    ensures var w := WorkSet(v, l)[i];
            && w.id < |v.rows|
            && w.url == UrlText(v.rows[w.id][l.urlCol]) && !Blank(w.url)
            && w.comment == CommentText(v.rows[w.id][l.commentCol]) && !Blank(w.comment)
            && (l.statusCol.Some? ==> !IsCompletionMarker(v.rows[w.id][l.statusCol.value]))
  {
    var cs, ks := Candidates(v, l), Verdicts(v, l);
    SelectChosen(cs, ks);
    var w := WorkSet(v, l)[i];
    assert w == cs[w.id] && ks[w.id];
    assert Keep(v, l, w.id);
  }

  /** A row that passes the filters is never missing from the work set. */
  lemma WorkSetComplete(v: Table, l: Layout, r: nat)
    requires WellFormed(v)
    requires l.urlCol < |v.columns| && l.commentCol < |v.columns|
    requires l.statusCol.Some? ==> l.statusCol.value < |v.columns|
    requires r < |v.rows| && Keep(v, l, r)
    ensures exists i :: 0 <= i < |WorkSet(v, l)| && WorkSet(v, l)[i].id == r
  {
    var cs, ks := Candidates(v, l), Verdicts(v, l);
    SelectCovers(cs, ks);
    assert ks[r];
    var ws := Select(cs, ks);
    assert Covers(ws, cs, ks);
    assert WorkSet(v, l) == ws;
    var i :| 0 <= i < |ws| && ws[i].id == r;
    assert WorkSet(v, l)[i].id == r;
  }

  /** The detection and filtering part of `load_spreadsheet`. */
  function LoadSheet(t: Table): (ld: Load)
    requires WellFormed(t)
    ensures ld.Ready? ==> Ascending(ld.work)
    ensures ld.Ready? ==> forall i :: 0 <= i < |ld.work| ==> ld.work[i].id < |t.rows|
  {
    var v := Cleaned(t);
    match Detect(v)
    case MissingColumns(m) => SchemaFailure(m)
    case Detected(l) => Ready(WorkSet(v, l), l.statusName)
  }

  /**
   * A sheet whose columns are "Commented (Y/N)", "URL" and "Generated
   * comment", in that order: the status column is also detected as the
   * comment column.
   */
  lemma StatusColumnTakenForComment()
    ensures var v := Table(["Commented (Y/N)", "URL", "Generated comment"], []);
            Detect(v).Detected? && Detect(v).layout.commentCol == 0 && Detect(v).layout.statusCol == Some(0)
  {
    var v := Table(["Commented (Y/N)", "URL", "Generated comment"], []);
    DefaultStatusNameIsAlias();
    assert NormalizeAll(v.columns)[0] == "commented_(y/n)";
    assert Matches("commented_(y/n)", StatusColumn) && Matches("commented_(y/n)", CommentColumn) by {
      assert IsStatusName("commented_(y/n)") && IsCommentName("commented_(y/n)");
    }
    assert Matches(NormalizeAll(v.columns)[1], UrlColumn) by {
      NormalizeUrlHeader();
    }
  }

  /** `Detect` finds the URL and comment columns that `_detect_column` returns. */
  lemma DetectAgreesWithDetectColumn(v: Table)
    requires Detect(v).Detected?
    ensures DetectColumn(NormalizeAll(v.columns), v.columns, UrlColumn) == Some(v.columns[Detect(v).layout.urlCol])
    ensures DetectColumn(NormalizeAll(v.columns), v.columns, CommentColumn) == Some(v.columns[Detect(v).layout.commentCol])
  {
    var norms := NormalizeAll(v.columns);
    assert norms[..|v.columns|] == norms;
  }
}
