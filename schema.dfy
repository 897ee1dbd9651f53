/**
 * Column schema detection: `XCommentBot._normalize`, `_detect_column` and the
 * status-column search of `load_spreadsheet`.  A column is found by its
 * normalised name; the first column, in column order, that fits wins.
 */
module Schema {
  import opened Text

  datatype Option<T> = None | Some(value: T)

  /** Which logical column is being looked for. */
  datatype Want = UrlColumn | CommentColumn | StatusColumn

  /** Name given to the status column when no column fits `StatusColumn`. */
  const DefaultStatusName: string := "Commented (Y/N)"

  /** `_normalize`: strip, lower-case, then spaces and hyphens become underscores. */
  function Normalize(col: string): (r: string)
    ensures |r| <= |col|
    ensures ' ' !in r && '-' !in r
    ensures Trimmed(r)
    ensures forall i :: 0 <= i < |r| ==> !IsUpperAscii(r[i])
  {
    var stripped := Strip(col);
    var lowered := Lower(stripped);
    var underscored := Replace(lowered, ' ', '_');
    var r := Replace(underscored, '-', '_');
    ReplaceRemoves(lowered, ' ', '_');
    ReplaceKeepsAbsent(underscored, '-', '_', ' ');
    ReplaceRemoves(underscored, '-', '_');
    assert !IsSpace('_');
    LowerKeepsTrimmed(stripped);
    ReplaceKeepsTrimmed(lowered, ' ', '_');
    ReplaceKeepsTrimmed(underscored, '-', '_');
    ReplaceKeepsNoUpper(lowered, ' ', '_');
    ReplaceKeepsNoUpper(underscored, '-', '_');
    r
  }

  /** Normalising a normalised name changes nothing. */
  lemma NormalizeIdempotent(col: string)
    ensures Normalize(Normalize(col)) == Normalize(col)
  {
    var n := Normalize(col);
    StripTrimmed(n);
    LowerIdentity(n);
    ReplaceAbsent(n, ' ', '_');
    ReplaceAbsent(n, '-', '_');
  }

  lemma UrlAliasesContainUrl()
    ensures Contains("url", "url") && Contains("posturl", "url") && Contains("tweet_url", "url")
  {
    assert "url"[..3] == "url";
    assert Contains("posturl", "url") by {
      assert "posturl"[4..7] == "url";
      ContainsAt("posturl", "url", 4);
    }
    assert Contains("tweet_url", "url") by {
      assert "tweet_url"[6..9] == "url";
      ContainsAt("tweet_url", "url", 6);
    }
  }

  lemma CommentAliasesContainComment()
    ensures Contains("generated_comment", "comment") && Contains("generatedcomment", "comment")
    ensures Contains("comment", "comment") && Contains("comment_text", "comment") && Contains("reply", "reply")
  {
    GeneratedCommentContainsComment();
    assert "comment"[..7] == "comment" && "comment_text"[..7] == "comment" && "reply"[..5] == "reply";
  }

  lemma GeneratedCommentContainsComment()
    ensures Contains("generated_comment", "comment") && Contains("generatedcomment", "comment")
  {
    assert "generated_comment"[10..17] == "comment";
    ContainsAt("generated_comment", "comment", 10);
    assert "generatedcomment"[9..16] == "comment";
    ContainsAt("generatedcomment", "comment", 9);
  }

  /** Every URL alias contains "url", except the two "link" names. */
  predicate IsUrlName(norm: string): (b: bool)
    ensures b ==> Contains(norm, "url") || norm in {"link", "post_link"}
  {
    UrlAliasesContainUrl();
    || norm in {"url", "posturl", "tweet_url", "link", "post_link"}
    || (Contains(norm, "url") && (Contains(norm, "post") || Contains(norm, "tweet") || norm == "url"))
  }

  /** The comment aliases come down to the two substrings "comment" and "reply". */
  predicate IsCommentName(norm: string): (b: bool)
    ensures b <==> Contains(norm, "comment") || Contains(norm, "reply")
  {
    CommentAliasesContainComment();
    || norm in {"generated_comment", "comment", "reply", "comment_text", "generatedcomment"}
    || Contains(norm, "comment") || Contains(norm, "reply")
    || (Contains(norm, "generated") && Contains(norm, "comment"))
  }

  /** Of the status aliases, exactly "commented_(y/n)" and "commented" are comment names too. */
  predicate IsStatusName(norm: string): (b: bool)
    ensures b && IsCommentName(norm) <==> norm in {"commented_(y/n)", "commented"}
  {
    ContainsAt("commented_(y/n)", "comment", 0);
    ContainsAt("commented", "comment", 0);
    OtherStatusNamesLackComment();
    norm in {"commented_(y/n)", "commented", "done", "posted", "status"}
  }

  /** "done", "posted" and "status" contain neither "comment" nor "reply". */
  lemma OtherStatusNamesLackComment()
    ensures forall n :: n in ["done", "posted", "status"] ==> !Contains(n, "comment") && !Contains(n, "reply")
  {
    forall n | n in ["done", "posted", "status"]
      ensures !Contains(n, "comment") && !Contains(n, "reply")
    {
      LacksFirstChar(n, "comment");
      LacksFirstChar(n, "reply");
    }
  }

  predicate Matches(norm: string, want: Want) {
    match want
    case UrlColumn => IsUrlName(norm)
    case CommentColumn => IsCommentName(norm)
    case StatusColumn => IsStatusName(norm)
  }

  /** Position of the first normalised name that fits `want`. */
  function FirstMatch(norms: seq<string>, want: Want): (r: Option<nat>)
    ensures r.Some? ==> r.value < |norms|
  {
    if |norms| == 0 then None
    else if Matches(norms[0], want) then Some(0)
    else match FirstMatch(norms[1..], want)
      case None => None
      case Some(k) => Some(k + 1)
  }

  /** The search finds nothing exactly when no name fits, and otherwise the first name that fits. */
  lemma {:induction false} FirstMatchFirst(norms: seq<string>, want: Want)
    ensures FirstMatch(norms, want).None? <==> forall i :: 0 <= i < |norms| ==> !Matches(norms[i], want)
    ensures FirstMatch(norms, want).Some? ==> Matches(norms[FirstMatch(norms, want).value], want)
    ensures FirstMatch(norms, want).Some? ==> forall i :: 0 <= i < FirstMatch(norms, want).value ==> !Matches(norms[i], want)
  {
    if |norms| > 0 && !Matches(norms[0], want) {
      FirstMatchFirst(norms[1..], want);
      assert forall i :: 1 <= i < |norms| ==> norms[i] == norms[1..][i - 1];
    }
  }

  /** `_detect_column`: the raw name paired (as `zip` pairs) with the first fitting normalised name. */
  function DetectColumn(norms: seq<string>, raws: seq<string>, want: Want): (r: Option<string>)
    ensures r.None? <==> forall i :: 0 <= i < |norms| && i < |raws| ==> !Matches(norms[i], want)
    ensures r.Some? ==> exists k :: 0 <= k < |norms| && k < |raws| && r.value == raws[k] && Matches(norms[k], want)
                                    && forall i :: 0 <= i < k ==> !Matches(norms[i], want)
  {
    var n := if |norms| <= |raws| then |norms| else |raws|;
    FirstMatchFirst(norms[..n], want);
    assert forall i :: 0 <= i < n ==> norms[..n][i] == norms[i];
    var f := FirstMatch(norms[..n], want);
    if f.None? then None else Some(raws[f.value])
  }

  function NormalizeAll(raws: seq<string>): (norms: seq<string>)
    ensures |norms| == |raws|
    ensures forall i :: 0 <= i < |raws| ==> norms[i] == Normalize(raws[i])
  {
    seq(|raws|, i requires 0 <= i < |raws| => Normalize(raws[i]))
  }

  /** No column name normalises to a name that fits `want`. */
  predicate Absent(raws: seq<string>, want: Want) {
    forall i :: 0 <= i < |raws| ==> !Matches(Normalize(raws[i]), want)
  }

  /**
   * The search over the normalised column names finds nothing exactly when
   * no name fits, and otherwise the first column whose name fits.
   */
  lemma FindColumn(raws: seq<string>, want: Want)
    ensures FirstMatch(NormalizeAll(raws), want).None? <==> Absent(raws, want)
    ensures FirstMatch(NormalizeAll(raws), want).Some? ==>
              Matches(Normalize(raws[FirstMatch(NormalizeAll(raws), want).value]), want)
    ensures FirstMatch(NormalizeAll(raws), want).Some? ==>
              forall i :: 0 <= i < FirstMatch(NormalizeAll(raws), want).value ==> !Matches(Normalize(raws[i]), want)
  {
    FirstMatchFirst(NormalizeAll(raws), want);
  }

  lemma LowerDefaultStatusName()
    ensures Lower(DefaultStatusName) == "commented (y/n)"
  {
  }

  lemma ReplaceSpaceInLoweredDefault()
    ensures Replace("commented (y/n)", ' ', '_') == "commented_(y/n)"
  {
  }

  /** The default status column name normalises to its own alias. */
  lemma DefaultStatusNameIsAlias()
    ensures Normalize(DefaultStatusName) == "commented_(y/n)"
  {
    StripTrimmed(DefaultStatusName);
    LowerDefaultStatusName();
    ReplaceSpaceInLoweredDefault();
    ReplaceAbsent("commented_(y/n)", '-', '_');
  }

  /** A header written "URL" normalises to the alias "url". */
  lemma NormalizeUrlHeader()
    ensures Normalize("URL") == "url"
  {
    StripTrimmed("URL");
    assert Lower("URL") == "url";
    ReplaceAbsent("url", ' ', '_');
    ReplaceAbsent("url", '-', '_');
  }
}
