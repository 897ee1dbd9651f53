/**
 * The item processor, `XCommentBot.process_single_post`: up to three
 * attempts at one post, each in a fresh tab that is closed afterwards, with
 * a backoff of 2**attempt time units before every further attempt.
 */
module ItemProcessor {

  const MaxRetries: nat := 3
  const PreviewLength: nat := 50

  /**
   * What one attempt came to: `post_comment` returned True or False, or the
   * browser raised while opening the tab or loading the post.
   */
  datatype Attempt = Posted | NotPosted | Raised(error: string)

  /** The browser's answers: `tries(k)` is the outcome of attempt `k`, counted from 0. */
  type Tries = nat -> Attempt

  datatype Status = Success | Failed

  /** The `message` field; attempt numbers are 1-based as in the source. */
  datatype Message = NoMessage | PostedOk | NotPostedOn(attempt: nat) | ErrorOn(attempt: nat, error: string)

  /** One outcome record (the timestamp is left out). */
  datatype Outcome = Outcome(postNumber: nat, originalIndex: nat, url: string, preview: string,
                             status: Status, message: Message)

  /** The message an unsuccessful attempt `k` (0-based) leaves behind. */
  function FailureMessage(a: Attempt, k: nat): (m: Message)
    ensures m.NotPostedOn? || m.ErrorOn?
    ensures m.attempt == k + 1
    ensures m.ErrorOn? <==> a.Raised?
    ensures a.Raised? ==> m == ErrorOn(k + 1, a.error)
  {
    match a
    case Raised(e) => ErrorOn(k + 1, e)
    case _ => NotPostedOn(k + 1)
  }

  /** The comment preview: the first 50 characters and "..." when the comment is longer. */
  function Preview(comment: string): (p: string)
    ensures |comment| <= PreviewLength ==> p == comment
    ensures |comment| > PreviewLength ==>
              |p| == PreviewLength + 3 && p[..PreviewLength] == comment[..PreviewLength] && p[PreviewLength..] == "..."
  {
    if |comment| > PreviewLength then comment[..PreviewLength] + "..." else comment
  }

  function Pow2(n: nat): (r: nat)
    ensures r >= 1
  {
    if n == 0 then 1 else 2 * Pow2(n - 1)
  }

  /** How an item's attempts ended: final status, final message, attempts made. */
  datatype Trial = Trial(status: Status, message: Message, attempts: nat)

  /**
   * The attempts from attempt `k` on, with `msg` the message so far: the run
   * stops at the first attempt that posts, and otherwise fails after the
   * last attempt with that attempt's message.
   */
  function Retry(tries: Tries, k: nat, msg: Message): (t: Trial)
    requires k <= MaxRetries
    ensures k <= t.attempts <= MaxRetries
    decreases MaxRetries - k
  {
    if k == MaxRetries then Trial(Failed, msg, k)
    else if tries(k) == Posted then Trial(Success, PostedOk, k + 1)
    else Retry(tries, k + 1, FailureMessage(tries(k), k))
  }

  /**
   * The attempts from `k` on succeed iff one of them posts; a success is
   * the first attempt that posts, and a failure uses up every attempt and
   * keeps the message of the last one.
   */
  lemma {:induction false} RetryOutcome(tries: Tries, k: nat, msg: Message)
    requires k <= MaxRetries
    ensures Retry(tries, k, msg).status == Success <==> exists j :: k <= j < MaxRetries && tries(j) == Posted
    ensures Retry(tries, k, msg).status == Success ==>
              k < Retry(tries, k, msg).attempts && tries(Retry(tries, k, msg).attempts - 1) == Posted
              && Retry(tries, k, msg).message == PostedOk
    ensures forall j :: k <= j < Retry(tries, k, msg).attempts - 1 ==> tries(j) != Posted
    ensures Retry(tries, k, msg).status == Failed ==> Retry(tries, k, msg).attempts == MaxRetries
    ensures Retry(tries, k, msg).status == Failed ==>
              Retry(tries, k, msg).message == if k < MaxRetries then FailureMessage(tries(MaxRetries - 1), MaxRetries - 1) else msg
    decreases MaxRetries - k
  {
    if k < MaxRetries && tries(k) != Posted {
      RetryOutcome(tries, k + 1, FailureMessage(tries(k), k));
    }
  }

  /** The waits between attempts when `attempts` attempts are made: 1, 2, 4, ... time units, one fewer than the attempts. */
  function Backoffs(attempts: nat): (ws: seq<nat>)
    ensures |ws| == if attempts == 0 then 0 else attempts - 1
    ensures forall i :: 0 <= i < |ws| ==> ws[i] == Pow2(i)
  {
    if attempts <= 1 then [] else Backoffs(attempts - 1) + [Pow2(attempts - 2)]
  }

  /** The outcome record of one item. */
  function SinglePost(url: string, comment: string, postNumber: nat, originalIndex: nat, tries: Tries): (o: Outcome)
    ensures o.postNumber == postNumber && o.originalIndex == originalIndex && o.url == url
    ensures o.preview == Preview(comment)
    ensures o.status == Success <==> o.message == PostedOk
  {
    RetryOutcome(tries, 0, NoMessage);
    var t := Retry(tries, 0, NoMessage);
    Outcome(postNumber, originalIndex, url, Preview(comment), t.status, t.message)
  }

  /**
   * `process_single_post`: the result starts as "failed"; each attempt
   * opens a tab, the loop breaks on the first posted comment, a backoff of
   * 2**attempt precedes every further attempt, and the tab is closed after
   * every attempt. Returns the record, the attempts made, the backoffs
   * waited and the tabs closed.
   */
  method ProcessSinglePost(url: string, comment: string, postNumber: nat, originalIndex: nat, tries: Tries)
    returns (result: Outcome, attempts: nat, waits: seq<nat>, closes: nat)
    ensures result == SinglePost(url, comment, postNumber, originalIndex, tries)
    ensures attempts == Retry(tries, 0, NoMessage).attempts
    ensures waits == Backoffs(attempts)
    ensures closes == attempts
  {
    result := Outcome(postNumber, originalIndex, url, Preview(comment), Failed, NoMessage);
    attempts, waits, closes := 0, [], 0;
    var attempt: nat := 0;
    while attempt < MaxRetries
      invariant attempt <= MaxRetries
      invariant result == Outcome(postNumber, originalIndex, url, Preview(comment), Failed, result.message)
      invariant Retry(tries, attempt, result.message) == Retry(tries, 0, NoMessage)
      invariant attempts == attempt && closes == attempt
      invariant waits == Backoffs(if attempt < MaxRetries then attempt + 1 else MaxRetries)
    {
      attempts := attempt + 1;
      var answer := tries(attempt);
      var posted := answer == Posted;
      if posted {
        result := result.(status := Success, message := PostedOk);
      } else {
        result := result.(message := FailureMessage(answer, attempt));
        if attempt < MaxRetries - 1 {
          waits := waits + [Pow2(attempt)];
        }
      }
      closes := closes + 1;
      if posted {
        break;
      }
      attempt := attempt + 1;
    }
  }

  /** An item posts iff some attempt posts, and then it took exactly the attempts up to the first that did. */
  lemma SinglePostSucceedsIff(url: string, comment: string, postNumber: nat, originalIndex: nat, tries: Tries)
    ensures SinglePost(url, comment, postNumber, originalIndex, tries).status == Success
            <==> exists j :: 0 <= j < MaxRetries && tries(j) == Posted
    ensures var n := Retry(tries, 0, NoMessage).attempts;
            SinglePost(url, comment, postNumber, originalIndex, tries).status == Success ==>
              1 <= n <= MaxRetries && tries(n - 1) == Posted && forall j :: 0 <= j < n - 1 ==> tries(j) != Posted
  {
    RetryOutcome(tries, 0, NoMessage);
  }

  /** An item whose every attempt raises fails after exactly three attempts, with waits of 1 and then 2. */
  lemma AllAttemptsRaise(url: string, comment: string, postNumber: nat, originalIndex: nat, tries: Tries)
    requires forall j :: 0 <= j < MaxRetries ==> tries(j).Raised?
    ensures SinglePost(url, comment, postNumber, originalIndex, tries).status == Failed
    ensures SinglePost(url, comment, postNumber, originalIndex, tries).message == ErrorOn(3, tries(2).error)
    ensures Retry(tries, 0, NoMessage).attempts == 3
    ensures Backoffs(Retry(tries, 0, NoMessage).attempts) == [1, 2]
  {
    RetryOutcome(tries, 0, NoMessage);
    assert Pow2(1) == 2;
  }
}
