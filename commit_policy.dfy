/**
  What the panel does when its commit request fails, and the whole chain of
  commit attempts that follows from it.
*/
module CommitPolicy {

  /** Shown when every commit retry has failed. */
  const CommitRetriesExhausted := "Failed to complete upload. Try again later."

  /** The body of a failed commit response, as far as the panel reads it. */
  datatype ErrorBody =
    | JsonArray(items: seq<string>)  // the body parses as a JSON array of messages
    | NotAnArray                     // not JSON, or JSON that is not an array

  /** What the panel does after one failed commit request. */
  datatype CommitAction =
    | Rejected(message: string)              // server validation error, shown and not retried
    | RetryLater(retryCount: nat, delayMs: nat)  // commit again with this count after this delay
    | GiveUp                                 // retries exhausted, generic error shown

  /** `items` joined with `sep` between consecutive elements, as Array.prototype.join does. */
  function Join(items: seq<string>, sep: string): string
    decreases |items|
  {
    if |items| == 0 then ""
    else if |items| == 1 then items[0]
    else Join(items[..|items| - 1], sep) + sep + items[|items| - 1]
  }

  /** Where item `i` starts in Join(items, sep). */
  function Offset(items: seq<string>, sep: string, i: nat): nat
    requires i <= |items|
  {
    if i == 0 then 0 else Offset(items, sep, i - 1) + |items[i - 1]| + |sep|
  }

  lemma {:induction false} JoinLength(items: seq<string>, sep: string)
    requires |items| > 0
    ensures |Join(items, sep)| + |sep| == Offset(items, sep, |items|)
    decreases |items|
  {
    if |items| > 1 {
      var init := items[..|items| - 1];
      JoinLength(init, sep);
      OffsetOfPrefix(items, init, sep, |init|);
    }
  }

  lemma {:induction false} OffsetOfPrefix(items: seq<string>, init: seq<string>, sep: string, i: nat)
    requires init <= items && i <= |init|
    ensures Offset(init, sep, i) == Offset(items, sep, i)
    decreases i
  {
    if i > 0 {
      OffsetOfPrefix(items, init, sep, i - 1);
    }
  }

  /**
    Every message of a rejected commit appears verbatim in the text the panel
    shows, at its own offset.
  */
  lemma {:induction false} JoinShowsEachItem(items: seq<string>, sep: string, i: nat)
    requires i < |items|
    ensures Offset(items, sep, i) + |items[i]| <= |Join(items, sep)|
    ensures Join(items, sep)[Offset(items, sep, i)..Offset(items, sep, i) + |items[i]|] == items[i]
    decreases |items|
  {
    if |items| > 1 {
      var init := items[..|items| - 1];
      var prefix := Join(init, sep);
      assert Join(items, sep) == prefix + sep + items[|items| - 1];
      JoinLength(init, sep);
      OffsetOfPrefix(items, init, sep, |init|);
      if i < |init| {
        JoinShowsEachItem(init, sep, i);
        OffsetOfPrefix(items, init, sep, i);
        assert items[i] == init[i];
      } else {
        assert Offset(items, sep, i) == |prefix| + |sep|;
      }
    }
  }

  /** A 400 whose body is a non-empty list of messages: the server's validation error. */
  predicate IsValidationError(status: int, body: ErrorBody)
  {
    status == 400 && body.JsonArray? && |body.items| > 0
  }

  /**
    Classification of one failed commit request that was attempt number
    `retryCount` (0 for the first).
  */
  function OnCommitFailure(status: int, body: ErrorBody, retryCount: nat): (a: CommitAction)
    ensures a.Rejected? <==> IsValidationError(status, body)
    ensures a.Rejected? ==> a.message == Join(body.items, ", ")
    ensures a.RetryLater? <==> !a.Rejected? && retryCount < 10
    ensures a.RetryLater? ==> a.retryCount == retryCount + 1 && a.delayMs == 2000 * a.retryCount
  {
    if IsValidationError(status, body) then Rejected(Join(body.items, ", "))
    else if retryCount < 10 then RetryLater(retryCount + 1, 2000 * (retryCount + 1))
    else GiveUp
  }

  /** The server's answer to one commit request. */
  datatype CommitResponse = Created | Failed(status: int, body: ErrorBody)

  /** How a chain of commit attempts ends. */
  datatype CommitEnd =
    | Imported               // the commit succeeded
    | RejectedWith(message: string)
    | GaveUpAfterRetries
    | Waiting                // a retry is scheduled but not yet answered

  datatype CommitRun = CommitRun(end: CommitEnd, attempts: nat, waitedMs: nat)

  /**
    The chain of commit attempts starting at attempt `retryCount`, when the
    successive requests are answered by `responses`: how it ends, how many
    requests were answered, and the sum of the retry delays waited.
  */
  function RunCommit(responses: seq<CommitResponse>, retryCount: nat): CommitRun
    decreases |responses|
  {
    if responses == [] then CommitRun(Waiting, 0, 0)
    else
      match responses[0]
      case Created => CommitRun(Imported, 1, 0)
      case Failed(status, body) =>
        match OnCommitFailure(status, body, retryCount)
        case Rejected(msg) => CommitRun(RejectedWith(msg), 1, 0)
        case GiveUp => CommitRun(GaveUpAfterRetries, 1, 0)
        case RetryLater(next, delay) =>
          var rest := RunCommit(responses[1..], next);
          CommitRun(rest.end, rest.attempts + 1, rest.waitedMs + delay)
  }

  /** A failure that is never treated as a server validation error. */
  predicate Transient(r: CommitResponse)
  {
    r.Failed? && !IsValidationError(r.status, r.body)
  }

  /** However the server answers, a commit chain from attempt `c` makes at most 11 - c requests. */
  lemma {:induction false} CommitAttemptsBounded(responses: seq<CommitResponse>, c: nat)
    requires c <= 10
    ensures RunCommit(responses, c).attempts <= 11 - c
    decreases |responses|
  {
    if responses != [] && responses[0].Failed? {
      var a := OnCommitFailure(responses[0].status, responses[0].body, c);
      if a.RetryLater? {
        CommitAttemptsBounded(responses[1..], c + 1);
      }
    }
  }

  /**
    When every request fails transiently, the chain from attempt `c` gives up
    after exactly 11 - c requests, having waited 2000 ms times each retry
    number from c + 1 to 10.
  */
  lemma {:induction false} TransientFailuresGiveUp(responses: seq<CommitResponse>, c: nat)
    requires c <= 10 && |responses| >= 11 - c
    requires forall i | 0 <= i < 11 - c :: Transient(responses[i])
    ensures RunCommit(responses, c) == CommitRun(GaveUpAfterRetries, 11 - c, 1000 * (110 - c * (c + 1)))
    decreases 10 - c
  {
    assert Transient(responses[0]);
    if c < 10 {
      TransientFailuresGiveUp(responses[1..], c + 1);
      assert 1000 * (110 - (c + 1) * (c + 2)) + 2000 * (c + 1) == 1000 * (110 - c * (c + 1));
    }
  }

  /**
    A first answer that is a 400 with a non-empty list of messages ends the
    chain at once with those messages joined, whatever the attempt number.
  */
  lemma ValidationErrorIsTerminal(responses: seq<CommitResponse>, c: nat)
    requires responses != [] && responses[0].Failed? && responses[0].status == 400
    requires responses[0].body.JsonArray? && |responses[0].body.items| > 0
    ensures RunCommit(responses, c) == CommitRun(RejectedWith(Join(responses[0].body.items, ", ")), 1, 0)
  {
  }

}
