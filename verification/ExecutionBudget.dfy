/** The time the transfer worker grants one copy request, and the retry loop of the edge worker that
    must finish within it. All times are milliseconds. */
module ExecutionBudget {
  const DEFAULT_TIMEOUT_SECS: int := 60
  const CUSHION: nat := 15000
  const JITTERS: nat := 250
  /** What the budget leaves over in its tightest case. */
  const SLACK: nat := 2008

  // ---------------------------------------------------------------- the transfer worker's budget

  /** `calculateTransferServiceExecutionBudget` */
  method Budget(retries: int, configuredSecs: int) returns (budget: nat)
    ensures var n, secs := if retries < 1 then 1 else retries, if configuredSecs < 1 then 60 else configuredSecs;
            budget == n * (2 * (1000 * secs)) + 500 * (n * (n - 1)) + 15000
  {
    var attempts := retries;
    if retries < 1 {
      attempts := 1;
    }
    var perAttemptTimeoutSecs := configuredSecs;
    if configuredSecs < 1 {
      perAttemptTimeoutSecs := DEFAULT_TIMEOUT_SECS;
    }
    var perAttemptBudget := 1000 * (perAttemptTimeoutSecs * 2);
    var backoffBudget := 0;
    var attempt := 1;
    while attempt < attempts
      invariant 1 <= attempt <= attempts
      invariant backoffBudget == 500 * (attempt * (attempt - 1)) >= 0
    {
      assert (attempt + 1) * attempt == attempt * (attempt - 1) + 2 * attempt;
      backoffBudget := backoffBudget + attempt * 1000;
      attempt := attempt + 1;
    }
    Scale(0, attempts, perAttemptBudget);
    budget := attempts * perAttemptBudget + backoffBudget + CUSHION;
  }

  // ---------------------------------------------------------------- the edge worker's loop

  /** How one attempt of the copy goes. `source` and `upload` are the times until the two requests
      settle, `text` the time to read the body of an error reply, which no timer bounds. */
  datatype Outcome =
    | SourceTimeout
    | SourceStatus(source: nat, status: int)
    | SourceBreaks(source: nat)
    | NoBody(source: nat)
    | UploadTimeout(source: nat)
    | UploadStatus(source: nat, upload: nat, text: nat, status: int)
    | UploadBreaks(source: nat, upload: nat)
    | NoEtag(source: nat, upload: nat)
    | Copied(source: nat, upload: nat, etag: string)

  datatype Reply = Etag(etag: string) | HttpError(status: int) | Thrown

  predicate IsRetryableStatus(status: int) {
    status == 408 || status == 429 || (status >= 500 && status <= 599)
  }

  ghost predicate Transient(status: int) {
    status in {408, 429} || 500 <= status < 600
  }

  /** Whether the loop goes round again when attempts are left. */
  ghost predicate Retries(o: Outcome) {
    match o
    case SourceTimeout | NoBody(_) | UploadTimeout(_) | NoEtag(_, _) => true
    case SourceStatus(_, status) => Transient(status)
    case UploadStatus(_, _, _, status) => Transient(status)
    case SourceBreaks(_) | UploadBreaks(_, _) | Copied(_, _, _) => false
  }

  /** What the loop answers when it stops at this outcome. */
  ghost function ReplyTo(o: Outcome): Reply {
    match o
    case SourceTimeout | UploadTimeout(_) => HttpError(504)
    case NoBody(_) | NoEtag(_, _) => HttpError(502)
    case SourceStatus(_, status) => HttpError(status)
    case UploadStatus(_, _, _, status) => HttpError(status)
    case SourceBreaks(_) | UploadBreaks(_, _) => Thrown
    case Copied(_, _, etag) => Etag(etag)
  }

  /** How long the attempt takes; only a request that timed out takes the whole of its timer. */
  ghost function Spent(o: Outcome, timeout: nat): nat {
    match o
    case SourceTimeout => timeout
    case SourceStatus(source, _) => source
    case SourceBreaks(source) => source
    case NoBody(source) => source
    case UploadTimeout(source) => source + timeout
    case UploadStatus(source, upload, text, _) => source + upload + text
    case UploadBreaks(source, upload) => source + upload
    case NoEtag(source, upload) => source + upload
    case Copied(source, upload, _) => source + upload
  }

  ghost function Untimed(o: Outcome): nat {
    if o.UploadStatus? then o.text else 0
  }

  /** A request that did not time out settled before its timer. */
  ghost predicate Timed(o: Outcome, timeout: nat) {
    && (!o.SourceTimeout? ==> o.source <= timeout)
    && (o.UploadStatus? || o.UploadBreaks? || o.NoEtag? || o.Copied? ==> o.upload <= timeout)
  }

  function Pow2(n: nat): nat {
    if n == 0 then 1 else 2 * Pow2(n - 1)
  }

  function BackoffMs(attempt: nat, jitter: nat): nat
    requires attempt >= 1
  {
    (if 1000 * Pow2(attempt - 1) < 8000 then 1000 * Pow2(attempt - 1) else 8000) + jitter
  }

  /** Time passed when attempt number `k` has ended and the pauses before it are over. */
  ghost function Elapsed(script: seq<Outcome>, jitter: seq<nat>, timeout: nat, k: nat): nat
    requires 1 <= k <= |script| && |jitter| == |script|
  {
    Spent(script[k - 1], timeout)
    + if k == 1 then 0 else Elapsed(script, jitter, timeout, k - 1) + BackoffMs(k - 1, jitter[k - 2])
  }

  /** One pass through the loop body; `last` says that no attempts are left. */
  method Attempt(o: Outcome, timeout: nat, last: bool) returns (spent: nat, again: bool, reply: Reply)
    ensures spent == Spent(o, timeout)
    ensures again <==> Retries(o) && !last
    ensures !again ==> reply == ReplyTo(o)
  {
    again, reply := false, Thrown;
    if o.SourceTimeout? {
      spent := timeout;
      if last {
        reply := HttpError(504);
      } else {
        again := true;
      }
      return;
    }
    spent := o.source;
    match o {
      case SourceBreaks(_) =>
      case SourceStatus(_, status) =>
        if IsRetryableStatus(status) && !last {
          again := true;
        } else {
          reply := HttpError(status);
        }
      case NoBody(_) =>
        if last {
          reply := HttpError(502);
        } else {
          again := true;
        }
      case UploadTimeout(_) =>
        spent := spent + timeout;
        if last {
          reply := HttpError(504);
        } else {
          again := true;
        }
      case UploadBreaks(_, upload) => spent := spent + upload;
      case UploadStatus(_, upload, text, status) =>
        spent := spent + upload + text;
        if IsRetryableStatus(status) && !last {
          again := true;
        } else {
          reply := HttpError(status);
        }
      case NoEtag(_, upload) =>
        spent := spent + upload;
        if last {
          reply := HttpError(502);
        } else {
          again := true;
        }
      case Copied(_, upload, etag) =>
        spent := spent + upload;
        reply := Etag(etag);
    }
  }

  /** The retry loop of `processMessage` and `processDownloadMessage`, with at most `|script|` attempts;
      `script` says how each of them would go. The loop always stops inside, so the error thrown after
      it is never reached. */
  method ProcessMessage(script: seq<Outcome>, jitter: seq<nat>, timeout: nat)
    returns (reply: Reply, elapsed: nat, attempt: nat)
    requires |script| >= 1 && |jitter| == |script|
    ensures 1 <= attempt <= |script| && StopsAt(script, attempt - 1)
    ensures reply == ReplyTo(script[attempt - 1])
    ensures reply.Etag? <==> exists i :: 0 <= i < |script| && script[i].Copied? && StopsAt(script, i)
    ensures reply.HttpError? && attempt < |script| ==>
              reply.status != 408 && reply.status != 429 && (reply.status < 500 || reply.status > 599)
    ensures forall i :: 0 <= i < attempt - 1 && (script[i].SourceStatus? || script[i].UploadStatus?) ==>
              script[i].status == 408 || script[i].status == 429 || 500 <= script[i].status <= 599
    ensures elapsed == Elapsed(script, jitter, timeout, attempt)
  {
    var maxAttempts := |script|;
    attempt := 1;
    elapsed := 0;
    while true
      invariant 1 <= attempt <= maxAttempts
      invariant forall i :: 0 <= i < attempt - 1 ==> Retries(script[i])
      invariant elapsed == if attempt == 1 then 0
                           else Elapsed(script, jitter, timeout, attempt - 1)
                                + BackoffMs(attempt - 1, jitter[attempt - 2])
      decreases maxAttempts - attempt
    {
      var spent, again;
      spent, again, reply := Attempt(script[attempt - 1], timeout, attempt == maxAttempts);
      elapsed := elapsed + spent;
      if !again {
        assert StopsAt(script, attempt - 1);
        return;
      }
      elapsed := elapsed + BackoffMs(attempt, jitter[attempt - 1]);
      attempt := attempt + 1;
    }
  }

  /** The loop stops at attempt `i + 1`: all before it were to be retried, and it was not, or was the last. */
  ghost predicate StopsAt(script: seq<Outcome>, i: nat)
    requires i < |script|
  {
    && (forall j :: 0 <= j < i ==> Retries(script[j]))
    && (i == |script| - 1 || !Retries(script[i]))
  }

  // ---------------------------------------------------------------- the budget covers the loop

  ghost function WorstPauses(n: nat): nat
    requires n >= 1
  {
    if n == 1 then 0 else WorstPauses(n - 1) + BackoffMs(n - 1, JITTERS - 1)
  }

  ghost function AllUntimed(script: seq<Outcome>): nat {
    if script == [] then 0 else Untimed(script[|script| - 1]) + AllUntimed(script[..|script| - 1])
  }

  lemma Pow2AtLeast8(n: nat)
    requires n >= 3
    ensures Pow2(n) >= 8
  {
    if n == 3 {
      assert Pow2(0) == 1 && Pow2(1) == 2 && Pow2(2) == 4;
    } else {
      Pow2AtLeast8(n - 1);
    }
  }

  lemma FirstPauses()
    ensures WorstPauses(1) == 0 && WorstPauses(2) == 1249 && WorstPauses(3) == 3498 && WorstPauses(4) == 7747
  {
    assert Pow2(0) == 1 && Pow2(1) == 2 && Pow2(2) == 4;
  }

  /** The pauses grow by a full 8249 ms from the fourth on. */
  lemma {:induction false} WorstPausesAre(n: nat)
    requires n >= 4
    ensures WorstPauses(n) == 7747 + 8249 * (n - 4)
  {
    FirstPauses();
    if n > 4 {
      WorstPausesAre(n - 1);
      Pow2AtLeast8(n - 2);
    }
  }

  lemma Triangle(n: nat)
    requires n >= 4
    ensures 500 * (n * (n - 1)) + CUSHION >= 7747 + 8249 * (n - 4) + SLACK
    ensures 500 * (n * (n - 1)) + CUSHION == 7747 + 8249 * (n - 4) + SLACK <==> n == 9
  {
    var d := n - 9;
    assert n * (n - 1) == d * d + 17 * d + 72;
    if d > 0 {
      assert d * d >= d;
    } else if d < 0 {
      assert d == -1 || d == -2 || d == -3 || d == -4 || d == -5;
    }
  }

  /** For every attempt count the pauses fit what the budget adds for them, with at least 2008 ms to
      spare, and exactly that for nine attempts alone. */
  lemma PausesFit(n: nat)
    requires n >= 1
    ensures WorstPauses(n) + SLACK <= 500 * (n * (n - 1)) + CUSHION
    ensures WorstPauses(n) + SLACK == 500 * (n * (n - 1)) + CUSHION <==> n == 9
  {
    FirstPauses();
    if n >= 4 {
      WorstPausesAre(n);
      Triangle(n);
    } else {
      assert n == 1 || n == 2 || n == 3;
    }
  }

  lemma {:induction false} ElapsedBounded(script: seq<Outcome>, jitter: seq<nat>, timeout: nat, k: nat)
    requires 1 <= k <= |script| && |jitter| == |script|
    requires forall i :: 0 <= i < |script| ==> Timed(script[i], timeout) && jitter[i] < JITTERS
    ensures Elapsed(script, jitter, timeout, k) <= k * (2 * timeout) + WorstPauses(k) + AllUntimed(script[..k])
  {
    hide BackoffMs, Spent, Untimed, Timed;
    SpentBounded(script[k - 1], timeout);
    assert script[..k][..k - 1] == script[..k - 1];
    OneMore(k, 2 * timeout);
    if k > 1 {
      ElapsedBounded(script, jitter, timeout, k - 1);
      PauseBounded(k - 1, jitter[k - 2]);
    }
  }

  lemma SpentBounded(o: Outcome, timeout: nat)
    requires Timed(o, timeout)
    ensures Spent(o, timeout) <= 2 * timeout + Untimed(o)
  {
  }

  lemma OneMore(k: nat, x: nat)
    ensures k * x == (k - 1) * x + x
  {
  }

  lemma PauseBounded(attempt: nat, jitter: nat)
    requires attempt >= 1 && jitter < JITTERS
    ensures BackoffMs(attempt, jitter) <= BackoffMs(attempt, JITTERS - 1)
  {
  }

  lemma {:induction false} PausesGrow(k: nat, n: nat)
    requires 1 <= k <= n
    ensures WorstPauses(k) <= WorstPauses(n)
  {
    hide BackoffMs;
    if k < n {
      PausesGrow(k, n - 1);
    }
  }

  /** With equal attempt counts and timeouts the loop ends within the budget, however the requests go,
      as long as reading error bodies takes no more than the slack in all. */
  lemma LoopFitsBudget(script: seq<Outcome>, jitter: seq<nat>, secs: nat, k: nat)
    requires 1 <= k <= |script| && |jitter| == |script|
    requires forall i :: 0 <= i < |script| ==> Timed(script[i], 1000 * secs) && jitter[i] < JITTERS
    requires AllUntimed(script[..k]) <= SLACK
    ensures var n := |script|;
            Elapsed(script, jitter, 1000 * secs, k) <= n * (2 * (1000 * secs)) + 500 * (n * (n - 1)) + CUSHION
  {
    hide Elapsed, WorstPauses, AllUntimed;
    var n := |script|;
    ElapsedBounded(script, jitter, 1000 * secs, k);
    PausesGrow(k, n);
    PausesFit(n);
    assert k * (2 * (1000 * secs)) <= n * (2 * (1000 * secs)) by {
      Scale(k, n, 2 * (1000 * secs));
    }
  }

  lemma Scale(k: nat, n: nat, x: nat)
    requires k <= n
    ensures k * x <= n * x
  {
  }

  /** A retryable outcome that came as late as its timers allow. */
  ghost predicate AsLate(o: Outcome, timeout: nat) {
    && (o.UploadTimeout? || o.NoEtag? || (o.UploadStatus? && Transient(o.status)))
    && o.source == timeout && (o.UploadTimeout? || o.upload == timeout)
  }

  lemma {:induction false} SlowestRun(script: seq<Outcome>, jitter: seq<nat>, timeout: nat, k: nat)
    requires 1 <= k <= |script| && |jitter| == |script|
    requires forall i :: 0 <= i < |script| ==> AsLate(script[i], timeout) && jitter[i] == JITTERS - 1
    ensures Elapsed(script, jitter, timeout, k) == k * (2 * timeout) + WorstPauses(k) + AllUntimed(script[..k])
  {
    hide BackoffMs;
    OneMore(k, 2 * timeout);
    assert script[..k][..k - 1] == script[..k - 1];
    if k > 1 {
      SlowestRun(script, jitter, timeout, k - 1);
    }
  }

  /** The allowance for error bodies cannot be raised: in any slowest run of nine attempts the budget
      holds if and only if reading the bodies takes at most the slack. */
  lemma SlackIsExact(script: seq<Outcome>, jitter: seq<nat>, secs: nat)
    requires |script| == |jitter| == 9
    requires forall i :: 0 <= i < 9 ==> AsLate(script[i], 1000 * secs) && jitter[i] == JITTERS - 1
    ensures AllUntimed(script) <= SLACK <==>
              Elapsed(script, jitter, 1000 * secs, 9) <= 9 * (2 * (1000 * secs)) + 500 * (9 * 8) + CUSHION
  {
    SlowestRun(script, jitter, 1000 * secs, 9);
    PausesFit(9);
    assert script[..9] == script;
  }
}
