/**
 * `makePayment` of the browser client: an up-front connectivity check, the
 * `fetchWithRetry` loop around the session-creation request, and the hand-off
 * of the session id to the payment provider's redirect. `fetch`, the
 * `navigator.onLine` flag and `redirectToCheckout` are oracles; every
 * `setTimeout` pause is recorded as its duration in milliseconds.
 */
module Payment {
  import opened Common
  import opened Http
  import opened JsNumbers
  import Selection

  const DefaultRetries: int := 3
  const InitialDelay: int := 1000
  const OfflinePause: int := 3000

  const NoConnectionMessage := "No internet connection. Please check your network and try again."
  const NoSessionMessage := "Failed to create checkout session. No session ID received."
  const RedirectFailedMessage := "Failed to redirect to Stripe Checkout."

  /** Why one attempt failed: `fetch` rejected, the status was not ok, or `response.json()` rejected. */
  datatype Failure = Transport(reason: string) | ApiStatus(status: nat) | Unparsable(reason: string)

  function ApiStatusMessage(status: nat): string {
    "API Error (" + NatToString(status) + "): Please check the console for details."
  }

  /** `error.message` of the error an attempt throws. */
  function FailureMessage(f: Failure): string {
    match f
    case Transport(reason) => reason
    case ApiStatus(status) => ApiStatusMessage(status)
    case Unparsable(reason) => reason
  }

  /** The body of the `try` in one iteration: the session JSON, or the error it throws. */
  function AttemptResult(o: FetchOutcome): (r: Result<Payload, Failure>)
    ensures r.Ok? <==> o.Received? && IsOk(o.response.status) && o.response.body.Json?
    ensures r.Ok? ==> r.value == o.response.body.payload
    ensures o.Received? && !IsOk(o.response.status) ==> r == Err(ApiStatus(o.response.status))
    ensures o.NetworkError? ==> r == Err(Transport(o.reason))
    ensures o.Received? && IsOk(o.response.status) && o.response.body.Malformed? ==>
      r == Err(Unparsable(o.response.body.reason))
  {
    match o
    case NetworkError(reason) => Err(Transport(reason))
    case Received(Response(status, body)) =>
      if !IsOk(status) then Err(ApiStatus(status))
      else match body
        case Malformed(reason) => Err(Unparsable(reason))
        case Json(payload) => Ok(payload)
  }

  /** How `fetchWithRetry` ends: it returns the JSON, throws, or runs off the end of the loop (`undefined`). */
  datatype LoopEnd = Returned(session: Payload) | Threw(failure: Failure) | FellThrough

  /** Whether each of the first `n` attempts found the client offline when its failure was caught. */
  function OfflineFlags(online: nat -> bool, n: nat): (flags: seq<bool>)
    ensures |flags| == n
  {
    if n == 0 then [] else OfflineFlags(online, n - 1) + [!online(n)]
  }

  /** The number of online failures among `offline`. */
  function OnlineFailures(offline: seq<bool>): (k: nat)
    ensures k <= |offline|
  {
    if offline == [] then 0
    else OnlineFailures(offline[..|offline| - 1]) + (if offline[|offline| - 1] then 0 else 1)
  }

  /**
   * The pauses taken after a run of failed attempts, each flagged offline or
   * not: an offline failure pauses for a fixed time, an online failure for the
   * current delay, which starts at `delay` and doubles after each online failure.
   */
  function Pauses(delay: int, offline: seq<bool>): (r: seq<int>)
    ensures |r| == |offline|
  {
    if offline == [] then []
    else
      var init := offline[..|offline| - 1];
      Pauses(delay, init) + [if offline[|offline| - 1] then OfflinePause else Backoff(delay, OnlineFailures(init))]
  }

  /** One more failure extends the pauses by one, and only an online failure bumps the delay. */
  lemma PausesSnoc(delay: int, offline: seq<bool>, b: bool)
    ensures OnlineFailures(offline + [b]) == OnlineFailures(offline) + (if b then 0 else 1)
    ensures Pauses(delay, offline + [b])
      == Pauses(delay, offline) + [if b then OfflinePause else Backoff(delay, OnlineFailures(offline))]
  {
    assert (offline + [b])[..|offline|] == offline;
  }

  /** The delay after `k` online failures: `delay` doubled `k` times. */
  function Backoff(delay: int, k: nat): int
  {
    if k == 0 then delay else 2 * Backoff(delay, k - 1)
  }

  lemma {:induction false} BackoffIsPow2(delay: int, k: nat)
    ensures Backoff(delay, k) == delay * Pow2(k)
  {
    if k > 0 {
      BackoffIsPow2(delay, k - 1);
      assert delay * Pow2(k) == delay * (2 * Pow2(k - 1));
    }
  }

  /**
   * Before attempt `attempt`, after `attempt - 1` failures, the loop has paused
   * `pauses` and will next wait `wait` if the attempt fails online.
   */
  ghost predicate Schedule(delay: int, online: nat -> bool, attempt: nat, wait: int, pauses: seq<int>)
    requires attempt >= 1
  {
    var offline := OfflineFlags(online, attempt - 1);
    wait == Backoff(delay, OnlineFailures(offline)) && pauses == Pauses(delay, offline)
  }

  /** A failed attempt pauses for the fixed time when offline, otherwise for `wait`, which then doubles. */
  lemma ScheduleStep(delay: int, online: nat -> bool, attempt: nat, wait: int, pauses: seq<int>)
    requires attempt >= 1
    requires Schedule(delay, online, attempt, wait, pauses)
    ensures Schedule(delay, online, attempt + 1, if online(attempt) then wait * 2 else wait,
                     pauses + [if online(attempt) then wait else OfflinePause])
  {
    var offline := OfflineFlags(online, attempt - 1);
    assert OfflineFlags(online, attempt) == offline + [!online(attempt)];
    PausesSnoc(delay, offline, !online(attempt));
  }

  /** How a run of the retry loop ended, how many times it called `fetch`, and the pauses it took. */
  datatype RetryRun = RetryRun(end: LoopEnd, calls: nat, pauses: seq<int>)

  /**
   * The retry loop from attempt `attempt` on, with `wait` the delay before the
   * next online retry and `pauses` the pauses taken so far.
   */
  function Retry(fetch: nat -> FetchOutcome, online: nat -> bool, retries: int,
                 attempt: nat, wait: int, pauses: seq<int>): RetryRun
    requires attempt >= 1
    decreases retries - attempt
  {
    if attempt > retries then RetryRun(FellThrough, attempt - 1, pauses)
    else
      var result := AttemptResult(fetch(attempt));
      if result.Ok? then RetryRun(Returned(result.value), attempt, pauses)
      else if !online(attempt) then Retry(fetch, online, retries, attempt + 1, wait, pauses + [OfflinePause])
      else if attempt == retries then RetryRun(Threw(result.error), attempt, pauses)
      else Retry(fetch, online, retries, attempt + 1, wait * 2, pauses + [wait])
  }

  /** How a run of the loop ended, in terms of the attempts it made. */
  ghost predicate RunEnds(fetch: nat -> FetchOutcome, online: nat -> bool, retries: int, r: RetryRun) {
    var last := AttemptResult(fetch(r.calls));
    && r.calls <= (if retries < 0 then 0 else retries)
    && (forall k :: 1 <= k < r.calls ==> AttemptResult(fetch(k)).Err?)
    && (r.end.Returned? <==> r.calls >= 1 && last.Ok?)
    && (r.end.Returned? ==> r.end.session == last.value)
    && (!r.end.Returned? ==> r.calls == if retries < 0 then 0 else retries)
    && (r.end.Threw? <==> r.calls >= 1 && last.Err? && online(r.calls))
    && (r.end.Threw? ==> r.end.failure == last.error)
  }

  /** The pauses of a run: one per failed attempt that did not throw, on the schedule of `Pauses`. */
  ghost predicate RunPauses(online: nat -> bool, delay: int, r: RetryRun) {
    && (r.end.FellThrough? || r.calls >= 1)
    && r.pauses == Pauses(delay, OfflineFlags(online, if r.end.FellThrough? then r.calls else r.calls - 1))
  }

  /**
   * From any point the loop can reach (every earlier attempt failed, and an
   * online failure of the previous attempt was not the last), the rest of the
   * run ends as `fetchWithRetry` promises.
   */
  lemma {:induction false} RetryEndsFrom(fetch: nat -> FetchOutcome, online: nat -> bool, retries: int,
                                         attempt: nat, wait: int, pauses: seq<int>)
    requires attempt == 1 || 2 <= attempt <= retries + 1
    requires attempt >= 2 && online(attempt - 1) ==> attempt - 1 < retries
    requires forall k :: 1 <= k < attempt ==> AttemptResult(fetch(k)).Err?
    ensures RunEnds(fetch, online, retries, Retry(fetch, online, retries, attempt, wait, pauses))
    decreases retries - attempt
  {
    if attempt <= retries {
      var result := AttemptResult(fetch(attempt));
      if result.Err? && (!online(attempt) || attempt < retries) {
        var wait', pauses' := if online(attempt) then wait * 2 else wait,
                              pauses + [if online(attempt) then wait else OfflinePause];
        assert Retry(fetch, online, retries, attempt, wait, pauses)
            == Retry(fetch, online, retries, attempt + 1, wait', pauses');
        assert forall k :: 1 <= k < attempt + 1 ==> AttemptResult(fetch(k)).Err?;
        RetryEndsFrom(fetch, online, retries, attempt + 1, wait', pauses');
      }
    }
  }

  /** From a point where the pauses and delay follow the schedule, the run's pauses do too. */
  lemma {:induction false} RetryPausesFrom(fetch: nat -> FetchOutcome, online: nat -> bool, retries: int, delay: int,
                                           attempt: nat, wait: int, pauses: seq<int>)
    requires attempt >= 1
    requires Schedule(delay, online, attempt, wait, pauses)
    ensures RunPauses(online, delay, Retry(fetch, online, retries, attempt, wait, pauses))
    decreases retries - attempt
  {
    var r := Retry(fetch, online, retries, attempt, wait, pauses);
    if attempt > retries {
      assert r == RetryRun(FellThrough, attempt - 1, pauses);
    } else {
      var result := AttemptResult(fetch(attempt));
      if result.Ok? {
        assert r == RetryRun(Returned(result.value), attempt, pauses);
      } else if online(attempt) && attempt == retries {
        assert r == RetryRun(Threw(result.error), attempt, pauses);
      } else {
        var wait', pauses' := if online(attempt) then wait * 2 else wait,
                              pauses + [if online(attempt) then wait else OfflinePause];
        assert r == Retry(fetch, online, retries, attempt + 1, wait', pauses');
        ScheduleStep(delay, online, attempt, wait, pauses);
        RetryPausesFrom(fetch, online, retries, delay, attempt + 1, wait', pauses');
      }
    }
  }

  /** A whole run of the loop, started as `fetchWithRetry` starts it, is as promised. */
  lemma RetryMeaning(fetch: nat -> FetchOutcome, online: nat -> bool, retries: int, delay: int)
    ensures RunEnds(fetch, online, retries, Retry(fetch, online, retries, 1, delay, []))
    ensures RunPauses(online, delay, Retry(fetch, online, retries, 1, delay, []))
  {
    RetryEndsFrom(fetch, online, retries, 1, delay, []);
    RetryPausesFrom(fetch, online, retries, delay, 1, delay, []);
  }

  /**
   * `fetchWithRetry(url, options, retries, delay)`. `fetch(k)` is what the
   * k-th call of `fetch` yields and `online(k)` is `navigator.onLine` when the
   * failure of attempt k is caught.
   */
  method FetchWithRetry(fetch: nat -> FetchOutcome, online: nat -> bool, retries: int, delay: int)
    returns (end: LoopEnd, calls: nat, pauses: seq<int>)
    ensures RetryRun(end, calls, pauses) == Retry(fetch, online, retries, 1, delay, [])
  {
    var attempt := 1;
    var wait := delay;
    pauses := [];
    while attempt <= retries
      invariant attempt >= 1
      invariant Retry(fetch, online, retries, attempt, wait, pauses) == Retry(fetch, online, retries, 1, delay, [])
      decreases retries - attempt
    {
      var result := AttemptResult(fetch(attempt));
      if result.Ok? {
        return Returned(result.value), attempt, pauses;
      }
      if !online(attempt) {
        pauses := pauses + [OfflinePause];
        attempt := attempt + 1;
        continue;
      }
      if attempt == retries {
        return Threw(result.error), attempt, pauses;
      }
      pauses := pauses + [wait];
      wait := wait * 2;
      attempt := attempt + 1;
    }
    end, calls := FellThrough, attempt - 1;
  }

  // ---- The pause schedule ----

  /** The i-th pause is fixed for an offline failure, and otherwise the initial delay doubled once per earlier online failure. */
  lemma {:induction false} PauseAt(delay: int, offline: seq<bool>, i: nat)
    requires i < |offline|
    ensures Pauses(delay, offline)[i]
      == if offline[i] then OfflinePause else Backoff(delay, OnlineFailures(offline[..i]))
  {
    var init := offline[..|offline| - 1];
    if i < |offline| - 1 {
      PauseAt(delay, init, i);
      assert init[..i] == offline[..i];
    } else {
      assert offline[..i] == init;
    }
  }

  lemma {:induction false} OnlineFailuresAllOnline(offline: seq<bool>)
    requires forall j :: 0 <= j < |offline| ==> !offline[j]
    ensures OnlineFailures(offline) == |offline|
  {
    if offline != [] {
      OnlineFailuresAllOnline(offline[..|offline| - 1]);
    }
  }

  /** When every failure happens online, the pauses are delay, 2*delay, 4*delay, ... */
  lemma OnlineBackoff(delay: int, offline: seq<bool>, i: nat)
    requires forall j :: 0 <= j < |offline| ==> !offline[j]
    requires i < |offline|
    ensures Pauses(delay, offline)[i] == delay * Pow2(i)
  {
    PauseAt(delay, offline, i);
    OnlineFailuresAllOnline(offline[..i]);
    BackoffIsPow2(delay, i);
  }

  /** An offline failure leaves the delay for the next online failure where it was. */
  lemma OfflineKeepsDelay(delay: int, offline: seq<bool>)
    ensures Pauses(delay, offline + [true, false])[|offline| + 1] == Pauses(delay, offline + [false])[|offline|]
  {
    PauseAt(delay, offline + [true, false], |offline| + 1);
    PauseAt(delay, offline + [false], |offline|);
    assert (offline + [true, false])[..|offline| + 1] == offline + [true];
    assert (offline + [false])[..|offline|] == offline;
    PausesSnoc(delay, offline, true);
  }

  // ---- Error messages ----

  /** The status code can be read back from the message of a non-ok response. */
  lemma ApiStatusMessageNamesStatus(status: nat)
    ensures var m := ApiStatusMessage(status);
      |m| > 11 && m[..11] == "API Error (" && ParseInt(m[11..]) == Some(status as int)
  {
    var d := NatToString(status);
    var tail := "): Please check the console for details.";
    var m := ApiStatusMessage(status);
    assert m == "API Error (" + (d + tail);
    assert m[11..] == d + tail;
    ParseIntOfNatToString(status, tail);
  }

  /** Different statuses give different messages. */
  lemma ApiStatusMessageInjective(a: nat, b: nat)
    requires ApiStatusMessage(a) == ApiStatusMessage(b)
    ensures a == b
  {
    ApiStatusMessageNamesStatus(a);
    ApiStatusMessageNamesStatus(b);
  }

  // ---- makePayment ----

  /** What one call of `makePayment` did: the request bodies sent, the pauses, the redirect call and the alerts. */
  datatype PaymentReport = PaymentReport(
    requests: seq<seq<Selection.Item>>,
    pauses: seq<int>,
    redirectedWith: Option<string>,
    alerts: seq<string>)

  /**
   * `makePayment(products)`. `onlineAtCall` is `navigator.onLine` on entry and
   * `redirect` is what `redirectToCheckout` reports if it is called.
   */
  method MakePayment(products: seq<Selection.Item>, onlineAtCall: bool,
                     fetch: nat -> FetchOutcome, online: nat -> bool, redirect: RedirectOutcome)
    returns (report: PaymentReport)
    ensures !onlineAtCall ==> report == PaymentReport([], [], None, [NoConnectionMessage])
    ensures forall k :: 0 <= k < |report.requests| ==> report.requests[k] == products
    ensures |report.alerts| <= 1
    ensures report.alerts == [] <==> report.redirectedWith.Some? && redirect.Redirected?
    ensures onlineAtCall ==>
      var n := |report.requests|;
      var last := AttemptResult(fetch(n));
      && 1 <= n <= DefaultRetries
      && (forall k :: 1 <= k < n ==> AttemptResult(fetch(k)).Err?)
      && (last.Ok? || n == DefaultRetries)
      && report.pauses == Pauses(InitialDelay, OfflineFlags(online, if last.Err? && !online(n) then n else n - 1))
      && (report.redirectedWith.Some? <==> last.Ok? && last.value.id != "")
      && (report.redirectedWith.Some? ==> report.redirectedWith.value == last.value.id)
      && (last.Ok? && last.value.id == "" ==> report.alerts == [NoSessionMessage])
      && (last.Err? && online(n) ==> report.alerts == [FailureMessage(last.error)])
      && (last.Err? && !online(n) ==> report.alerts == [NoSessionMessage])
    ensures report.redirectedWith.Some? && redirect.RedirectFailed? ==>
      report.alerts == [OrDefault(redirect.message, RedirectFailedMessage)]
  {
    if !onlineAtCall {
      return PaymentReport([], [], None, [NoConnectionMessage]);
    }
    var end, calls, pauses := FetchWithRetry(fetch, online, DefaultRetries, InitialDelay);
    RetryMeaning(fetch, online, DefaultRetries, InitialDelay);
    var requests := seq(calls, _ => products);
    match end
    case Threw(failure) =>
      report := PaymentReport(requests, pauses, None, [FailureMessage(failure)]);
    case FellThrough =>
      report := PaymentReport(requests, pauses, None, [NoSessionMessage]);
    case Returned(session) =>
      if session.id == "" {
        report := PaymentReport(requests, pauses, None, [NoSessionMessage]);
      } else {
        match redirect
        case Redirected =>
          report := PaymentReport(requests, pauses, Some(session.id), []);
        case RedirectFailed(message) =>
          report := PaymentReport(requests, pauses, Some(session.id), [OrDefault(message, RedirectFailedMessage)]);
      }
  }

  /** With the default settings, two online failures are followed by pauses of 1000 and then 2000 ms. */
  lemma DefaultBackoff()
    ensures Pauses(InitialDelay, [false, false]) == [1000, 2000]
  {
    assert [false, false][..1] == [false];
    assert [false][..0] == [];
  }

  /** Two failed attempts and then a good response, all online: three calls, pauses of 1000 and 2000 ms. */
  method TwoTransientFailures() returns (end: LoopEnd, calls: nat, pauses: seq<int>)
    ensures end == Returned(Payload("cs_test", "", ""))
    ensures calls == 3
    ensures pauses == [1000, 2000]
  {
    var fetch := (k: nat) =>
      if k < 3 then Received(Response(503, Malformed("Service Unavailable")))
      else Received(Response(200, Json(Payload("cs_test", "", ""))));
    var online := (k: nat) => true;
    assert AttemptResult(fetch(1)).Err? && AttemptResult(fetch(2)).Err?;
    assert AttemptResult(fetch(3)) == Ok(Payload("cs_test", "", ""));
    end, calls, pauses := FetchWithRetry(fetch, online, DefaultRetries, InitialDelay);
    assert Retry(fetch, online, 3, 1, 1000, []) == Retry(fetch, online, 3, 2, 2000, [1000]);
    assert Retry(fetch, online, 3, 2, 2000, [1000]) == Retry(fetch, online, 3, 3, 4000, [1000, 2000]);
  }
}
