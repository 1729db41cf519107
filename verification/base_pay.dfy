/**
 * The Base Pay status poller (app/lib/base-pay.ts): `getPaymentStatus` and
 * `pollPaymentStatus`. The HTTP status endpoint is an oracle `provider` whose `i`-th
 * answer is what the `i`-th query (counting from 0) receives; the sleep between
 * queries is recorded as an event rather than as elapsed time.
 */
module BasePay {
  import opened Wrappers

  /** The `status` field of a status reply; values other than the three declared ones
      are kept as `Unrecognised`. */
  datatype PaymentState = Pending | Completed | Failed | Unrecognised(raw: string)

  /** `PaymentStatus`. */
  datatype PaymentStatus = PaymentStatus(id: string, status: PaymentState, transactionHash: Option<string>)

  /** What one call of the status endpoint yields: a parsed body, a non-OK HTTP
      response, or an exception from `fetch` or JSON parsing. */
  datatype StatusReply =
    | Body(body: PaymentStatus)
    | HttpError(statusText: string)
    | FetchError(message: string)

  /** `getPaymentStatus`: a non-OK response throws "Failed to get payment status: ...",
      any other exception is rethrown unchanged. */
  function GetPaymentStatus(reply: StatusReply): (r: Result<PaymentStatus, string>)
    ensures reply.Body? ==> r == Success(reply.body)
    ensures reply.HttpError? ==> r == Failure("Failed to get payment status: " + reply.statusText)
    ensures reply.FetchError? ==> r == Failure(reply.message)
  {
    match reply
    case Body(b) => Success(b)
    case HttpError(t) => Failure("Failed to get payment status: " + t)
    case FetchError(m) => Failure(m)
  }

  /** The errors `pollPaymentStatus` throws. */
  datatype PollError = PaymentFailed | PaymentTimeout | StatusError(message: string)

  /** The message of each thrown error. */
  function ErrorMessage(e: PollError): string
  {
    match e
    case PaymentFailed => "Payment failed"
    case PaymentTimeout => "Payment timeout - max attempts reached"
    case StatusError(m) => m
  }

  /** The observable steps of a poll: a status query or a sleep of `ms` milliseconds. */
  datatype Event = StatusQuery(id: string, testnet: bool) | Sleep(ms: int)

  /** How a poll ended, and the steps it took. */
  datatype PollRun = PollRun(result: Result<PaymentStatus, PollError>, trace: seq<Event>)

  /** A reply that neither ends nor breaks the poll. */
  predicate KeepsPolling(reply: StatusReply)
  {
    reply.Body? && reply.body.status != Completed && reply.body.status != Failed
  }

  /** The expected trace shape: queries at even positions, sleeps at odd ones. */
  ghost predicate Alternates(trace: seq<Event>, id: string, testnet: bool, interval: int)
  {
    forall i :: 0 <= i < |trace| ==>
      trace[i] == (if i % 2 == 0 then StatusQuery(id, testnet) else Sleep(interval))
  }

  /** The number of status queries in a trace. */
  function Queries(trace: seq<Event>): nat
  {
    if |trace| == 0 then 0 else (if trace[0].StatusQuery? then 1 else 0) + Queries(trace[1..])
  }

  /** The loop of `pollPaymentStatus` from the iteration where `attempts` queries have
      already been answered with a non-terminal status. */
  function PollFrom(id: string, testnet: bool, interval: int, maxAttempts: int,
                    provider: nat -> StatusReply, attempts: nat): (run: PollRun)
    ensures Alternates(run.trace, id, testnet, interval)
    ensures attempts < maxAttempts ==> |run.trace| <= 2 * (maxAttempts - attempts)
    ensures attempts >= maxAttempts ==> run == PollRun(Failure(PaymentTimeout), [])
    ensures run.result.Success? ==> run.result.value.status == Completed
    decreases if attempts < maxAttempts then maxAttempts - attempts else 0
  {
    if attempts >= maxAttempts then PollRun(Failure(PaymentTimeout), [])
    else
      var query := StatusQuery(id, testnet);
      match GetPaymentStatus(provider(attempts))
      case Failure(message) => PollRun(Failure(StatusError(message)), [query])
      case Success(status) =>
        if status.status == Completed then PollRun(Success(status), [query])
        else if status.status == Failed then PollRun(Failure(PaymentFailed), [query])
        else
          var rest := PollFrom(id, testnet, interval, maxAttempts, provider, attempts + 1);
          var trace := [query, Sleep(interval)] + rest.trace;
          assert forall i :: 2 <= i < |trace| ==> trace[i] == rest.trace[i - 2];
          PollRun(rest.result, trace)
  }

  /** `pollPaymentStatus(id, testnet, interval, maxAttempts)`. */
  function PollPaymentStatus(id: string, testnet: bool, interval: int, maxAttempts: int,
                             provider: nat -> StatusReply): (run: PollRun)
    ensures Alternates(run.trace, id, testnet, interval)
    ensures maxAttempts > 0 ==> |run.trace| <= 2 * maxAttempts
    ensures maxAttempts <= 0 ==> run == PollRun(Failure(PaymentTimeout), [])
    ensures run.result.Success? ==> run.result.value.status == Completed
  {
    PollFrom(id, testnet, interval, maxAttempts, provider, 0)
  }

  /** The defaults of `pollPaymentStatus`: 2000 ms between queries, at most 30 queries. */
  function PollWithDefaults(id: string, provider: nat -> StatusReply): (run: PollRun)
    ensures Alternates(run.trace, id, false, 2000)
    ensures Queries(run.trace) <= 30
  {
    QueryBound(id, false, 2000, 30, provider);
    PollPaymentStatus(id, false, 2000, 30, provider)
  }

  /** In an alternating trace the queries are the even positions. */
  lemma {:induction false} QueriesOfAlternating(trace: seq<Event>, id: string, testnet: bool, interval: int)
    requires Alternates(trace, id, testnet, interval)
    ensures Queries(trace) == (|trace| + 1) / 2
    decreases |trace|
  {
    if |trace| > 0 {
      var tail := trace[1..];
      if |tail| > 0 {
        var tail2 := tail[1..];
        assert forall i :: 0 <= i < |tail2| ==> tail2[i] == trace[i + 2];
        QueriesOfAlternating(tail2, id, testnet, interval);
        assert Queries(tail) == Queries(tail2);
      }
    }
  }

  /** The status endpoint is queried at most `maxAttempts` times, and never when
      `maxAttempts <= 0`. */
  lemma QueryBound(id: string, testnet: bool, interval: int, maxAttempts: int, provider: nat -> StatusReply)
    ensures var run := PollPaymentStatus(id, testnet, interval, maxAttempts, provider);
      Queries(run.trace) <= if maxAttempts > 0 then maxAttempts else 0
  {
    var run := PollPaymentStatus(id, testnet, interval, maxAttempts, provider);
    QueriesOfAlternating(run.trace, id, testnet, interval);
  }

  /** When the first `k` replies keep polling and reply `k` does not, the poll ends on
      reply `k` after exactly `k + 1` queries and `k` sleeps: a completed status is
      returned as it is (whatever its `transactionHash`), a failed one throws
      "Payment failed", and a query error propagates without a retry. */
  lemma {:induction false} FirstDecisiveReply(id: string, testnet: bool, interval: int, maxAttempts: int,
                                              provider: nat -> StatusReply, attempts: nat, k: nat)
    requires attempts <= k < maxAttempts
    requires forall i :: attempts <= i < k ==> KeepsPolling(provider(i))
    requires !KeepsPolling(provider(k))
    ensures var run := PollFrom(id, testnet, interval, maxAttempts, provider, attempts);
      && |run.trace| == 2 * (k - attempts) + 1
      && Queries(run.trace) == k - attempts + 1
      && (provider(k).Body? && provider(k).body.status == Completed ==> run.result == Success(provider(k).body))
      && (provider(k).Body? && provider(k).body.status == Failed ==> run.result == Failure(PaymentFailed))
      && (provider(k).HttpError? ==> run.result == Failure(StatusError("Failed to get payment status: " + provider(k).statusText)))
      && (provider(k).FetchError? ==> run.result == Failure(StatusError(provider(k).message)))
    decreases k - attempts
  {
    if attempts < k {
      assert KeepsPolling(provider(attempts));
      FirstDecisiveReply(id, testnet, interval, maxAttempts, provider, attempts + 1, k);
    }
    var run := PollFrom(id, testnet, interval, maxAttempts, provider, attempts);
    QueriesOfAlternating(run.trace, id, testnet, interval);
  }

  /** When every reply keeps polling, the poll times out after exactly `maxAttempts`
      queries, each followed by one sleep (the last one included). */
  lemma {:induction false} AllPendingTimesOut(id: string, testnet: bool, interval: int, maxAttempts: int,
                                              provider: nat -> StatusReply, attempts: nat)
    requires forall i :: attempts <= i < maxAttempts ==> KeepsPolling(provider(i))
    ensures var run := PollFrom(id, testnet, interval, maxAttempts, provider, attempts);
      && run.result == Failure(PaymentTimeout)
      && |run.trace| == (if attempts < maxAttempts then 2 * (maxAttempts - attempts) else 0)
      && Queries(run.trace) == (if attempts < maxAttempts then maxAttempts - attempts else 0)
    decreases if attempts < maxAttempts then maxAttempts - attempts else 0
  {
    if attempts < maxAttempts {
      assert KeepsPolling(provider(attempts));
      AllPendingTimesOut(id, testnet, interval, maxAttempts, provider, attempts + 1);
    }
    var run := PollFrom(id, testnet, interval, maxAttempts, provider, attempts);
    QueriesOfAlternating(run.trace, id, testnet, interval);
  }

  /** A completed status without a transaction hash on the first query is accepted. */
  lemma CompletedWithoutHashIsReturned(id: string, testnet: bool, interval: int, maxAttempts: int,
                                       provider: nat -> StatusReply)
    requires maxAttempts > 0
    requires provider(0) == Body(PaymentStatus(id, Completed, None))
    ensures PollPaymentStatus(id, testnet, interval, maxAttempts, provider).result
         == Success(PaymentStatus(id, Completed, None))
  {
  }
}
