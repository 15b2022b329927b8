/**
 The client's request loop: endpoints are tried in order; a retryable failure moves on to the next one, and
 for requests that may be hedged a timer starts the next attempt while earlier ones are still in flight.
 Which event comes next, and how an attempt ends, is left open.
 */
module Client {
  import opened Model

  /** How an attempt ends. */
  datatype Answer = Success | Retryable(error: nat) | Fatal(error: nat) | TaskFailed

  /** An attempt that ended. */
  datatype Ended = Ended(endpoint: nat, answer: Answer)

  datatype Reply =
    | Response(endpoint: nat)
    | Failed(endpoint: nat, error: nat)    // an error that must not be retried
    | AttemptTaskFailed
    | DeadlineExceeded(last: Option<nat>)  // with the last retryable error, if any
    | Exhausted(final: nat)                // every endpoint failed; the last error
    | MissingEndpoint                      // the fallback when no endpoint was ever tried

  /** The loop's variables each time it comes round. */
  datatype Head = Head(inFlight: set<nat>, next: nat, lastError: Option<nat>)

  /** The first k endpoints, in order. */
  function FirstEndpoints(k: nat): (r: seq<nat>)
    ensures |r| == k && forall e: nat :: e in r <==> e < k
  {
    if k == 0 then [] else FirstEndpoints(k - 1) + [k - 1]
  }

  /** What every arrival at the loop's head satisfies. */
  predicate HeadOk(n: nat, hedge: bool, h: Head) {
    && 1 <= h.next <= n
    && (forall e :: e in h.inFlight ==> e < h.next)
    && (h.inFlight == {} ==> h.next == n && h.lastError.Some?)
    && (!hedge ==> |h.inFlight| <= 1)
  }

  predicate HeadsOk(n: nat, hedge: bool, heads: seq<Head>) {
    forall i :: 0 <= i < |heads| ==> HeadOk(n, hedge, heads[i])
  }

  /** The remaining work: attempts not started weigh two, attempts in flight one. */
  function Remaining(n: nat, h: Head): int {
    2 * (n - h.next) + |h.inFlight|
  }

  /** An attempt starts at the next endpoint. */
  function Spawn(h: Head): Head {
    h.(inFlight := h.inFlight + {h.next}, next := h.next + 1)
  }

  /** A retryable failure: the attempt is over and the next endpoint, if any, is tried. */
  function Retry(n: nat, h: Head, e: nat, error: nat): Head {
    var dropped := h.(inFlight := h.inFlight - {e}, lastError := Some(error));
    if h.next < n then Spawn(dropped) else dropped
  }

  /** The error of the latest attempt that ended, if it failed retryably; none if no attempt has ended. */
  function LastError(ended: seq<Ended>): Option<nat> {
    if ended != [] && ended[|ended| - 1].answer.Retryable? then Some(ended[|ended| - 1].answer.error) else None
  }

  predicate AllRetryable(ended: seq<Ended>) {
    forall i :: 0 <= i < |ended| ==> ended[i].answer.Retryable?
  }

  /** The attempts that ended are of different endpoints among the first k. */
  predicate DifferentBelow(ended: seq<Ended>, k: nat) {
    && (forall i :: 0 <= i < |ended| ==> ended[i].endpoint < k)
    && (forall i, j :: 0 <= i < j < |ended| ==> ended[i].endpoint != ended[j].endpoint)
  }

  /** Every endpoint tried is in flight or has ended, never both; all that ended failed retryably, and the last
      error is that of the latest. */
  ghost predicate BooksOk(h: Head, ended: seq<Ended>) {
    && DifferentBelow(ended, h.next) && AllRetryable(ended)
    && (forall i :: 0 <= i < |ended| ==> ended[i].endpoint !in h.inFlight)
    && |ended| + |h.inFlight| == h.next
    && h.lastError == LastError(ended)
  }

  lemma SpawnKeeps(n: nat, h: Head, ended: seq<Ended>)
    requires HeadOk(n, true, h) && h.next < n && BooksOk(h, ended)
    ensures HeadOk(n, true, Spawn(h)) && BooksOk(Spawn(h), ended)
    ensures Remaining(n, Spawn(h)) == Remaining(n, h) - 1
  {
    assert h.next in Spawn(h).inFlight;
  }

  lemma RetryKeeps(n: nat, hedge: bool, h: Head, e: nat, error: nat)
    requires HeadOk(n, hedge, h) && e in h.inFlight
    ensures HeadOk(n, hedge, Retry(n, h, e, error)) && Remaining(n, Retry(n, h, e, error)) < Remaining(n, h)
  {
    if h.next < n { assert h.next in Retry(n, h, e, error).inFlight; }
  }

  lemma RetryKeepsBooks(n: nat, h: Head, e: nat, error: nat, ended: seq<Ended>)
    requires BooksOk(h, ended) && e in h.inFlight && forall x :: x in h.inFlight ==> x < h.next
    ensures BooksOk(Retry(n, h, e, error), ended + [Ended(e, Retryable(error))])
  {
    var rest := h.inFlight - {e};
    assert |rest| == |h.inFlight| - 1;
    if h.next < n { assert |rest + {h.next}| == |rest| + 1; }
  }

  /** How the reply follows from the attempts: `started` of them were started, and `ended` are those that ended,
      in the order in which they did.  All but the latest failed retryably.  A response, a final error or a
      failed task is the latest one's; at the deadline, or when every endpoint has been tried and has failed
      retryably, the error is that of the latest, and there is none only if no attempt has ended. */
  ghost predicate ReplyFits(n: nat, r: Reply, started: nat, ended: seq<Ended>) {
    && started <= n && DifferentBelow(ended, started)
    && (ended != [] ==> AllRetryable(ended[..|ended| - 1]))
    && match r
       case Response(e) => ended != [] && ended[|ended| - 1] == Ended(e, Success)
       case Failed(e, error) => ended != [] && ended[|ended| - 1] == Ended(e, Fatal(error))
       case AttemptTaskFailed => ended != [] && ended[|ended| - 1].answer.TaskFailed?
       case DeadlineExceeded(last) => AllRetryable(ended) && last == LastError(ended)
       case Exhausted(final) => AllRetryable(ended) && |ended| == started == n && LastError(ended) == Some(final)
       case MissingEndpoint => false
  }

  lemma FinalAnswerFits(n: nat, hedge: bool, h: Head, ended: seq<Ended>, e: nat, answer: Answer, r: Reply)
    requires HeadOk(n, hedge, h) && BooksOk(h, ended) && e in h.inFlight
    requires r == match answer
                  case Success => Response(e)
                  case Fatal(error) => Failed(e, error)
                  case TaskFailed => AttemptTaskFailed
                  case Retryable(_) => MissingEndpoint
    requires !answer.Retryable?
    ensures ReplyFits(n, r, h.next, ended + [Ended(e, answer)])
  {
    var after := ended + [Ended(e, answer)];
    assert after[..|after| - 1] == ended;
  }

  lemma LastErrorFits(n: nat, hedge: bool, h: Head, ended: seq<Ended>)
    requires HeadOk(n, hedge, h) && BooksOk(h, ended)
    ensures ReplyFits(n, DeadlineExceeded(h.lastError), h.next, ended)
    ensures h.inFlight == {} ==> h.lastError.Some? && ReplyFits(n, Exhausted(h.lastError.value), h.next, ended)
  {
  }

  /** An attempt ends: unless it failed retryably, its answer is the request's. */
  method Conclude(n: nat, hedge: bool, h: Head, e: nat, answer: Answer, contacted: seq<nat>, ended: seq<Ended>)
    returns (final: bool, r: Reply, h': Head, contacted': seq<nat>, ended': seq<Ended>)
    requires HeadOk(n, hedge, h) && BooksOk(h, ended) && e in h.inFlight && contacted == FirstEndpoints(h.next)
    ensures final <==> !answer.Retryable?
    ensures contacted' == FirstEndpoints(h'.next)
    ensures final ==> ReplyFits(n, r, h'.next, ended')
    ensures !final ==> HeadOk(n, hedge, h') && BooksOk(h', ended') && Remaining(n, h') < Remaining(n, h)
  {
    ended', contacted', h' := ended + [Ended(e, answer)], contacted, h;
    if answer.Retryable? {
      RetryKeeps(n, hedge, h, e, answer.error);
      RetryKeepsBooks(n, h, e, answer.error, ended);
      h' := Retry(n, h, e, answer.error);
      if h.next < n { contacted' := contacted + [h.next]; }
      return false, MissingEndpoint, h', contacted', ended';
    }
    r := if answer.Success? then Response(e)
         else if answer.Fatal? then Failed(e, answer.error)
         else AttemptTaskFailed;
    FinalAnswerFits(n, hedge, h, ended, e, answer, r);
    final := true;
  }

  /** A request to n endpoints.  `contacted` lists the attempts started, `ended` those that ended and how, in
      order, `heads` the states in which the loop came round.  Endpoints are contacted in order and at most once
      each; without hedging at most one attempt is in flight; none is in flight only when every endpoint has
      been tried; and the loop comes round at most 2n times. */
  method JsonRequest(n: nat, hedge: bool)
    returns (r: Reply, contacted: seq<nat>, ended: seq<Ended>, heads: seq<Head>)
    requires n > 0
    ensures contacted == FirstEndpoints(|contacted|)
    ensures HeadsOk(n, hedge, heads)
    ensures |heads| <= 2 * n
    ensures ReplyFits(n, r, |contacted|, ended)
  {
    var h := Head({0}, 1, None);
    contacted, ended, heads := [0], [], [];
    while true
      invariant HeadOk(n, hedge, h) && BooksOk(h, ended)
      invariant contacted == FirstEndpoints(h.next)
      invariant HeadsOk(n, hedge, heads)
      invariant |heads| + Remaining(n, h) <= 2 * n - 1
      decreases Remaining(n, h)
    {
      heads := heads + [h];
      if h.inFlight == {} && h.next == n {
        LastErrorFits(n, hedge, h, ended);
        r := if h.lastError.Some? then Exhausted(h.lastError.value) else MissingEndpoint;
        return;
      }
      if
      case h.inFlight != {} =>
        var e :| e in h.inFlight;
        var answer: Answer := *;
        var final;
        final, r, h, contacted, ended := Conclude(n, hedge, h, e, answer, contacted, ended);
        if final { return; }
      case hedge && h.next < n =>
        SpawnKeeps(n, h, ended);
        contacted := contacted + [h.next];
        h := Spawn(h);
      case true =>
        LastErrorFits(n, hedge, h, ended);
        r := DeadlineExceeded(h.lastError);
        return;
    }
  }
}
