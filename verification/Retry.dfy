/** Fetching with retries and exponential backoff, then with fallback strategies. */
module Retry {
  import opened Wrappers

  /** What one try gives: a response, or an error by its message. */
  datatype Try = Response(body: string) | Failure(message: string)

  /** A fallback strategy: which errors it takes, and what it answers. */
  datatype Fallback = Fallback(canHandle: Option<string> -> bool, handle: Try)

  /** The result: a response, an error, the cancellation error, or neither. */
  datatype Result = Got(body: string) | Error(message: string) | Cancelled | Nothing

  predicate Transient(message: string) {
    message == "timeout" || message == "connection refused"
  }

  /** A try after which there is no other. */
  predicate Final(t: Try) {
    t.Response? || !Transient(t.message)
  }

  /** The number of tries: up to the first final one, else all of them. */
  function Tries(executor: nat -> Try, from: nat, limit: nat): (n: nat)
    requires from <= limit
    ensures n <= limit - from
    decreases limit - from
  {
    if from == limit then 0
    else if Final(executor(from)) then 1
    else 1 + Tries(executor, from + 1, limit)
  }

  /** Tries are made up to the position of the first success or permanent error and no further. */
  lemma {:induction false} TriesStopAtFirstFinal(executor: nat -> Try, from: nat, limit: nat)
    requires from <= limit
    ensures var n := Tries(executor, from, limit);
            && (forall k :: from <= k < from + n - 1 ==> !Final(executor(k)))
            && (n < limit - from ==> n > 0 && Final(executor(from + n - 1)))
            && ((exists k :: from <= k < limit && Final(executor(k))) ==> n > 0 && Final(executor(from + n - 1)))
    decreases limit - from
  {
    if from < limit && !Final(executor(from)) {
      TriesStopAtFirstFinal(executor, from + 1, limit);
    }
  }

  function PowerOfTwo(k: nat): (p: nat)
    ensures p >= 1
  {
    if k == 0 then 1 else 2 * PowerOfTwo(k - 1)
  }

  function Sum(delays: seq<int>): int {
    if delays == [] then 0 else Sum(delays[..|delays| - 1]) + delays[|delays| - 1]
  }

  /** The waits before try 1, 2, ... */
  ghost predicate Backoff(delays: seq<int>, retryDelay: int) {
    forall i :: 0 <= i < |delays| ==> delays[i] == retryDelay * PowerOfTwo(i)
  }

  /** Before try k the total wait is retryDelay * (2^k - 1). */
  lemma {:induction false} TotalBackoff(delays: seq<int>, retryDelay: int)
    requires Backoff(delays, retryDelay)
    ensures Sum(delays) == retryDelay * (PowerOfTwo(|delays|) - 1)
  {
    if delays != [] {
      var init := delays[..|delays| - 1];
      TotalBackoff(init, retryDelay);
      var p := PowerOfTwo(|init|);
      assert Sum(delays) == retryDelay * (p - 1) + retryDelay * p;
      assert retryDelay * (p - 1) + retryDelay * p == retryDelay * (2 * p - 1);
    }
  }

  /** The first strategy that can handle the error. */
  function FirstFallback(fallbacks: seq<Fallback>, lastError: Option<string>): Option<Try> {
    if fallbacks == [] then None
    else if fallbacks[0].canHandle(lastError) then Some(fallbacks[0].handle)
    else FirstFallback(fallbacks[1..], lastError)
  }

  lemma {:induction false} FirstFallbackIsFirst(fallbacks: seq<Fallback>, lastError: Option<string>)
    ensures match FirstFallback(fallbacks, lastError)
            case None => forall i :: 0 <= i < |fallbacks| ==> !fallbacks[i].canHandle(lastError)
            case Some(answer) =>
              exists i :: 0 <= i < |fallbacks| && fallbacks[i].canHandle(lastError)
                          && fallbacks[i].handle == answer
                                             && forall j :: 0 <= j < i ==> !fallbacks[j].canHandle(lastError)
  {
    if fallbacks != [] && !fallbacks[0].canHandle(lastError) {
      FirstFallbackIsFirst(fallbacks[1..], lastError);
      match FirstFallback(fallbacks, lastError) {
        case None =>
          forall i | 0 <= i < |fallbacks|
            ensures !fallbacks[i].canHandle(lastError)
          {
            if i > 0 { assert fallbacks[i] == fallbacks[1..][i - 1]; }
          }
        case Some(answer) =>
          var i :| 0 <= i < |fallbacks[1..]| && fallbacks[1..][i].canHandle(lastError)
            && fallbacks[1..][i].handle == answer
                   && forall j :: 0 <= j < i ==> !fallbacks[1..][j].canHandle(lastError);
          assert fallbacks[i + 1] == fallbacks[1..][i];
          forall j | 0 <= j < i + 1
            ensures !fallbacks[j].canHandle(lastError)
          {
            if j > 0 { assert fallbacks[j] == fallbacks[1..][j - 1]; }
          }
      }
    }
  }

  function Answer(t: Try): Result {
    match t
    case Response(body) => Got(body)
    case Failure(message) => Error(message)
  }

  function Exhausted(fallbacks: seq<Fallback>, lastError: Option<string>): Result {
    match FirstFallback(fallbacks, lastError)
    case Some(answer) => Answer(answer)
    case None => if lastError.Some? then Error(lastError.value) else Nothing
  }

  /** `executor(k)` is what try k gives, `cancelled(k)` whether the wait before try k is cut
      short by the caller. `tries` counts the calls made, `delays` the waits begun. */
  method ExecuteWithRetry(maxRetries: int, retryDelay: int, executor: nat -> Try, cancelled: nat -> bool,
                          fallbacks: seq<Fallback>)
    returns (r: Result, tries: nat, delays: seq<int>)
    ensures Backoff(delays, retryDelay)
    ensures tries <= Tries(executor, 0, if maxRetries < 0 then 0 else maxRetries + 1)
    ensures r == Cancelled ==> 0 < tries == |delays| && cancelled(tries)
    ensures (forall k :: !cancelled(k)) ==>
      && r != Cancelled
      && tries == Tries(executor, 0, if maxRetries < 0 then 0 else maxRetries + 1)
      && (tries > 0 ==> |delays| == tries - 1)
      && (tries > 0 && executor(tries - 1).Response? ==> r == Got(executor(tries - 1).body))
      && (tries > 0 && executor(tries - 1).Failure? ==> r == Exhausted(fallbacks, Some(executor(tries - 1).message)))
      && (tries == 0 <==> maxRetries < 0)
      && (tries == 0 ==> r == Exhausted(fallbacks, None))
    // in the error's own words: only these two are worth another try, and they get one
    ensures forall k :: 0 <= k < tries - 1 ==>
      executor(k).Failure? && (executor(k).message == "timeout" || executor(k).message == "connection refused")
    ensures (forall k :: !cancelled(k)) && 0 < tries <= maxRetries ==>
      executor(tries - 1).Response?
      || (executor(tries - 1).message != "timeout" && executor(tries - 1).message != "connection refused")
  {
    r, tries, delays := TryThenFallBack(maxRetries, retryDelay, executor, cancelled, fallbacks);
    TriesInWords(executor, if maxRetries < 0 then 0 else maxRetries + 1, tries);
  }

  /** What the number of tries says about their outcomes. */
  lemma TriesInWords(executor: nat -> Try, limit: nat, tries: nat)
    requires tries <= Tries(executor, 0, limit)
    ensures forall k :: 0 <= k < tries - 1 ==>
      executor(k).Failure? && (executor(k).message == "timeout" || executor(k).message == "connection refused")
    ensures 0 < tries == Tries(executor, 0, limit) && tries < limit ==>
      executor(tries - 1).Response?
      || (executor(tries - 1).message != "timeout" && executor(tries - 1).message != "connection refused")
  {
    TriesStopAtFirstFinal(executor, 0, limit);
  }

  /** The loop and the fallbacks. */
  method TryThenFallBack(maxRetries: int, retryDelay: int, executor: nat -> Try, cancelled: nat -> bool,
                         fallbacks: seq<Fallback>)
    returns (r: Result, tries: nat, delays: seq<int>)
    ensures Backoff(delays, retryDelay)
    ensures tries <= Tries(executor, 0, if maxRetries < 0 then 0 else maxRetries + 1)
    ensures r == Cancelled ==> 0 < tries == |delays| && cancelled(tries)
    ensures (forall k :: !cancelled(k)) ==>
      && r != Cancelled
      && tries == Tries(executor, 0, if maxRetries < 0 then 0 else maxRetries + 1)
      && (tries > 0 ==> |delays| == tries - 1)
      && (tries > 0 && executor(tries - 1).Response? ==> r == Got(executor(tries - 1).body))
      && (tries > 0 && executor(tries - 1).Failure? ==> r == Exhausted(fallbacks, Some(executor(tries - 1).message)))
      && (tries == 0 <==> maxRetries < 0)
      && (tries == 0 ==> r == Exhausted(fallbacks, None))
  {
    var lastError: Option<string> := None;
    var backoff := retryDelay;
    tries, delays := 0, [];
    var limit := if maxRetries < 0 then 0 else maxRetries + 1;
    var attempt := 0;
    while attempt <= maxRetries
      invariant 0 <= attempt <= limit && tries == attempt
      invariant |delays| == (if attempt == 0 then 0 else attempt - 1)
      invariant Backoff(delays, retryDelay) && backoff == retryDelay * PowerOfTwo(|delays|)
      invariant Tries(executor, 0, limit) == attempt + Tries(executor, attempt, limit)
      invariant if attempt == 0 then lastError == None
                else executor(attempt - 1).Failure? && lastError == Some(executor(attempt - 1).message)
      decreases limit - attempt
    {
      if attempt > 0 {
        delays := delays + [backoff];
        if cancelled(attempt) { return Cancelled, tries, delays; }
        Doubling(retryDelay, |delays| - 1);
        backoff := backoff * 2;
      }
      var response := executor(attempt);
      tries := tries + 1;
      if response.Response? { return Got(response.body), tries, delays; }
      lastError := Some(response.message);
      attempt := attempt + 1;
      if !Transient(response.message) { break; }
    }
    r := FallBack(fallbacks, lastError);
  }

  /** The fallback loop: the first strategy that can handle the last error answers. */
  method FallBack(fallbacks: seq<Fallback>, lastError: Option<string>) returns (r: Result)
    ensures r == Exhausted(fallbacks, lastError)
    ensures (forall i :: 0 <= i < |fallbacks| ==> !fallbacks[i].canHandle(lastError)) ==>
      r == if lastError.Some? then Error(lastError.value) else Nothing
    ensures forall i :: 0 <= i < |fallbacks| && fallbacks[i].canHandle(lastError)
                        && (forall j :: 0 <= j < i ==> !fallbacks[j].canHandle(lastError)) ==>
              match fallbacks[i].handle
              case Response(body) => r == Got(body)
              case Failure(message) => r == Error(message)
  {
    for i := 0 to |fallbacks|
      invariant FirstFallback(fallbacks, lastError) == FirstFallback(fallbacks[i..], lastError)
      invariant forall j :: 0 <= j < i ==> !fallbacks[j].canHandle(lastError)
    {
      assert fallbacks[i..][1..] == fallbacks[i + 1..];
      if fallbacks[i].canHandle(lastError) {
        return Answer(fallbacks[i].handle);
      }
    }
    r := if lastError.Some? then Error(lastError.value) else Nothing;
  }

  lemma Doubling(d: int, k: nat)
    ensures d * PowerOfTwo(k) * 2 == d * PowerOfTwo(k + 1)
  {
  }
}
