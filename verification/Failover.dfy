/** The failover monitor: one health reading every ten seconds, and a promotion of the standby
    once the primary has been down, with a healthy standby, for longer than a threshold. */
module Failover {
  import opened Division

  /** A reading, or an error while taking it. */
  datatype Tick = Reading(primaryUp: bool, standbyUp: bool) | Failed

  const INTERVAL := 10 * 1_000_000_000

  predicate Down(t: Tick) {
    t.Reading? && !t.primaryUp && t.standbyUp
  }

  /** A reading that ends a run of failures; an error does not. */
  predicate Resets(t: Tick) {
    t.Reading? && !Down(t)
  }

  /** How many down readings it takes to exceed the threshold (in nanoseconds). */
  function Patience(threshold: int): (m: nat)
    ensures m >= 1
  {
    if threshold < 0 then 1 else threshold / INTERVAL + 1
  }

  /** It is the least number of intervals longer than the threshold. */
  lemma PatienceIsLeast(threshold: int)
    ensures Patience(threshold) * INTERVAL > threshold
    ensures forall k :: 1 <= k && k * INTERVAL > threshold ==> Patience(threshold) <= k
  {
    forall k | 1 <= k && k * INTERVAL > threshold
      ensures Patience(threshold) <= k
    {
      if threshold >= 0 {
        assert threshold == (threshold / INTERVAL) * INTERVAL + threshold % INTERVAL;
      }
    }
  }

  /** Down readings since the last reset, up to and including tick i - 1. */
  function DownRun(ticks: seq<Tick>, i: nat): nat
    requires i <= |ticks|
  {
    if i == 0 || Resets(ticks[i - 1]) then 0
    else if Down(ticks[i - 1]) then DownRun(ticks, i - 1) + 1
    else DownRun(ticks, i - 1)
  }

  /** Down readings since the last reset or the last completed portion of m. */
  function Phase(ticks: seq<Tick>, m: nat, i: nat): nat
    requires i <= |ticks| && m >= 1
  {
    if i == 0 || Resets(ticks[i - 1]) then 0
    else if !Down(ticks[i - 1]) then Phase(ticks, m, i - 1)
    else if Phase(ticks, m, i - 1) + 1 == m then 0
    else Phase(ticks, m, i - 1) + 1
  }

  lemma {:induction false} PhaseIsRemainder(ticks: seq<Tick>, m: nat, i: nat)
    requires i <= |ticks| && m >= 1
    ensures Phase(ticks, m, i) == DownRun(ticks, i) % m
  {
    if i == 0 || Resets(ticks[i - 1]) {
      RemainderIs(0, m, 0, 0);
    } else {
      PhaseIsRemainder(ticks, m, i - 1);
      NextRemainder(DownRun(ticks, i - 1), m);
    }
  }

  /** Tick i triggers an attempt: it is a down reading that completes another portion of m. */
  predicate Attempts(ticks: seq<Tick>, m: nat, i: nat)
    requires i < |ticks| && m >= 1
  {
    Down(ticks[i]) && Phase(ticks, m, i + 1) == 0
  }

  function CountAttempts(ticks: seq<Tick>, m: nat, from: nat, to: nat): nat
    requires from <= to <= |ticks| && m >= 1
  {
    if from == to then 0
    else CountAttempts(ticks, m, from, to - 1) + (if Attempts(ticks, m, to - 1) then 1 else 0)
  }

  function CountDown(ticks: seq<Tick>, from: nat, to: nat): nat
    requires from <= to <= |ticks|
  {
    if from == to then 0 else CountDown(ticks, from, to - 1) + (if Down(ticks[to - 1]) then 1 else 0)
  }

  /** Ticks from..to contain no reset, and a reset or the start comes just before them. */
  ghost predicate Block(ticks: seq<Tick>, from: nat, to: nat)
    requires from <= to <= |ticks|
  {
    && (from > 0 ==> Resets(ticks[from - 1]))
    && forall i :: from <= i < to ==> !Resets(ticks[i])
  }

  /** In the readings' own terms: a primary that is down beside a healthy standby. */
  const PRIMARY_DOWN := Reading(false, true)

  function DownTicks(ticks: seq<Tick>, from: nat, to: nat): set<nat>
    requires from <= to <= |ticks|
  {
    set i: nat | from <= i < to && ticks[i] == PRIMARY_DOWN
  }

  lemma {:induction false} CountsDownTicks(ticks: seq<Tick>, from: nat, to: nat)
    requires from <= to <= |ticks|
    ensures CountDown(ticks, from, to) == |DownTicks(ticks, from, to)|
  {
    if from < to {
      CountsDownTicks(ticks, from, to - 1);
      var one: set<nat> := if ticks[to - 1] == PRIMARY_DOWN then {to - 1} else {};
      assert DownTicks(ticks, from, to) == DownTicks(ticks, from, to - 1) + one;
    }
  }

  function AttemptTicks(ticks: seq<Tick>, m: nat, from: nat, to: nat): set<nat>
    requires from <= to <= |ticks| && m >= 1
  {
    set i: nat | from <= i < to && Attempts(ticks, m, i)
  }

  lemma {:induction false} CountsAttemptTicks(ticks: seq<Tick>, m: nat, from: nat, to: nat)
    requires from <= to <= |ticks| && m >= 1
    ensures CountAttempts(ticks, m, from, to) == |AttemptTicks(ticks, m, from, to)|
  {
    if from < to {
      CountsAttemptTicks(ticks, m, from, to - 1);
      var one: set<nat> := if Attempts(ticks, m, to - 1) then {to - 1} else {};
      assert AttemptTicks(ticks, m, from, to) == AttemptTicks(ticks, m, from, to - 1) + one;
    }
  }

  /** How many of the first attempts succeeded. */
  function Successes(attempts: seq<nat>, promotes: nat -> bool): nat {
    if attempts == [] then 0
    else Successes(attempts[..|attempts| - 1], promotes) + (if promotes(attempts[|attempts| - 1]) then 1 else 0)
  }

  lemma SuccessesSnoc(attempts: seq<nat>, promotes: nat -> bool, i: nat)
    ensures Successes(attempts + [i], promotes) == Successes(attempts, promotes) + (if promotes(i) then 1 else 0)
  {
    assert (attempts + [i])[..|attempts|] == attempts;
  }

  class Monitor {
    /** Promotions that succeeded. */
    var failureCount: nat

    constructor ()
      ensures failureCount == 0
    {
      failureCount := 0;
    }

    /** The monitoring loop over a finite run of ticks. `promotes(i)` tells whether an attempt at
        tick i succeeds; either way the count of failures starts again. */
    method MonitorFailover(ticks: seq<Tick>, threshold: int, promotes: nat -> bool) returns (attempts: seq<nat>)
      modifies this
      ensures forall i :: i in attempts <==> 0 <= i < |ticks| && Attempts(ticks, Patience(threshold), i)
      ensures forall i, j :: 0 <= i < j < |attempts| ==> attempts[i] < attempts[j]
      ensures |attempts| == CountAttempts(ticks, Patience(threshold), 0, |ticks|)
      ensures failureCount == old(failureCount) + Successes(attempts, promotes)
      ensures forall i :: i in attempts ==> 0 <= i < |ticks| && ticks[i] == PRIMARY_DOWN
    {
      attempts := MonitorTicks(ticks, threshold, promotes, Patience(threshold));
    }

    /** The loop, for a threshold that m failures exceed. */
    method MonitorTicks(ticks: seq<Tick>, threshold: int, promotes: nat -> bool, ghost m: nat)
      returns (attempts: seq<nat>)
      requires m == Patience(threshold)
      modifies this
      ensures Listed(attempts, ticks, m, |ticks|)
      ensures failureCount == old(failureCount) + Successes(attempts, promotes)
    {
      attempts := [];
      var consecutiveFailures: nat := 0;
      for i := 0 to |ticks|
        invariant consecutiveFailures == Phase(ticks, m, i) < m
        invariant Listed(attempts, ticks, m, i)
        invariant failureCount == old(failureCount) + Successes(attempts, promotes)
      {
        ListedNext(attempts, ticks, m, i);
        var attempt;
        consecutiveFailures, attempt := Observe(ticks[i], threshold, consecutiveFailures, m);
        if attempt {
          SuccessesSnoc(attempts, promotes, i);
          attempts := attempts + [i];
          if promotes(i) { failureCount := failureCount + 1; }
        }
      }
    }

    /** One tick: the failures counted so far, and whether they exceed the threshold now. */
    method Observe(state: Tick, threshold: int, failures: nat, ghost m: nat) returns (next: nat, attempt: bool)
      requires m == Patience(threshold) && failures < m
      ensures attempt <==> state == PRIMARY_DOWN && failures + 1 == m
      ensures next == if state == Failed then failures
                      else if state == PRIMARY_DOWN && failures + 1 < m then failures + 1 else 0
    {
      next, attempt := failures, false;
      if state.Reading? {
        if !state.primaryUp && state.standbyUp {
          next := failures + 1;
          ExceedsAt(threshold, failures);
          if next * INTERVAL > threshold {
            attempt := true;
            next := 0;
          }
        } else {
          next := 0;
        }
      }
    }
  }

  /** The attempts of the first n ticks, in order. */
  ghost predicate Listed(attempts: seq<nat>, ticks: seq<Tick>, m: nat, n: nat)
    requires n <= |ticks| && m >= 1
  {
    && (forall k :: k in attempts <==> 0 <= k < n && Attempts(ticks, m, k))
    && (forall k :: 0 <= k < |attempts| ==> attempts[k] < n)
    && (forall j, k :: 0 <= j < k < |attempts| ==> attempts[j] < attempts[k])
    && |attempts| == CountAttempts(ticks, m, 0, n)
  }

  lemma ListedNext(attempts: seq<nat>, ticks: seq<Tick>, m: nat, i: nat)
    requires i < |ticks| && m >= 1 && Listed(attempts, ticks, m, i)
    ensures Listed(if Attempts(ticks, m, i) then attempts + [i] else attempts, ticks, m, i + 1)
  {
  }

  /** One more failure exceeds the threshold exactly if it completes a portion. */
  lemma ExceedsAt(threshold: int, c: nat)
    requires c < Patience(threshold)
    ensures (c + 1) * INTERVAL > threshold <==> c + 1 == Patience(threshold)
  {
    PatienceIsLeast(threshold);
  }

  lemma NextRemainder(a: nat, m: nat)
    requires m >= 1
    ensures (a + 1) % m == if a % m + 1 == m then 0 else a % m + 1
    ensures (a + 1) / m == a / m + (if (a + 1) % m == 0 then 1 else 0)
  {
    var q, r := a / m, a % m;
    Divided(a, m);
    if r + 1 == m {
      RemainderIs(a + 1, m, q + 1, 0);
    } else {
      RemainderIs(a + 1, m, q, r + 1);
    }
  }

  /** Inside a block the run of failures counts the block's down readings. */
  lemma {:induction false} DownRunInBlock(ticks: seq<Tick>, from: nat, to: nat)
    requires from <= to <= |ticks| && Block(ticks, from, to)
    ensures DownRun(ticks, to) == CountDown(ticks, from, to)
  {
    if from < to {
      DownRunInBlock(ticks, from, to - 1);
    }
  }

  /** A maximal block of L down readings brings exactly floor(L / m) attempts. */
  lemma {:induction false} AttemptsPerBlock(ticks: seq<Tick>, m: nat, from: nat, to: nat)
    requires m >= 1 && from <= to <= |ticks| && Block(ticks, from, to)
    ensures CountAttempts(ticks, m, from, to) == CountDown(ticks, from, to) / m
  {
    if from == to {
      RemainderIs(0, m, 0, 0);
    } else {
      AttemptsPerBlock(ticks, m, from, to - 1);
      DownRunInBlock(ticks, from, to);
      PhaseIsRemainder(ticks, m, to);
      NextRemainder(CountDown(ticks, from, to - 1), m);
    }
  }

  /** The same about readings: in a stretch of ticks in which the primary is down beside a healthy
      standby, errors in taking a reading aside, with another reading or nothing before it, every
      floor(threshold / 10 s) + 1 of the down readings bring one attempt. */
  lemma AttemptsInStretch(ticks: seq<Tick>, threshold: int, from: nat, to: nat)
    requires threshold >= 0 && from <= to <= |ticks|
    requires from > 0 ==> ticks[from - 1] != Failed && ticks[from - 1] != PRIMARY_DOWN
    requires forall i :: from <= i < to ==> ticks[i] == PRIMARY_DOWN || ticks[i] == Failed
    ensures |AttemptTicks(ticks, Patience(threshold), from, to)|
      == |DownTicks(ticks, from, to)| / (threshold / 10_000_000_000 + 1)
  {
    AttemptsPerBlock(ticks, Patience(threshold), from, to);
    CountsDownTicks(ticks, from, to);
    CountsAttemptTicks(ticks, Patience(threshold), from, to);
  }

  /** Over any ticks there are at most floor(n / m) attempts among n down readings, counting the
      failures already accumulated at the start. */
  lemma {:induction false} AttemptsBounded(ticks: seq<Tick>, m: nat, to: nat)
    requires m >= 1 && to <= |ticks|
    ensures CountAttempts(ticks, m, 0, to) * m + Phase(ticks, m, to) <= CountDown(ticks, 0, to) <= to
  {
    if to > 0 {
      AttemptsBounded(ticks, m, to - 1);
      OneMorePortion(CountAttempts(ticks, m, 0, to - 1), m);
    }
  }

  lemma OneMorePortion(n: nat, m: nat)
    ensures (n + 1) * m == n * m + m
  {
  }
}
