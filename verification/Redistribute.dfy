/** The leader's retry machine around `_do_redistribute`: a failure is either retried later or
    makes the leader report itself unhealthy. */
module Redistribute {

  const MAX_ATTEMPTS: nat := 5

  function Pow2(n: nat): nat {
    if n == 0 then 1 else 2 * Pow2(n - 1)
  }

  /** Seconds slept before the retry that follows failure number `attempt`. */
  function Backoff(attempt: nat): nat {
    if Pow2(attempt) <= 30 then Pow2(attempt) else 30
  }

  /** The retry task slot. `Running` is the task past its sleep, inside `_do_redistribute`; `Ended`
      covers finished and cancelled. */
  datatype RetryTask = NoTask | Sleeping(attempt: nat, wakeAt: int) | Running | Ended

  predicate Live(t: RetryTask) {
    t.Sleeping? || t.Running?
  }

  /** `letGo` records that the pending retry was given up on purpose: the instance stopped, or woke
      to find it no longer leads. `slept` is the backoff served so far in this streak. */
  datatype State = State(attempt: nat, unhealthy: bool, retry: RetryTask, letGo: bool, slept: nat)

  const START := State(0, false, NoTask, false, 0)

  /** Failures and successes may come from the retry task itself (`byRetry`) or from a membership
      change or election that redistributes beside it. */
  datatype Event =
    | Fail(now: int, byRetry: bool)
    | Succeed(byRetry: bool)
    | Wake(now: int, leads: bool)
    | Stop

  predicate Possible(s: State, e: Event) {
    match e
    case Fail(_, byRetry) => byRetry ==> s.retry.Running?
    case Succeed(byRetry) => byRetry ==> s.retry.Running?
    case Wake(now, _) => s.retry.Sleeping? && s.retry.wakeAt <= now
    case Stop => true
  }

  function After(s: State, e: Event): State
    requires Possible(s, e)
  {
    match e
    case Fail(now, byRetry) =>
      var n := s.attempt + 1;
      if n < MAX_ATTEMPTS then
        // a live retry, the failing one included, is cancelled in favour of the new schedule
        s.(attempt := n, retry := Sleeping(n, now + Backoff(n)), letGo := false)
      else
        s.(attempt := n, unhealthy := true, retry := if byRetry then Ended else s.retry)
    case Succeed(_) =>
      State(0, false, if Live(s.retry) then Ended else s.retry, false, 0)
    case Wake(now, leads) =>
      var served := s.(slept := s.slept + Backoff(s.retry.attempt));
      if leads then served.(retry := Running) else served.(retry := Ended, letGo := true)
    case Stop =>
      if Live(s.retry) then s.(retry := Ended, letGo := true) else s
  }

  /** The retry fields of PartitionManager; each method is one uninterrupted stretch of the code. */
  class RetryState {
    var attempt: nat
    var unhealthy: bool
    var retry: RetryTask
    ghost var letGo: bool
    ghost var slept: nat

    ghost function View(): State
      reads this
    {
      State(attempt, unhealthy, retry, letGo, slept)
    }

    constructor ()
      ensures View() == START
    {
      attempt, unhealthy, retry := 0, false, NoTask;
      letGo, slept := false, 0;
    }

    method OnFailure(now: int, byRetry: bool)
      requires Possible(View(), Fail(now, byRetry))
      modifies this
      ensures View() == After(old(View()), Fail(now, byRetry))
      ensures attempt == old(attempt) + 1
      ensures if attempt < 5 then retry == Sleeping(attempt, now + Backoff(attempt)) && unhealthy == old(unhealthy)
              else unhealthy && retry == if byRetry then Ended else old(retry)
    {
      attempt := attempt + 1;
      if attempt < MAX_ATTEMPTS {
        if Live(retry) { retry := Ended; }
        retry := Sleeping(attempt, now + Backoff(attempt));
        letGo := false;
      } else {
        unhealthy := true;
        if byRetry { retry := Ended; }
      }
    }

    method OnSuccess(byRetry: bool)
      requires Possible(View(), Succeed(byRetry))
      modifies this
      ensures View() == After(old(View()), Succeed(byRetry))
      ensures attempt == 0 && !unhealthy && retry == if Live(old(retry)) then Ended else old(retry)
    {
      attempt := 0;
      unhealthy := false;
      if Live(retry) { retry := Ended; }
      letGo, slept := false, 0;
    }

    method OnRetryWakes(now: int, leads: bool)
      requires Possible(View(), Wake(now, leads))
      modifies this
      ensures View() == After(old(View()), Wake(now, leads))
      ensures retry == (if leads then Running else Ended) && attempt == old(attempt) && unhealthy == old(unhealthy)
    {
      slept := slept + Backoff(retry.attempt);
      if !leads {
        retry, letGo := Ended, true;
        return;
      }
      retry := Running;
    }

    method OnStop()
      modifies this
      ensures View() == After(old(View()), Stop)
      ensures !Live(retry) && attempt == old(attempt) && unhealthy == old(unhealthy)
    {
      if Live(retry) { retry, letGo := Ended, true; }
    }
  }

  // ---------------------------------------------------------------- no silent stall

  /** Every streak of failures is on its way to another try, reported, or deliberately given up. */
  ghost predicate NotStalled(s: State) {
    && (s.unhealthy <==> s.attempt >= MAX_ATTEMPTS)
    && (0 < s.attempt < MAX_ATTEMPTS ==> Live(s.retry) || s.letGo)
    && (s.retry.Sleeping? ==> 1 <= s.retry.attempt < MAX_ATTEMPTS && s.retry.attempt <= s.attempt)
    && (s.retry.Sleeping? && s.attempt < MAX_ATTEMPTS ==> s.retry.attempt == s.attempt)
  }

  ghost predicate IsRun(run: seq<State>, events: seq<Event>) {
    && |run| == |events| + 1 && run[0] == START
    && forall k :: 0 <= k < |events| ==> Possible(run[k], events[k]) && run[k + 1] == After(run[k], events[k])
  }

  lemma {:induction false} NeverStallsSilently(run: seq<State>, events: seq<Event>, k: nat)
    requires IsRun(run, events) && k < |run|
    ensures NotStalled(run[k])
    ensures k > 0 && events[k - 1].Fail? ==> run[k].retry.Sleeping? || run[k].unhealthy
    ensures k > 0 && events[k - 1].Succeed? ==> run[k].attempt == 0 && !run[k].unhealthy && !Live(run[k].retry)
  {
    if k > 0 {
      NeverStallsSilently(run, events, k - 1);
    }
  }

  /** Event `j` gave the pending retry up: a stop, or a retry that woke to find it no longer leads. */
  ghost predicate GivesUp(events: seq<Event>, j: nat) {
    j < |events| && (events[j].Stop? || (events[j].Wake? && !events[j].leads))
  }

  /** What was let go was given up since the last success and the last failure that scheduled a retry. */
  lemma {:induction false} LetGoOnPurpose(run: seq<State>, events: seq<Event>, k: nat) returns (j: nat)
    requires IsRun(run, events) && k < |run| && run[k].letGo
    ensures j < k && GivesUp(events, j)
    ensures forall i :: j < i < k ==> !events[i].Succeed? && !(events[i].Fail? && run[i + 1].attempt < 5)
  {
    assert Possible(run[k - 1], events[k - 1]) && run[k] == After(run[k - 1], events[k - 1]);
    if run[k - 1].letGo && !GivesUp(events, k - 1) {
      j := LetGoOnPurpose(run, events, k - 1);
    } else {
      j := k - 1;
    }
  }

  // ---------------------------------------------------------------- giving up

  /** The streak that starts with a failure at rest and is driven only by its own retries, with
      leadership kept: fail, wake, fail, wake, ... */
  ghost predicate RetriesOnly(events: seq<Event>) {
    forall k :: 0 <= k < |events| ==>
      if k % 2 == 0 then events[k].Fail? && (events[k].byRetry <==> k > 0)
      else events[k].Wake? && events[k].leads
  }

  function TotalBackoff(n: nat): nat {
    if n == 0 then 0 else TotalBackoff(n - 1) + Backoff(n)
  }

  lemma {:induction false} StreakState(run: seq<State>, events: seq<Event>, k: nat)
    requires IsRun(run, events) && RetriesOnly(events) && k < |run|
    ensures run[k].attempt == (k + 1) / 2 && run[k].slept == TotalBackoff(k / 2)
    ensures k <= 9
    ensures run[k].retry ==
      if k == 0 then NoTask else if k == 9 then Ended else if k % 2 == 0 then Running
      else Sleeping((k + 1) / 2, events[k - 1].now + Backoff((k + 1) / 2))
  {
    if k > 0 {
      StreakState(run, events, k - 1);
      assert RetriesOnly(events) && events[k - 1] == events[k - 1];
      assert Possible(run[k - 1], events[k - 1]) && run[k] == After(run[k - 1], events[k - 1]);
    }
  }

  /** 2, 4, 8, 16 seconds, then 30. */
  lemma BackoffSeconds(n: nat)
    ensures Backoff(1) == 2 && Backoff(2) == 4 && Backoff(3) == 8 && Backoff(4) == 16
    ensures n >= 5 ==> Backoff(n) == 30
  {
    assert Pow2(1) == 2 && Pow2(2) == 4 && Pow2(3) == 8 && Pow2(4) == 16 && Pow2(5) == 32;
    if n > 5 { PowGrows(n); }
  }

  lemma {:induction false} PowGrows(n: nat)
    requires n >= 5
    ensures Pow2(n) >= 32
  {
    if n > 5 { PowGrows(n - 1); } else { assert Pow2(1) == 2 && Pow2(3) == 8 && Pow2(5) == 32; }
  }

  lemma FourBackoffs()
    ensures TotalBackoff(4) == 30
  {
    assert Pow2(1) == 2 && Pow2(2) == 4 && Pow2(3) == 8 && Pow2(4) == 16;
    assert TotalBackoff(1) == 2 && TotalBackoff(2) == 6 && TotalBackoff(3) == 14;
  }

  /** The streak cannot outlast its fifth failure, and turns unhealthy exactly there, after 30
      seconds of backoff in all; each retry starts no sooner than its backoff after the failure. */
  lemma GivesUpAtFifthFailure(run: seq<State>, events: seq<Event>)
    requires IsRun(run, events) && RetriesOnly(events)
    ensures |events| <= 9
    ensures forall k :: 0 <= k < |run| ==> (run[k].unhealthy <==> k == 9)
    ensures |events| == 9 ==> run[9].attempt == 5 && run[9].slept == 30 && !Live(run[9].retry)
    ensures forall k :: 0 < k < |events| && k % 2 == 1 ==>
      events[k].now >= events[k - 1].now + Backoff((k + 1) / 2)
  {
    StreakState(run, events, |events|);
    FourBackoffs();
    forall k | 0 <= k < |run| ensures run[k].unhealthy <==> k == 9 {
      StreakState(run, events, k);
      NeverStallsSilently(run, events, k);
    }
    forall k | 0 < k < |events| && k % 2 == 1
      ensures events[k].now >= events[k - 1].now + Backoff((k + 1) / 2)
    {
      StreakState(run, events, k);
      assert Possible(run[k], events[k]);
    }
  }
}
