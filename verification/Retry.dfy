/**
 * The download retry and the deadline it runs under. Times are in milliseconds on the monotonic clock; a timer fires
 * when it is due or later, and how late is part of the script. With timers that are never late, a call settles by its
 * deadline.
 */
module Retry {

  import opened Bytes

  const RETRIES: nat := 3
  const BASE_DELAY_MS := 100.0
  const MAX_DELAY_MS := 1_000.0
  const MIN_RETRY_MS := 10.0

  type Time = t: real | t >= 0.0

  /** What a download comes to by itself: the object, a fault that may be retried, or one that may not. */
  datatype Answer = Got | Retryable | Fatal

  /**
   * The script of one attempt, and of the backoff after it: the request's answer, when it would come, and the timers.
   */
  datatype Attempt = Attempt(answer: Answer, takes: Time, draw: real, late: Time)

  datatype Outcome = Returned | Threw(answer: Answer) | TimedOut

  predicate IsScript(script: seq<Attempt>) {
    |script| == RETRIES + 1 && forall k :: 0 <= k < |script| ==> 0.0 <= script[k].draw < 1.0
  }

  /** `Deadline.remaining`: what is left at `now`, never less than nothing. */
  function Remaining(endsAt: real, now: real): (left: real)
    ensures left >= 0.0 && (left > 0.0 ==> now + left == endsAt) && (left == 0.0 ==> now >= endsAt)
  {
    if endsAt > now then endsAt - now else 0.0
  }

  /** The request is answered before the deadline. */
  predicate InTime(attempt: Attempt, deadline: Option<real>, start: real) {
    deadline.None? || start + attempt.takes < deadline.value
  }

  /** One request under the deadline: none is sent once it has passed, and one in flight then is given up on. */
  method Download(attempt: Attempt, deadline: Option<real>, now: real) returns (outcome: Outcome, end: real, sent: bool)
    ensures sent <==> deadline.None? || now < deadline.value
    ensures outcome.TimedOut? <==> !InTime(attempt, deadline, now)
    ensures !outcome.TimedOut? ==> outcome == if attempt.answer.Got? then Returned else Threw(attempt.answer)
    ensures end == if !sent then now
                   else if outcome.TimedOut? then deadline.value + attempt.late
                   else now + attempt.takes
  {
    if deadline.Some? && Remaining(deadline.value, now) == 0.0 {
      return TimedOut, now, false;
    }
    if deadline.Some? && attempt.takes >= Remaining(deadline.value, now) {
      return TimedOut, deadline.value + attempt.late, true;
    }
    outcome := if attempt.answer.Got? then Returned else Threw(attempt.answer);
    end := now + attempt.takes;
    sent := true;
  }

  function Min(a: real, b: real): real {
    if a < b then a else b
  }

  function DelayCeiling(attempt: nat): (ceiling: real)
    requires attempt < RETRIES
    ensures ceiling == match attempt case 0 => 100.0 case 1 => 200.0 case _ => 400.0
  {
    Min(MAX_DELAY_MS, BASE_DELAY_MS * (if attempt == 0 then 1.0 else if attempt == 1 then 2.0 else 4.0))
  }

  /** The bound on the waits before attempt `k`: the ceilings before it, summed. */
  function WaitBound(k: nat): real {
    if k == 0 then 0.0 else if k == 1 then 100.0 else if k == 2 then 300.0 else 700.0
  }

  /** No timer fires more than `late` after it is due. */
  predicate NeverLaterThan(script: seq<Attempt>, late: real) {
    forall k :: 0 <= k < |script| ==> script[k].late <= late
  }

  /** A retry sent at `t` has time for an answer. */
  predicate TimeEnough(deadline: Option<real>, t: real) {
    deadline.None? || deadline.value - t >= MIN_RETRY_MS
  }

  /** When attempt `k`, begun at `start`, has been answered and its backoff is over. The deadline ends the backoff. */
  function Rested(script: seq<Attempt>, k: nat, deadline: Option<real>, start: real): (t: real)
    requires IsScript(script) && k < RETRIES
    ensures InTime(script[k], deadline, start) ==> t >= start
  {
    var answered := start + script[k].takes;
    var delay := Delay(script[k].draw, k);
    var left := if deadline.Some? then Remaining(deadline.value, answered) else delay;
    answered + Min(delay, left) + script[k].late
  }

  /** Attempt `k`, begun at `start`, is followed by a backoff. */
  predicate IsRested(script: seq<Attempt>, k: nat, deadline: Option<real>, start: real)
    requires IsScript(script) && k <= RETRIES
  {
    && k < RETRIES && InTime(script[k], deadline, start) && script[k].answer.Retryable?
    && TimeEnough(deadline, start + script[k].takes)
  }

  /** It is followed by another attempt. */
  predicate IsRetried(script: seq<Attempt>, k: nat, deadline: Option<real>, start: real)
    requires IsScript(script) && k <= RETRIES
  {
    IsRested(script, k, deadline, start) && TimeEnough(deadline, Rested(script, k, deadline, start))
  }

  /** The first `n` backoffs drawn, summed. */
  function Backoffs(script: seq<Attempt>, n: nat): (ms: real)
    requires IsScript(script) && n <= RETRIES
    ensures 0.0 <= ms <= WaitBound(n) && (n > 0 ==> ms < WaitBound(n))
  {
    if n == 0 then 0.0 else Backoffs(script, n - 1) + Delay(script[n - 1].draw, n - 1)
  }

  lemma MoreBackoffs(script: seq<Attempt>, n: nat)
    requires IsScript(script) && n < RETRIES
    ensures Backoffs(script, 0) == 0.0 && Backoffs(script, n + 1) == Backoffs(script, n) + Delay(script[n].draw, n)
  {
  }

  /** Attempt `k` is followed by the next, once the backoff is over. */
  predicate Continues(script: seq<Attempt>, deadline: Option<real>, starts: seq<real>, k: nat)
    requires IsScript(script) && |starts| <= RETRIES + 1 && k + 1 < |starts|
  {
    IsRetried(script, k, deadline, starts[k]) && starts[k + 1] == Rested(script, k, deadline, starts[k])
  }

  predicate Follow(script: seq<Attempt>, deadline: Option<real>, starts: seq<real>)
    requires IsScript(script) && |starts| <= RETRIES + 1
  {
    forall k :: 0 <= k < |starts| - 1 ==> Continues(script, deadline, starts, k)
  }

  /** So all but the last attempt failed with a fault that is retried, and every retry began with 10 ms left. */
  lemma FollowMeans(script: seq<Attempt>, deadline: Option<real>, starts: seq<real>, k: nat)
    requires IsScript(script) && |starts| <= RETRIES + 1 && Follow(script, deadline, starts) && k + 1 < |starts|
    ensures script[k].answer.Retryable? && starts[k] <= starts[k + 1] && TimeEnough(deadline, starts[k + 1])
    ensures deadline.Some? ==> deadline.value - starts[k + 1] >= 10.0
    ensures var answered := starts[k] + script[k].takes;
            var delay := script[k].draw * (if k == 0 then 100.0 else if k == 1 then 200.0 else 400.0);
            var cut := deadline.Some? && deadline.value - answered < delay;
            starts[k + 1] == answered + (if cut then deadline.value - answered else delay) + script[k].late
  {
    assert Continues(script, deadline, starts, k);
  }

  lemma FollowFurther(script: seq<Attempt>, deadline: Option<real>, starts: seq<real>, next: real)
    requires IsScript(script) && |starts| <= RETRIES
    requires starts != [] ==>
      && Follow(script, deadline, starts)
      && IsRetried(script, |starts| - 1, deadline, starts[|starts| - 1])
      && next == Rested(script, |starts| - 1, deadline, starts[|starts| - 1])
    ensures Follow(script, deadline, starts + [next])
  {
    hide IsRetried, IsScript, Rested;
    forall k | 0 <= k < |starts|
      ensures Continues(script, deadline, starts + [next], k)
    {
      if k + 1 < |starts| {
        assert Continues(script, deadline, starts, k);
      }
    }
  }

  /** What the last attempt, begun at `start`, makes of the call; one that could still be retried is out of time. */
  function Verdict(attempt: Attempt, deadline: Option<real>, start: real, fourth: bool): Outcome {
    if !InTime(attempt, deadline, start) then TimedOut
    else if attempt.answer.Got? then Returned
    else if attempt.answer.Fatal? || fourth then Threw(attempt.answer)
    else TimedOut
  }

  /**
   * When it has: at its answer, after its backoff, or when the deadline's timer fires, if it had not passed already.
   */
  function SettledAt(script: seq<Attempt>, k: nat, deadline: Option<real>, start: real): real
    requires IsScript(script) && k <= RETRIES
  {
    if !InTime(script[k], deadline, start) then
      if start < deadline.value then deadline.value + script[k].late else start
    else if IsRested(script, k, deadline, start) then Rested(script, k, deadline, start)
    else start + script[k].takes
  }

  /** What the call comes to, and when, given when its attempts began. */
  predicate Concludes(script: seq<Attempt>, deadline: Option<real>, starts: seq<real>, outcome: Outcome, end: real,
                      waited: real)
    requires IsScript(script) && 1 <= |starts| <= RETRIES + 1
  {
    var (k, start) := (|starts| - 1, starts[|starts| - 1]);
    && !IsRetried(script, k, deadline, start)
    && outcome == Verdict(script[k], deadline, start, k == RETRIES)
    && end == SettledAt(script, k, deadline, start)
    && waited == Backoffs(script, if IsRested(script, k, deadline, start) then k + 1 else k)
  }

  lemma AtTheAnswer(script: seq<Attempt>, deadline: Option<real>, starts: seq<real>, waited: real)
    requires IsScript(script) && 1 <= |starts| <= RETRIES + 1 && waited == Backoffs(script, |starts| - 1)
    requires !IsRested(script, |starts| - 1, deadline, starts[|starts| - 1])
    ensures var (k, start) := (|starts| - 1, starts[|starts| - 1]);
            Concludes(script, deadline, starts, Verdict(script[k], deadline, start, k == RETRIES),
                      SettledAt(script, k, deadline, start), waited)
  {
  }

  lemma AfterTheRest(script: seq<Attempt>, deadline: Option<real>, starts: seq<real>, waited: real)
    requires IsScript(script) && 1 <= |starts| <= RETRIES && waited == Backoffs(script, |starts|)
    requires IsRested(script, |starts| - 1, deadline, starts[|starts| - 1])
    requires !TimeEnough(deadline, Rested(script, |starts| - 1, deadline, starts[|starts| - 1]))
    ensures var (k, start) := (|starts| - 1, starts[|starts| - 1]);
            Concludes(script, deadline, starts, TimedOut, Rested(script, k, deadline, start), waited)
  {
    hide Rested, Backoffs;
  }

  /**
   * So it is given up on only with less than 10 ms left, and settles by the deadline, or at once where that has
   * passed.
   */
  lemma ConcludesInTime(script: seq<Attempt>, deadline: Option<real>, starts: seq<real>, outcome: Outcome, end: real,
                        waited: real, late: real)
    requires IsScript(script) && NeverLaterThan(script, late) && 1 <= |starts| <= RETRIES + 1
    requires Follow(script, deadline, starts) && Concludes(script, deadline, starts, outcome, end, waited)
    ensures 0.0 <= waited < 700.0
    ensures outcome.TimedOut? ==> !TimeEnough(deadline, end) && deadline.Some? && deadline.value - end < 10.0
    ensures |starts| <= 4 && forall k :: 0 <= k < |starts| - 1 ==> script[k].answer.Retryable?
    ensures outcome.Returned? ==> script[|starts| - 1].answer.Got?
    ensures outcome.Threw? ==> outcome.answer == script[|starts| - 1].answer && (outcome.answer.Fatal? || |starts| == 4)
    ensures deadline.None? ==> outcome.Returned? == script[|starts| - 1].answer.Got?
    ensures deadline.Some? ==> end <= deadline.value + late || (end == starts[0] && outcome.TimedOut? && |starts| == 1)
  {
    hide Follow, IsRetried, Backoffs, Delay, DelayCeiling;
    var k := |starts| - 1;
    assert script[k].late <= late;
    forall j | 0 <= j < k
      ensures script[j].answer.Retryable?
    {
      FollowMeans(script, deadline, starts, j);
    }
    if k > 0 {
      FollowMeans(script, deadline, starts, k - 1);
    }
    NotRetried(script, k, deadline, starts[k]);
  }

  lemma NotRetried(script: seq<Attempt>, k: nat, deadline: Option<real>, start: real)
    requires IsScript(script) && k <= RETRIES && !IsRetried(script, k, deadline, start)
    ensures IsRested(script, k, deadline, start) ==> !TimeEnough(deadline, Rested(script, k, deadline, start))
  {
  }

  /**
   * The retry loop. `starts` is when each attempt began, and `waited` the backoff asked for in all. An attempt is
   * followed by another exactly when it is answered in time with a fault that is retried, is not the fourth, and
   * leaves 10 ms before and after its backoff; the last one gives the outcome, which is the deadline's where it was
   * not answered in time or left too little for a retry. So a call is given up on only with less than 10 ms left,
   * waits less than 700 ms, and settles by its deadline but for the lateness of a timer, or at once where that has
   * passed.
   */
  method RetryDownload(script: seq<Attempt>, deadline: Option<real>, now: real, late: real)
    returns (outcome: Outcome, end: real, starts: seq<real>, waited: real)
    requires IsScript(script) && NeverLaterThan(script, late)
    ensures 1 <= |starts| <= RETRIES + 1 && starts[0] == now && Follow(script, deadline, starts)
    ensures Concludes(script, deadline, starts, outcome, end, waited)
    ensures 0.0 <= waited < 700.0
    ensures outcome.TimedOut? ==> !TimeEnough(deadline, end)
    ensures outcome.TimedOut? ==> deadline.Some? && deadline.value - end < 10.0
    ensures |starts| <= 4 && forall k :: 0 <= k < |starts| - 1 ==> script[k].answer.Retryable?
    ensures outcome.Returned? ==> script[|starts| - 1].answer.Got?
    ensures outcome.Threw? ==> outcome.answer == script[|starts| - 1].answer && (outcome.answer.Fatal? || |starts| == 4)
    ensures deadline.None? ==> outcome.Returned? == script[|starts| - 1].answer.Got?
    ensures deadline.Some? ==> end <= deadline.value + late || (end == now && outcome.TimedOut? && |starts| == 1)
  {
    hide Concludes, Follow, Backoffs, WaitBound, Delay, DelayCeiling, NeverLaterThan;
    MoreBackoffs(script, 0);
    var attempt := 0;
    end, starts, waited := now, [], 0.0;
    while true
      invariant attempt <= RETRIES && |starts| == attempt
      invariant attempt > 0 ==>
        && starts[0] == now && IsRetried(script, attempt - 1, deadline, starts[attempt - 1])
        && end == Rested(script, attempt - 1, deadline, starts[attempt - 1])
        && Follow(script, deadline, starts)
      invariant attempt == 0 ==> end == now
      invariant waited == Backoffs(script, attempt)
      decreases RETRIES - attempt
    {
      FollowFurther(script, deadline, starts, end);
      var start := end;
      starts := starts + [start];
      var sent;
      outcome, end, sent := Download(script[attempt], deadline, start);
      if outcome.Returned? || outcome.TimedOut? {
        AtTheAnswer(script, deadline, starts, waited);
        ConcludesInTime(script, deadline, starts, outcome, end, waited, late);
        return;
      }
      if attempt >= RETRIES || !outcome.answer.Retryable? {
        AtTheAnswer(script, deadline, starts, waited);
        ConcludesInTime(script, deadline, starts, outcome, end, waited, late);
        return;
      }
      if deadline.Some? && Remaining(deadline.value, end) < MIN_RETRY_MS {
        outcome := TimedOut;
        AtTheAnswer(script, deadline, starts, waited);
        ConcludesInTime(script, deadline, starts, outcome, end, waited, late);
        return;
      }
      var delay := Delay(script[attempt].draw, attempt);
      MoreBackoffs(script, attempt);
      waited := waited + delay;
      var wait := if deadline.Some? then Min(delay, Remaining(deadline.value, end)) else delay;
      end := end + wait + script[attempt].late;
      if deadline.Some? && Remaining(deadline.value, end) < MIN_RETRY_MS {
        outcome := TimedOut;
        AfterTheRest(script, deadline, starts, waited);
        ConcludesInTime(script, deadline, starts, outcome, end, waited, late);
        return;
      }
      attempt := attempt + 1;
    }
  }

  function Delay(draw: real, attempt: nat): (ms: real)
    requires 0.0 <= draw < 1.0 && attempt < RETRIES
    ensures 0.0 <= ms < DelayCeiling(attempt)
    ensures ms == draw * (if attempt == 0 then 100.0 else if attempt == 1 then 200.0 else 400.0)
  {
    draw * DelayCeiling(attempt)
  }
}
