/**
 * The commit a sink ends with, as each driver runs it: the throttled re-send loop of the S3 driver and of GCS's
 * simple upload, and the single send of Azure and of GCS's resumable upload, which the SDK may replay by itself. Each
 * is proved to reach the outcome that `Service.Decide` and `Service.Settle` give, the decisions the protocol theorems
 * are about.
 */
module Commits {

  import opened Bytes
  import opened Service

  datatype Look = Stored(entry: Option<Entry>) | LookFails

  /** What the service will answer: one answer and one jitter draw for each send, and what a read-back would find. */
  datatype Script = Script(answers: seq<Answer>, draws: seq<real>, look: Look)

  const SENDS := THROTTLE_RESENDS + 1
  const THROTTLE_BASE_DELAY_MS: nat := 500

  predicate IsScript(script: Script) {
    && |script.answers| == SENDS && |script.draws| == SENDS
    && forall k :: 0 <= k < SENDS ==> 0.0 <= script.draws[k] < 1.0
  }

  /** Where the decisions lead, from the send after `resent` re-sends on. */
  function Outcome(driver: Driver, job: Job, resent: nat, script: Script): Outcome
    requires IsScript(script) && resent < SENDS
    decreases SENDS - resent
  {
    var answer := script.answers[resent];
    match Decide(driver, job, resent, answer)
    case Finish(outcome) => outcome
    case Resend => if resent + 1 < SENDS then Outcome(driver, job, resent + 1, script) else Failed
    case ReadBack => if script.look.LookFails? then Failed else Settle(driver, job, answer, script.look.entry)
  }

  /** The read-back finds the object this write made. */
  predicate FindsOwn(look: Look, writeId: nat) {
    look.Stored? && look.entry.Some? && look.entry.value.id == Some(writeId)
  }

  /** An answer that can be an earlier send's success: it is read back, once there was an earlier send. */
  predicate MayBeOwn(answer: Answer) {
    answer.Precondition? || answer.Race? || answer.NoSuchUpload?
  }

  /** The ceiling of the backoff before the re-send `resent + 1`: 500 ms, doubling. */
  function Ceiling(resent: nat): (ms: nat)
    ensures ms >= THROTTLE_BASE_DELAY_MS
  {
    if resent == 0 then THROTTLE_BASE_DELAY_MS else 2 * Ceiling(resent - 1)
  }

  /** A full-jitter wait: the draw's share of its ceiling in whole milliseconds, and so under it. */
  function Jittered(draw: real, ceiling: nat): (ms: nat)
    requires 0.0 <= draw < 1.0 && ceiling > 0
    ensures ms < ceiling && ms as real <= draw * (ceiling as real) < ms as real + 1.0
  {
    Scaled(draw, ceiling as real);
    Floored(draw * (ceiling as real), ceiling)
  }

  function Floored(x: real, ceiling: nat): (n: nat)
    requires 0.0 <= x < ceiling as real
    ensures n < ceiling && n as real <= x < n as real + 1.0
  {
    x.Floor
  }

  lemma Scaled(draw: real, ceiling: real)
    requires 0.0 <= draw < 1.0 && ceiling > 0.0
    ensures 0.0 <= draw * ceiling < ceiling
  {
  }

  lemma CeilingsDouble()
    ensures Ceiling(0) == 500 && Ceiling(1) == 1_000 && Ceiling(2) == 2_000 && Ceiling(3) == 4_000
  {
    assert Ceiling(0) == 500;
    assert Ceiling(1) == 1_000;
    assert Ceiling(2) == 2_000;
  }

  predicate ThrottledUpTo(script: Script, sends: nat) {
    IsScript(script) && 1 <= sends <= SENDS && forall k :: 0 <= k < sends - 1 ==> script.answers[k].Throttled?
  }

  /** How many sends a script takes: a throttle, and nothing else, is followed by another send, up to the fourth. */
  predicate SendsTaken(script: Script, sends: nat) {
    ThrottledUpTo(script, sends) && (sends == SENDS || !script.answers[sends - 1].Throttled?)
  }

  /** The backoffs drawn before the first `n` re-sends, in all. */
  function Waits(script: Script, n: nat): nat
    requires IsScript(script) && n <= SENDS
  {
    if n == 0 then 0 else Waits(script, n - 1) + Jittered(script.draws[n - 1], Ceiling(n - 1))
  }

  /** The ceilings bound them: less than 3.5 s in all. */
  lemma WaitsAreShort(script: Script, n: nat)
    requires IsScript(script) && n < SENDS
    ensures Waits(script, n) < 3_500
  {
    CeilingsDouble();
    assert n > 2 ==> Waits(script, 3) == Waits(script, 2) + Jittered(script.draws[2], Ceiling(2));
    assert n > 1 ==> Waits(script, 2) == Waits(script, 1) + Jittered(script.draws[1], Ceiling(1));
    assert n > 0 ==> Waits(script, 1) == Jittered(script.draws[0], Ceiling(0));
  }

  /** The loop of the S3 sink's commit. It sends four times at most, and waits less than 3.5 s in all. */
  method S3Commit(writeId: nat, job: Job, script: Script) returns (outcome: Outcome, sends: nat, waited: nat)
    requires IsScript(script) && job.Put? && job.writeId == writeId
    ensures outcome == Outcome(S3, job, 0, script)
    ensures SendsTaken(script, sends) && waited == Waits(script, sends - 1) < 3_500
    ensures 1 <= sends <= 4 && (sends == 4 || !script.answers[sends - 1].Throttled?)
    ensures var answer := script.answers[sends - 1];
            outcome.Returned? <==> answer.Ok? || (sends > 1 && MayBeOwn(answer) && FindsOwn(script.look, writeId))
    ensures var answer := script.answers[sends - 1];
            outcome.Conflict? <==>
              if sends == 1 then answer.Precondition? || answer.Race?
              else MayBeOwn(answer) && script.look.Stored? && !FindsOwn(script.look, writeId)
                   && (answer.Precondition? || script.look.entry.Some?)
    ensures outcome.Returned? || outcome.Conflict? || outcome.Failed?
  {
    var resent := 0;
    sends, waited := 0, 0;
    while true
      invariant resent < SENDS && sends == resent && ThrottledUpTo(script, resent + 1)
      invariant Outcome(S3, job, 0, script) == Outcome(S3, job, resent, script)
      invariant waited == Waits(script, resent)
      decreases SENDS - resent
    {
      WaitsAreShort(script, resent);
      var answer := script.answers[resent];
      sends := sends + 1;
      if answer.Ok? {
        return Returned, sends, waited;
      }
      var conflict := answer.Precondition? || answer.Race?;
      if resent > 0 && (conflict || answer.NoSuchUpload?) {
        if script.look.LookFails? {
          return Failed, sends, waited;
        }
        var stored := script.look.entry;
        if stored.Some? && stored.value.id == Some(writeId) {
          return Returned, sends, waited;
        }
        if stored.None? && !answer.Precondition? {
          return Failed, sends, waited;
        }
        return Conflict, sends, waited;
      }
      if !answer.Throttled? {
        return if conflict then Conflict else Failed, sends, waited;
      }
      if resent >= THROTTLE_RESENDS {
        return Failed, sends, waited;
      }
      waited := waited + Jittered(script.draws[resent], Ceiling(resent));
      resent := resent + 1;
    }
  }

  /** GCS's simple upload: the same loop, where only a failed precondition is ever read back, or a conflict. */
  method GcsSimpleCommit(writeId: nat, job: Job, script: Script) returns (outcome: Outcome, sends: nat, waited: nat)
    requires IsScript(script) && job.Put? && job.writeId == writeId && !job.staged
    ensures outcome == Outcome(Gcs, job, 0, script)
    ensures SendsTaken(script, sends) && waited == Waits(script, sends - 1) < 3_500
    ensures 1 <= sends <= 4 && (sends == 4 || !script.answers[sends - 1].Throttled?)
    ensures var answer := script.answers[sends - 1];
            outcome.Returned? <==> answer.Ok? || (sends > 1 && answer.Precondition? && FindsOwn(script.look, writeId))
    ensures var answer := script.answers[sends - 1];
            outcome.Conflict? <==>
              answer.Precondition? && (sends == 1 || (script.look.Stored? && !FindsOwn(script.look, writeId)))
    ensures outcome.Returned? || outcome.Conflict? || outcome.Failed?
  {
    var resent := 0;
    sends, waited := 0, 0;
    while true
      invariant resent < SENDS && sends == resent && ThrottledUpTo(script, resent + 1)
      invariant Outcome(Gcs, job, 0, script) == Outcome(Gcs, job, resent, script)
      invariant waited == Waits(script, resent)
      decreases SENDS - resent
    {
      WaitsAreShort(script, resent);
      var answer := script.answers[resent];
      sends := sends + 1;
      if answer.Ok? {
        return Returned, sends, waited;
      }
      if resent > 0 && answer.Precondition? {
        outcome := OwnOrConflict(writeId, script.look);
        return outcome, sends, waited;
      }
      if !answer.Throttled? {
        return if answer.Precondition? then Conflict else Failed, sends, waited;
      }
      if resent >= THROTTLE_RESENDS {
        return Failed, sends, waited;
      }
      waited := waited + Jittered(script.draws[resent], Ceiling(resent));
      resent := resent + 1;
    }
  }

  /**
   * Azure's commit, and the end of GCS's resumable upload: any conflict may be the SDK's own copy, so it is read
   * back.
   */
  method ReplayedCommit(driver: Driver, writeId: nat, job: Job, script: Script) returns (outcome: Outcome)
    requires IsScript(script) && job.Put? && job.writeId == writeId
    requires driver.Azure? || (driver.Gcs? && job.staged)
    ensures outcome == Outcome(driver, job, 0, script)
    ensures var answer := script.answers[0];
            && (outcome.Returned? <==> answer.Ok? || (answer.Precondition? && FindsOwn(script.look, writeId)))
            && (outcome.Conflict? <==> answer.Precondition? && script.look.Stored? && !FindsOwn(script.look, writeId))
    ensures outcome.Returned? || outcome.Conflict? || outcome.Failed?
  {
    var answer := script.answers[0];
    if answer.Ok? {
      return Returned;
    }
    if !answer.Precondition? {
      return Failed;
    }
    outcome := OwnOrConflict(writeId, script.look);
  }

  /** Whose object a failed precondition met: this write's own is a success, and no other is. */
  method OwnOrConflict(writeId: nat, look: Look) returns (outcome: Outcome)
    ensures outcome.Failed? <==> look.LookFails?
    ensures outcome.Returned? <==> FindsOwn(look, writeId)
    ensures outcome.Returned? || outcome.Failed? || outcome.Conflict?
  {
    if look.LookFails? {
      return Failed;
    }
    var stored := if look.entry.Some? then look.entry.value.id else None;
    return if stored == Some(writeId) then Returned else Conflict;
  }
}
