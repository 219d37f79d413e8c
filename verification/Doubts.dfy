/**
 * When a conflict says nothing of what its request did. Where the SDK sends copies, a call may be told of a conflict
 * by one copy of a request that another copy has landed. From which worlds that can happen is stated exactly, for the
 * registry's rows and for conditional deletes, by the continuations that lead there and by what every other
 * continuation keeps.
 */
module Doubts {

  import opened Bytes
  import opened Service
  import opened History
  import opened Landings
  import opened Late
  import opened Fills
  import opened Assembly
  import opened Swaps
  import BlockIds

  /** The client was told of a conflict, and a request of it landed. */
  predicate InDoubt(w: World, i: nat) {
    i < |w.clients| && EndedInConflict(w.clients[i]) && LandedBy(w, i)
  }

  /** A continuation that ends so, no version being reused. */
  predicate EndsInDoubt(u: World, later: seq<Step>, i: nat) {
    Allowed(u, later) && NoReuse(After(u, later)) && InDoubt(After(u, later), i)
  }

  // ---------- the moves ----------

  /** The client awaits the answer to a request the SDK may copy. No part of it is stored beforehand. */
  predicate Awaits(x: World, i: nat, driver: Driver, job: Job) {
    && i < |x.clients| && x.clients[i].job == job && x.driver == driver && !job.Put? && Replays(driver, job)
    && x.clients[i].phase.Waiting? && x.clients[i].phase.resent == 0
    && x.clients[i].phase.current < |x.sends| && x.sends[x.clients[i].phase.current].client == i
  }

  predicate Awaited(x: World, i: nat, fate: Fate) {
    && i < |x.clients| && x.clients[i].phase.Waiting? && x.clients[i].phase.current < |x.sends|
    && x.sends[x.clients[i].phase.current].fate == fate
  }

  /** The SDK sends another copy, and awaits that one's answer. */
  lemma Copies(u: World, steps: seq<Step>, x: World, i: nat, driver: Driver, job: Job)
    returns (more: seq<Step>, y: World)
    requires Reached(u, steps, x) && Awaits(x, i, driver, job)
    ensures Reached(u, more, y) && Awaits(y, i, driver, job) && Awaited(y, i, InFlight)
    ensures y.cell == x.cell && y.sends == x.sends + [Send(i, InFlight)] && y.clients[i].phase.current == |x.sends|
    ensures LandedBy(x, i) ==> LandedBy(y, i)
    ensures forall j :: j != i && MayFill(x, j) ==> MayFill(y, j)
  {
    hide Reached, NoReuse, Replays, MayFill;
    y := Next(x, Replay(i));
    ReachedHasNoReuse(u, steps, x);
    SameVersions(x, y);
    Move(u, steps, x, Replay(i));
    more := steps + [Replay(i)];
    SentsKeepLandings(x, y, i);
    forall j | j != i && MayFill(x, j)
      ensures MayFill(y, j)
    {
      FillersAreThere(x, j);
      StillMayFill(x, y, j);
    }
  }

  lemma FillersAreThere(x: World, j: nat)
    requires MayFill(x, j)
    ensures j < |x.clients|
  {
  }

  lemma SentsKeepLandings(x: World, y: World, i: nat)
    requires x.sends <= y.sends
    ensures LandedBy(x, i) ==> LandedBy(y, i)
  {
    if LandedBy(x, i) {
      var k :| 0 <= k < |x.sends| && x.sends[k].client == i && x.sends[k].fate.Landed?;
      assert y.sends[k] == x.sends[k];
    }
  }

  /** Someone empties the name, if it holds anything. */
  lemma Emptied(u: World, steps: seq<Step>, x: World)
    returns (more: seq<Step>, y: World)
    requires Reached(u, steps, x)
    ensures Reached(u, more, y) && y.cell.None? && y.sends == x.sends && y.clients == x.clients && y.driver == x.driver
  {
    hide Allowed, After, NoReuse;
    var tail;
    tail, y := Empties(x);
    Continues(u, steps, tail);
    more := steps + tail;
  }

  /** The request in flight lands. */
  lemma Landed(u: World, steps: seq<Step>, x: World, i: nat, k: nat, driver: Driver, job: Job)
    returns (more: seq<Step>, y: World)
    requires Reached(u, steps, x) && i < |x.clients| && x.clients[i].job == job && x.driver == driver && !job.Put?
    requires k < |x.sends| && x.sends[k] == Send(i, InFlight) && Holds(job, x.cell)
    ensures Reached(u, more, y) && y.sends == x.sends[k := Send(i, Fate.Landed)] && y.clients == x.clients
    ensures y.driver == driver && LandedBy(y, i) && y.cell.Some? == job.RowWrite?
    ensures forall j :: j != i && MayFill(x, j) ==> MayFill(y, j)
  {
    hide Reached, NoReuse, Enabled, Next, Holds, MayFill;
    ReachedHasNoReuse(u, steps, x);
    var version := Lands(x, i, k);
    y := Next(x, Apply(k, version));
    Move(u, steps, x, Apply(k, version));
    more := steps + [Apply(k, version)];
    assert y.sends[k].client == i && y.sends[k].fate.Landed?;
    forall j | j != i && MayFill(x, j)
      ensures MayFill(y, j)
    {
      FillersAreThere(x, j);
      StillMayFill(x, y, j);
    }
  }

  /** The request awaited is evaluated, and its precondition fails. */
  lemma Refuses(u: World, steps: seq<Step>, x: World, i: nat, driver: Driver, job: Job)
    returns (more: seq<Step>, y: World)
    requires Reached(u, steps, x) && Awaits(x, i, driver, job) && Awaited(x, i, InFlight) && !Holds(job, x.cell)
    ensures Reached(u, more, y) && Awaits(y, i, driver, job) && y.cell == x.cell
    ensures Awaited(y, i, if x.cell.None? && NeedsObject(job) then Missing else Refused)
    ensures LandedBy(x, i) ==> LandedBy(y, i)
  {
    hide Reached, NoReuse, Replays, Holds, NeedsObject, Outgrowth;
    var k := x.clients[i].phase.current;
    y := Next(x, Apply(k, 0));
    ReachedHasNoReuse(u, steps, x);
    SameVersions(x, y);
    Move(u, steps, x, Apply(k, 0));
    more := steps + [Apply(k, 0)];
    OtherFatesKeepLandings(x, y, k, i);
  }

  lemma OtherFatesKeepLandings(x: World, y: World, k: nat, i: nat)
    requires |y.sends| == |x.sends| && k < |x.sends| && !x.sends[k].fate.Landed?
    requires forall m :: 0 <= m < |x.sends| && m != k ==> y.sends[m] == x.sends[m]
    ensures LandedBy(x, i) ==> LandedBy(y, i)
  {
  }

  /** The client hears an answer. */
  lemma Heard(u: World, steps: seq<Step>, x: World, i: nat, driver: Driver, job: Job, answer: Answer)
    returns (more: seq<Step>, y: World)
    requires Reached(u, steps, x) && Awaits(x, i, driver, job)
    requires Answers(driver, job, x.sends[x.clients[i].phase.current].fate, answer)
    ensures Reached(u, more, y) && y.sends == x.sends && y.cell == x.cell && y.driver == driver
    ensures |y.clients| == |x.clients| && y.clients[i].job == job
    ensures y.clients[i].phase == match Decide(driver, job, 0, answer)
                                  case Finish(outcome) => Done(outcome)
                                  case Resend => Backoff(0)
                                  case ReadBack => Reading(answer)
  {
    hide Reached, NoReuse, Replays, Answers, Decide;
    y := Next(x, Hear(i, answer));
    ReachedHasNoReuse(u, steps, x);
    SameVersions(x, y);
    Move(u, steps, x, Hear(i, answer));
    more := steps + [Hear(i, answer)];
  }

  /** The client reads the object back. */
  lemma Looked(u: World, steps: seq<Step>, x: World, i: nat)
    returns (more: seq<Step>, y: World)
    requires Reached(u, steps, x) && i < |x.clients| && x.clients[i].phase.Reading?
    ensures Reached(u, more, y) && y.sends == x.sends && y.cell == x.cell && y.driver == x.driver
    ensures |y.clients| == |x.clients| && y.clients[i].job == x.clients[i].job
    ensures y.clients[i].phase == Done(Settle(x.driver, x.clients[i].job, x.clients[i].phase.answer, x.cell))
  {
    hide Reached, NoReuse, Settle;
    y := Next(x, Look(i));
    ReachedHasNoReuse(u, steps, x);
    SameVersions(x, y);
    Move(u, steps, x, Look(i));
    more := steps + [Look(i)];
  }

  // ---------- rows ----------

  predicate IsRow(job: Job) {
    job.RowWrite? || job.RowDelete?
  }

  /**
   * A request of the row's call lands, if none has yet: a copy is sent while the version stands, or the name is
   * emptied.
   */
  lemma RowLands(u: World, i: nat, driver: Driver, job: Job) returns (steps: seq<Step>, x: World)
    requires NoReuse(u) && Awaits(u, i, driver, job) && IsRow(job) && (LandedBy(u, i) || Stands(u, job))
    ensures Reached(u, steps, x) && Awaits(x, i, driver, job) && LandedBy(x, i)
  {
    hide Allowed, After, NoReuse, LandedBy, Replays;
    steps, x := [], u;
    NoSteps(u);
    if !LandedBy(u, i) {
      if ConditionOf(job).None? {
        steps, x := Emptied(u, steps, x);
      }
      steps, x := Copies(u, steps, x, i, driver, job);
      steps, x := Landed(u, steps, x, i, x.clients[i].phase.current, driver, job);
    }
  }

  /** After it, another copy finds no row, or its own, and the client is told of a conflict. */
  lemma RowEndsInDoubt(u: World, i: nat, driver: Driver, job: Job) returns (later: seq<Step>)
    requires NoReuse(u) && Awaits(u, i, driver, job) && IsRow(job) && (LandedBy(u, i) || Stands(u, job))
    ensures EndsInDoubt(u, later, i)
  {
    hide Allowed, After, NoReuse, LandedBy, Stands;
    var steps, x := RowLands(u, i, driver, job);
    if NeedsObject(job) {
      ghost var landed := x;
      steps, x := Emptied(u, steps, x);
      SameSendsSameLandings(landed, x, i);
      steps, x := Copies(u, steps, x, i, driver, job);
      steps, x := Refuses(u, steps, x, i, driver, job);
      var y;
      later, y := Heard(u, steps, x, i, driver, job, NotFound);
      SameSendsSameLandings(x, y, i);
    } else {
      later := CreateEndsInDoubt(u, steps, x, i, driver, job);
    }
  }

  lemma SameSendsSameLandings(x: World, y: World, i: nat)
    requires y.sends == x.sends
    ensures LandedBy(y, i) == LandedBy(x, i)
  {
  }

  /** A create whose copy finds the row, which is gone when it is read back. */
  lemma CreateEndsInDoubt(u: World, before: seq<Step>, w: World, i: nat, driver: Driver, job: Job)
    returns (later: seq<Step>)
    requires Reached(u, before, w) && Awaits(w, i, driver, job) && IsRow(job) && !NeedsObject(job) && LandedBy(w, i)
    ensures EndsInDoubt(u, later, i)
  {
    hide Allowed, After, NoReuse, LandedBy;
    var steps, x := Copies(u, before, w, i, driver, job);
    if x.cell.None? {
      steps, x := Landed(u, steps, x, i, x.clients[i].phase.current, driver, job);
      steps, x := Copies(u, steps, x, i, driver, job);
    }
    steps, x := Refuses(u, steps, x, i, driver, job);
    var heard, emptied, looked;
    steps, heard := Heard(u, steps, x, i, driver, job, Precondition);
    SameSendsSameLandings(x, heard, i);
    steps, emptied := Emptied(u, steps, heard);
    SameSendsSameLandings(heard, emptied, i);
    later, looked := Looked(u, steps, emptied, i);
    SameSendsSameLandings(emptied, looked, i);
  }

  /** A call that waits has sent, and the version it is conditioned on stands, or is gone. */
  lemma WaiterStandsOrIsGone(w: World, i: nat)
    requires Inv(w) && Versioned(w) && i < |w.clients| && w.clients[i].phase.Waiting? && !Stands(w, w.clients[i].job)
    ensures Retired(w, ConditionOf(w.clients[i].job).value)
  {
    assert PhaseFits(w, i);
    assert SendKnows(w, w.clients[i].phase.current);
  }

  lemma LandedOnce(u: World, v: World, i: nat)
    requires !LandedBy(u, i) && !LandsFrom(u, v, i) && SendsKept(u, v)
    ensures !LandedBy(v, i)
  {
  }

  /** What a run leaves after which no request of the client can land any more: none does. */
  lemma NoneLands(w: World, steps: seq<Step>, later: seq<Step>, i: nat)
    requires Start(w) && Allowed(w, steps) && Allowed(After(w, steps), later) && NoReuse(After(After(w, steps), later))
    requires var u := After(w, steps);
             && i < |u.clients| && u.clients[i].phase.Waiting? && !LandedBy(u, i) && !Stands(u, u.clients[i].job)
    ensures !LandedBy(After(After(w, steps), later), i)
  {
    hide Start, Allowed, After, Enabled, Next, NoReuse, LandsFrom, LandedBy, Inv, Versioned, Sound, SameJobs, Retired;
    var (u, v) := (After(w, steps), After(After(w, steps), later));
    RunFrame(u, later);
    JobsStay(u, v, i);
    EarlierNoReuse(u, v);
    RunKeepsAll(w, steps);
    RunKeepsInv(u, later);
    WaiterStandsOrIsGone(u, i);
    RetiredLandsNothing(u, v, i);
    RunKeepsSends(u, later);
    LandedOnce(u, v, i);
  }

  /**
   * Exactly when a row write or a row delete that awaits an answer, and that the SDK may copy, can still end in a
   * conflict though a request of it landed: when one has landed already, or the version it is conditioned on, if it
   * is, stands.
   */
  lemma RowDoubtExactly(w: World, steps: seq<Step>, i: nat)
    requires Start(w) && Allowed(w, steps) && NoReuse(After(w, steps))
    requires var u := After(w, steps);
             i < |u.clients| && Awaits(u, i, u.driver, u.clients[i].job) && IsRow(u.clients[i].job)
    ensures var u := After(w, steps);
            LandedBy(u, i) || Stands(u, u.clients[i].job) <==> exists later :: EndsInDoubt(u, later, i)
  {
    hide Start, Allowed, After, NoReuse, LandedBy, Stands, Replays;
    var u := After(w, steps);
    if LandedBy(u, i) || Stands(u, u.clients[i].job) {
      var later := RowEndsInDoubt(u, i, u.driver, u.clients[i].job);
    } else {
      forall later | EndsInDoubt(u, later, i)
        ensures false
      {
        NoneLands(w, steps, later, i);
      }
    }
  }

  // ---------- conditional deletes ----------

  /** The call is not over, a request of it landed, and another object is there. */
  predicate MeetsAnother(x: World, i: nat) {
    && i < |x.clients| && (x.clients[i].phase.Waiting? || x.clients[i].phase.Reading?)
    && LandedBy(x, i) && x.cell.Some?
  }

  predicate ComesToMeet(u: World, later: seq<Step>, i: nat) {
    Allowed(u, later) && NoReuse(After(u, later)) && MeetsAnother(After(u, later), i)
  }

  predicate IsConditionalDelete(job: Job) {
    job.Erase? && job.conditional
  }

  /** A version a landed request was conditioned on does not stand. */
  lemma LandedIsGone(w: World, i: nat)
    requires Inv(w) && Versioned(w) && i < |w.clients| && LandedBy(w, i)
    ensures ConditionOf(w.clients[i].job).Some? ==> !HasVersion(w.cell, ConditionOf(w.clients[i].job).value)
  {
    var k :| 0 <= k < |w.sends| && w.sends[k].client == i && w.sends[k].fate.Landed?;
    assert SendKnows(w, k);
  }

  /**
   * A delete that meets another object ends in a conflict: a copy of it is refused, and the object read back is
   * there.
   */
  lemma DeleteEndsInDoubt(u: World, steps: seq<Step>, x: World, i: nat, driver: Driver, job: Job)
    returns (later: seq<Step>)
    requires Reached(u, steps, x) && MeetsAnother(x, i)
    requires IsConditionalDelete(job) && !HasVersion(x.cell, job.ifVersion)
    requires x.driver == driver && x.clients[i].job == job
    requires x.clients[i].phase.Waiting? ==> Awaits(x, i, driver, job)
    ensures EndsInDoubt(u, later, i)
  {
    hide Allowed, After, NoReuse, LandedBy;
    var (before, y) := (steps, x);
    if x.clients[i].phase.Waiting? {
      before, y := Copies(u, before, y, i, driver, job);
      before, y := Refuses(u, before, y, i, driver, job);
      ghost var refused := y;
      before, y := Heard(u, before, y, i, driver, job, Precondition);
      SameSendsSameLandings(refused, y, i);
    }
    var z;
    later, z := Looked(u, before, y, i);
    SameSendsSameLandings(y, z, i);
  }

  /** S3 rejects a request that races another without evaluating it: the conflict is told, and then the other lands. */
  lemma RacedDeleteEndsInDoubt(u: World, i: nat, driver: Driver, job: Job) returns (later: seq<Step>)
    requires NoReuse(u) && Awaits(u, i, driver, job) && driver.S3? && IsConditionalDelete(job) && Stands(u, job)
    ensures EndsInDoubt(u, later, i)
  {
    hide Allowed, After, NoReuse, LandedBy;
    var steps, x := [], u;
    NoSteps(u);
    steps, x := Copies(u, steps, x, i, driver, job);
    var k := x.clients[i].phase.current;
    steps, x := Copies(u, steps, x, i, driver, job);
    assert x.sends[k] == Send(i, InFlight);
    ghost var copied := x;
    steps, x := Races(u, steps, x, i, driver, job);
    assert x.sends[k] == Send(i, InFlight);
    steps, x := Heard(u, steps, x, i, driver, job, Race);
    steps, x := Looked(u, steps, x, i);
    later, x := Landed(u, steps, x, i, k, driver, job);
  }

  /** The request awaited is rejected for racing another. */
  lemma Races(u: World, steps: seq<Step>, x: World, i: nat, driver: Driver, job: Job)
    returns (more: seq<Step>, y: World)
    requires Reached(u, steps, x) && Awaits(x, i, driver, job) && Awaited(x, i, InFlight)
    requires driver.S3? && IsConditionalDelete(job)
    ensures Reached(u, more, y) && Awaits(y, i, driver, job) && Awaited(y, i, Raced) && y.cell == x.cell
    ensures y.sends == x.sends[x.clients[i].phase.current := Send(i, Raced)]
  {
    hide Reached, NoReuse, Replays;
    var k := x.clients[i].phase.current;
    y := Next(x, Reject(k));
    ReachedHasNoReuse(u, steps, x);
    SameVersions(x, y);
    Move(u, steps, x, Reject(k));
    more := steps + [Reject(k)];
  }

  /** A delete's conflict is told on reading back an object that is there. */
  lemma DeletesEndByLooking(w: World, step: Step, i: nat)
    requires Enabled(w, step) && i < |w.clients| && w.clients[i].job.Erase? && !w.clients[i].phase.Done?
    requires i < |Next(w, step).clients| && EndedInConflict(Next(w, step).clients[i])
    ensures w.clients[i].phase.Reading? && w.cell.Some?
  {
    Frame(w, step);
    hide Answers, MayBegin, Holds, NeedsObject, Outgrowth, CanApply, CanLose, NameOf, BlockIds.IsNonce, Replays,
      WasThere, IsConditional, HasParts;
  }

  /** Where a delete that waited ended in a conflict, the world just before it was told. */
  lemma {:induction false} BeforeTheEnd(w: World, steps: seq<Step>, i: nat)
    returns (before: seq<Step>, after: seq<Step>)
    requires Allowed(w, steps) && i < |w.clients| && w.clients[i].job.Erase? && !w.clients[i].phase.Done?
    requires i < |After(w, steps).clients| && EndedInConflict(After(w, steps).clients[i])
    ensures steps == before + after && Allowed(w, before)
    ensures i < |After(w, before).clients| && After(w, before).clients[i].phase.Reading? && After(w, before).cell.Some?
    decreases |steps|
  {
    hide Enabled, Next;
    if steps != [] {
      var v := Next(w, steps[0]);
      Frame(w, steps[0]);
      if v.clients[i].phase.Done? {
        DoneStays(v, steps[1..], i);
        DeletesEndByLooking(w, steps[0], i);
        before, after := [], steps;
        NoSteps(w);
      } else {
        before, after := BeforeTheEnd(v, steps[1..], i);
        before := [steps[0]] + before;
        assert before[1..] == after[..0] + before[1..];
        assert steps == [steps[0]] + steps[1..];
      }
    }
  }

  lemma WaiterAwaits(w: World, i: nat)
    requires Inv(w) && i < |w.clients| && w.clients[i].phase.Waiting? && IsConditionalDelete(w.clients[i].job)
    ensures Awaits(w, i, w.driver, w.clients[i].job)
  {
    assert PhaseFits(w, i);
  }

  lemma MeetingEndsInDoubt(w: World, steps: seq<Step>, met: seq<Step>, i: nat) returns (later: seq<Step>)
    requires Start(w) && Allowed(w, steps) && ComesToMeet(After(w, steps), met, i)
    requires IsConditionalDelete(After(After(w, steps), met).clients[i].job)
    ensures EndsInDoubt(After(w, steps), later, i)
  {
    hide Start, Allowed, After, NoReuse, LandedBy, Inv, Versioned, Sound, Awaits, SameJobs;
    var u := After(w, steps);
    var x := After(u, met);
    Continues(w, steps, met);
    RunKeepsAll(w, steps + met);
    LandedIsGone(x, i);
    if x.clients[i].phase.Waiting? {
      WaiterAwaits(x, i);
    }
    later := DeleteEndsInDoubt(u, met, x, i, x.driver, x.clients[i].job);
  }

  /** A delete being read back knows its version gone, but where S3 answered a race. */
  lemma ReaderKnows(x: World, i: nat)
    requires Versioned(x) && i < |x.clients| && x.clients[i].phase.Reading? && IsConditionalDelete(x.clients[i].job)
    ensures !Stands(x, x.clients[i].job) ==> Retired(x, x.clients[i].job.ifVersion)
    ensures Stands(x, x.clients[i].job) ==> x.driver.S3?
  {
    assert ClientKnows(x, i);
  }

  lemma LandsAfter(x: World, v: World, i: nat)
    requires LandedBy(v, i) && !LandedBy(x, i) && SendsKept(x, v)
    ensures LandsFrom(x, v, i)
  {
    var k :| 0 <= k < |v.sends| && v.sends[k].client == i && v.sends[k].fate.Landed?;
    assert !(k < |x.sends| && x.sends[k].fate.Landed?);
  }

  /** On its way to an end in doubt a delete meets another object, or its version stands and S3 rejects a race. */
  lemma DoubtMeetsAnother(w: World, steps: seq<Step>, later: seq<Step>, i: nat) returns (met: seq<Step>)
    requires Start(w) && Allowed(w, steps) && EndsInDoubt(After(w, steps), later, i)
    requires var u := After(w, steps);
             i < |u.clients| && u.clients[i].phase.Waiting? && IsConditionalDelete(u.clients[i].job)
    ensures met <= later
    ensures var u := After(w, steps);
            ComesToMeet(u, met, i) || (u.driver.S3? && Stands(u, u.clients[i].job))
  {
    hide Start, Allowed, After, Enabled, Next, NoReuse, LandedBy, Inv, Versioned, Sound, SameJobs, Retired, Stands,
      LandsFrom;
    var u := After(w, steps);
    var v := After(u, later);
    var after;
    met, after := BeforeTheEnd(u, later, i);
    RunsCompose(u, met, after);
    var x := After(u, met);
    assert v == After(x, after);
    RunFrame(u, met);
    JobsStay(u, x, i);
    RunFrame(x, after);
    JobsStay(x, v, i);
    EarlierNoReuse(x, v);
    EarlierNoReuse(u, x);
    Continues(w, steps, met);
    RunKeepsAll(w, steps);
    RunKeepsAll(w, steps + met);
    if !LandedBy(x, i) {
      RunKeepsSends(x, after);
      LandsAfter(x, v, i);
      RunKeepsInv(x, after);
      ReaderKnows(x, i);
      if !Stands(x, x.clients[i].job) {
        RetiredLandsNothing(x, v, i);
      } else if !Stands(u, u.clients[i].job) {
        WaiterStandsOrIsGone(u, i);
        InvIsChained(u);
        InvIsChained(x);
        RetiredForever(u, x, u.clients[i].job.ifVersion);
        GoneDoesNotStand(x, x.clients[i].job);
      }
      SameDriver(u, x);
    }
  }

  lemma GoneDoesNotStand(x: World, job: Job)
    requires ConditionOf(job).Some? && Retired(x, ConditionOf(job).value)
    ensures !Stands(x, job)
  {
  }

  lemma SameDriver(u: World, x: World)
    requires SameJobs(u, x)
    ensures x.driver == u.driver
  {
  }

  /**
   * A conditional delete that waits may be told of a conflict though it deletes: on S3, whose rejection of a race
   * evaluates nothing, while its version stands; on all three, when it has deleted and another object is there, or when
   * it has deleted or still may, and another client may put an object there.
   */
  predicate MayEndInDoubt(u: World, i: nat)
    requires i < |u.clients|
  {
    var stands := Stands(u, u.clients[i].job);
    || (u.driver.S3? && stands)
    || (LandedBy(u, i) && u.cell.Some?)
    || ((LandedBy(u, i) || stands) && exists j :: 0 <= j < |u.clients| && MayFill(u, j))
  }

  /** Exactly when a conditional delete that awaits an answer can still end in a conflict though it deleted. */
  lemma DeleteDoubtExactly(w: World, steps: seq<Step>, i: nat)
    requires Start(w) && Allowed(w, steps) && NoReuse(After(w, steps))
    requires var u := After(w, steps);
             i < |u.clients| && u.clients[i].phase.Waiting? && IsConditionalDelete(u.clients[i].job)
    ensures var u := After(w, steps);
            MayEndInDoubt(u, i) <==> exists later :: EndsInDoubt(u, later, i)
  {
    hide Start, Allowed, After, NoReuse, MayEndInDoubt, EndsInDoubt, Inv, Stands;
    var u := After(w, steps);
    StartHasInv(w);
    RunKeepsInv(w, steps);
    WaiterAwaits(u, i);
    if MayEndInDoubt(u, i) {
      if u.driver.S3? && Stands(u, u.clients[i].job) {
        var later := RacedDeleteEndsInDoubt(u, i, u.driver, u.clients[i].job);
      } else {
        var met := MeetsLater(u, i);
        MetJob(u, met, i);
        var later := MeetingEndsInDoubt(w, steps, met, i);
      }
    } else {
      forall later | EndsInDoubt(u, later, i)
        ensures false
      {
        var met := DoubtMeetsAnother(w, steps, later, i);
        MeetingNeedsCause(w, steps, met, i);
      }
    }
  }

  /** The delete deletes, if it has not, and another client puts an object there. */
  lemma MeetsLater(u: World, i: nat) returns (met: seq<Step>)
    requires Inv(u) && NoReuse(u) && i < |u.clients| && IsConditionalDelete(u.clients[i].job)
    requires Awaits(u, i, u.driver, u.clients[i].job) && MayEndInDoubt(u, i)
    requires !(u.driver.S3? && Stands(u, u.clients[i].job))
    ensures ComesToMeet(u, met, i)
  {
    hide Allowed, After, NoReuse, LandedBy, MayFill, Inv;
    NoSteps(u);
    met := [];
    if !(LandedBy(u, i) && u.cell.Some?) {
      var j: nat :| j < |u.clients| && MayFill(u, j);
      FillerIsAnother(u, i, j);
      var x;
      met, x := Deletes(u, i, j);
      RunKeepsInv(u, met);
      ghost var emptied := x;
      met, x := Filled(u, met, x, j);
      AsideKeepsLandings(emptied, x, i, j);
    }
  }

  lemma FillerIsAnother(u: World, i: nat, j: nat)
    requires MayFill(u, j) && i < |u.clients| && u.clients[i].job.Erase?
    ensures i != j
  {
  }

  lemma AsideKeepsLandings(x: World, y: World, i: nat, j: nat)
    requires Aside(x, y, j) && i != j && i < |x.clients|
    ensures y.clients[i] == x.clients[i] && (LandedBy(x, i) ==> LandedBy(y, i))
  {
    if LandedBy(x, i) {
      var k :| 0 <= k < |x.sends| && x.sends[k].client == i && x.sends[k].fate.Landed?;
      assert y.sends[k] == x.sends[k];
    }
  }

  lemma Deletes(u: World, i: nat, j: nat) returns (steps: seq<Step>, x: World)
    requires NoReuse(u) && i < |u.clients| && IsConditionalDelete(u.clients[i].job) && i != j && MayFill(u, j)
    requires Awaits(u, i, u.driver, u.clients[i].job) && !(LandedBy(u, i) && u.cell.Some?)
    requires LandedBy(u, i) || Stands(u, u.clients[i].job)
    ensures Reached(u, steps, x) && x.cell.None? && LandedBy(x, i) && MayFill(x, j)
    ensures i < |x.clients| && x.clients[i].phase.Waiting?
  {
    hide Allowed, After, NoReuse, LandedBy, MayFill, Replays;
    steps, x := [], u;
    NoSteps(u);
    if !LandedBy(u, i) {
      var (driver, job) := (u.driver, u.clients[i].job);
      steps, x := Copies(u, steps, x, i, driver, job);
      steps, x := Landed(u, steps, x, i, x.clients[i].phase.current, driver, job);
    }
  }

  /** A delete that lands leaves the name empty; from then on it stays so where none may fill it. */
  lemma StepStaysAlone(w: World, step: Step, i: nat)
    requires Inv(w) && Enabled(w, step) && NoneMayFill(w) && i < |w.clients| && w.clients[i].job.Erase?
    requires LandedBy(w, i) ==> w.cell.None?
    ensures NoneMayFill(Next(w, step)) && (LandedBy(Next(w, step), i) ==> Next(w, step).cell.None?)
  {
    NoneComesToFill(w, step);
    if LandedBy(w, i) {
      StepStaysEmpty(w, step);
    } else if LandedBy(Next(w, step), i) {
      LandedIsEmpty(w, step, i);
    }
    hide Inv, Enabled, Next, NoneMayFill, LandedBy;
  }

  lemma LandedIsEmpty(w: World, step: Step, i: nat)
    requires Enabled(w, step) && i < |w.clients| && w.clients[i].job.Erase?
    requires !LandedBy(w, i) && LandedBy(Next(w, step), i)
    ensures Next(w, step).cell.None?
  {
    var v := Next(w, step);
    Frame(w, step);
    var k :| 0 <= k < |v.sends| && v.sends[k].client == i && v.sends[k].fate.Landed?;
    assert k < |w.sends| && w.sends[k].client == i && !w.sends[k].fate.Landed?;
    if step.Apply? {
      OtherFates(w, step.k, step.version, k);
    }
    hide Enabled, Next, SendsFrame, ClientsFrame;
  }

  lemma OtherFates(w: World, k: nat, version: nat, m: nat)
    requires k < |w.sends| && CanApply(w, w.sends[k].client) && m < |w.sends|
    ensures var v := Applied(w, k, version);
            && (m != k ==> v.sends[m] == w.sends[m])
            && (v.sends[k].fate.Landed? && w.clients[w.sends[k].client].job.Erase? ==> v.cell.None?)
  {
    hide Payload, Holds, NameOf, BlockIds.IsNonce;
  }

  lemma {:induction false} StaysAlone(w: World, steps: seq<Step>, i: nat)
    requires Inv(w) && Allowed(w, steps) && NoneMayFill(w) && i < |w.clients| && w.clients[i].job.Erase?
    requires LandedBy(w, i) ==> w.cell.None?
    ensures LandedBy(After(w, steps), i) ==> After(w, steps).cell.None?
    decreases |steps|
  {
    hide Inv, Enabled, Next, NoneMayFill, LandedBy;
    if steps != [] {
      Frame(w, steps[0]);
      StepStaysAlone(w, steps[0], i);
      StepKeepsInv(w, steps[0]);
      StaysAlone(Next(w, steps[0]), steps[1..], i);
    }
  }

  /** A delete that comes to meet another object had deleted or still might, and another client might fill the name. */
  lemma MeetingNeedsCause(w: World, steps: seq<Step>, met: seq<Step>, i: nat)
    requires Start(w) && Allowed(w, steps)
    requires var u := After(w, steps);
             i < |u.clients| && u.clients[i].phase.Waiting? && IsConditionalDelete(u.clients[i].job)
             && (ComesToMeet(u, met, i) || (u.driver.S3? && Stands(u, u.clients[i].job)))
    ensures MayEndInDoubt(After(w, steps), i)
  {
    hide Start, Allowed, After, NoReuse, Inv, Stands, MayFill, LandedBy;
    var u := After(w, steps);
    StartHasInv(w);
    RunKeepsInv(w, steps);
    if !(u.driver.S3? && Stands(u, u.clients[i].job)) {
      if !LandedBy(u, i) && !Stands(u, u.clients[i].job) {
        NoneLands(w, steps, met, i);
      } else if NoneMayFill(u) && !(LandedBy(u, i) && u.cell.Some?) {
        StaysAlone(u, met, i);
      }
    }
  }

  lemma MetJob(u: World, met: seq<Step>, i: nat)
    requires ComesToMeet(u, met, i) && i < |u.clients|
    ensures Allowed(u, met) && i < |After(u, met).clients| && After(u, met).clients[i].job == u.clients[i].job
  {
    hide Allowed, After, NoReuse, LandedBy;
    RunFrame(u, met);
  }

  // ---------- a second landing of a create ----------

  lemma CreationsFill(w: World, event: Event)
    requires EventFits(w, event) && event.send.Some? && Creates(JobOf(w, event.send.value))
    ensures event.before.None? && event.after.Some?
  {
  }

  lemma {:induction false} EmptiedBetween(w: World, e: nat, f: nat) returns (g: nat)
    requires Chained(w) && e < f < |w.log| && w.log[e].after.Some? && w.log[f].before.None?
    ensures e < g < f && w.log[g].before.Some? && w.log[g].after.None?
    decreases f - e
  {
    assert CellAt(w, e + 1) == w.log[e].after && w.log[f].before == CellAt(w, f);
    assert w.log[e + 1].before == CellAt(w, e + 1);
    if w.log[e + 1].after.None? {
      g := e + 1;
    } else {
      g := EmptiedBetween(w, e + 1, f);
    }
  }

  /**
   * A create lands a second time only where both are so: it was sent more than once, and between the two the name was
   * emptied. So one that is sent once, or whose object nothing removes, lands once at most.
   */
  lemma SecondLandingNeedsBoth(w: World, steps: seq<Step>, e: nat, f: nat) returns (g: nat)
    requires Start(w) && Allowed(w, steps)
    requires var v := After(w, steps);
             && e < f < |v.log| && v.log[e].send.Some? && v.log[f].send.Some?
             && v.log[e].send.value < |v.sends| && v.log[f].send.value < |v.sends|
             && v.sends[v.log[e].send.value].client == v.sends[v.log[f].send.value].client < |v.clients|
             && Creates(v.clients[v.sends[v.log[e].send.value].client].job)
    ensures var v := After(w, steps);
            && !OneSend(v, v.sends[v.log[e].send.value].client)
            && e < g < f && v.log[g].before.Some? && v.log[g].after.None?
  {
    hide Start, Allowed, After;
    StartHasInv(w);
    RunKeepsInv(w, steps);
    var v := After(w, steps);
    EventIsOfALanding(v, e);
    EventIsOfALanding(v, f);
    CreationsFill(v, v.log[e]);
    CreationsFill(v, v.log[f]);
    InvIsChained(v);
    SendsDiffer(v, e, f);
    TwoSends(v, v.log[e].send.value, v.log[f].send.value);
    hide Inv;
    g := EmptiedBetween(v, e, f);
  }

  lemma SendsDiffer(w: World, e: nat, f: nat)
    requires Inv(w) && e < f < |w.log| && w.log[e].send.Some? && w.log[f].send.Some?
    ensures w.log[e].send.value != w.log[f].send.value
  {
    assert w.log[e].send != w.log[f].send;
  }

  lemma TwoSends(w: World, k: nat, m: nat)
    requires k < |w.sends| && m < |w.sends| && k != m && w.sends[k].client == w.sends[m].client
    ensures !OneSend(w, w.sends[k].client)
  {
    if k < m {
      assert w.sends[k].client == w.sends[m].client;
    } else {
      assert w.sends[m].client == w.sends[k].client;
    }
  }

  /** And where the SDK may copy it, it can: two copies land, the name being emptied between. */
  lemma CreateCanLandTwice(u: World, i: nat, driver: Driver, job: Job)
    returns (later: seq<Step>, k: nat, m: nat)
    requires NoReuse(u) && Awaits(u, i, driver, job) && job.RowWrite? && job.expected.Absent?
    ensures Allowed(u, later) && k != m && k < |After(u, later).sends| && m < |After(u, later).sends|
    ensures After(u, later).sends[k] == After(u, later).sends[m] == Send(i, Fate.Landed)
  {
    hide Allowed, After, NoReuse, LandedBy, Replays;
    var steps, x := [], u;
    NoSteps(u);
    steps, x := Emptied(u, steps, x);
    steps, x := Copies(u, steps, x, i, driver, job);
    k := x.clients[i].phase.current;
    steps, x := Landed(u, steps, x, i, k, driver, job);
    steps, x := Emptied(u, steps, x);
    steps, x := Copies(u, steps, x, i, driver, job);
    m := x.clients[i].phase.current;
    later, x := Landed(u, steps, x, i, m, driver, job);
  }
}
