/**
 * What a call is told, from what became of its request. An answer that is neither lost nor a throttle is honest; what
 * each driver makes of it is stated outright, for every call in every run, and what it makes of an object read back.
 */
module Verdicts {

  import opened Bytes
  import opened Service
  import opened History
  import opened Landings
  import opened Assembly
  import opened Swaps
  import opened Late
  import opened Fills
  import BlockIds

  // ---------- what can become of a request ----------

  /** S3 alone rejects races, only commits of parts miss any, and what needs no object and no version is not refused. */
  predicate FateFits(driver: Driver, job: Job, fate: Fate) {
    match fate
    case Raced => driver.S3? && (job.Erase? ==> job.conditional)
    case Unknown => job.Put? && job.staged && !driver.Gcs?
    case Missing => !job.Put? && !(job.RowWrite? && job.expected.Absent?)
    case Refused => job.Erase? ==> job.conditional
    case _ => true
  }

  predicate Fated(w: World) {
    forall k :: 0 <= k < |w.sends| && w.sends[k].client < |w.clients| ==>
      FateFits(w.driver, JobOf(w, k), w.sends[k].fate)
  }

  lemma AppliedFits(w: World, k: nat, version: nat)
    requires k < |w.sends| && w.sends[k].fate.InFlight? && CanApply(w, w.sends[k].client)
    ensures FateFits(w.driver, JobOf(w, k), Applied(w, k, version).sends[k].fate)
    ensures forall m :: 0 <= m < |w.sends| && m != k ==> Applied(w, k, version).sends[m] == w.sends[m]
  {
    hide Outgrowth, NameOf, BlockIds.IsNonce;
  }

  lemma StepKeepsFated(w: World, step: Step)
    requires Fated(w) && Enabled(w, step)
    ensures Fated(Next(w, step))
  {
    var v := Next(w, step);
    Frame(w, step);
    if step.Apply? {
      AppliedFits(w, step.k, step.version);
    }
    hide Answers, Decide, Settle, MayBegin, Holds, NeedsObject, Outgrowth, NameOf, BlockIds.IsNonce, Replays,
      HasParts, SendsFrame, MayGiveUp, Applied;
    forall k | 0 <= k < |v.sends| && v.sends[k].client < |v.clients|
      ensures FateFits(v.driver, JobOf(v, k), v.sends[k].fate)
    {
      assert k < |w.sends| ==> FateFits(w.driver, JobOf(w, k), w.sends[k].fate);
    }
  }

  lemma {:induction false} RunKeepsFated(w: World, steps: seq<Step>)
    requires Fated(w) && Allowed(w, steps)
    ensures Fated(After(w, steps))
    decreases |steps|
  {
    hide Fated, Enabled, Next;
    if steps != [] {
      StepKeepsFated(w, steps[0]);
      RunKeepsFated(Next(w, steps[0]), steps[1..]);
    }
  }

  // ---------- what a client is told ----------

  predicate Honest(answer: Answer) {
    !answer.Lost? && !answer.Throttled?
  }

  /** The request whose answer the client awaits. */
  function FateOf(w: World, i: nat): Fate
    requires i < |w.clients| && w.clients[i].phase.Waiting? && w.clients[i].phase.current < |w.sends|
  {
    w.sends[w.clients[i].phase.current].fate
  }

  /** The client waits in a world of some run. */
  ghost predicate Waits(w: World, steps: seq<Step>, i: nat) {
    && Start(w) && Allowed(w, steps) && i < |After(w, steps).clients| && After(w, steps).clients[i].phase.Waiting?
    && After(w, steps).clients[i].phase.current < |After(w, steps).sends|
  }

  lemma WaiterFits(w: World, steps: seq<Step>, i: nat)
    requires Waits(w, steps, i)
    ensures var u := After(w, steps);
            PhaseFits(u, i) && FateFits(u.driver, u.clients[i].job, FateOf(u, i))
  {
    hide Inv, Enabled, Next, Allowed, After;
    StartHasInv(w);
    RunKeepsInv(w, steps);
    NothingFated(w);
    RunKeepsFated(w, steps);
    PhaseOf(After(w, steps), i);
  }

  lemma NothingFated(w: World)
    requires Start(w)
    ensures Fated(w)
  {
  }

  /** Whatever was decided of a request, its honest answer may be heard. */
  lemma MayBeHeard(w: World, i: nat)
    requires i < |w.clients| && w.clients[i].phase.Waiting? && w.clients[i].phase.current < |w.sends|
    ensures var fate := FateOf(w, i);
            && (fate.Landed? ==> Enabled(w, Hear(i, Ok)))
            && (fate.Refused? ==> Enabled(w, Hear(i, Precondition)))
            && (fate.Raced? ==> Enabled(w, Hear(i, Race)))
            && (fate.Missing? ==> Enabled(w, Hear(i, NotFound)) && Enabled(w, Hear(i, Precondition)))
            && (fate.Unknown? && w.driver.S3? ==> Enabled(w, Hear(i, NoSuchUpload)))
    ensures Enabled(w, Hear(i, Lost)) && Enabled(w, Hear(i, Throttled))
  {
  }

  /** A put whose request the SDK may have copied: Azure's, and the end of GCS's stream. */
  predicate MayHaveCopies(driver: Driver, job: Job)
    requires job.Put?
  {
    driver.Azure? || (driver.Gcs? && job.staged)
  }

  /**
   * A put: what landed is returned; what was sent once, and refused or rejected for a race, is a conflict at once; and
   * what may be the put's own earlier request is read back. That goes for an upload S3 no longer knows, too.
   */
  lemma PutIsTold(w: World, steps: seq<Step>, i: nat, answer: Answer)
    requires Waits(w, steps, i) && After(w, steps).clients[i].job.Put?
    requires Enabled(After(w, steps), Hear(i, answer)) && Honest(answer)
    ensures var u := After(w, steps);
            var (job, resent, fate) := (u.clients[i].job, u.clients[i].phase.resent, FateOf(u, i));
            && (fate.Landed? || fate.Refused? || fate.Raced? || (fate.Unknown? && u.driver.S3?))
            && Next(u, Hear(i, answer)).clients[i].phase ==
                 if fate.Landed? then Done(Returned)
                 else if resent > 0 || MayHaveCopies(u.driver, job) then Reading(answer)
                 else if fate.Unknown? then Done(Failed)
                 else Done(Conflict)
  {
    WaiterFits(w, steps, i);
    hide Allowed, After, Start, Replays, WellFormedJob;
  }

  /**
   * A put whose answer is lost fails; after a throttle it is sent again up to three times, unless the SDK does that.
   */
  lemma PutFaults(w: World, steps: seq<Step>, i: nat)
    requires Waits(w, steps, i) && After(w, steps).clients[i].job.Put?
    ensures var u := After(w, steps);
            var (job, resent) := (u.clients[i].job, u.clients[i].phase.resent);
            && Enabled(u, Hear(i, Lost)) && Enabled(u, Hear(i, Throttled))
            && Next(u, Hear(i, Lost)).clients[i].phase == Done(Failed)
            && Next(u, Hear(i, Throttled)).clients[i].phase ==
                 if resent < 3 && !MayHaveCopies(u.driver, job) then Backoff(resent) else Done(Failed)
  {
    hide Allowed, After, Start, Replays, WellFormedJob;
  }

  /** The read-back: a put's own object is its success; S3 tells nothing where nothing is stored, but for a refusal. */
  lemma PutIsSettled(w: World, i: nat)
    requires i < |w.clients| && w.clients[i].phase.Reading? && w.clients[i].job.Put?
    ensures Enabled(w, Look(i)) && Enabled(w, LookFails(i)) && Next(w, LookFails(i)).clients[i].phase == Done(Failed)
    ensures var own := w.cell.Some? && w.cell.value.id == Some(w.clients[i].job.writeId);
            var phase := Next(w, Look(i)).clients[i].phase;
            && (phase == Done(Returned) <==> own)
            && (phase == Done(Failed) <==> w.driver.S3? && w.cell.None? && !w.clients[i].phase.answer.Precondition?)
            && (phase == Done(Conflict) || phase == Done(Returned) || phase == Done(Failed))
  {
  }

  /**
   * A registry's write on S3 or GCS: what landed is returned, and what was refused or rejected for a race is a
   * conflict. One that found no row is a conflict exactly when it is answered as a refusal, and not as an absence.
   */
  lemma RowWriteIsTold(w: World, steps: seq<Step>, i: nat, answer: Answer)
    requires Waits(w, steps, i) && After(w, steps).clients[i].job.RowWrite? && !After(w, steps).driver.Azure?
    requires Enabled(After(w, steps), Hear(i, answer)) && Honest(answer)
    ensures var u := After(w, steps);
            var fate := FateOf(u, i);
            && (fate.Landed? || fate.Refused? || fate.Raced? || fate.Missing?)
            && (answer.NotFound? ==> fate.Missing?)
            && Next(u, Hear(i, answer)).clients[i].phase ==
                 if fate.Landed? then Done(Returned) else if answer.NotFound? then Done(Failed) else Done(Conflict)
  {
    WaiterFits(w, steps, i);
    hide Allowed, After, Start, Replays, WellFormedJob, PhaseFits;
  }

  /** On Azure, whose SDK may send copies, no conflict is settled at once, and an absent row is a conflict too. */
  lemma AzureRowWriteIsTold(w: World, steps: seq<Step>, i: nat, answer: Answer)
    requires Waits(w, steps, i) && After(w, steps).clients[i].job.RowWrite? && After(w, steps).driver.Azure?
    requires Enabled(After(w, steps), Hear(i, answer)) && Honest(answer)
    ensures var u := After(w, steps);
            var fate := FateOf(u, i);
            && (fate.Landed? || fate.Refused? || fate.Missing?)
            && Next(u, Hear(i, answer)).clients[i].phase ==
                 if fate.Landed? then Done(Returned)
                 else if answer.NotFound? then Done(Unsettled)
                 else Reading(Precondition)
  {
    WaiterFits(w, steps, i);
    hide Allowed, After, Start, Replays, WellFormedJob, PhaseFits;
  }

  /** The read-back of Azure's row: the write's own is its success, and anything else an unsettled conflict. */
  lemma RowWriteIsSettled(w: World, i: nat)
    requires i < |w.clients| && w.clients[i].phase.Reading? && w.clients[i].job.RowWrite?
    ensures Enabled(w, Look(i)) && Enabled(w, LookFails(i)) && Next(w, LookFails(i)).clients[i].phase == Done(Failed)
    ensures var own := w.cell.Some? && w.cell.value.id == Some(w.clients[i].job.rowId);
            Next(w, Look(i)).clients[i].phase == if own then Done(Returned) else Done(Unsettled)
  {
  }

  /** A registry's delete, on every driver: whatever kept it from deleting is a conflict, but for a success. */
  lemma RowDeleteIsTold(w: World, steps: seq<Step>, i: nat, answer: Answer)
    requires Waits(w, steps, i) && After(w, steps).clients[i].job.RowDelete?
    requires Enabled(After(w, steps), Hear(i, answer)) && Honest(answer)
    ensures var u := After(w, steps);
            var fate := FateOf(u, i);
            && (fate.Landed? || fate.Refused? || fate.Raced? || fate.Missing?)
            && (answer.Ok? ==> fate.Landed? || fate.Missing?) && (fate.Landed? ==> answer.Ok?)
            && Next(u, Hear(i, answer)).clients[i].phase == if answer.Ok? then Done(Returned) else Done(Conflict)
  {
    WaiterFits(w, steps, i);
    hide Allowed, After, Start, Replays, WellFormedJob, PhaseFits;
  }

  /** A conditional delete: an object that is gone is a success however that is told, and any refusal is read back. */
  lemma EraseIsTold(w: World, steps: seq<Step>, i: nat, answer: Answer)
    requires Waits(w, steps, i) && After(w, steps).clients[i].job.Erase? && After(w, steps).clients[i].job.conditional
    requires Enabled(After(w, steps), Hear(i, answer)) && Honest(answer)
    ensures var u := After(w, steps);
            var fate := FateOf(u, i);
            && (fate.Landed? || fate.Refused? || fate.Raced? || fate.Missing?)
            && (answer.Ok? || answer.NotFound? ==> fate.Landed? || fate.Missing?) && (fate.Landed? ==> answer.Ok?)
            && Next(u, Hear(i, answer)).clients[i].phase ==
                 if answer.Ok? || answer.NotFound? then Done(Returned) else Reading(answer)
  {
    WaiterFits(w, steps, i);
    hide Allowed, After, Start, Replays, WellFormedJob, PhaseFits;
  }

  /** The read-back of a conditional delete: it is a conflict exactly while an object is there. */
  lemma EraseIsSettled(w: World, i: nat)
    requires i < |w.clients| && w.clients[i].phase.Reading? && w.clients[i].job.Erase?
    ensures Enabled(w, Look(i)) && Enabled(w, LookFails(i)) && Next(w, LookFails(i)).clients[i].phase == Done(Failed)
    ensures Next(w, Look(i)).clients[i].phase == if w.cell.None? then Done(Returned) else Done(Conflict)
  {
  }

  /**
   * A delete without its condition deletes, or finds nothing; an absence is a success, but on S3, which tells of
   * none.
   */
  lemma PlainEraseIsTold(w: World, steps: seq<Step>, i: nat, answer: Answer)
    requires Waits(w, steps, i) && After(w, steps).clients[i].job.Erase? && !After(w, steps).clients[i].job.conditional
    requires Enabled(After(w, steps), Hear(i, answer)) && Honest(answer)
    ensures var u := After(w, steps);
            var fate := FateOf(u, i);
            && (fate.Landed? || fate.Missing?)
            && (fate.Landed? ==> answer.Ok?)
            && Next(u, Hear(i, answer)).clients[i].phase ==
                 if answer.Ok? || (answer.NotFound? && !u.driver.S3?) then Done(Returned) else Done(Failed)
  {
    WaiterFits(w, steps, i);
    hide Allowed, After, Start, Replays, WellFormedJob, PhaseFits;
  }

  /** A row call or a delete whose answer is lost, or is a throttle, fails. */
  lemma OthersFail(w: World, i: nat, answer: Answer)
    requires i < |w.clients| && !w.clients[i].job.Put? && Enabled(w, Hear(i, answer)) && !Honest(answer)
    ensures Next(w, Hear(i, answer)).clients[i].phase == Done(Failed)
  {
  }

  // ---------- a call that nothing disturbs ----------

  /** What its request finds under the name. */
  predicate Finds(w: World, job: Job) {
    match job
    case Put(_, _, _, _) => w.cell.None?
    case Erase(v, conditional) => w.cell.Some? && (conditional ==> w.cell.value.version == v)
    case RowWrite(_, _, expected) => if expected.Absent? then w.cell.None? else HasVersion(w.cell, expected.version)
    case RowDelete(v) => HasVersion(w.cell, v)
  }

  /** What it leaves there. */
  function Leaves(w: World, job: Job, version: nat): Option<Entry> {
    match job
    case Put(writeId, _, parts, _) => Some(Entry(version, Some(writeId), Concat(parts)))
    case RowWrite(rowId, body, _) => Some(Entry(version, if w.driver.Azure? then Some(rowId) else None, body))
    case _ => None
  }

  /** The call begins, and its one request is applied. */
  lemma Asks(u: World, i: nat, version: nat) returns (steps: seq<Step>, v: World)
    requires i < |u.clients| && u.clients[i].phase.Idle? && WellFormedJob(u.clients[i].job)
    requires !Stages(u.clients[i].job) && MayBegin(u, u.clients[i].job)
    ensures Allowed(u, steps) && After(u, steps) == v && v.driver == u.driver && |v.clients| == |u.clients|
    ensures v.clients[i] == Client(u.clients[i].job, Waiting(0, |u.sends|)) && |v.sends| == |u.sends| + 1
    ensures v.sends[|u.sends|].client == i
    ensures var (job, fate) := (u.clients[i].job, v.sends[|u.sends|].fate);
            if Finds(u, job) then fate.Landed? && v.cell == Leaves(u, job, version)
            else v.cell == u.cell && if u.cell.None? then fate.Missing? else fate.Refused?
  {
    hide Allowed, After, NameOf, BlockIds.IsNonce, WasThere;
    var k := |u.sends|;
    ghost var x := Next(u, Begin(i));
    v := Next(x, Apply(k, version));
    NoSteps(u);
    Follows(u, [], Begin(i));
    steps := [] + [Begin(i)];
    Follows(u, steps, Apply(k, version));
    steps := steps + [Apply(k, version)];
  }

  /** Nothing under the name is of a call that has sent nothing. */
  lemma NotItsOwn(u: World, i: nat)
    requires Inv(u) && i < |u.clients| && u.clients[i].phase.Idle? && IdOf(u.clients[i].job).Some? && u.cell.Some?
    ensures u.cell.value.id != IdOf(u.clients[i].job)
  {
    PhaseOf(u, i);
    if u.cell.value.id == IdOf(u.clients[i].job) {
      IdNamesWriter(u, i);
    }
  }

  /**
   * A call that is sent in one request, and that nothing disturbs, does what its interface says: it is told of a
   * success exactly when its precondition holds, and then leaves what it should; or it is told of a conflict, and
   * changes nothing. A delete of what is not there is a success too, but of a row.
   */
  lemma Undisturbed(u: World, i: nat, version: nat) returns (steps: seq<Step>)
    requires Inv(u) && i < |u.clients| && u.clients[i].phase.Idle? && MayBegin(u, u.clients[i].job)
    requires !Stages(u.clients[i].job)
    ensures Allowed(u, steps) && i < |After(u, steps).clients|
    ensures var (job, v) := (u.clients[i].job, After(u, steps));
            var phase := v.clients[i].phase;
            if Finds(u, job) then phase == Done(Returned) && v.cell == Leaves(u, job, version)
            else
              && v.cell == u.cell
              && phase == if job.Erase? && u.cell.None? then Done(Returned)
                          else if job.RowWrite? && u.driver.Azure? then Done(Unsettled)
                          else Done(Conflict)
  {
    JobsAreWellFormed(u, i);
    if IdOf(u.clients[i].job).Some? && u.cell.Some? {
      NotItsOwn(u, i);
    }
    hide Inv, Allowed, After, Leaves, MayBegin, WellFormedJob, Finds;
    var v;
    steps, v := Asks(u, i, version);
    var job := u.clients[i].job;
    PlainOrNot(u, job);
    hide Enabled, Next, Stages, IdOf;
    if Finds(u, job) || (job.Erase? && u.cell.None?) {
      steps := Success(u, i, steps, v);
    } else {
      steps := Refusal(u, i, steps, v);
    }
  }

  /** The success is heard: the request landed, or there was nothing to delete. */
  lemma Success(u: World, i: nat, steps: seq<Step>, v: World) returns (more: seq<Step>)
    requires Allowed(u, steps) && After(u, steps) == v && i < |u.clients| && i < |v.clients|
    requires v.clients[i] == Client(u.clients[i].job, Waiting(0, |u.sends|)) && |v.sends| == |u.sends| + 1
    requires var fate := v.sends[|u.sends|].fate; fate.Landed? || (fate.Missing? && u.clients[i].job.Erase?)
    ensures Allowed(u, more) && i < |After(u, more).clients| && After(u, more).cell == v.cell
    ensures After(u, more).clients[i].phase == Done(Returned)
  {
    hide Allowed, After;
    var answer := if v.sends[|u.sends|].fate.Landed? || !u.clients[i].job.conditional then Ok else NotFound;
    Follows(u, steps, Hear(i, answer));
    more := steps + [Hear(i, answer)];
  }

  lemma PlainOrNot(u: World, job: Job)
    ensures !Finds(u, job) && job.Erase? && u.cell.Some? ==> job.conditional
  {
  }

  /** The refusal is heard, and read back where the driver does. */
  lemma Refusal(u: World, i: nat, steps: seq<Step>, v: World) returns (more: seq<Step>)
    requires Allowed(u, steps) && After(u, steps) == v && i < |u.clients| && i < |v.clients| && v.driver == u.driver
    requires v.clients[i] == Client(u.clients[i].job, Waiting(0, |u.sends|)) && |v.sends| == |u.sends| + 1
    requires v.sends[|u.sends|].fate.Refused? || v.sends[|u.sends|].fate.Missing?
    requires var job := u.clients[i].job;
             && (job.Erase? ==> job.conditional && v.cell.Some?) && !Stages(job)
             && (IdOf(job).Some? && v.cell.Some? ==> v.cell.value.id != IdOf(job))
    ensures Allowed(u, more) && i < |After(u, more).clients| && After(u, more).cell == v.cell
    ensures After(u, more).clients[i].phase ==
            if u.clients[i].job.RowWrite? && u.driver.Azure? then Done(Unsettled) else Done(Conflict)
  {
    hide Allowed, After;
    var heard := Next(v, Hear(i, Precondition));
    Follows(u, steps, Hear(i, Precondition));
    more := steps + [Hear(i, Precondition)];
    if heard.clients[i].phase.Reading? {
      Follows(u, more, Look(i));
      more := more + [Look(i)];
    }
  }

  /** A put that sends its bytes first, and that nothing disturbs, does the same. */
  lemma UndisturbedStaged(u: World, i: nat, version: nat) returns (steps: seq<Step>)
    requires Inv(u) && NoReuse(u) && i < |u.clients| && u.clients[i].phase.Idle? && Stages(u.clients[i].job)
    ensures Allowed(u, steps) && i < |After(u, steps).clients|
    ensures var (job, v) := (u.clients[i].job, After(u, steps));
            var phase := v.clients[i].phase;
            if u.cell.None? then phase == Done(Returned) && v.cell == Leaves(u, job, version)
            else phase == Done(Conflict) && v.cell == u.cell
  {
    JobsAreWellFormed(u, i);
    if u.cell.Some? {
      NotItsOwn(u, i);
    }
    assert u.cell.Some? ==> u.cell.value.id != Some(u.clients[i].job.writeId);
    hide Inv, Allowed, After, NoReuse, Leaves, WellFormedJob, MayAssemble, Enabled, Next, AwaitsFirst, Aside, IsOut,
      HasParts, Decided, IdOf;
    var x;
    steps, x := CommitsStaged(u, i);
    RunKeepsInv(u, steps);
    SameJob(u, x, i);
    var v;
    steps, v := Decides(u, steps, x, i, version);
    DecidedCell(x, v, i, version);
    steps := Hears(u, steps, x, v, i, version);
    SameLeaves(u, x, u.clients[i].job, version);
  }

  lemma DecidedCell(x: World, v: World, i: nat, version: nat)
    requires Decided(x, v, i, version)
    ensures i < |x.clients| && v.cell == if x.cell.None? then Leaves(x, x.clients[i].job, version) else x.cell
  {
  }

  lemma SameLeaves(u: World, x: World, job: Job, version: nat)
    requires x.driver == u.driver
    ensures Leaves(x, job, version) == Leaves(u, job, version)
  {
  }

  /** It sends its parts, and its commit. */
  lemma CommitsStaged(u: World, i: nat) returns (steps: seq<Step>, x: World)
    requires Inv(u) && NoReuse(u) && i < |u.clients| && u.clients[i].phase.Idle? && Stages(u.clients[i].job)
    requires WellFormedJob(u.clients[i].job)
    ensures Allowed(u, steps) && After(u, steps) == x && x.cell == u.cell && Aside(u, x, i) && AwaitsFirst(x, i)
    ensures Assembles(x.driver, x.clients[i].job) ==> WellFormedJob(x.clients[i].job) && HasParts(x, i)
  {
    hide Inv, Allowed, After, NoReuse, AwaitsFirst, Aside, IsOut, HasParts, Enabled, Next, NameOf, BlockIds.IsNonce;
    NoSteps(u);
    BeginnerMayFill(u, i);
    steps, x := BeginsOut(u, [], u, i);
    SameJob(u, x, i);
    if Assembles(x.driver, x.clients[i].job) {
      ghost var out := x;
      steps, x := GathersAside(u, steps, x, i);
      AsideStill(u, out, x, i);
      StillAwaits(out, x, i);
    }
  }

  lemma BeginnerMayFill(u: World, i: nat)
    requires i < |u.clients| && u.clients[i].phase.Idle? && u.clients[i].job.Put? && WellFormedJob(u.clients[i].job)
    ensures MayFill(u, i)
  {
    hide NameOf, BlockIds.IsNonce;
  }

  lemma StillAwaits(x: World, y: World, i: nat)
    requires AwaitsFirst(x, i) && y == x.(parts := y.parts, posted := y.posted)
    ensures AwaitsFirst(y, i)
  {
  }

  /** The world after its request, the last, is decided. */
  predicate Decided(x: World, v: World, i: nat, version: nat) {
    && i < |x.clients| && v.clients == x.clients && v.driver == x.driver && 0 < |x.sends| == |v.sends|
    && v.cell == (if x.cell.None? then Leaves(x, x.clients[i].job, version) else x.cell)
    && v.sends[|x.sends| - 1].fate == if x.cell.None? then Fate.Landed else Refused
  }

  lemma LandsOnNothing(x: World, i: nat, version: nat)
    requires Inv(x) && AwaitsFirst(x, i) && x.clients[i].job.Put? && WellFormedJob(x.clients[i].job) && x.cell.None?
    requires Assembles(x.driver, x.clients[i].job) ==> HasParts(x, i)
    ensures Enabled(x, Apply(|x.sends| - 1, version)) && Decided(x, Next(x, Apply(|x.sends| - 1, version)), i, version)
  {
    hide Inv, HasParts, Outgrowth, Leaves, Enabled, Next, Assembles, Holds, WellFormedJob;
    OutgrowthIsLeft(x, i, version);
    HoldsOfNothing(x.clients[i].job);
    LandedWorld(x, i, |x.sends| - 1, version);
  }

  lemma HoldsOfNothing(job: Job)
    requires job.Put?
    ensures Holds(job, None)
  {
  }

  lemma OutgrowthIsLeft(x: World, i: nat, version: nat)
    requires Inv(x) && i < |x.clients| && x.clients[i].job.Put? && WellFormedJob(x.clients[i].job)
    requires Assembles(x.driver, x.clients[i].job) ==> HasParts(x, i)
    ensures Outgrowth(x, i, version) == Leaves(x, x.clients[i].job, version)
  {
    PayloadIsTheBody(x, i);
    hide Inv, HasParts, Payload;
  }

  lemma RefusedOnSomething(x: World, i: nat, version: nat)
    requires AwaitsFirst(x, i) && x.clients[i].job.Put? && WellFormedJob(x.clients[i].job) && x.cell.Some?
    ensures Enabled(x, Apply(|x.sends| - 1, version)) && Decided(x, Next(x, Apply(|x.sends| - 1, version)), i, version)
  {
    hide HasParts, Payload, Leaves, NameOf;
  }

  /** The request lands where nothing is there, and is refused where something is. */
  lemma Decides(u: World, steps: seq<Step>, x: World, i: nat, version: nat) returns (more: seq<Step>, v: World)
    requires Allowed(u, steps) && After(u, steps) == x && Inv(x) && AwaitsFirst(x, i) && x.clients[i].job.Put?
    requires WellFormedJob(x.clients[i].job) && (Assembles(x.driver, x.clients[i].job) ==> HasParts(x, i))
    ensures Allowed(u, more) && After(u, more) == v && Decided(x, v, i, version)
  {
    hide Allowed, After, Inv, HasParts, Enabled, Next, Decided;
    if x.cell.None? {
      LandsOnNothing(x, i, version);
    } else {
      RefusedOnSomething(x, i, version);
    }
    v := Next(x, Apply(|x.sends| - 1, version));
    Follows(u, steps, Apply(|x.sends| - 1, version));
    more := steps + [Apply(|x.sends| - 1, version)];
  }

  /** What was decided is told. */
  lemma Hears(u: World, steps: seq<Step>, x: World, v: World, i: nat, version: nat) returns (more: seq<Step>)
    requires Allowed(u, steps) && After(u, steps) == v && AwaitsFirst(x, i) && Decided(x, v, i, version)
    requires x.clients[i].job.Put? && (x.cell.Some? ==> x.cell.value.id != Some(x.clients[i].job.writeId))
    ensures Allowed(u, more) && i < |After(u, more).clients| && After(u, more).cell == v.cell
    ensures After(u, more).clients[i].phase == if x.cell.None? then Done(Returned) else Done(Conflict)
  {
    hide Allowed, After, Leaves;
    if x.cell.None? {
      more := HearsBack(u, steps, v, i, Ok);
    } else {
      more := HearsRefusal(u, steps, v, i);
    }
  }

  lemma HearsBack(u: World, steps: seq<Step>, v: World, i: nat, answer: Answer) returns (more: seq<Step>)
    requires Allowed(u, steps) && After(u, steps) == v && i < |v.clients| && v.clients[i].phase.Waiting?
    requires v.clients[i].phase.current < |v.sends| && v.sends[v.clients[i].phase.current].fate.Landed? && answer.Ok?
    ensures Allowed(u, more) && i < |After(u, more).clients|
    ensures After(u, more).cell == v.cell && After(u, more).clients[i].phase == Done(Returned)
  {
    hide Allowed, After;
    Follows(u, steps, Hear(i, answer));
    more := steps + [Hear(i, answer)];
  }

  lemma HearsRefusal(u: World, steps: seq<Step>, v: World, i: nat) returns (more: seq<Step>)
    requires Allowed(u, steps) && After(u, steps) == v && i < |v.clients| && v.clients[i].job.Put?
    requires v.clients[i].phase.Waiting? && v.clients[i].phase.resent == 0
    requires v.clients[i].phase.current < |v.sends| && v.sends[v.clients[i].phase.current].fate.Refused?
    requires v.cell.Some? && v.cell.value.id != Some(v.clients[i].job.writeId)
    ensures Allowed(u, more) && i < |After(u, more).clients|
    ensures After(u, more).cell == v.cell && After(u, more).clients[i].phase == Done(Conflict)
  {
    hide Allowed, After;
    var heard := Next(v, Hear(i, Precondition));
    Follows(u, steps, Hear(i, Precondition));
    more := steps + [Hear(i, Precondition)];
    if heard.clients[i].phase.Reading? {
      Follows(u, more, Look(i));
      more := more + [Look(i)];
    }
  }
}
