/**
 * Which clients can still put an object under an empty name. Each can be told by its own state: it creates, it has
 * yet to send or may send again, or a request of it is in flight, and what it would assemble may still come together.
 * Where there is none, an empty name stays empty; where there is one, a continuation fills it.
 */
module Fills {

  import opened Bytes
  import opened Service
  import opened History
  import opened Landings
  import opened Swaps
  import opened Assembly
  import opened Late
  import BlockIds

  /** A put, or a write of a row where none is expected. */
  predicate Creates(job: Job) {
    job.Put? || (job.RowWrite? && job.expected.Absent?)
  }

  /** A request of the client is still to be sent, or the driver or its SDK may send it again. */
  predicate MaySend(w: World, j: nat)
    requires j < |w.clients|
  {
    match w.clients[j].phase
    case Waiting(resent, _) =>
      || Replays(w.driver, w.clients[j].job)
      || (Resends(w.driver, w.clients[j].job) && resent < THROTTLE_RESENDS)
    case Reading(_) => false
    case Done(_) => false
    case _ => true
  }

  /** The client can still put an object under the name, should it be empty. */
  predicate MayFill(w: World, j: nat) {
    && j < |w.clients| && Creates(w.clients[j].job) && WellFormedJob(w.clients[j].job) && MayAssemble(w, j)
    && (MaySend(w, j) || HasInFlight(w, j))
  }

  predicate NoneMayFill(w: World) {
    forall j :: 0 <= j < |w.clients| ==> !MayFill(w, j)
  }

  // ---------- where none may fill ----------

  lemma OnlyResendsAreResent(driver: Driver, job: Job, resent: nat, answer: Answer)
    ensures Decide(driver, job, resent, answer).Resend? ==> Resends(driver, job) && resent < THROTTLE_RESENDS
  {
  }

  lemma StopsSending(w: World, step: Step, j: nat)
    requires Enabled(w, step) && j < |w.clients| && !MaySend(w, j) && !HasInFlight(w, j)
    ensures j < |Next(w, step).clients| && !MaySend(Next(w, step), j) && !HasInFlight(Next(w, step), j)
  {
    var v := Next(w, step);
    Frame(w, step);
    if Actor(step) == Some(j) {
      LastAnswer(w, step, j);
    }
    hide Enabled, Next;
    forall k | 0 <= k < |v.sends| && v.sends[k].client == j
      ensures !v.sends[k].fate.InFlight?
    {
      if k < |w.sends| {
        assert w.sends[k].client == j;
      }
    }
  }

  /** A client that sends no more hears an answer, or reads the object back, and is over. */
  lemma LastAnswer(w: World, step: Step, j: nat)
    requires Enabled(w, step) && Actor(step) == Some(j) && j < |w.clients| && !MaySend(w, j)
    ensures j < |Next(w, step).clients| && !MaySend(Next(w, step), j) && Next(w, step).sends == w.sends
  {
    if step.Hear? {
      OnlyResendsAreResent(w.driver, w.clients[j].job, w.clients[j].phase.resent, step.answer);
    }
    hide Answers, Decide, Settle, MayBegin, NameOf, BlockIds.IsNonce, Replays, Resends, Assembles;
  }

  lemma StaysUnable(w: World, step: Step, j: nat)
    requires Inv(w) && Enabled(w, step) && j < |w.clients| && !MayFill(w, j)
    ensures !MayFill(Next(w, step), j)
  {
    Frame(w, step);
    JobsAreWellFormed(w, j);
    hide Inv, Enabled, Next, MaySend, HasInFlight, MayAssemble;
    if !MayAssemble(w, j) {
      StaysLost(w, step, j);
    } else if Creates(w.clients[j].job) {
      StopsSending(w, step, j);
    }
  }

  /** Who lands on an empty name is one that may fill it. */
  lemma LandsWhoMay(w: World, k: nat)
    requires k < |w.sends| && w.sends[k].fate.InFlight? && CanApply(w, w.sends[k].client) && w.cell.None?
    requires Holds(w.clients[w.sends[k].client].job, None)
    ensures MayFill(w, w.sends[k].client)
  {
    hide NameOf, BlockIds.IsNonce;
    assert HasInFlight(w, w.sends[k].client);
  }

  lemma AppliedToNothing(w: World, k: nat, version: nat)
    requires k < |w.sends| && w.sends[k].fate.InFlight? && CanApply(w, w.sends[k].client) && w.cell.None?
    requires !Holds(w.clients[w.sends[k].client].job, None)
    ensures Unchanging(w, Applied(w, k, version))
  {
    hide Holds, NameOf, BlockIds.IsNonce, NeedsObject;
  }

  lemma StepStaysEmpty(w: World, step: Step)
    requires Inv(w) && Enabled(w, step) && NoneMayFill(w) && w.cell.None?
    ensures Unchanging(w, Next(w, step)) && NoneMayFill(Next(w, step))
  {
    Frame(w, step);
    if step.Apply? {
      if Holds(w.clients[w.sends[step.k].client].job, None) {
        LandsWhoMay(w, step.k);
      } else {
        AppliedToNothing(w, step.k, step.version);
      }
    }
    NoneComesToFill(w, step);
    hide Enabled, Next, Inv, NoneMayFill;
  }

  lemma NoneComesToFill(w: World, step: Step)
    requires Inv(w) && Enabled(w, step) && NoneMayFill(w)
    ensures NoneMayFill(Next(w, step))
  {
    Frame(w, step);
    hide Inv, Enabled, Next, MayFill;
    forall j | 0 <= j < |Next(w, step).clients|
      ensures !MayFill(Next(w, step), j)
    {
      StaysUnable(w, step, j);
    }
  }

  /** Where no client may fill it, an empty name stays empty, and nothing lands there. */
  lemma {:induction false} StaysEmpty(w: World, steps: seq<Step>)
    requires Inv(w) && Allowed(w, steps) && NoneMayFill(w) && w.cell.None?
    ensures After(w, steps).cell.None? && NoneMayFill(After(w, steps))
    ensures forall i :: !LandsFrom(w, After(w, steps), i)
    decreases |steps|
  {
    hide Inv, Enabled, Next, NoneMayFill, LandsFrom, Unchanging;
    if steps == [] {
      NothingLandsAtOnce(w);
    } else {
      var v := Next(w, steps[0]);
      Frame(w, steps[0]);
      StepStaysEmpty(w, steps[0]);
      StepKeepsInv(w, steps[0]);
      UnchangedIsEmpty(w, v, Actor(steps[0]));
      StaysEmpty(v, steps[1..]);
      RunKeepsSends(v, steps[1..]);
      forall i
        ensures !LandsFrom(w, After(w, steps), i)
      {
        LandsInNeither(w, v, After(v, steps[1..]), i);
      }
    }
  }

  lemma NothingLandsAtOnce(w: World)
    ensures forall i :: !LandsFrom(w, w, i)
  {
  }

  lemma UnchangedIsEmpty(w: World, v: World, actor: Option<nat>)
    requires Unchanging(w, v) && SendsFrame(w, v, actor)
    ensures v.cell == w.cell && forall i :: !LandsFrom(w, v, i)
  {
  }

  lemma LandsInNeither(w: World, v: World, x: World, i: nat)
    requires !LandsFrom(w, v, i) && !LandsFrom(v, x, i) && SendsKept(w, v) && SendsKept(v, x)
    ensures !LandsFrom(w, x, i)
  {
  }

  // ---------- where one may ----------

  /** A world a run leads to, in which no version was reused. */
  predicate Reached(u: World, steps: seq<Step>, x: World) {
    Allowed(u, steps) && After(u, steps) == x && NoReuse(x)
  }

  lemma Move(u: World, steps: seq<Step>, x: World, step: Step)
    requires Reached(u, steps, x) && Enabled(x, step) && NoReuse(Next(x, step))
    ensures Reached(u, steps + [step], Next(x, step))
  {
    hide Allowed, After, Enabled, Next, NoReuse;
    Follows(u, steps, step);
  }

  lemma SameVersions(w: World, v: World)
    requires NoReuse(w) && v.log == w.log && v.initial == w.initial
    ensures NoReuse(v)
  {
    assert forall e :: 0 <= e <= |w.log| ==> CellAt(v, e) == CellAt(w, e);
  }

  lemma ReachedHasNoReuse(u: World, steps: seq<Step>, x: World)
    requires Reached(u, steps, x)
    ensures NoReuse(x)
  {
  }

  /** The other clients and their requests are as they were. */
  predicate Aside(x: World, y: World, j: nat) {
    && y.driver == x.driver && |y.clients| == |x.clients| && |x.sends| <= |y.sends|
    && (forall i :: 0 <= i < |x.clients| && i != j ==> y.clients[i] == x.clients[i])
    && (j < |x.clients| ==> y.clients[j].job == x.clients[j].job)
    && (forall k :: 0 <= k < |x.sends| && x.sends[k].client != j ==> y.sends[k] == x.sends[k])
    && (forall k :: 0 <= k < |x.sends| ==> y.sends[k].client == x.sends[k].client)
  }

  lemma AsideStill(x: World, y: World, z: World, j: nat)
    requires Aside(x, y, j) && Aside(y, z, j)
    ensures Aside(x, z, j)
  {
  }

  /** The client has its first parts stored. */
  predicate Staged(x: World, j: nat, acked: nat) {
    && j < |x.clients| && Stages(x.clients[j].job) && WellFormedJob(x.clients[j].job)
    && x.clients[j].phase == Staging(acked) && acked <= |x.clients[j].job.parts|
    && (Assembles(x.driver, x.clients[j].job) ==>
          (x.driver.S3? ==> j in x.uploads) && forall m :: 0 <= m < acked ==> IsStored(x, j, m))
  }

  /** One step of the client's, which leaves the object alone. */
  lemma Moves(u: World, steps: seq<Step>, x: World, step: Step, j: nat) returns (more: seq<Step>, y: World)
    requires Reached(u, steps, x) && Enabled(x, step) && !MayChange(step) && Aside(x, Next(x, step), j)
    ensures y == Next(x, step) && Reached(u, more, y) && Aside(x, y, j) && y.cell == x.cell
  {
    Frame(x, step);
    hide Allowed, After, Enabled, Next, NoReuse, Aside;
    y := Next(x, step);
    SameVersions(x, y);
    Move(u, steps, x, step);
    more := steps + [step];
  }

  lemma PostsAside(x: World, j: nat)
    requires Enabled(x, Post(j))
    ensures Aside(x, Next(x, Post(j)), j)
  {
  }

  lemma StoresAside(x: World, j: nat, n: nat)
    requires Enabled(x, Store(j, n))
    ensures Aside(x, Next(x, Store(j, n)), j)
  {
    hide NameOf, BlockIds.IsNonce;
  }

  lemma PostedStaged(x: World, j: nat, acked: nat)
    requires Staged(x, j, acked) && acked < |x.clients[j].job.parts| && Assembles(x.driver, x.clients[j].job)
    ensures Enabled(x, Post(j)) && Staged(Next(x, Post(j)), j, acked) && Enabled(Next(x, Post(j)), Store(j, acked))
  {
    hide NameOf, BlockIds.IsNonce;
    var y := Next(x, Post(j));
    forall m | 0 <= m < acked
      ensures IsStored(y, j, m)
    {
      assert IsStored(x, j, m);
    }
  }

  lemma StoredStaged(x: World, j: nat, acked: nat)
    requires Staged(x, j, acked) && acked < |x.clients[j].job.parts| && Enabled(x, Store(j, acked))
    ensures var y := Next(x, Store(j, acked)); Staged(y, j, acked) && IsStored(y, j, acked)
  {
    StoresOneMore(x, j, acked);
    hide NameOf, BlockIds.IsNonce, IsStored;
  }

  lemma AckedStaged(x: World, j: nat, acked: nat)
    requires Staged(x, j, acked) && acked < |x.clients[j].job.parts|
    requires Assembles(x.driver, x.clients[j].job) ==> IsStored(x, j, acked)
    ensures Enabled(x, Ack(j)) && Staged(Next(x, Ack(j)), j, acked + 1)
  {
    hide NameOf, BlockIds.IsNonce;
    var y := Next(x, Ack(j));
    if Assembles(x.driver, x.clients[j].job) {
      forall m | 0 <= m < acked + 1
        ensures IsStored(y, j, m)
      {
        assert IsStored(x, j, m);
      }
    }
  }

  /** The next part is sent, stored and acknowledged. */
  lemma StagesOne(u: World, steps: seq<Step>, x: World, j: nat, acked: nat) returns (more: seq<Step>, y: World)
    requires Reached(u, steps, x) && Staged(x, j, acked) && acked < |x.clients[j].job.parts|
    ensures Reached(u, more, y) && Staged(y, j, acked + 1) && Aside(x, y, j) && y.cell == x.cell
  {
    more, y := steps, x;
    NothingAside(x, j);
    if Assembles(x.driver, x.clients[j].job) {
      more, y := StoresNext(u, steps, x, j, acked);
    }
    hide Reached, NameOf, BlockIds.IsNonce, Aside, Enabled, Next, Staged;
    ghost var stored := y;
    AckedStaged(y, j, acked);
    AcksAside(y, j);
    more, y := Moves(u, more, y, Ack(j), j);
    AsideStill(x, stored, y, j);
  }

  lemma StoresNext(u: World, steps: seq<Step>, x: World, j: nat, acked: nat) returns (more: seq<Step>, y: World)
    requires Reached(u, steps, x) && Staged(x, j, acked) && acked < |x.clients[j].job.parts|
    requires Assembles(x.driver, x.clients[j].job)
    ensures Reached(u, more, y) && Staged(y, j, acked) && Aside(x, y, j) && y.cell == x.cell
    ensures acked < |y.clients[j].job.parts| && IsStored(y, j, acked)
  {
    hide Reached, NameOf, BlockIds.IsNonce, Aside, Enabled, Next, IsStored;
    PostedStaged(x, j, acked);
    PostsAside(x, j);
    more, y := Moves(u, steps, x, Post(j), j);
    ghost var posted := y;
    SameJob(x, y, j);
    StoredStaged(y, j, acked);
    StoresAside(y, j, acked);
    more, y := Moves(u, more, y, Store(j, acked), j);
    SameJob(posted, y, j);
    AsideStill(x, posted, y, j);
  }

  lemma SameJob(x: World, y: World, j: nat)
    requires Aside(x, y, j) && j < |x.clients|
    ensures j < |y.clients| && y.clients[j].job == x.clients[j].job && y.driver == x.driver
  {
  }

  lemma AcksAside(x: World, j: nat)
    requires Enabled(x, Ack(j))
    ensures Aside(x, Next(x, Ack(j)), j)
  {
    hide NameOf, BlockIds.IsNonce;
  }

  lemma NothingAside(x: World, j: nat)
    ensures Aside(x, x, j)
  {
  }

  /** Every part is staged. */
  lemma {:induction false} StagesAll(u: World, steps: seq<Step>, x: World, j: nat, acked: nat)
    returns (more: seq<Step>, y: World)
    requires Reached(u, steps, x) && Staged(x, j, acked)
    ensures Reached(u, more, y) && Aside(x, y, j) && y.cell == x.cell
    ensures j < |x.clients| && x.clients[j].job.Put? && Staged(y, j, |x.clients[j].job.parts|)
    decreases |x.clients[j].job.parts| - acked
  {
    if acked == |x.clients[j].job.parts| {
      more, y := steps, x;
      NothingAside(x, j);
    } else {
      hide Reached, Aside;
      more, y := StagesOne(u, steps, x, j, acked);
      ghost var one := y;
      SameJob(x, y, j);
      more, y := StagesAll(u, more, y, j, acked + 1);
      AsideStill(x, one, y, j);
    }
  }

  /** The client has a request in flight, and what it would assemble is sent. */
  predicate IsOut(x: World, j: nat) {
    && j < |x.clients| && Creates(x.clients[j].job) && WellFormedJob(x.clients[j].job) && HasInFlight(x, j)
    && (Assembles(x.driver, x.clients[j].job) ==>
          && (x.driver.S3? ==> j in x.uploads)
          && forall n :: 0 <= n < |x.clients[j].job.parts| ==> IsSent(x, j, n))
  }

  lemma SendsAside(x: World, y: World, j: nat, resent: nat)
    requires j < |x.clients| && y == Sent(x, j, resent)
    ensures Aside(x, y, j) && HasInFlight(y, j)
  {
    assert y.sends[|x.sends|] == Send(j, InFlight);
  }

  /** The client waits for the answer to its first request, which is in flight. */
  predicate AwaitsFirst(x: World, j: nat) {
    && j < |x.clients| && 0 < |x.sends| && x.clients[j].phase == Waiting(0, |x.sends| - 1)
    && x.sends[|x.sends| - 1] == Send(j, InFlight)
  }

  lemma StagedGetsOut(u: World, steps: seq<Step>, x: World, j: nat, acked: nat)
    returns (more: seq<Step>, y: World)
    requires Reached(u, steps, x) && Staged(x, j, acked)
    ensures Reached(u, more, y) && Aside(x, y, j) && y.cell == x.cell && IsOut(y, j) && AwaitsFirst(y, j)
  {
    hide Reached, Aside, NameOf, BlockIds.IsNonce;
    more, y := StagesAll(u, steps, x, j, acked);
    ghost var staged := y;
    SameJob(x, y, j);
    SendsAside(staged, Next(staged, Commit(j)), j, 0);
    more, y := Moves(u, more, y, Commit(j), j);
    AsideStill(x, staged, y, j);
    SentIsOut(staged, j, 0);
  }

  /** What is stored, or sent once the client may send no more parts, is sent still when the commit goes out. */
  lemma SentIsOut(x: World, j: nat, resent: nat)
    requires j < |x.clients| && Creates(x.clients[j].job) && WellFormedJob(x.clients[j].job)
    requires Assembles(x.driver, x.clients[j].job) ==>
               && (x.driver.S3? ==> j in x.uploads)
               && forall n :: 0 <= n < |x.clients[j].job.parts| ==> IsStored(x, j, n) || IsSent(x, j, n)
    ensures IsOut(Sent(x, j, resent), j)
  {
    hide NameOf, BlockIds.IsNonce;
    var y := Sent(x, j, resent);
    SendsAside(x, y, j, resent);
    if Assembles(x.driver, x.clients[j].job) {
      forall n | 0 <= n < |x.clients[j].job.parts|
        ensures IsSent(y, j, n)
      {
        assert IsStored(x, j, n) || IsSent(x, j, n);
      }
    }
  }

  /** Past its last part a client that may assemble has sent them all. */
  lemma PastParts(x: World, j: nat)
    requires MayFill(x, j) && !x.clients[j].phase.Idle? && !x.clients[j].phase.Staging?
    ensures Assembles(x.driver, x.clients[j].job) ==>
              && (x.driver.S3? ==> j in x.uploads)
              && forall n :: 0 <= n < |x.clients[j].job.parts| ==> IsSent(x, j, n)
  {
    hide NameOf, BlockIds.IsNonce;
    if Assembles(x.driver, x.clients[j].job) {
      forall n | 0 <= n < |x.clients[j].job.parts|
        ensures IsSent(x, j, n)
      {
        assert MayBeStored(x, j, n);
      }
    }
  }

  lemma SendsOut(u: World, steps: seq<Step>, x: World, step: Step, j: nat, resent: nat)
    returns (more: seq<Step>, y: World)
    requires Reached(u, steps, x) && Enabled(x, step) && !MayChange(step) && j < |x.clients|
    requires Next(x, step) == Sent(x, j, resent)
    requires MayFill(x, j) && (Assembles(x.driver, x.clients[j].job) ==> !x.clients[j].phase.Idle?)
    requires !x.clients[j].phase.Staging?
    ensures Reached(u, more, y) && Aside(x, y, j) && y == Sent(x, j, resent) && y.cell == x.cell && IsOut(y, j)
  {
    hide Reached, Aside, Enabled, Next;
    SendsAside(x, Next(x, step), j, resent);
    if !x.clients[j].phase.Idle? {
      PastParts(x, j);
    }
    SentIsOut(x, j, resent);
    more, y := Moves(u, steps, x, step, j);
  }

  /** An idle client begins. */
  lemma BeginsOut(u: World, steps: seq<Step>, x: World, j: nat) returns (more: seq<Step>, y: World)
    requires Reached(u, steps, x) && MayFill(x, j) && x.clients[j].phase.Idle?
    ensures Reached(u, more, y) && Aside(x, y, j) && y.cell == x.cell && IsOut(y, j) && AwaitsFirst(y, j)
  {
    hide Reached, Aside, MayAssemble;
    if Stages(x.clients[j].job) {
      ghost var begun := Next(x, Begin(j));
      BeginsAside(x, j);
      more, y := Moves(u, steps, x, Begin(j), j);
      more, y := StagedGetsOut(u, more, y, j, 0);
      AsideStill(x, begun, y, j);
    } else {
      more, y := SendsOut(u, steps, x, Begin(j), j, 0);
    }
  }

  lemma BeginsAside(x: World, j: nat)
    requires Enabled(x, Begin(j)) && Stages(x.clients[j].job) && WellFormedJob(x.clients[j].job)
    ensures Aside(x, Next(x, Begin(j)), j) && Staged(Next(x, Begin(j)), j, 0)
  {
  }

  /** A client that stages its parts has the first of them stored, once what is sent of them is. */
  lemma StagerGetsOut(u: World, steps: seq<Step>, x: World, j: nat) returns (more: seq<Step>, y: World)
    requires Reached(u, steps, x) && MayFill(x, j) && x.clients[j].phase.Staging? && PhaseFits(x, j)
    ensures Reached(u, more, y) && Aside(x, y, j) && y.cell == x.cell && IsOut(y, j)
  {
    hide Reached, Aside, NameOf, BlockIds.IsNonce, MaySend, HasInFlight;
    more, y := steps, x;
    NothingAside(x, j);
    var acked := x.clients[j].phase.acked;
    if Assembles(x.driver, x.clients[j].job) {
      forall n | 0 <= n < acked
        ensures IsSent(x, j, n)
      {
        assert MayBeStored(x, j, n);
      }
      more, y := RestoresAside(u, steps, x, j, acked);
    }
    ghost var stored := y;
    more, y := StagedGetsOut(u, more, y, j, acked);
    AsideStill(x, stored, y, j);
  }

  lemma RestoresAside(u: World, steps: seq<Step>, x: World, j: nat, acked: nat) returns (more: seq<Step>, y: World)
    requires Reached(u, steps, x) && j < |x.clients| && WellFormedJob(x.clients[j].job)
    requires Assembles(x.driver, x.clients[j].job) && x.clients[j].phase == Staging(acked)
    requires acked <= |x.clients[j].job.parts| && (x.driver.S3? ==> j in x.uploads)
    requires forall n :: 0 <= n < acked ==> IsSent(x, j, n)
    ensures Reached(u, more, y) && Aside(x, y, j) && y.cell == x.cell && Staged(y, j, acked)
  {
    hide Allowed, After, NoReuse, NameOf, BlockIds.IsNonce, IsSent, IsStored;
    var tail;
    tail, y := Restores(x, j, acked);
    SameVersions(x, y);
    Continues(u, steps, tail);
    more := steps + tail;
  }

  /** A client that waits sends again: its SDK a copy, or the driver after a throttle. */
  lemma WaiterGetsOut(u: World, steps: seq<Step>, x: World, j: nat) returns (more: seq<Step>, y: World)
    requires Reached(u, steps, x) && MayFill(x, j) && x.clients[j].phase.Waiting? && MaySend(x, j) && PhaseFits(x, j)
    ensures Reached(u, more, y) && Aside(x, y, j) && y.cell == x.cell && IsOut(y, j)
  {
    hide Reached, Aside, MayAssemble, HasInFlight;
    var resent := x.clients[j].phase.resent;
    if Replays(x.driver, x.clients[j].job) {
      more, y := SendsOut(u, steps, x, Replay(j), j, resent);
    } else {
      ghost var throttled := Next(x, Hear(j, Throttled));
      HearsAside(x, j);
      more, y := Moves(u, steps, x, Hear(j, Throttled), j);
      more, y := SendsOut(u, more, y, Retry(j), j, resent + 1);
      AsideStill(x, throttled, y, j);
    }
  }

  lemma HearsAside(x: World, j: nat)
    requires MayFill(x, j) && x.clients[j].phase.Waiting? && PhaseFits(x, j)
    requires Resends(x.driver, x.clients[j].job) && x.clients[j].phase.resent < THROTTLE_RESENDS
    ensures Enabled(x, Hear(j, Throttled)) && Aside(x, Next(x, Hear(j, Throttled)), j)
    ensures Next(x, Hear(j, Throttled)).clients[j].phase == Backoff(x.clients[j].phase.resent)
    ensures MayFill(Next(x, Hear(j, Throttled)), j)
  {
    hide NameOf, BlockIds.IsNonce;
    var y := Next(x, Hear(j, Throttled));
    if Assembles(x.driver, x.clients[j].job) {
      forall n | 0 <= n < |x.clients[j].job.parts|
        ensures MayBeStored(y, j, n)
      {
        assert MayBeStored(x, j, n);
      }
    }
  }

  lemma SendsOrHas(x: World, j: nat)
    requires MayFill(x, j)
    ensures j < |x.clients|
    ensures (x.clients[j].phase.Reading? || x.clients[j].phase.Done?) ==> HasInFlight(x, j)
    ensures !HasInFlight(x, j) ==> MaySend(x, j)
  {
    hide MayAssemble, HasInFlight;
  }

  lemma RetrySends(x: World, j: nat)
    requires j < |x.clients| && x.clients[j].phase.Backoff?
    ensures Enabled(x, Retry(j)) && Next(x, Retry(j)) == Sent(x, j, x.clients[j].phase.resent + 1)
  {
  }

  lemma AlreadyOut(x: World, j: nat)
    requires MayFill(x, j) && !x.clients[j].phase.Idle? && !x.clients[j].phase.Staging? && HasInFlight(x, j)
    ensures IsOut(x, j)
  {
    PastParts(x, j);
    hide MayAssemble, IsSent;
  }

  lemma GetsOut(u: World, steps: seq<Step>, x: World, j: nat) returns (more: seq<Step>, y: World)
    requires Reached(u, steps, x) && Inv(x) && MayFill(x, j)
    ensures Reached(u, more, y) && Aside(x, y, j) && y.cell == x.cell && IsOut(y, j)
  {
    hide Reached, Aside, Inv, MayAssemble, Enabled, Next, IsOut, PhaseFits, HasInFlight, MayFill, MaySend, Sent;
    SendsOrHas(x, j);
    PhaseOf(x, j);
    if x.clients[j].phase.Idle? {
      more, y := BeginsOut(u, steps, x, j);
    } else if x.clients[j].phase.Staging? {
      more, y := StagerGetsOut(u, steps, x, j);
    } else if x.clients[j].phase.Backoff? {
      RetrySends(x, j);
      more, y := SendsOut(u, steps, x, Retry(j), j, x.clients[j].phase.resent + 1);
    } else if HasInFlight(x, j) {
      more, y := steps, x;
      NothingAside(x, j);
      AlreadyOut(x, j);
    } else {
      more, y := WaiterGetsOut(u, steps, x, j);
    }
  }

  /** An empty name is filled by a client that may, and the others are left as they are. */
  lemma Filled(u: World, steps: seq<Step>, x: World, j: nat) returns (more: seq<Step>, y: World)
    requires Reached(u, steps, x) && Inv(x) && MayFill(x, j) && x.cell.None?
    ensures Reached(u, more, y) && Aside(x, y, j) && y.cell.Some?
  {
    hide Reached, Aside, Inv, NameOf, BlockIds.IsNonce, MayAssemble, MaySend, HasInFlight;
    more, y := GetsOut(u, steps, x, j);
    ghost var out := y;
    if Assembles(y.driver, y.clients[j].job) {
      more, y := GathersAside(u, more, y, j);
    } else {
      NothingAside(y, j);
    }
    ghost var gathered := y;
    more, y := LandsAside(u, more, y, j);
    AsideStill(x, out, gathered, j);
    AsideStill(x, gathered, y, j);
  }

  lemma GathersAside(u: World, steps: seq<Step>, x: World, j: nat) returns (more: seq<Step>, y: World)
    requires Reached(u, steps, x) && IsOut(x, j) && Assembles(x.driver, x.clients[j].job)
    ensures Reached(u, more, y) && Aside(x, y, j) && y == x.(parts := y.parts, posted := y.posted) && IsOut(y, j)
    ensures Assembles(y.driver, y.clients[j].job) && HasParts(y, j)
  {
    hide Allowed, After, NoReuse, NameOf, BlockIds.IsNonce, HasParts;
    var tail;
    tail, y := Gathers(x, j);
    Continues(u, steps, tail);
    more := steps + tail;
    StillOut(x, y, j);
  }

  lemma StillOut(x: World, y: World, j: nat)
    requires IsOut(x, j) && y == x.(parts := y.parts, posted := y.posted)
    requires Assembles(x.driver, x.clients[j].job) && HasParts(y, j)
    ensures IsOut(y, j)
  {
    hide NameOf, BlockIds.IsNonce;
    assert y.sends == x.sends;
    forall n | 0 <= n < |y.clients[j].job.parts|
      ensures IsSent(y, j, n)
    {
    }
  }

  lemma LandsAside(u: World, steps: seq<Step>, x: World, j: nat) returns (more: seq<Step>, y: World)
    requires Reached(u, steps, x) && IsOut(x, j) && x.cell.None?
    requires Assembles(x.driver, x.clients[j].job) ==> HasParts(x, j)
    ensures Reached(u, more, y) && Aside(x, y, j) && y.cell.Some?
  {
    hide Allowed, After, NoReuse, NameOf, BlockIds.IsNonce, HasParts, Enabled, Next, IsSent;
    assert HasInFlight(x, j);
    var k :| 0 <= k < |x.sends| && x.sends[k].client == j && x.sends[k].fate.InFlight?;
    var version := Lands(x, j, k);
    y := Next(x, Apply(k, version));
    Move(u, steps, x, Apply(k, version));
    more := steps + [Apply(k, version)];
  }

  // ---------- deletes without a condition ----------

  /** What a late request of one takes is whatever is there then, of any version. */
  lemma TakesWhatIsThere(w: World, i: nat, k: nat) returns (later: seq<Step>)
    requires i < |w.clients| && w.clients[i].job.Erase? && !w.clients[i].job.conditional && w.cell.Some?
    requires k < |w.sends| && w.sends[k] == Send(i, InFlight)
    ensures Allowed(w, later)
    ensures var v := After(w, later);
            && v.cell.None? && v.log == w.log + [Event(Some(k), w.cell, None)]
            && v.sends == w.sends[k := Send(i, Landed)]
  {
    var step := Apply(k, 0);
    later := [step];
    assert Enabled(w, step) && later[1..] == [];
  }

  /** A continuation in which a request of the client lands. */
  predicate LandsAtAll(u: World, later: seq<Step>, i: nat) {
    Allowed(u, later) && LandsFrom(u, After(u, later), i)
  }

  /**
   * Exactly when a delete without a condition that is over can still take an object: when a request of it is in flight,
   * and an object is there, or a client may put one there.
   */
  lemma LateEraseExactly(w: World, steps: seq<Step>, i: nat)
    requires Start(w) && Allowed(w, steps) && NoReuse(After(w, steps)) && IsOver(After(w, steps), i)
    requires After(w, steps).clients[i].job.Erase? && !After(w, steps).clients[i].job.conditional
    ensures var u := After(w, steps);
            HasInFlight(u, i) && (u.cell.Some? || exists j :: MayFill(u, j)) <==>
            exists later :: LandsAtAll(u, later, i)
  {
    hide Start, Allowed, After, NoReuse, Inv, MayFill, HasInFlight, LandsFrom;
    var u := After(w, steps);
    StartHasInv(w);
    RunKeepsInv(w, steps);
    if HasInFlight(u, i) && (u.cell.Some? || exists j :: MayFill(u, j)) {
      var later := LateEraseLands(u, i);
      assert LandsAtAll(u, later, i);
    } else {
      forall later | Allowed(u, later)
        ensures !LandsFrom(u, After(u, later), i)
      {
        if HasInFlight(u, i) {
          StaysEmpty(u, later);
        } else {
          NotPending(u, i);
          StaysEnded(u, later, i);
        }
      }
    }
  }

  lemma NotPending(u: World, i: nat)
    requires i < |u.clients| && !HasInFlight(u, i)
    ensures !Pending(u, i)
  {
    hide HasInFlight, MayAssemble;
  }

  lemma LateEraseLands(u: World, i: nat) returns (later: seq<Step>)
    requires Inv(u) && NoReuse(u) && IsOver(u, i) && u.clients[i].job.Erase? && !u.clients[i].job.conditional
    requires HasInFlight(u, i) && (u.cell.Some? || exists j :: MayFill(u, j))
    ensures Allowed(u, later) && LandsFrom(u, After(u, later), i)
  {
    hide Allowed, After, NoReuse, Inv, MayAssemble, MaySend;
    var steps, x := [], u;
    NoSteps(u);
    var k :| 0 <= k < |u.sends| && u.sends[k].client == i && u.sends[k].fate.InFlight?;
    if u.cell.None? {
      var j :| MayFill(u, j);
      steps, x := Filled(u, steps, u, j);
    }
    assert x.sends[k] == Send(i, InFlight);
    var tail := TakesWhatIsThere(x, i, k);
    Continues(u, steps, tail);
    later := steps + tail;
    assert After(u, later).sends[k] == Send(i, Landed);
  }

  // ---------- what others do ----------

  /** For one client and what it has sent nothing is different. */
  predicate SameFor(x: World, y: World, j: nat) {
    && j < |x.clients| && y.driver == x.driver && |y.clients| == |x.clients| && y.clients[j] == x.clients[j]
    && y.parts == x.parts && y.posted == x.posted && (j in y.uploads <==> j in x.uploads) && |x.sends| <= |y.sends|
    && forall k :: 0 <= k < |x.sends| && x.sends[k].client == j ==> y.sends[k] == x.sends[k]
  }

  lemma StillMayFill(x: World, y: World, j: nat)
    requires SameFor(x, y, j) && MayFill(x, j)
    ensures MayFill(y, j)
  {
    hide NameOf, BlockIds.IsNonce, Replays, Resends;
    if HasInFlight(x, j) {
      var k :| 0 <= k < |x.sends| && x.sends[k].client == j && x.sends[k].fate.InFlight?;
      assert y.sends[k] == x.sends[k];
    }
    if Assembles(y.driver, y.clients[j].job) {
      forall n | 0 <= n < |y.clients[j].job.parts|
        ensures MayBeStored(y, j, n)
      {
        assert MayBeStored(x, j, n);
      }
    }
  }
}
