/**
 * What an answer proves of a client's own requests, in any run at all, deletions included: a put or a row write that
 * returns has landed, and one sent once that ends in a conflict has not, and never will.
 */
module Landings {

  import opened Bytes
  import opened Service
  import opened History

  predicate LandedBy(w: World, i: nat) {
    exists k :: 0 <= k < |w.sends| && w.sends[k].client == i && w.sends[k].fate.Landed?
  }

  /** The write id names the writer: an object that carries a client's id was put there by that client. */
  lemma IdNamesWriter(w: World, i: nat)
    requires Inv(w) && i < |w.clients| && IdOf(w.clients[i].job).Some?
    requires w.cell.Some? && w.cell.value.id == IdOf(w.clients[i].job)
    ensures w.log != [] && w.log[|w.log| - 1].send.Some? && EventFits(w, w.log[|w.log| - 1])
    ensures w.sends[w.log[|w.log| - 1].send.value].client == i
  {
    if w.log != [] {
      var event := w.log[|w.log| - 1];
      assert EventFits(w, event);
      var j := w.sends[event.send.value].client;
      assert IdOf(w.clients[j].job) == IdOf(w.clients[i].job);
    }
  }

  lemma LandedKept(w: World, v: World, i: nat)
    requires SendsKept(w, v) && LandedBy(w, i)
    ensures LandedBy(v, i)
  {
    var k :| 0 <= k < |w.sends| && w.sends[k].client == i && w.sends[k].fate.Landed?;
    assert v.sends[k].client == i && v.sends[k].fate.Landed?;
  }

  /** No request of the client landed, and none is on its way. */
  predicate Dead(w: World, i: nat) {
    forall k :: 0 <= k < |w.sends| && w.sends[k].client == i ==> !w.sends[k].fate.InFlight? && !w.sends[k].fate.Landed?
  }

  /** The registry's requests that go out once: S3's writes and deletes, and GCS's writes. */
  predicate SentOnce(driver: Driver, job: Job) {
    (job.RowWrite? || job.RowDelete?) && !Replays(driver, job)
  }

  predicate OneSend(w: World, i: nat) {
    forall k, m :: 0 <= k < m < |w.sends| ==> !(w.sends[k].client == w.sends[m].client == i)
  }

  predicate SoundAt(w: World, i: nat)
    requires i < |w.clients|
  {
    && (SentOnce(w.driver, w.clients[i].job) ==> OneSend(w, i))
    && (w.clients[i].phase == Done(Returned) && IdOf(w.clients[i].job).Some? ==> LandedBy(w, i))
    && (w.clients[i].phase == Done(Conflict) && SentOnce(w.driver, w.clients[i].job) ==> Dead(w, i))
    && (w.clients[i].phase.Reading? ==> !SentOnce(w.driver, w.clients[i].job))
  }

  predicate Sound(w: World) {
    && (forall i :: 0 <= i < |w.clients| ==> SoundAt(w, i))
    && (forall k :: 0 <= k < |w.sends| && w.sends[k].fate.Missing? && w.sends[k].client < |w.clients| ==>
          NeedsObject(JobOf(w, k)))
  }

  lemma BystanderIsSound(w: World, v: World, actor: Option<nat>, j: nat)
    requires j < |w.clients| && Some(j) != actor && SoundAt(w, j)
    requires ClientsFrame(w, v, actor) && SendsFrame(w, v, actor)
    ensures SoundAt(v, j)
  {
    if LandedBy(w, j) {
      LandedKept(w, v, j);
    }
  }

  /** What an answer that ends a call says of the request it is to. */
  lemma AnswersTell(driver: Driver, job: Job, resent: nat, fate: Fate, answer: Answer)
    requires Answers(driver, job, fate, answer)
    ensures Decide(driver, job, resent, answer) == Finish(Returned) && IdOf(job).Some? ==> fate.Landed?
    ensures SentOnce(driver, job) && Decide(driver, job, resent, answer) == Finish(Conflict) ==>
              !fate.InFlight? && !fate.Landed?
    ensures SentOnce(driver, job) ==> !Decide(driver, job, resent, answer).ReadBack?
  {
  }

  lemma HeardIsSound(w: World, i: nat, answer: Answer)
    requires Inv(w) && i < |w.clients| && w.clients[i].phase.Waiting? && w.clients[i].phase.current < |w.sends|
    requires SoundAt(w, i)
    requires Answers(w.driver, w.clients[i].job, w.sends[w.clients[i].phase.current].fate, answer)
    ensures SoundAt(Heard(w, i, answer), i)
  {
    var (job, current) := (w.clients[i].job, w.clients[i].phase.current);
    var v := Heard(w, i, answer);
    PhaseOf(w, i);
    AnswersTell(w.driver, job, w.clients[i].phase.resent, w.sends[current].fate, answer);
    OnceIsOnce(w.driver, job);
    hide Inv, Decide, Answers, SentOnce, IdOf, Replays, Resends, WellFormedJob;
    assert v.sends == w.sends;
    assert OneSend(w, i) ==> OneSend(v, i);
    if v.clients[i].phase == Done(Conflict) && SentOnce(w.driver, job) {
      assert OnlySend(w, i, current);
    } else if v.clients[i].phase == Done(Returned) && IdOf(job).Some? {
      assert w.sends[current].fate.Landed?;
    }
  }

  lemma OnceIsOnce(driver: Driver, job: Job)
    ensures SentOnce(driver, job) ==> !Resends(driver, job) && !Replays(driver, job)
  {
  }

  lemma LookedIsSound(w: World, i: nat)
    requires Inv(w) && i < |w.clients| && w.clients[i].phase.Reading? && SoundAt(w, i)
    ensures SoundAt(WithPhase(w, i, Done(Settle(w.driver, w.clients[i].job, w.clients[i].phase.answer, w.cell))), i)
  {
    var outcome := Settle(w.driver, w.clients[i].job, w.clients[i].phase.answer, w.cell);
    if outcome.Returned? && IdOf(w.clients[i].job).Some? {
      IdNamesWriter(w, i);
      assert LandedBy(w, i);
      LandedKept(w, WithPhase(w, i, Done(outcome)), i);
    }
  }

  lemma ActorIsSound(w: World, step: Step)
    requires Inv(w) && Sound(w) && Enabled(w, step) && Actor(step).Some? && Actor(step).value < |w.clients|
    ensures Actor(step).value < |Next(w, step).clients| && SoundAt(Next(w, step), Actor(step).value)
  {
    ActorSendsOnce(w, step);
    hide Inv, Decide, Settle, Answers, LandedBy, Dead, MayBegin, NameOf, BlockIds.IsNonce, WasThere, OneSend, SentOnce;
    match step
    case Hear(i, answer) => HeardIsSound(w, i, answer);
    case Look(i) => LookedIsSound(w, i);
    case _ =>
  }

  lemma ActorSendsOnce(w: World, step: Step)
    requires Inv(w) && Sound(w) && Enabled(w, step) && Actor(step).Some? && Actor(step).value < |w.clients|
    ensures var i := Actor(step).value;
            SentOnce(w.driver, w.clients[i].job) ==> OneSend(Next(w, step), i)
  {
    var i := Actor(step).value;
    PhaseOf(w, i);
    assert SoundAt(w, i);
    hide Inv, Sound, Decide, Settle, Answers, LandedBy, Dead, MayBegin, NameOf, BlockIds.IsNonce, WasThere;
  }

  lemma PhaseOf(w: World, i: nat)
    requires Inv(w) && i < |w.clients|
    ensures PhaseFits(w, i)
  {
  }

  lemma MissingNeedsObject(w: World, step: Step)
    requires Sound(w) && Enabled(w, step)
    ensures var v := Next(w, step);
            forall k :: 0 <= k < |v.sends| && v.sends[k].fate.Missing? && v.sends[k].client < |v.clients| ==>
              NeedsObject(JobOf(v, k))
  {
    hide Decide, Settle, Answers, SoundAt, MayBegin, NameOf, BlockIds.IsNonce, Replays, Holds, Outgrowth;
  }

  lemma StepIsSound(w: World, step: Step)
    requires Inv(w) && Sound(w) && Enabled(w, step)
    ensures Sound(Next(w, step))
  {
    var v := Next(w, step);
    Frame(w, step);
    MissingNeedsObject(w, step);
    hide Inv, Enabled, Next, SoundAt;
    forall j | 0 <= j < |v.clients| ensures SoundAt(v, j) {
      if Actor(step) == Some(j) {
        ActorIsSound(w, step);
      } else {
        BystanderIsSound(w, v, Actor(step), j);
      }
    }
  }

  lemma {:induction false} RunIsSound(w: World, steps: seq<Step>)
    requires Inv(w) && Sound(w) && Allowed(w, steps)
    ensures Inv(After(w, steps)) && Sound(After(w, steps))
    decreases |steps|
  {
    hide Inv, Sound, Enabled, Next;
    if steps != [] {
      StepKeepsInv(w, steps[0]);
      StepIsSound(w, steps[0]);
      RunIsSound(Next(w, steps[0]), steps[1..]);
    }
  }

  /** A put or a row write that returns has landed: its change is in the log, with its own bytes. */
  lemma ReturnedHasLanded(w: World, steps: seq<Step>, i: nat)
    requires Start(w) && Allowed(w, steps) && i < |w.clients| && i < |After(w, steps).clients|
    requires IdOf(w.clients[i].job).Some? && After(w, steps).clients[i].phase == Done(Returned)
    ensures var v := After(w, steps);
            exists e :: 0 <= e < |v.log| && v.log[e].send.Some? && EventFits(v, v.log[e])
                        && v.sends[v.log[e].send.value].client == i
                        && Fits(w.driver, w.clients[i].job, v.log[e].after)
  {
    StartHasInv(w);
    RunIsSound(w, steps);
    RunFrame(w, steps);
    var v := After(w, steps);
    assert SoundAt(v, i);
    var k :| 0 <= k < |v.sends| && v.sends[k].client == i && v.sends[k].fate.Landed?;
    assert InLog(v, k);
    var e :| 0 <= e < |v.log| && v.log[e].send == Some(k);
    assert EventFits(v, v.log[e]);
  }

  /** A row request sent once that ends in a conflict is in no log, now or later. */
  lemma ConflictIsFinal(w: World, steps: seq<Step>, later: seq<Step>, i: nat)
    requires Start(w) && Allowed(w, steps + later) && i < |w.clients| && SentOnce(w.driver, w.clients[i].job)
    requires Allowed(w, steps) && i < |After(w, steps).clients| && After(w, steps).clients[i].phase == Done(Conflict)
    ensures var v := After(w, steps + later);
            forall e :: 0 <= e < |v.log| && v.log[e].send.Some? && v.log[e].send.value < |v.sends| ==>
              v.sends[v.log[e].send.value].client != i
  {
    RunsCompose(w, steps, later);
    StartHasInv(w);
    RunIsSound(w, steps);
    RunFrame(w, steps);
    var u := After(w, steps);
    DoneStays(u, later, i);
    RunIsSound(u, later);
    RunFrame(u, later);
    var v := After(u, later);
    assert SoundAt(v, i);
    forall e | 0 <= e < |v.log| && v.log[e].send.Some? && v.log[e].send.value < |v.sends|
      ensures v.sends[v.log[e].send.value].client != i
    {
      assert EventFits(v, v.log[e]);
    }
  }

  lemma {:induction false} DoneStays(w: World, steps: seq<Step>, i: nat)
    requires Allowed(w, steps) && i < |w.clients| && w.clients[i].phase.Done?
    ensures i < |After(w, steps).clients| && After(w, steps).clients[i].phase == w.clients[i].phase
    decreases |steps|
  {
    hide Enabled, Next;
    if steps != [] {
      Frame(w, steps[0]);
      DoneStays(Next(w, steps[0]), steps[1..], i);
    }
  }
}
