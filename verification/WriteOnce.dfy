/**
 * `putImmutable` on all three drivers is one atomic write-once put. The specification is a cell that takes one writer,
 * once, and a verdict for each writer: stored, conflict or failed. Every run of racing `putImmutable` calls in which
 * nothing deletes the object is a run of it.
 */
module WriteOnce {

  import opened Bytes
  import opened Service
  import opened History
  import opened Landings
  import BlockIds

  // ---------- the specification ----------

  datatype Holder = Nobody | Foreign | By(writer: nat)

  datatype Told = Nothing | ToldStored | ToldConflict | ToldFailed

  datatype Spec = Spec(stored: Holder, told: seq<Told>)

  /** A writer's put lands, all at once: only in an empty cell, and never after the writer was told of a conflict. */
  predicate Land(s: Spec, t: Spec, i: nat) {
    i < |s.told| && s.stored.Nobody? && !s.told[i].ToldConflict? && t == s.(stored := By(i))
  }

  /** A writer is told, once. That it failed says nothing of the cell. */
  predicate Tell(s: Spec, t: Spec, i: nat, told: Told) {
    && i < |s.told| && s.told[i].Nothing? && !told.Nothing? && t == s.(told := s.told[i := told])
    && (told.ToldStored? ==> s.stored == By(i))
    && (told.ToldConflict? ==> s.stored != By(i))
  }

  ghost predicate SpecStep(s: Spec, t: Spec) {
    t == s || (exists i :: Land(s, t, i)) || (exists i, told :: Tell(s, t, i, told))
  }

  /** What the specification promises: a writer told "stored" holds the cell, and one told "conflict" does not. */
  predicate Truthful(s: Spec) {
    forall i :: 0 <= i < |s.told| ==>
      && (s.told[i].ToldStored? ==> s.stored == By(i))
      && (s.told[i].ToldConflict? ==> s.stored != By(i))
  }

  lemma SpecStepIsTruthful(s: Spec, t: Spec)
    requires Truthful(s) && SpecStep(s, t)
    ensures Truthful(t) && |t.told| == |s.told|
    ensures !s.stored.Nobody? ==> t.stored == s.stored
    ensures forall i :: 0 <= i < |s.told| && !s.told[i].Nothing? ==> t.told[i] == s.told[i]
  {
  }

  // ---------- the drivers' runs, seen as the specification's ----------

  predicate PutsOnly(w: World) {
    forall i :: 0 <= i < |w.clients| ==> w.clients[i].job.Put?
  }

  /** No change so far removed the object. */
  predicate NoDeletes(w: World) {
    forall e :: 0 <= e < |w.log| ==> w.log[e].after.Some?
  }

  function ToldBy(phase: Phase): Told {
    match phase
    case Done(Returned) => ToldStored
    case Done(Conflict) => ToldConflict
    case Done(_) => ToldFailed
    case _ => Nothing
  }

  function HolderOf(w: World): Holder {
    if w.log != [] && w.log[0].send.Some? && w.log[0].send.value < |w.sends| then
      By(w.sends[w.log[0].send.value].client)
    else if w.initial.Some? then Foreign
    else Nobody
  }

  function View(w: World): Spec {
    Spec(HolderOf(w), seq(|w.clients|, i requires 0 <= i < |w.clients| => ToldBy(w.clients[i].phase)))
  }

  // ---------- what such runs keep ----------

  /** No request of the client landed, and none can: another object is there, or none is on its way. */
  predicate Beaten(w: World, i: nat) {
    && !LandedBy(w, i)
    && (w.cell.Some? || forall k :: 0 <= k < |w.sends| && w.sends[k].client == i ==> !w.sends[k].fate.InFlight?)
  }

  predicate Knows(w: World, i: nat)
    requires i < |w.clients|
  {
    match w.clients[i].phase
    case Done(Returned) => LandedBy(w, i)
    case Done(Conflict) => Beaten(w, i)
    case Done(Unsettled) => false
    case Reading(answer) =>
      && (answer.Precondition? ==> w.cell.Some? || NoSends(w, i))
      && (!w.driver.S3? ==> answer.Precondition?)
    case _ => true
  }

  predicate FatesFit(w: World) {
    forall k :: 0 <= k < |w.sends| ==> !w.sends[k].fate.Missing? && (w.sends[k].fate.Refused? ==> w.cell.Some?)
  }

  predicate Once(w: World) {
    FatesFit(w) && forall i :: 0 <= i < |w.clients| ==> Knows(w, i)
  }

  /** Puts alone change the object once at most, and the log says which of them did. */
  lemma OneChange(w: World)
    requires Inv(w) && PutsOnly(w) && NoDeletes(w)
    ensures |w.log| <= 1
    ensures w.log == [] ==> w.cell == w.initial
    ensures w.log != [] ==> w.initial.None? && w.cell == w.log[0].after && w.log[0].send.Some? && EventFits(w, w.log[0])
  {
    if w.log != [] {
      PutFillsAbsence(w, 0);
      if |w.log| > 1 {
        PutFillsAbsence(w, 1);
      }
    }
  }

  lemma PutFillsAbsence(w: World, e: nat)
    requires Inv(w) && PutsOnly(w) && NoDeletes(w) && e < |w.log|
    ensures CellAt(w, e).None? && w.log[e].send.Some? && EventFits(w, w.log[e])
  {
    assert EventFits(w, w.log[e]) && w.log[e].before == CellAt(w, e);
    assert w.log[e].after.Some?;
  }

  /** A client one of whose requests landed is the one whose object is there. */
  lemma LandedHolds(w: World, i: nat)
    requires Inv(w) && PutsOnly(w) && NoDeletes(w) && i < |w.clients| && LandedBy(w, i)
    ensures w.log != [] && w.log[0].send.Some? && w.log[0].send.value < |w.sends|
    ensures w.sends[w.log[0].send.value].client == i
    ensures w.cell.Some? && Fits(w.driver, w.clients[i].job, w.cell)
  {
    OneChange(w);
    var k :| 0 <= k < |w.sends| && w.sends[k].client == i && w.sends[k].fate.Landed?;
    assert InLog(w, k);
  }

  // ---------- the steps ----------

  lemma FateKeepsOnce(w: World, k: nat, fate: Fate)
    requires Once(w) && k < |w.sends| && w.sends[k].fate.InFlight?
    requires fate.Raced? || fate.Unknown? || (fate.Refused? && w.cell.Some?)
    ensures Once(WithFate(w, k, fate))
  {
    var v := WithFate(w, k, fate);
    forall j | 0 <= j < |v.clients| ensures Knows(v, j) {
      assert Knows(w, j);
      if w.clients[j].phase == Done(Returned) {
        LandedKept(w, v, j);
      }
    }
  }

  /** Where the name is empty, a conflict leaves nothing in flight, so what lands is another's. */
  lemma LandingIsKnown(w: World, v: World, k: nat, i: nat)
    requires i < |w.clients| && Knows(w, i) && w.cell.None? && k < |w.sends| && w.sends[k].fate.InFlight?
    requires v.clients == w.clients && v.driver == w.driver && v.cell.Some?
    requires v.sends == w.sends[k := Send(w.sends[k].client, Fate.Landed)]
    ensures Knows(v, i)
  {
    if w.clients[i].phase == Done(Returned) {
      var m :| 0 <= m < |w.sends| && w.sends[m].client == i && w.sends[m].fate.Landed?;
      assert v.sends[m] == w.sends[m];
    }
  }

  lemma LandingOf(w: World, k: nat, version: nat)
    requires PutsOnly(w) && k < |w.sends| && w.cell.None?
    requires w.sends[k].fate.InFlight? && CanApply(w, w.sends[k].client)
    ensures var v := Applied(w, k, version);
            v.clients == w.clients && v.driver == w.driver && v.cell.Some?
            && v.sends == w.sends[k := Send(w.sends[k].client, Fate.Landed)]
  {
    hide Payload;
    assert w.clients[w.sends[k].client].job.Put?;
  }

  lemma LandingKeepsOnce(w: World, k: nat, version: nat)
    requires Inv(w) && PutsOnly(w) && Once(w)
    requires k < |w.sends| && w.sends[k].fate.InFlight? && CanApply(w, w.sends[k].client) && w.cell.None?
    ensures Once(Applied(w, k, version))
  {
    hide Inv, Applied, CanApply, Knows, PutsOnly;
    var v := Applied(w, k, version);
    LandingOf(w, k, version);
    forall j | 0 <= j < |v.clients| ensures Knows(v, j) {
      LandingIsKnown(w, v, k, j);
    }
  }

  lemma ApplyKeepsOnce(w: World, k: nat, version: nat)
    requires Inv(w) && PutsOnly(w) && Once(w)
    requires k < |w.sends| && w.sends[k].fate.InFlight? && CanApply(w, w.sends[k].client)
    ensures Once(Applied(w, k, version))
  {
    assert w.clients[w.sends[k].client].job.Put?;
    hide Once, Inv, Outgrowth;
    if w.cell.None? {
      LandingKeepsOnce(w, k, version);
    } else {
      FateKeepsOnce(w, k, Refused);
    }
  }

  /** Told at once, with nothing sent again: the one request is dead. */
  lemma DeadAtOnce(w: World, i: nat, current: nat)
    requires current < |w.sends| && OnlySend(w, i, current)
    requires !w.sends[current].fate.InFlight? && !w.sends[current].fate.Landed?
    ensures Beaten(w, i)
  {
  }

  lemma HeardIsKnown(w: World, i: nat, answer: Answer)
    requires Inv(w) && PutsOnly(w) && Once(w) && i < |w.clients|
    requires w.clients[i].phase.Waiting? && w.clients[i].phase.current < |w.sends|
    requires Answers(w.driver, w.clients[i].job, w.sends[w.clients[i].phase.current].fate, answer)
    ensures Knows(Heard(w, i, answer), i)
  {
    var (job, current) := (w.clients[i].job, w.clients[i].phase.current);
    var v := Heard(w, i, answer);
    assert PhaseFits(w, i);
    assert job.Put?;
    assert v.sends == w.sends && v.cell == w.cell;
    if v.clients[i].phase == Done(Conflict) {
      DeadAtOnce(w, i, current);
      assert Beaten(v, i);
    }
  }

  lemma LookedIsKnown(w: World, i: nat)
    requires Inv(w) && PutsOnly(w) && Once(w) && NoDeletes(w) && i < |w.clients| && w.clients[i].phase.Reading?
    ensures Knows(WithPhase(w, i, Done(Settle(w.driver, w.clients[i].job, w.clients[i].phase.answer, w.cell))), i)
  {
    var outcome := Settle(w.driver, w.clients[i].job, w.clients[i].phase.answer, w.cell);
    var v := WithPhase(w, i, Done(outcome));
    assert Knows(w, i);
    assert w.clients[i].job.Put?;
    if outcome.Returned? {
      IdNamesWriter(w, i);
      assert LandedBy(w, i);
      LandedKept(w, v, i);
    } else if outcome.Conflict? {
      if LandedBy(w, i) {
        LandedHolds(w, i);
      }
      assert Beaten(w, i);
      assert Beaten(v, i);
    }
  }

  /** Before its commit a put has sent nothing that could land. */
  lemma GivenUpIsKnown(w: World, i: nat, phase: Phase)
    requires Inv(w) && i < |w.clients| && w.clients[i].phase.Staging?
    requires phase == Done(Failed) || phase == Done(Conflict) || phase == Reading(Precondition)
    ensures Knows(WithPhase(w, i, phase), i)
  {
    StagingHasNotSent(w, i);
    assert NoSends(WithPhase(w, i, phase), i);
  }

  lemma BystanderKnows(w: World, v: World, actor: Option<nat>, j: nat)
    requires j < |w.clients| && Some(j) != actor && Knows(w, j)
    requires ClientsFrame(w, v, actor) && SendsFrame(w, v, actor) && Unchanging(w, v)
    ensures Knows(v, j)
  {
    if LandedBy(w, j) {
      LandedKept(w, v, j);
    }
  }

  lemma ActorKnows(w: World, step: Step)
    requires Inv(w) && PutsOnly(w) && NoDeletes(w) && Once(w) && Enabled(w, step)
    requires Actor(step).Some? && Actor(step).value < |w.clients|
    ensures Actor(step).value < |Next(w, step).clients| && Knows(Next(w, step), Actor(step).value)
  {
    hide Inv, Once, NoDeletes, Decide, Settle, Answers, LandedBy, Beaten, MayBegin, NameOf, BlockIds.IsNonce, Replays;
    match step
    case Hear(i, answer) => HeardIsKnown(w, i, answer);
    case Look(i) => LookedIsKnown(w, i);
    case GiveUp(i, verdict) => GivenUpIsKnown(w, i, Next(w, step).clients[i].phase);
    case _ =>
  }

  lemma FatesStayFit(w: World, step: Step)
    requires PutsOnly(w) && FatesFit(w) && Enabled(w, step) && !MayChange(step)
    ensures FatesFit(Next(w, step))
  {
    hide Decide, Settle, Answers, MayBegin, NameOf, BlockIds.IsNonce, Replays, CanLose;
  }

  lemma StepKeepsOnce(w: World, step: Step)
    requires Inv(w) && PutsOnly(w) && Once(w) && Enabled(w, step) && NoDeletes(Next(w, step))
    ensures Once(Next(w, step)) && NoDeletes(w)
  {
    var v := Next(w, step);
    Frame(w, step);
    NoDeletesBefore(w, v);
    if step.Sweep? {
      SweepDeletes(w);
    } else if step.Apply? {
      hide Inv, Once, Applied;
      ApplyKeepsOnce(w, step.k, step.version);
    } else {
      FatesStayFit(w, step);
      hide Inv, Enabled, Next, Knows;
      forall j | 0 <= j < |v.clients| ensures Knows(v, j) {
        if Actor(step) == Some(j) {
          ActorKnows(w, step);
        } else {
          BystanderKnows(w, v, Actor(step), j);
        }
      }
    }
  }

  lemma SweepDeletes(w: World)
    requires Enabled(w, Sweep)
    ensures !NoDeletes(Next(w, Sweep))
  {
    assert Next(w, Sweep).log[|w.log|].after.None?;
  }

  lemma NoDeletesBefore(w: World, v: World)
    requires NoDeletes(v) && w.log <= v.log
    ensures NoDeletes(w)
  {
    forall e | 0 <= e < |w.log| ensures w.log[e].after.Some? {
      assert v.log[e] == w.log[e];
    }
  }

  lemma StartIsOnce(w: World)
    requires Start(w)
    ensures Once(w)
  {
  }

  lemma {:induction false} RunKeepsOnce(w: World, steps: seq<Step>)
    requires Inv(w) && PutsOnly(w) && Once(w) && Allowed(w, steps) && NoDeletes(After(w, steps))
    ensures Inv(After(w, steps)) && PutsOnly(After(w, steps)) && Once(After(w, steps))
    decreases |steps|
  {
    hide Inv, Once, Enabled, Next, NoDeletes;
    if steps != [] {
      Frame(w, steps[0]);
      RunFrame(Next(w, steps[0]), steps[1..]);
      NoDeletesBefore(Next(w, steps[0]), After(w, steps));
      StepKeepsInv(w, steps[0]);
      StepKeepsOnce(w, steps[0]);
      RunKeepsOnce(Next(w, steps[0]), steps[1..]);
    }
  }

  // ---------- refinement ----------

  lemma HolderKept(w: World, v: World)
    requires SendsKept(w, v) && v.initial == w.initial && w.log <= v.log
    requires Logged(w) && (w.log == [] ==> v.log == [])
    ensures HolderOf(v) == HolderOf(w)
  {
    if w.log != [] {
      assert EventFits(w, w.log[0]) && v.log[0] == w.log[0];
    }
  }

  /** One client's phase changes: it is told something, or nothing. */
  lemma PhaseTells(w: World, v: World, i: nat)
    requires Inv(v) && PutsOnly(v) && Once(v) && NoDeletes(v)
    requires i < |w.clients| && |v.clients| == |w.clients| && HolderOf(v) == HolderOf(w)
    requires forall j :: 0 <= j < |w.clients| && j != i ==> v.clients[j] == w.clients[j]
    requires !w.clients[i].phase.Done?
    ensures SpecStep(View(w), View(v))
  {
    var told := ToldBy(v.clients[i].phase);
    assert Knows(v, i);
    if told.Nothing? {
      assert View(v).told == View(w).told;
    } else {
      if told.ToldStored? {
        LandedHolds(v, i);
      } else if told.ToldConflict? {
        BeatenDoesNotHold(v, i);
      }
      assert View(v).told == View(w).told[i := told];
      assert Tell(View(w), View(v), i, told);
    }
  }

  lemma BeatenDoesNotHold(w: World, i: nat)
    requires Inv(w) && Beaten(w, i)
    ensures HolderOf(w) != By(i)
  {
    if w.log != [] && w.log[0].send.Some? {
      assert EventFits(w, w.log[0]);
    }
  }

  lemma LandingLands(w: World, k: nat, version: nat)
    requires Inv(w) && PutsOnly(w) && Once(w) && NoDeletes(w)
    requires k < |w.sends| && w.sends[k].fate.InFlight? && CanApply(w, w.sends[k].client) && w.cell.None?
    ensures Land(View(w), View(Applied(w, k, version)), w.sends[k].client)
  {
    OneChange(w);
    var i := w.sends[k].client;
    var v := Applied(w, k, version);
    assert Knows(w, i);
    assert View(v).told == View(w).told;
    assert w.log == [];
  }

  /** Every step of every driver is a step of the specification. */
  lemma StepRefines(w: World, step: Step)
    requires Inv(w) && PutsOnly(w) && Once(w) && Enabled(w, step) && NoDeletes(Next(w, step))
    ensures SpecStep(View(w), View(Next(w, step)))
  {
    var v := Next(w, step);
    StepKeepsInv(w, step);
    StepKeepsOnce(w, step);
    Frame(w, step);
    if step.Apply? {
      ApplyRefines(w, step.k, step.version);
    } else {
      OtherStepsRefine(w, step);
    }
  }

  lemma ApplyRefines(w: World, k: nat, version: nat)
    requires Inv(w) && PutsOnly(w) && Once(w) && NoDeletes(w)
    requires k < |w.sends| && w.sends[k].fate.InFlight? && CanApply(w, w.sends[k].client)
    ensures SpecStep(View(w), View(Applied(w, k, version)))
  {
    assert w.clients[w.sends[k].client].job.Put?;
    if w.cell.None? {
      LandingLands(w, k, version);
    } else {
      var v := Applied(w, k, version);
      assert v.clients == w.clients && v.log == w.log;
      HolderKept(w, v);
      assert View(v).told == View(w).told;
    }
  }

  lemma OtherStepsRefine(w: World, step: Step)
    requires Inv(w) && Enabled(w, step) && !step.Apply? && NoDeletes(Next(w, step))
    requires Inv(Next(w, step)) && PutsOnly(Next(w, step)) && Once(Next(w, step))
    ensures SpecStep(View(w), View(Next(w, step)))
  {
    var v := Next(w, step);
    if step.Sweep? {
      SweepDeletes(w);
    } else {
      Frame(w, step);
      HolderKept(w, v);
      if Actor(step).Some? {
        PhaseTells(w, v, Actor(step).value);
      } else {
        assert View(v).told == View(w).told;
      }
    }
  }

  /** Over any run without a deletion, the drivers' view moves as the specification does, and stays truthful. */
  lemma {:induction false} RunIsTruthful(w: World, steps: seq<Step>)
    requires Inv(w) && PutsOnly(w) && Once(w) && Allowed(w, steps) && NoDeletes(After(w, steps)) && Truthful(View(w))
    ensures Truthful(View(After(w, steps))) && |After(w, steps).clients| == |w.clients|
    ensures !HolderOf(w).Nobody? ==> HolderOf(After(w, steps)) == HolderOf(w)
    ensures forall i :: 0 <= i < |w.clients| && w.clients[i].phase.Done? ==>
              View(After(w, steps)).told[i] == ToldBy(w.clients[i].phase)
    decreases |steps|
  {
    hide Inv, Once, Enabled, Next, NoDeletes, Truthful, SpecStep;
    if steps != [] {
      var v := Next(w, steps[0]);
      Frame(w, steps[0]);
      RunFrame(v, steps[1..]);
      NoDeletesBefore(v, After(w, steps));
      StepKeepsInv(w, steps[0]);
      StepKeepsOnce(w, steps[0]);
      StepRefines(w, steps[0]);
      SpecStepIsTruthful(View(w), View(v));
      RunIsTruthful(v, steps[1..]);
      DoneIsTold(w, v);
    }
    RunFrame(w, steps);
  }

  lemma DoneIsTold(w: World, v: World)
    requires |v.clients| == |w.clients|
    requires forall i :: 0 <= i < |w.clients| && !View(w).told[i].Nothing? ==> View(v).told[i] == View(w).told[i]
    ensures forall i :: 0 <= i < |w.clients| && w.clients[i].phase.Done? ==>
              v.clients[i].phase.Done? && ToldBy(v.clients[i].phase) == ToldBy(w.clients[i].phase)
  {
    forall i | 0 <= i < |w.clients| && w.clients[i].phase.Done?
      ensures v.clients[i].phase.Done? && ToldBy(v.clients[i].phase) == ToldBy(w.clients[i].phase)
    {
      assert !View(w).told[i].Nothing?;
      assert View(v).told[i] == View(w).told[i];
    }
  }

  // ---------- the theorems ----------

  lemma StartIsTruthful(w: World)
    requires Start(w)
    ensures Truthful(View(w))
  {
  }

  /** Of any number of racing calls, one at most returns, and the object is then exactly what that one wrote. */
  lemma OneWinner(w: World, steps: seq<Step>, i: nat, j: nat)
    requires Start(w) && PutsOnly(w) && Allowed(w, steps) && NoDeletes(After(w, steps))
    requires i < |w.clients| && j < |w.clients|
    requires i < |After(w, steps).clients| && After(w, steps).clients[i].phase == Done(Returned)
    requires j < |After(w, steps).clients| && After(w, steps).clients[j].phase == Done(Returned)
    ensures i == j
    ensures var cell := After(w, steps).cell;
            && cell.Some? && cell.value.id == Some(w.clients[i].job.writeId)
            && cell.value.bytes == Concat(w.clients[i].job.parts)
  {
    StartHasInv(w);
    StartIsOnce(w);
    RunKeepsOnce(w, steps);
    RunFrame(w, steps);
    var v := After(w, steps);
    assert Knows(v, i) && Knows(v, j);
    LandedHolds(v, i);
    LandedHolds(v, j);
  }

  /** A call told of a conflict wrote nothing, and nothing it sent will ever be there, however late it is applied. */
  lemma ConflictNeverLands(w: World, steps: seq<Step>, later: seq<Step>, i: nat)
    requires Start(w) && PutsOnly(w) && Allowed(w, steps + later) && NoDeletes(After(w, steps + later))
    requires i < |w.clients| && Allowed(w, steps) && i < |After(w, steps).clients|
    requires After(w, steps).clients[i].phase == Done(Conflict)
    ensures var v := After(w, steps + later);
            && !LandedBy(v, i)
            && (v.cell.Some? ==> v.cell.value.id != Some(w.clients[i].job.writeId))
  {
    RunsCompose(w, steps, later);
    var (u, v) := (After(w, steps), After(w, steps + later));
    RunFrame(u, later);
    RunFrame(w, steps);
    NoDeletesBefore(u, v);
    StartHasInv(w);
    StartIsOnce(w);
    StartIsTruthful(w);
    RunKeepsOnce(w, steps);
    RunIsTruthful(w, steps);
    RunKeepsOnce(u, later);
    RunIsTruthful(u, later);
    assert ToldBy(u.clients[i].phase).ToldConflict?;
    assert View(v).told[i].ToldConflict?;
    if LandedBy(v, i) {
      LandedHolds(v, i);
    }
    if v.cell.Some? && v.cell.value.id == Some(w.clients[i].job.writeId) {
      IdNamesWriter(v, i);
      OneChange(v);
    }
  }

  /** Every run of racing calls is a run of the specification, from its empty verdicts. */
  lemma RunsRefine(w: World, steps: seq<Step>, step: Step)
    requires Start(w) && PutsOnly(w) && Allowed(w, steps + [step]) && NoDeletes(After(w, steps + [step]))
    ensures Allowed(w, steps) && SpecStep(View(After(w, steps)), View(After(w, steps + [step])))
  {
    RunsCompose(w, steps, [step]);
    var u := After(w, steps);
    assert After(u, [step]) == Next(u, step);
    RunFrame(u, [step]);
    NoDeletesBefore(u, Next(u, step));
    StartHasInv(w);
    StartIsOnce(w);
    RunKeepsOnce(w, steps);
    StepRefines(u, step);
  }
}
