/**
 * Requests conditioned on a version: the storage half's delete and the registry's compare-and-swap. Where a version is
 * never given twice, one that is gone never comes back, and that is what every definite answer to such a request rests
 * on, whatever was lost, late or sent twice.
 */
module Swaps {

  import opened Bytes
  import opened Service
  import opened History
  import opened Landings
  import BlockIds

  // ---------- versions ----------

  /** No two objects the name has held share a version. */
  predicate NoReuse(w: World) {
    forall e, f :: 0 <= f < e <= |w.log| && CellAt(w, e).Some? && CellAt(w, f).Some? ==>
      CellAt(w, e).value.version != CellAt(w, f).value.version
  }

  lemma EarlierNoReuse(w: World, v: World)
    requires NoReuse(v) && v.initial == w.initial && w.log <= v.log
    ensures NoReuse(w)
  {
    forall e, f | 0 <= f < e <= |w.log| && CellAt(w, e).Some? && CellAt(w, f).Some?
      ensures CellAt(w, e).value.version != CellAt(w, f).value.version
    {
      assert CellAt(v, e) == CellAt(w, e) && CellAt(v, f) == CellAt(w, f);
    }
  }

  /** The version has been there, and is there no more. */
  predicate Retired(w: World, version: nat) {
    WasThere(w, version) && !HasVersion(w.cell, version)
  }

  lemma StillWasThere(w: World, v: World, version: nat)
    requires WasThere(w, version) && v.initial == w.initial && w.log <= v.log
    ensures WasThere(v, version)
  {
    var e :| 0 <= e <= |w.log| && HasVersion(CellAt(w, e), version);
    assert CellAt(v, e) == CellAt(w, e);
  }

  /** A version that is gone stays gone. */
  lemma RetiredForever(w: World, v: World, version: nat)
    requires Chained(w) && Chained(v) && v.initial == w.initial && w.log <= v.log && NoReuse(v)
    requires Retired(w, version)
    ensures Retired(v, version)
  {
    StillWasThere(w, v, version);
    var e :| 0 <= e <= |w.log| && HasVersion(CellAt(w, e), version);
    assert CellAt(v, e) == CellAt(w, e) && CellAt(v, |v.log|) == v.cell;
  }

  /** The version a request is conditioned on, if it is. */
  function ConditionOf(job: Job): Option<nat> {
    match job
    case Put(_, _, _, _) => None
    case Erase(v, conditional) => if conditional then Some(v) else None
    case RowWrite(_, _, expected) => if expected.Version? then Some(expected.version) else None
    case RowDelete(v) => Some(v)
  }

  // ---------- what an answered request knows ----------

  /** A request that was evaluated, whatever became of it, leaves its version gone. */
  predicate SendKnows(w: World, k: nat)
    requires k < |w.sends|
  {
    w.sends[k].client < |w.clients| && ConditionOf(JobOf(w, k)).Some? ==>
      && WasThere(w, ConditionOf(JobOf(w, k)).value)
      && (w.sends[k].fate.Landed? || w.sends[k].fate.Refused? || w.sends[k].fate.Missing? ==>
            Retired(w, ConditionOf(JobOf(w, k)).value))
  }

  /** The last change is not the client's. */
  predicate NotLast(w: World, i: nat) {
    w.log != [] && w.log[|w.log| - 1].send.Some? && w.log[|w.log| - 1].send.value < |w.sends| ==>
      w.sends[w.log[|w.log| - 1].send.value].client != i
  }

  predicate ClientKnows(w: World, i: nat)
    requires i < |w.clients|
  {
    var job := w.clients[i].job;
    ConditionOf(job).Some? ==>
      var version := ConditionOf(job).value;
      match w.clients[i].phase
      case Reading(answer) =>
        && WasThere(w, version)
        && (answer.Precondition? ==> Retired(w, version))
        && (answer.Precondition? || (w.driver.S3? && job.Erase?))
        && (job.RowWrite? ==> w.driver.Azure?)
      case Done(Returned) => Retired(w, version)
      case Done(Conflict) => !w.driver.S3? ==> Retired(w, version)
      case Done(Unsettled) => Retired(w, version) && NotLast(w, i)
      case _ => true
  }

  /** A row write that found no row is not the one that made the last change. */
  predicate MissingIsNotLast(w: World, k: nat)
    requires k < |w.sends|
  {
    w.sends[k].client < |w.clients| && JobOf(w, k).RowWrite? && w.sends[k].fate.Missing? ==>
      NotLast(w, w.sends[k].client)
  }

  predicate Versioned(w: World) {
    && (forall k :: 0 <= k < |w.sends| ==> SendKnows(w, k) && MissingIsNotLast(w, k))
    && (forall i :: 0 <= i < |w.clients| ==> ClientKnows(w, i))
  }

  // ---------- the steps ----------

  /** A version the last change took away, or replaced, is gone. */
  lemma ReplacedIsRetired(w: World, version: nat)
    requires Chained(w) && NoReuse(w) && w.log != [] && HasVersion(w.log[|w.log| - 1].before, version)
    ensures Retired(w, version)
  {
    var e := |w.log| - 1;
    assert w.log[e].before == CellAt(w, e);
    assert HasVersion(CellAt(w, e), version);
    assert CellAt(w, e + 1) == w.cell;
  }

  lemma SameHistory(w: World, v: World, version: nat)
    requires v.log == w.log && v.cell == w.cell && v.initial == w.initial
    ensures WasThere(w, version) == WasThere(v, version) && Retired(w, version) == Retired(v, version)
  {
    assert forall e :: 0 <= e <= |w.log| ==> CellAt(v, e) == CellAt(w, e);
    if WasThere(w, version) {
      StillWasThere(w, v, version);
    }
    if WasThere(v, version) {
      StillWasThere(v, w, version);
    }
  }

  lemma SameLast(w: World, v: World, i: nat)
    requires v.log == w.log && SendsKept(w, v) && Logged(w)
    ensures NotLast(w, i) == NotLast(v, i)
  {
    if w.log != [] {
      assert EventFits(w, w.log[|w.log| - 1]);
    }
  }

  lemma OldSendKnows(w: World, v: World, actor: Option<nat>, k: nat)
    requires Logged(w) && k < |w.sends| && SendKnows(w, k) && MissingIsNotLast(w, k)
    requires ClientsFrame(w, v, actor) && SendsFrame(w, v, actor) && Unchanging(w, v)
    requires v.sends[k].fate == w.sends[k].fate || v.sends[k].fate.Raced? || v.sends[k].fate.Unknown?
    ensures SendKnows(v, k) && MissingIsNotLast(v, k)
  {
    if w.sends[k].client < |w.clients| && ConditionOf(JobOf(w, k)).Some? {
      SameHistory(w, v, ConditionOf(JobOf(w, k)).value);
    }
    SameLast(w, v, w.sends[k].client);
  }

  lemma BystanderKnows(w: World, v: World, actor: Option<nat>, j: nat)
    requires Logged(w) && j < |w.clients| && Some(j) != actor && ClientKnows(w, j)
    requires ClientsFrame(w, v, actor) && SendsFrame(w, v, actor) && Unchanging(w, v)
    ensures ClientKnows(v, j)
  {
    if ConditionOf(w.clients[j].job).Some? {
      SameHistory(w, v, ConditionOf(w.clients[j].job).value);
    }
    SameLast(w, v, j);
  }

  /** A new request is conditioned on a version that has been there. */
  lemma NewSendKnows(w: World, step: Step)
    requires Inv(w) && Versioned(w) && Enabled(w, step) && !MayChange(step)
    ensures var v := Next(w, step);
            && |w.sends| <= |v.sends|
            && forall k :: |w.sends| <= k < |v.sends| ==> SendKnows(v, k) && MissingIsNotLast(v, k)
  {
    var v := Next(w, step);
    Frame(w, step);
    if Actor(step).Some? && ConditionOf(w.clients[Actor(step).value].job).Some? {
      var i := Actor(step).value;
      SenderMayBegin(w, step, i);
      if |w.sends| < |v.sends| {
        SameHistory(w, v, ConditionOf(w.clients[i].job).value);
      }
    }
  }

  lemma SenderMayBegin(w: World, step: Step, i: nat)
    requires Inv(w) && Versioned(w) && Enabled(w, step) && Actor(step) == Some(i) && i < |w.clients|
    requires ConditionOf(w.clients[i].job).Some?
    ensures |Next(w, step).sends| > |w.sends| ==> WasThere(w, ConditionOf(w.clients[i].job).value)
  {
    hide Inv, WasThere, Retired, NotLast, Answers, Settle, Decide, NameOf, BlockIds.IsNonce;
    PhaseOf(w, i);
    if step.Replay? {
      assert SendKnows(w, w.clients[i].phase.current);
    }
  }

  lemma FatesOfQuietSteps(w: World, step: Step)
    requires Enabled(w, step) && !MayChange(step)
    ensures var v := Next(w, step);
            && |w.sends| <= |v.sends|
            && forall k :: 0 <= k < |w.sends| ==>
                 v.sends[k].fate == w.sends[k].fate || v.sends[k].fate.Raced? || v.sends[k].fate.Unknown?
  {
    hide Answers, Settle, Decide, MayBegin, NameOf, BlockIds.IsNonce, CanLose, CanApply, Replays;
  }

  lemma HeardKnows(w: World, i: nat, answer: Answer)
    requires Inv(w) && Versioned(w) && i < |w.clients|
    requires w.clients[i].phase.Waiting? && w.clients[i].phase.current < |w.sends|
    requires Answers(w.driver, w.clients[i].job, w.sends[w.clients[i].phase.current].fate, answer)
    ensures ClientKnows(Heard(w, i, answer), i)
  {
    var v := Heard(w, i, answer);
    PhaseOf(w, i);
    InvLogged(w);
    SameLast(w, v, i);
    assert SendKnows(w, w.clients[i].phase.current) && MissingIsNotLast(w, w.clients[i].phase.current);
    hide Inv, Versioned, WasThere, Retired, HasVersion, NotLast, PhaseFits, Answers, Decide, Logged;
    if ConditionOf(w.clients[i].job).Some? {
      SameHistory(w, v, ConditionOf(w.clients[i].job).value);
      AnswerKnows(w, i, answer);
    }
  }

  /** What the answer to a conditional request says of its version. */
  lemma AnswerKnows(w: World, i: nat, answer: Answer)
    requires i < |w.clients| && ConditionOf(w.clients[i].job).Some?
    requires w.clients[i].phase.Waiting? && w.clients[i].phase.current < |w.sends|
    requires w.sends[w.clients[i].phase.current].client == i
    requires SendKnows(w, w.clients[i].phase.current) && MissingIsNotLast(w, w.clients[i].phase.current)
    requires Answers(w.driver, w.clients[i].job, w.sends[w.clients[i].phase.current].fate, answer)
    ensures var (job, version) := (w.clients[i].job, ConditionOf(w.clients[i].job).value);
            match Decide(w.driver, job, w.clients[i].phase.resent, answer)
            case Finish(Returned) => Retired(w, version)
            case Finish(Conflict) => !w.driver.S3? ==> Retired(w, version)
            case Finish(Unsettled) => Retired(w, version) && NotLast(w, i)
            case ReadBack =>
              && WasThere(w, version) && (answer.Precondition? ==> Retired(w, version))
              && (answer.Precondition? || (w.driver.S3? && job.Erase?)) && (job.RowWrite? ==> w.driver.Azure?)
            case _ => true
  {
    hide WasThere, Retired, HasVersion, NotLast;
  }

  lemma InvLogged(w: World)
    requires Inv(w)
    ensures Logged(w) && Chained(w)
  {
  }

  lemma LookedKnows(w: World, i: nat)
    requires Inv(w) && Versioned(w) && i < |w.clients| && w.clients[i].phase.Reading?
    ensures ClientKnows(WithPhase(w, i, Done(Settle(w.driver, w.clients[i].job, w.clients[i].phase.answer, w.cell))), i)
  {
    var job := w.clients[i].job;
    var outcome := Settle(w.driver, job, w.clients[i].phase.answer, w.cell);
    var v := WithPhase(w, i, Done(outcome));
    assert ClientKnows(w, i);
    if ConditionOf(job).Some? {
      SameHistory(w, v, ConditionOf(job).value);
      SameLast(w, v, i);
      if outcome.Unsettled? {
        NotStoredIsNotLast(w, i);
      }
    }
  }

  /**
   * On Azure a row shows who wrote it: one that shows another's id, or is gone, was not last written by this client.
   */
  lemma NotStoredIsNotLast(w: World, i: nat)
    requires Inv(w) && w.driver.Azure? && i < |w.clients| && w.clients[i].job.RowWrite?
    requires !(w.cell.Some? && w.cell.value.id == Some(w.clients[i].job.rowId))
    ensures NotLast(w, i)
  {
    if w.log != [] {
      assert EventFits(w, w.log[|w.log| - 1]);
      assert w.cell == CellAt(w, |w.log|);
    }
  }

  lemma ActorKnows(w: World, step: Step)
    requires Inv(w) && Sound(w) && Versioned(w) && Enabled(w, step)
    requires Actor(step).Some? && Actor(step).value < |w.clients|
    ensures Actor(step).value < |Next(w, step).clients| && ClientKnows(Next(w, step), Actor(step).value)
  {
    hide Inv, Sound, Versioned, Decide, Settle, Answers, MayBegin, NameOf, BlockIds.IsNonce, Replays, WasThere,
      Retired, NotLast;
    match step
    case Hear(i, answer) => HeardKnows(w, i, answer);
    case Look(i) => LookedKnows(w, i);
    case _ =>
  }

  lemma QuietStepKeepsVersioned(w: World, step: Step)
    requires Inv(w) && Sound(w) && Versioned(w) && Enabled(w, step) && !MayChange(step)
    ensures Versioned(Next(w, step))
  {
    var v := Next(w, step);
    Frame(w, step);
    FatesOfQuietSteps(w, step);
    NewSendKnows(w, step);
    InvLogged(w);
    hide Inv, Sound, Enabled, Next, SendKnows, MissingIsNotLast, ClientKnows;
    forall k | 0 <= k < |v.sends| ensures SendKnows(v, k) && MissingIsNotLast(v, k) {
      if k < |w.sends| {
        OldSendKnows(w, v, Actor(step), k);
      }
    }
    forall j | 0 <= j < |v.clients| ensures ClientKnows(v, j) {
      if Actor(step) == Some(j) {
        ActorKnows(w, step);
      } else {
        BystanderKnows(w, v, Actor(step), j);
      }
    }
  }

  /** A request is evaluated and does not land: its version is gone, or was never asked for. */
  lemma EvaluatedKeepsVersioned(w: World, k: nat, fate: Fate)
    requires Inv(w) && Versioned(w) && k < |w.sends| && w.sends[k].fate.InFlight?
    requires !Holds(JobOf(w, k), w.cell)
    requires fate == if w.cell.None? && NeedsObject(JobOf(w, k)) then Missing else Refused
    ensures Versioned(WithFate(w, k, fate))
  {
    var v := WithFate(w, k, fate);
    InvLogged(w);
    forall m | 0 <= m < |v.sends| ensures SendKnows(v, m) && MissingIsNotLast(v, m) {
      assert SendKnows(w, m) && MissingIsNotLast(w, m);
      EvaluatedSendKnows(w, v, k, m);
    }
    forall j | 0 <= j < |v.clients| ensures ClientKnows(v, j) {
      assert ClientKnows(w, j);
      EvaluatedBystander(w, v, j);
    }
  }

  lemma EvaluatedBystander(w: World, v: World, j: nat)
    requires Logged(w) && j < |w.clients| && ClientKnows(w, j)
    requires v == w.(sends := v.sends) && SendsKept(w, v)
    ensures ClientKnows(v, j)
  {
    if ConditionOf(w.clients[j].job).Some? {
      SameHistory(w, v, ConditionOf(w.clients[j].job).value);
    }
    SameLast(w, v, j);
  }

  lemma EvaluatedSendKnows(w: World, v: World, k: nat, m: nat)
    requires Inv(w) && Logged(w) && k < |w.sends| && w.sends[k].fate.InFlight? && m < |w.sends|
    requires !Holds(JobOf(w, k), w.cell)
    requires v == WithFate(w, k, if w.cell.None? && NeedsObject(JobOf(w, k)) then Missing else Refused)
    requires SendKnows(w, m) && MissingIsNotLast(w, m)
    ensures SendKnows(v, m) && MissingIsNotLast(v, m)
  {
    var i := w.sends[m].client;
    SameLast(w, v, i);
    if i < |w.clients| && ConditionOf(JobOf(w, m)).Some? {
      SameHistory(w, v, ConditionOf(JobOf(w, m)).value);
    }
    if w.sends[k].client < |w.clients| && ConditionOf(JobOf(w, k)).Some? {
      NotHeld(JobOf(w, k), w.cell);
    }
    hide Holds, ConditionOf, WasThere, HasVersion, NotLast;
    if m == k && w.cell.None? && JobOf(w, k).RowWrite? {
      EmptyIsNotLast(w, i);
    }
  }

  lemma NotHeld(job: Job, cell: Option<Entry>)
    requires !Holds(job, cell) && ConditionOf(job).Some?
    ensures !HasVersion(cell, ConditionOf(job).value)
  {
  }

  /** A row write that made the last change left a row. */
  lemma EmptyIsNotLast(w: World, i: nat)
    requires Inv(w) && w.cell.None? && i < |w.clients| && w.clients[i].job.RowWrite?
    ensures NotLast(w, i)
  {
    if w.log != [] {
      assert EventFits(w, w.log[|w.log| - 1]);
      assert w.cell == CellAt(w, |w.log|);
    }
  }

  /** A change is made, and every version that was gone stays gone. */
  lemma ChangeKeepsVersioned(w: World, v: World, event: Event)
    requires Inv(w) && Sound(w) && Versioned(w) && Inv(v) && NoReuse(v)
    requires v.clients == w.clients && v.driver == w.driver && v.initial == w.initial && v.log == w.log + [event]
    requires SendsKept(w, v) && |v.sends| == |w.sends|
    requires event.before == w.cell && EventFits(v, event)
    requires forall k :: 0 <= k < |w.sends| && Some(k) != event.send ==> v.sends[k] == w.sends[k]
    ensures Versioned(v)
  {
    forall m | 0 <= m < |v.sends| ensures SendKnows(v, m) && MissingIsNotLast(v, m) {
      assert SendKnows(w, m) && MissingIsNotLast(w, m);
      ChangedSendKnows(w, v, event, m);
    }
    forall j | 0 <= j < |v.clients| ensures ClientKnows(v, j) {
      assert ClientKnows(w, j);
      ChangedClientKnows(w, v, event, j);
    }
  }

  /** The client of a change conditioned on a version that is gone is another. */
  lemma RetiredDoesNotChange(w: World, v: World, event: Event, i: nat)
    requires v.clients == w.clients && event.before == w.cell && EventFits(v, event)
    requires i < |w.clients| && ConditionOf(w.clients[i].job).Some?
    requires Retired(w, ConditionOf(w.clients[i].job).value)
    requires v.log == w.log + [event]
    ensures NotLast(v, i)
  {
  }

  lemma ChangedClientKnows(w: World, v: World, event: Event, j: nat)
    requires Chained(w) && Chained(v) && NoReuse(v) && j < |w.clients| && ClientKnows(w, j)
    requires v.clients == w.clients && v.driver == w.driver && v.initial == w.initial && v.log == w.log + [event]
    requires event.before == w.cell && EventFits(v, event)
    ensures ClientKnows(v, j)
  {
    if ConditionOf(w.clients[j].job).Some? {
      var version := ConditionOf(w.clients[j].job).value;
      if Retired(w, version) {
        RetiredForever(w, v, version);
        RetiredDoesNotChange(w, v, event, j);
      }
      if WasThere(w, version) {
        StillWasThere(w, v, version);
      }
    }
  }

  lemma EventTakesVersion(w: World, event: Event, k: nat)
    requires EventFits(w, event) && event.send == Some(k)
    ensures k < |w.sends| && w.sends[k].client < |w.clients| && w.sends[k].fate.Landed?
    ensures ConditionOf(JobOf(w, k)).Some? ==> HasVersion(event.before, ConditionOf(JobOf(w, k)).value)
  {
  }

  lemma ChangedSendKnows(w: World, v: World, event: Event, m: nat)
    requires Inv(w) && Inv(v) && NoReuse(v) && Sound(w) && m < |w.sends| && |v.sends| == |w.sends|
    requires SendKnows(w, m) && MissingIsNotLast(w, m) && SendsKept(w, v)
    requires v.clients == w.clients && v.initial == w.initial && v.log == w.log + [event]
    requires event.before == w.cell && EventFits(v, event)
    requires Some(m) != event.send ==> v.sends[m] == w.sends[m]
    ensures SendKnows(v, m) && MissingIsNotLast(v, m)
  {
    InvLogged(w);
    InvLogged(v);
    hide Inv, Sound, NoReuse, Chained, Logged, EventFits, WasThere;
    var i := w.sends[m].client;
    if i < |w.clients| && ConditionOf(JobOf(w, m)).Some? {
      var version := ConditionOf(JobOf(w, m)).value;
      StillWasThere(w, v, version);
      if Some(m) == event.send {
        assert v.log[|v.log| - 1] == event;
        EventTakesVersion(v, event, m);
        ReplacedIsRetired(v, version);
      } else if Retired(w, version) {
        RetiredForever(w, v, version);
        RetiredDoesNotChange(w, v, event, i);
      }
    }
  }

  lemma LandingKeepsVersioned(w: World, k: nat, version: nat)
    requires Inv(w) && Sound(w) && Versioned(w) && k < |w.sends| && w.sends[k].fate.InFlight?
    requires CanApply(w, w.sends[k].client) && Holds(JobOf(w, k), w.cell) && NoReuse(Applied(w, k, version))
    ensures Versioned(Applied(w, k, version))
  {
    var v := Applied(w, k, version);
    LandingKeepsInv(w, k, version);
    var event := v.log[|w.log|];
    assert v.log[|v.log| - 1] == event && event.send == Some(k);
    LastFits(v);
    hide Inv, Sound, Versioned, Outgrowth, Holds, CanApply, NoReuse, EventFits;
    ChangeKeepsVersioned(w, v, event);
  }

  lemma LastFits(w: World)
    requires Inv(w) && w.log != []
    ensures EventFits(w, w.log[|w.log| - 1])
  {
  }

  lemma SweepKeepsVersioned(w: World, v: World)
    requires Inv(w) && Sound(w) && Versioned(w) && w.cell.Some?
    requires v == w.(cell := None, log := w.log + [Event(None, w.cell, None)]) && NoReuse(v)
    ensures Versioned(v)
  {
    hide Inv, Sound, Versioned, NoReuse, EventFits;
    SweepKeepsInv(w);
    LastFits(v);
    assert v.log[|v.log| - 1] == Event(None, w.cell, None);
    ChangeKeepsVersioned(w, v, Event(None, w.cell, None));
  }

  lemma ApplyKeepsVersioned(w: World, k: nat, version: nat)
    requires Inv(w) && Sound(w) && Versioned(w) && k < |w.sends| && w.sends[k].fate.InFlight?
    requires CanApply(w, w.sends[k].client) && NoReuse(Applied(w, k, version))
    ensures Versioned(Applied(w, k, version))
  {
    hide Inv, Sound, Versioned, NoReuse, Holds, Outgrowth;
    if Holds(JobOf(w, k), w.cell) {
      LandingKeepsVersioned(w, k, version);
    } else {
      EvaluatedKeepsVersioned(w, k, if w.cell.None? && NeedsObject(JobOf(w, k)) then Missing else Refused);
    }
  }

  lemma ApplyStep(w: World, k: nat, version: nat)
    requires Enabled(w, Apply(k, version))
    ensures k < |w.sends| && w.sends[k].fate.InFlight? && CanApply(w, w.sends[k].client)
    ensures Next(w, Apply(k, version)) == Applied(w, k, version)
  {
    hide CanApply, Applied;
  }

  lemma SweepStep(w: World)
    requires Enabled(w, Sweep)
    ensures w.cell.Some? && Next(w, Sweep) == w.(cell := None, log := w.log + [Event(None, w.cell, None)])
  {
  }

  lemma StepKeepsVersioned(w: World, step: Step)
    requires Inv(w) && Sound(w) && Versioned(w) && Enabled(w, step) && NoReuse(Next(w, step))
    ensures Versioned(Next(w, step))
  {
    hide Inv, Sound, Versioned, NoReuse, Enabled, Next, CanApply, Applied, MayChange;
    if step.Apply? {
      ApplyStep(w, step.k, step.version);
      ApplyKeepsVersioned(w, step.k, step.version);
    } else if step.Sweep? {
      SweepStep(w);
      SweepKeepsVersioned(w, Next(w, step));
    } else {
      IsQuiet(step);
      QuietStepKeepsVersioned(w, step);
    }
  }

  lemma IsQuiet(step: Step)
    requires !step.Apply? && !step.Sweep?
    ensures !MayChange(step)
  {
  }

  lemma {:induction false} RunKeepsVersioned(w: World, steps: seq<Step>)
    requires Inv(w) && Sound(w) && Versioned(w) && Allowed(w, steps) && NoReuse(After(w, steps))
    ensures Inv(After(w, steps)) && Sound(After(w, steps)) && Versioned(After(w, steps))
    decreases |steps|
  {
    hide Inv, Sound, Versioned, NoReuse, Enabled, Next;
    if steps != [] {
      var v := Next(w, steps[0]);
      Frame(w, steps[0]);
      RunFrame(v, steps[1..]);
      EarlierNoReuse(v, After(w, steps));
      StepKeepsInv(w, steps[0]);
      StepIsSound(w, steps[0]);
      StepKeepsVersioned(w, steps[0]);
      RunKeepsVersioned(v, steps[1..]);
    }
  }

  lemma StartIsVersioned(w: World)
    requires Start(w)
    ensures Inv(w) && Sound(w) && Versioned(w)
  {
    StartHasInv(w);
  }

  // ---------- the theorems ----------

  /** Everything the run kept, in one place. */
  lemma RunKeepsAll(w: World, steps: seq<Step>)
    requires Start(w) && Allowed(w, steps) && NoReuse(After(w, steps))
    ensures Inv(After(w, steps)) && Sound(After(w, steps)) && Versioned(After(w, steps)) && SameJobs(w, After(w, steps))
  {
    StartIsVersioned(w);
    RunKeepsVersioned(w, steps);
    RunFrame(w, steps);
  }

  /**
   * A conditional delete that returns leaves no object of its version, then or at any later time. On GCS and Azure one
   * that ends in a conflict leaves none either; only S3's conflict may be of a delete that was never evaluated.
   */
  lemma DeleteReturnsGone(w: World, steps: seq<Step>, later: seq<Step>, i: nat)
    requires Start(w) && Allowed(w, steps + later) && NoReuse(After(w, steps + later))
    requires i < |w.clients| && w.clients[i].job.Erase? && w.clients[i].job.conditional
    requires Allowed(w, steps) && i < |After(w, steps).clients|
    requires || After(w, steps).clients[i].phase == Done(Returned)
             || (After(w, steps).clients[i].phase == Done(Conflict) && !w.driver.S3?)
    ensures !HasVersion(After(w, steps + later).cell, w.clients[i].job.ifVersion)
  {
    RunsCompose(w, steps, later);
    var (u, v) := (After(w, steps), After(w, steps + later));
    RunFrame(u, later);
    RunFrame(w, steps);
    EarlierNoReuse(u, v);
    RunKeepsAll(w, steps);
    RunKeepsAll(w, steps + later);
    assert ClientKnows(u, i);
    InvLogged(u);
    InvLogged(v);
    RetiredForever(u, v, w.clients[i].job.ifVersion);
  }

  /** A conditional delete takes nothing but the version it was given, copies the SDK sends included. */
  lemma DeleteTakesItsVersion(w: World, steps: seq<Step>, e: nat)
    requires Start(w) && Allowed(w, steps) && e < |After(w, steps).log| && After(w, steps).log[e].send.Some?
    requires After(w, steps).log[e].send.value < |After(w, steps).sends|
    requires After(w, steps).sends[After(w, steps).log[e].send.value].client < |w.clients|
    ensures var v := After(w, steps);
            var job := w.clients[v.sends[v.log[e].send.value].client].job;
            job.Erase? && job.conditional ==> HasVersion(v.log[e].before, job.ifVersion) && v.log[e].after.None?
  {
    StartHasInv(w);
    RunKeepsInv(w, steps);
    RunFrame(w, steps);
    var v := After(w, steps);
    assert EventFits(v, v.log[e]);
  }

  /** A swap replaces the very row whose version was read: every position at which that version stood is its own. */
  lemma SwapReplacesWhatWasRead(w: World, steps: seq<Step>, e: nat, f: nat)
    requires Start(w) && Allowed(w, steps) && NoReuse(After(w, steps))
    requires e < |After(w, steps).log| && After(w, steps).log[e].send.Some? && f <= |After(w, steps).log|
    requires After(w, steps).log[e].send.value < |After(w, steps).sends|
    requires After(w, steps).sends[After(w, steps).log[e].send.value].client < |w.clients|
    requires var v := After(w, steps);
             var job := w.clients[v.sends[v.log[e].send.value].client].job;
             ConditionOf(job).Some? && HasVersion(CellAt(v, f), ConditionOf(job).value)
    ensures f == e && After(w, steps).log[e].before == CellAt(After(w, steps), f)
  {
    StartHasInv(w);
    RunKeepsInv(w, steps);
    RunFrame(w, steps);
    var v := After(w, steps);
    assert EventFits(v, v.log[e]) && v.log[e].before == CellAt(v, e);
  }

  /** A swap lands once at most, however often the SDK sends it. */
  lemma SwapLandsOnce(w: World, steps: seq<Step>, e: nat, f: nat)
    requires Start(w) && Allowed(w, steps) && NoReuse(After(w, steps))
    requires e < f < |After(w, steps).log|
    requires var v := After(w, steps);
             && v.log[e].send.Some? && v.log[f].send.Some?
             && v.log[e].send.value < |v.sends| && v.log[f].send.value < |v.sends|
             && v.sends[v.log[e].send.value].client == v.sends[v.log[f].send.value].client < |w.clients|
    ensures var v := After(w, steps); ConditionOf(w.clients[v.sends[v.log[e].send.value].client].job).None?
  {
    StartHasInv(w);
    RunKeepsInv(w, steps);
    RunFrame(w, steps);
    var v := After(w, steps);
    assert EventFits(v, v.log[e]) && v.log[e].before == CellAt(v, e);
    assert EventFits(v, v.log[f]) && v.log[f].before == CellAt(v, f);
  }

  /**
   * Azure's unsettled conflict: nothing of the write lands later, and if it had landed already, the row has changed
   * since. That it did not land is not promised, and `Runs.UnsettledButLanded` shows a run in which it did.
   */
  lemma UnsettledIsReplaced(w: World, steps: seq<Step>, later: seq<Step>, i: nat)
    requires Start(w) && Allowed(w, steps + later) && NoReuse(After(w, steps + later))
    requires i < |w.clients| && w.clients[i].job.RowWrite? && w.clients[i].job.expected.Version?
    requires Allowed(w, steps) && i < |After(w, steps).clients|
    requires After(w, steps).clients[i].phase == Done(Unsettled)
    ensures var v := After(w, steps + later);
            && !HasVersion(v.cell, w.clients[i].job.expected.version)
            && NotLast(v, i)
  {
    RunsCompose(w, steps, later);
    var (u, v) := (After(w, steps), After(w, steps + later));
    RunFrame(u, later);
    RunFrame(w, steps);
    DoneStays(u, later, i);
    RunKeepsAll(w, steps + later);
    assert ClientKnows(v, i);
  }
}
