/**
 * What every run of the service keeps, whatever the clients do and whatever is lost, late or sent twice: the log is one
 * chain of changes, each landed request is in it once and fits what was asked for, and a commit assembled from parts is
 * made of its own client's bytes.
 */
module History {

  import opened Bytes
  import opened Service
  import BlockIds

  predicate Chained(w: World) {
    && (forall e :: 0 <= e < |w.log| ==> w.log[e].before == CellAt(w, e))
    && w.cell == CellAt(w, |w.log|)
  }

  /** The job of the client that sent a request. */
  function JobOf(w: World, k: nat): Job
    requires k < |w.sends| && w.sends[k].client < |w.clients|
  {
    w.clients[w.sends[k].client].job
  }

  /** What a landed request must have left. */
  predicate Fits(driver: Driver, job: Job, after: Option<Entry>) {
    match job
    case Put(writeId, _, parts, _) =>
      after.Some? && after.value.id == Some(writeId) && after.value.bytes == Concat(parts)
    case RowWrite(rowId, body, _) =>
      && after.Some? && after.value.bytes == body
      && after.value.id == if driver.Azure? then Some(rowId) else None
    case _ => after.None?
  }

  predicate EventFits(w: World, event: Event) {
    match event.send
    case None => event.before.Some? && event.after.None?
    case Some(k) =>
      && k < |w.sends| && w.sends[k].client < |w.clients| && w.sends[k].fate.Landed?
      && Holds(JobOf(w, k), event.before) && Fits(w.driver, JobOf(w, k), event.after)
  }

  predicate Logged(w: World) {
    && (forall e :: 0 <= e < |w.log| ==> EventFits(w, w.log[e]))
    && (forall e, f :: 0 <= e < f < |w.log| && w.log[e].send.Some? ==> w.log[e].send != w.log[f].send)
  }

  predicate LandedIsLogged(w: World) {
    forall k :: 0 <= k < |w.sends| && w.sends[k].fate.Landed? ==> InLog(w, k)
  }

  predicate InLog(w: World, k: nat) {
    exists e :: 0 <= e < |w.log| && w.log[e].send == Some(k)
  }

  predicate Owned(w: World) {
    forall k :: 0 <= k < |w.sends| ==> w.sends[k].client < |w.clients|
  }

  predicate WellFormedJobs(w: World) {
    forall i :: 0 <= i < |w.clients| ==> WellFormedJob(w.clients[i].job)
  }

  /** A client that has not committed has sent nothing; one that waits, waits for its own request. */
  predicate Phased(w: World) {
    forall i :: 0 <= i < |w.clients| ==> PhaseFits(w, i)
  }

  predicate PhaseFits(w: World, i: nat)
    requires i < |w.clients|
  {
    match w.clients[i].phase
    case Idle => NoSends(w, i)
    case Staging(acked) => NoSends(w, i) && Stages(w.clients[i].job) && acked <= |w.clients[i].job.parts|
    case Waiting(resent, current) =>
      && current < |w.sends| && w.sends[current].client == i
      && (resent > 0 ==> Resends(w.driver, w.clients[i].job))
      && (resent == 0 && !Replays(w.driver, w.clients[i].job) ==> OnlySend(w, i, current))
    case Backoff(_) => Resends(w.driver, w.clients[i].job)
    case _ => true
  }

  predicate NoSends(w: World, i: nat) {
    forall k :: 0 <= k < |w.sends| ==> w.sends[k].client != i
  }

  predicate OnlySend(w: World, i: nat, current: nat) {
    forall k :: 0 <= k < |w.sends| && w.sends[k].client == i ==> k == current
  }

  /** A stored part holds the bytes its own client gave it. */
  predicate PartsFit(w: World) {
    forall i, n :: 0 <= i < |w.clients| && w.clients[i].job.Put? && WellFormedJob(w.clients[i].job)
                   && 0 <= n < |w.clients[i].job.parts| && NameOf(w.driver, i, w.clients[i].job, n) in w.parts ==>
      w.parts[NameOf(w.driver, i, w.clients[i].job, n)] == w.clients[i].job.parts[n]
  }

  predicate Inv(w: World) {
    && WellFormedJobs(w) && DistinctIds(w) && Owned(w) && Phased(w)
    && Chained(w) && Logged(w) && LandedIsLogged(w) && PartsFit(w)
  }

  lemma StartHasInv(w: World)
    requires Start(w)
    ensures Inv(w)
  {
  }

  // ---------- names ----------

  /** A part's name tells its writer and its place: no writer's part is ever under another's name. */
  lemma NamesAreDistinct(w: World, i: nat, n: nat, j: nat, m: nat)
    requires DistinctIds(w) && i < |w.clients| && j < |w.clients|
    requires w.clients[i].job.Put? && w.clients[j].job.Put?
    requires WellFormedJob(w.clients[i].job) && WellFormedJob(w.clients[j].job)
    requires NameOf(w.driver, i, w.clients[i].job, n) == NameOf(w.driver, j, w.clients[j].job, m)
    ensures i == j && n == m
  {
    if w.driver.Azure? {
      BlockIds.Injective(w.clients[i].job.nonce, n, w.clients[j].job.nonce, m);
    }
  }

  /** A commit is made of its own client's parts, in order, whatever else is in the pool. */
  lemma PayloadIsTheBody(w: World, i: nat)
    requires Inv(w) && i < |w.clients| && w.clients[i].job.Put?
    requires Assembles(w.driver, w.clients[i].job) ==> HasParts(w, i)
    ensures Payload(w, i) == Concat(w.clients[i].job.parts)
  {
    var job := w.clients[i].job;
    if Assembles(w.driver, job) {
      var named := seq(|job.parts|, n requires 0 <= n < |job.parts| => w.parts[NameOf(w.driver, i, job, n)]);
      assert named == job.parts;
    }
  }

  // ---------- what a step leaves alone ----------

  /** The clients run the same jobs against the same service. */
  predicate SameJobs(w: World, v: World) {
    && v.driver == w.driver && v.initial == w.initial && |v.clients| == |w.clients|
    && forall i :: 0 <= i < |w.clients| ==> v.clients[i].job == w.clients[i].job
  }

  lemma JobsKept(w: World, v: World)
    requires SameJobs(w, v) && WellFormedJobs(w) && DistinctIds(w)
    ensures WellFormedJobs(v) && DistinctIds(v)
  {
  }

  /** The requests of `w` are those of `v`, in order, and what landed stays landed. */
  predicate SendsKept(w: World, v: World) {
    && |w.sends| <= |v.sends|
    && forall k :: 0 <= k < |w.sends| ==>
         v.sends[k].client == w.sends[k].client && (w.sends[k].fate.Landed? ==> v.sends[k].fate.Landed?)
  }

  lemma EventKept(w: World, v: World, event: Event)
    requires SameJobs(w, v) && SendsKept(w, v) && EventFits(w, event)
    ensures EventFits(v, event)
  {
  }

  lemma SameLog(w: World, v: World)
    requires Chained(w) && Logged(w) && SameJobs(w, v) && SendsKept(w, v)
    requires v.cell == w.cell && v.log == w.log
    ensures Chained(v) && Logged(v)
  {
    hide SameJobs, SendsKept, EventFits;
    forall e | 0 <= e < |v.log| ensures EventFits(v, v.log[e]) && v.log[e].before == CellAt(v, e) {
      EventKept(w, v, w.log[e]);
      assert w.log[e].before == CellAt(w, e);
      SameInitial(w, v);
    }
    SameInitial(w, v);
  }

  lemma SameInitial(w: World, v: World)
    requires SameJobs(w, v)
    ensures v.initial == w.initial
  {
  }

  lemma SamePartsFit(w: World, v: World)
    requires PartsFit(w) && SameJobs(w, v) && v.parts == w.parts
    ensures PartsFit(v)
  {
  }

  lemma FewerPartsFit(w: World, v: World)
    requires PartsFit(w) && SameJobs(w, v)
    requires forall name :: name in v.parts ==> name in w.parts && v.parts[name] == w.parts[name]
    ensures PartsFit(v)
  {
  }

  lemma PhaseFitKept(w: World, v: World, j: nat)
    requires j < |w.clients| && |v.clients| == |w.clients| && v.driver == w.driver && v.clients[j] == w.clients[j]
    requires PhaseFits(w, j) && |w.sends| <= |v.sends|
    requires forall k :: 0 <= k < |w.sends| ==> v.sends[k].client == w.sends[k].client
    requires forall k :: |w.sends| <= k < |v.sends| ==> v.sends[k].client != j
    ensures PhaseFits(v, j)
  {
  }

  lemma SameSendsPhased(w: World, v: World)
    requires Phased(w) && v.driver == w.driver && v.clients == w.clients && |v.sends| == |w.sends|
    requires forall k :: 0 <= k < |w.sends| ==> v.sends[k].client == w.sends[k].client
    ensures Phased(v)
  {
    hide PhaseFits;
    forall j | 0 <= j < |v.clients| ensures PhaseFits(v, j) {
      assert PhaseFits(w, j);
      PhaseFitKept(w, v, j);
    }
  }

  // ---------- the steps ----------

  lemma SentPhased(w: World, i: nat, resent: nat)
    requires Phased(w) && i < |w.clients|
    requires resent == 0 && !Replays(w.driver, w.clients[i].job) ==> NoSends(w, i)
    requires resent > 0 ==> Resends(w.driver, w.clients[i].job)
    ensures Phased(Sent(w, i, resent))
  {
    hide PhaseFits;
    var v := Sent(w, i, resent);
    forall j | 0 <= j < |v.clients| ensures PhaseFits(v, j) {
      assert PhaseFits(w, j);
      if j == i {
        SenderFits(w, i, resent);
      } else {
        PhaseFitKept(w, v, j);
      }
    }
  }

  lemma SenderFits(w: World, i: nat, resent: nat)
    requires i < |w.clients|
    requires resent == 0 && !Replays(w.driver, w.clients[i].job) ==> NoSends(w, i)
    requires resent > 0 ==> Resends(w.driver, w.clients[i].job)
    ensures PhaseFits(Sent(w, i, resent), i)
  {
  }

  lemma SentKeepsInv(w: World, i: nat, resent: nat)
    requires Inv(w) && i < |w.clients|
    requires resent == 0 && !Replays(w.driver, w.clients[i].job) ==> NoSends(w, i)
    requires resent > 0 ==> Resends(w.driver, w.clients[i].job)
    ensures Inv(Sent(w, i, resent))
  {
    hide PartsFit, Chained, Logged, Phased, WellFormedJobs, DistinctIds, Replays, Resends;
    var v := Sent(w, i, resent);
    assert SameJobs(w, v) && SendsKept(w, v);
    JobsKept(w, v);
    SameLog(w, v);
    SentPhased(w, i, resent);
    SamePartsFit(w, v);
    forall k | 0 <= k < |v.sends| && v.sends[k].fate.Landed? ensures InLog(v, k) {
      assert InLog(w, k);
    }
  }

  lemma NewPhasePhased(w: World, i: nat, phase: Phase)
    requires Phased(w) && i < |w.clients|
    requires PhaseFits(WithPhase(w, i, phase), i)
    ensures Phased(WithPhase(w, i, phase))
  {
    hide PhaseFits;
    var v := WithPhase(w, i, phase);
    forall j | 0 <= j < |v.clients| ensures PhaseFits(v, j) {
      assert PhaseFits(w, j);
      if j != i {
        PhaseFitKept(w, v, j);
      }
    }
  }

  lemma PhaseKeepsInv(w: World, i: nat, phase: Phase)
    requires Inv(w) && i < |w.clients|
    requires PhaseFits(WithPhase(w, i, phase), i)
    ensures Inv(WithPhase(w, i, phase))
  {
    hide PartsFit, Chained, Logged, Phased, PhaseFits, WellFormedJobs, DistinctIds;
    var v := WithPhase(w, i, phase);
    assert SameJobs(w, v) && SendsKept(w, v);
    JobsKept(w, v);
    SameLog(w, v);
    NewPhasePhased(w, i, phase);
    SamePartsFit(w, v);
    forall k | 0 <= k < |v.sends| && v.sends[k].fate.Landed? ensures InLog(v, k) {
      assert InLog(w, k);
    }
  }

  lemma FateKeepsInv(w: World, k: nat, fate: Fate)
    requires Inv(w) && k < |w.sends| && w.sends[k].fate.InFlight? && !fate.Landed?
    ensures Inv(WithFate(w, k, fate))
  {
    hide PartsFit, Chained, Logged, Phased, WellFormedJobs, DistinctIds;
    var v := WithFate(w, k, fate);
    assert SameJobs(w, v) && SendsKept(w, v);
    JobsKept(w, v);
    SameLog(w, v);
    SameSendsPhased(w, v);
    SamePartsFit(w, v);
    forall m | 0 <= m < |v.sends| && v.sends[m].fate.Landed? ensures InLog(v, m) {
      assert InLog(w, m);
    }
  }

  /** The service's store of parts changes, and nothing else. */
  lemma PartsKeepInv(w: World, v: World)
    requires Inv(w) && v == w.(parts := v.parts, posted := v.posted, uploads := v.uploads) && PartsFit(v)
    ensures Inv(v)
  {
    hide PartsFit, Chained, Logged, Phased, WellFormedJobs, DistinctIds;
    assert SameJobs(w, v) && SendsKept(w, v);
    JobsKept(w, v);
    SameLog(w, v);
    SameSendsPhased(w, v);
    forall k | 0 <= k < |v.sends| && v.sends[k].fate.Landed? ensures InLog(v, k) {
      assert InLog(w, k);
    }
  }

  function Stored(w: World, i: nat, n: nat): World
    requires i < |w.clients| && w.clients[i].job.Put? && WellFormedJob(w.clients[i].job)
    requires n < |w.clients[i].job.parts|
  {
    w.(parts := w.parts[NameOf(w.driver, i, w.clients[i].job, n) := w.clients[i].job.parts[n]])
  }

  lemma StoredPartsFit(w: World, i: nat, n: nat)
    requires PartsFit(w) && DistinctIds(w) && i < |w.clients|
    requires w.clients[i].job.Put? && WellFormedJob(w.clients[i].job) && n < |w.clients[i].job.parts|
    ensures PartsFit(Stored(w, i, n))
  {
    hide NameOf, DistinctIds;
    var v := Stored(w, i, n);
    forall j, m | 0 <= j < |v.clients| && v.clients[j].job.Put? && WellFormedJob(v.clients[j].job)
                  && 0 <= m < |v.clients[j].job.parts| && NameOf(v.driver, j, v.clients[j].job, m) in v.parts
      ensures v.parts[NameOf(v.driver, j, v.clients[j].job, m)] == v.clients[j].job.parts[m]
    {
      if NameOf(w.driver, j, w.clients[j].job, m) == NameOf(w.driver, i, w.clients[i].job, n) {
        NamesAreDistinct(w, j, m, i, n);
      }
    }
  }

  lemma AppendKeepsChain(w: World, v: World, event: Event)
    requires Chained(w) && v.initial == w.initial
    requires v.log == w.log + [event] && v.cell == event.after && event.before == w.cell
    ensures Chained(v)
  {
    forall e | 0 <= e < |v.log| ensures v.log[e].before == CellAt(v, e) {
      if e < |w.log| {
        assert v.log[e] == w.log[e] && w.log[e].before == CellAt(w, e);
      }
    }
  }

  lemma AppendKeepsLogged(w: World, v: World, event: Event)
    requires Logged(w) && SameJobs(w, v) && SendsKept(w, v) && v.log == w.log + [event]
    requires event.send.Some? ==> event.send.value < |w.sends| && !w.sends[event.send.value].fate.Landed?
    requires EventFits(v, event)
    ensures Logged(v)
  {
    forall e | 0 <= e < |v.log| ensures EventFits(v, v.log[e]) {
      if e < |w.log| {
        assert EventFits(w, w.log[e]) && v.log[e] == w.log[e];
        EventKept(w, v, w.log[e]);
      }
    }
    forall e, f | 0 <= e < f < |v.log| && v.log[e].send.Some? ensures v.log[e].send != v.log[f].send {
      assert EventFits(w, w.log[e]) && v.log[e] == w.log[e];
      if f < |w.log| {
        assert v.log[f] == w.log[f];
      }
    }
  }

  lemma AppendKeepsLanded(w: World, v: World, event: Event)
    requires LandedIsLogged(w) && |v.sends| == |w.sends| && v.log == w.log + [event]
    requires forall k :: 0 <= k < |w.sends| && Some(k) != event.send ==> v.sends[k].fate == w.sends[k].fate
    ensures LandedIsLogged(v)
  {
    forall k | 0 <= k < |v.sends| && v.sends[k].fate.Landed? ensures InLog(v, k) {
      if event.send == Some(k) {
        assert v.log[|w.log|].send == Some(k);
      } else {
        assert InLog(w, k);
        var e :| 0 <= e < |w.log| && w.log[e].send == Some(k);
        assert v.log[e] == w.log[e];
      }
    }
  }

  /** A change at the end of the log. */
  lemma AppendKeepsInv(w: World, v: World, event: Event)
    requires Inv(w) && v.driver == w.driver && v.initial == w.initial && v.clients == w.clients
    requires v.log == w.log + [event] && v.cell == event.after && event.before == w.cell
    requires |v.sends| == |w.sends| && forall k :: 0 <= k < |w.sends| ==> v.sends[k].client == w.sends[k].client
    requires forall k :: 0 <= k < |w.sends| && Some(k) != event.send ==> v.sends[k].fate == w.sends[k].fate
    requires event.send.Some? ==> event.send.value < |w.sends| && !w.sends[event.send.value].fate.Landed?
    requires event.send.Some? ==> event.send.value < |v.sends| && v.sends[event.send.value].fate.Landed?
    requires EventFits(v, event) && PartsFit(v)
    ensures Inv(v)
  {
    hide EventFits, PartsFit, Chained, Logged, LandedIsLogged, Phased, WellFormedJobs, DistinctIds;
    assert SameJobs(w, v) && SendsKept(w, v);
    JobsKept(w, v);
    AppendKeepsChain(w, v, event);
    AppendKeepsLogged(w, v, event);
    AppendKeepsLanded(w, v, event);
    SameSendsPhased(w, v);
  }

  lemma LandedFits(w: World, k: nat, version: nat)
    requires Inv(w) && k < |w.sends| && CanApply(w, w.sends[k].client) && Holds(JobOf(w, k), w.cell)
    ensures Fits(w.driver, JobOf(w, k), Outgrowth(w, w.sends[k].client, version))
  {
    hide Inv;
    if JobOf(w, k).Put? {
      PayloadIsTheBody(w, w.sends[k].client);
    }
  }

  lemma LandingKeepsInv(w: World, k: nat, version: nat)
    requires Inv(w) && k < |w.sends| && w.sends[k].fate.InFlight? && CanApply(w, w.sends[k].client)
    requires Holds(JobOf(w, k), w.cell)
    ensures Inv(Applied(w, k, version))
  {
    var v := Applied(w, k, version);
    LandedFits(w, k, version);
    hide Inv, Outgrowth, Holds, Fits, CanApply;
    InvParts(w);
    FewerPartsFit(w, v);
    AppendKeepsInv(w, v, v.log[|w.log|]);
  }

  lemma InvParts(w: World)
    requires Inv(w)
    ensures PartsFit(w) && DistinctIds(w) && Phased(w) && WellFormedJobs(w) && Owned(w)
  {
  }

  lemma SweepKeepsInv(w: World)
    requires Inv(w) && w.cell.Some?
    ensures Inv(w.(cell := None, log := w.log + [Event(None, w.cell, None)]))
  {
    var v := w.(cell := None, log := w.log + [Event(None, w.cell, None)]);
    hide PartsFit, Chained, Logged, LandedIsLogged, Phased, WellFormedJobs, DistinctIds;
    SamePartsFit(w, v);
    AppendKeepsInv(w, v, Event(None, w.cell, None));
  }

  lemma BeginKeepsInv(w: World, i: nat)
    requires Inv(w) && i < |w.clients| && w.clients[i].phase.Idle?
    ensures Inv(Begun(w, i))
  {
    InvParts(w);
    hide Inv, PartsFit, DistinctIds;
    assert PhaseFits(w, i);
    if Stages(w.clients[i].job) {
      PhaseKeepsInv(w, i, Staging(0));
      var v := WithPhase(w, i, Staging(0));
      InvParts(v);
      SamePartsFit(v, Begun(w, i));
      PartsKeepInv(v, Begun(w, i));
    } else {
      SentKeepsInv(w, i, 0);
    }
  }

  lemma ApplyKeepsInv(w: World, k: nat, version: nat)
    requires Inv(w) && k < |w.sends| && w.sends[k].fate.InFlight? && CanApply(w, w.sends[k].client)
    ensures Inv(Applied(w, k, version))
  {
    hide Inv;
    if Holds(JobOf(w, k), w.cell) {
      LandingKeepsInv(w, k, version);
    } else if w.cell.None? && NeedsObject(JobOf(w, k)) {
      FateKeepsInv(w, k, Missing);
    } else {
      FateKeepsInv(w, k, Refused);
    }
  }

  lemma HearKeepsInv(w: World, i: nat, answer: Answer)
    requires Inv(w) && i < |w.clients| && w.clients[i].phase.Waiting?
    ensures Inv(Heard(w, i, answer))
  {
    hide Inv;
    match Decide(w.driver, w.clients[i].job, w.clients[i].phase.resent, answer)
    case Finish(outcome) => PhaseKeepsInv(w, i, Done(outcome));
    case Resend => PhaseKeepsInv(w, i, Backoff(w.clients[i].phase.resent));
    case ReadBack => PhaseKeepsInv(w, i, Reading(answer));
  }

  predicate ByService(step: Step) {
    || step.Post? || step.Store? || step.Apply? || step.Reject? || step.Lose? || step.Abort? || step.Discard?
    || step.Sweep?
  }

  lemma ServiceStepKeepsInv(w: World, step: Step)
    requires Inv(w) && Enabled(w, step) && ByService(step)
    ensures Inv(Next(w, step))
  {
    InvParts(w);
    hide Inv, PartsFit, DistinctIds, Applied, CanApply, CanLose, MayBegin;
    match step
    case Post(i) => LosingKeepsInv(w, Next(w, step));
    case Store(i, n) =>
      StoredPartsFit(w, i, n);
      SamePartsFit(Stored(w, i, n), Next(w, step));
      PartsKeepInv(w, Next(w, step));
    case Apply(k, version) => ApplyKeepsInv(w, k, version);
    case Reject(k) => FateKeepsInv(w, k, Raced);
    case Lose(k) => FateKeepsInv(w, k, Unknown);
    case Abort(i) => LosingKeepsInv(w, Next(w, step));
    case Discard(name) => LosingKeepsInv(w, Next(w, step));
    case Sweep => SweepKeepsInv(w);
  }

  predicate BySink(step: Step) {
    step.Begin? || step.Ack? || step.Commit? || step.GiveUp?
  }

  lemma StagingHasNotSent(w: World, i: nat)
    requires Inv(w) && i < |w.clients| && w.clients[i].phase.Staging?
    ensures NoSends(w, i) && Stages(w.clients[i].job) && w.clients[i].phase.acked <= |w.clients[i].job.parts|
  {
    assert PhaseFits(w, i);
  }

  lemma AckKeepsInv(w: World, i: nat, acked: nat)
    requires Inv(w) && i < |w.clients| && w.clients[i].phase.Staging?
    requires w.clients[i].job.Put? && acked <= |w.clients[i].job.parts|
    ensures Inv(WithPhase(w, i, Staging(acked)))
  {
    StagingHasNotSent(w, i);
    hide Inv;
    PhaseKeepsInv(w, i, Staging(acked));
  }

  lemma SinkStepKeepsInv(w: World, step: Step)
    requires Inv(w) && Enabled(w, step) && BySink(step)
    ensures Inv(Next(w, step))
  {
    hide Inv, Begun, MayBegin, NameOf, BlockIds.IsNonce, Replays, NoSends, Assembles, PhaseFits;
    match step
    case Begin(i) => BeginKeepsInv(w, i);
    case Ack(i) => AckKeepsInv(w, i, w.clients[i].phase.acked + 1);
    case Commit(i) =>
      StagingHasNotSent(w, i);
      SentKeepsInv(w, i, 0);
    case GiveUp(i, verdict) => OverKeepsInv(w, i, Next(w, step).clients[i].phase);
  }

  lemma WaiterStepKeepsInv(w: World, step: Step)
    requires Inv(w) && Enabled(w, step) && !ByService(step) && !BySink(step)
    ensures Inv(Next(w, step))
  {
    hide Inv, PartsFit, DistinctIds, Settle, Heard, MayBegin, Answers, Replays, Resends, PhaseFits;
    match step
    case Replay(i) => AgainKeepsInv(w, i);
    case Hear(i, answer) => HearKeepsInv(w, i, answer);
    case Retry(i) => AgainKeepsInv(w, i);
    case Look(i) =>
      OverKeepsInv(w, i, Done(Settle(w.driver, w.clients[i].job, w.clients[i].phase.answer, w.cell)));
    case LookFails(i) => OverKeepsInv(w, i, Done(Failed));
  }

  lemma OverKeepsInv(w: World, i: nat, phase: Phase)
    requires Inv(w) && i < |w.clients| && (phase.Done? || phase.Reading?)
    ensures Inv(WithPhase(w, i, phase))
  {
    hide Inv;
    PhaseKeepsInv(w, i, phase);
  }

  lemma AgainFits(w: World, i: nat)
    requires Inv(w) && i < |w.clients|
    ensures w.clients[i].phase.Waiting? && w.clients[i].phase.resent > 0 ==> Resends(w.driver, w.clients[i].job)
    ensures w.clients[i].phase.Backoff? ==> Resends(w.driver, w.clients[i].job)
  {
    assert PhaseFits(w, i);
  }

  lemma AgainKeepsInv(w: World, i: nat)
    requires Inv(w) && i < |w.clients|
    ensures w.clients[i].phase.Waiting? && Replays(w.driver, w.clients[i].job) ==>
              Inv(Sent(w, i, w.clients[i].phase.resent))
    ensures w.clients[i].phase.Backoff? ==> Inv(Sent(w, i, w.clients[i].phase.resent + 1))
  {
    AgainFits(w, i);
    hide Inv, NoSends, Replays, Resends;
    if w.clients[i].phase.Waiting? && Replays(w.driver, w.clients[i].job) {
      SentKeepsInv(w, i, w.clients[i].phase.resent);
    } else if w.clients[i].phase.Backoff? {
      SentKeepsInv(w, i, w.clients[i].phase.resent + 1);
    }
  }

  /** Every step keeps the invariant. */
  lemma StepKeepsInv(w: World, step: Step)
    requires Inv(w) && Enabled(w, step)
    ensures Inv(Next(w, step))
  {
    hide Inv, Enabled, Next;
    if ByService(step) {
      ServiceStepKeepsInv(w, step);
    } else if BySink(step) {
      SinkStepKeepsInv(w, step);
    } else {
      WaiterStepKeepsInv(w, step);
    }
  }

  lemma LosingKeepsInv(w: World, v: World)
    requires Inv(w) && v == w.(parts := v.parts, posted := v.posted, uploads := v.uploads)
    requires forall name :: name in v.parts ==> name in w.parts && v.parts[name] == w.parts[name]
    ensures Inv(v)
  {
    InvParts(w);
    hide Inv, PartsFit;
    FewerPartsFit(w, v);
    PartsKeepInv(w, v);
  }

  /** Every run keeps it. */
  lemma {:induction false} RunKeepsInv(w: World, steps: seq<Step>)
    requires Inv(w) && Allowed(w, steps)
    ensures Inv(After(w, steps))
    decreases |steps|
  {
    hide Inv, Enabled, Next;
    if steps != [] {
      StepKeepsInv(w, steps[0]);
      RunKeepsInv(Next(w, steps[0]), steps[1..]);
    }
  }

  // ---------- the shape of a step ----------

  /** The client a step changes the phase of, if it changes one's. */
  function Actor(step: Step): Option<nat> {
    match step
    case Begin(i) => Some(i)
    case Ack(i) => Some(i)
    case Commit(i) => Some(i)
    case GiveUp(i, _) => Some(i)
    case Replay(i) => Some(i)
    case Hear(i, _) => Some(i)
    case Retry(i) => Some(i)
    case Look(i) => Some(i)
    case LookFails(i) => Some(i)
    case _ => None
  }

  /** The requests of `w` that are settled stay so, and the one new request there may be is the actor's. */
  predicate SendsFrame(w: World, v: World, actor: Option<nat>) {
    && SendsKept(w, v)
    && (forall k :: 0 <= k < |w.sends| && !w.sends[k].fate.InFlight? ==> v.sends[k] == w.sends[k])
    && (forall k :: |w.sends| <= k < |v.sends| ==> v.sends[k].fate.InFlight? && Some(v.sends[k].client) == actor)
  }

  /** Only the actor's phase changes, and a client that is done has no more to do. */
  predicate ClientsFrame(w: World, v: World, actor: Option<nat>) {
    && SameJobs(w, v)
    && (forall j :: 0 <= j < |w.clients| && Some(j) != actor ==> v.clients[j] == w.clients[j])
    && (actor.Some? ==> actor.value < |w.clients| && !w.clients[actor.value].phase.Done?)
  }

  /** The object is left as it is, and nothing lands. */
  predicate Unchanging(w: World, v: World) {
    && v.log == w.log && v.cell == w.cell && |w.sends| <= |v.sends|
    && forall k :: 0 <= k < |w.sends| && v.sends[k].fate.Landed? ==> w.sends[k].fate.Landed?
  }

  predicate MayChange(step: Step) {
    step.Apply? || step.Sweep?
  }

  lemma ServiceClientsFrame(w: World, step: Step)
    requires Enabled(w, step) && ByService(step)
    ensures ClientsFrame(w, Next(w, step), Actor(step))
  {
    hide Answers, Decide, Settle, MayBegin, Holds, NeedsObject, Outgrowth, CanApply, CanLose, NameOf,
      BlockIds.IsNonce, Replays, IsConditional, Assembles, Stages, MayGiveUp;
  }

  lemma ActorClientsFrame(w: World, step: Step)
    requires Enabled(w, step) && !ByService(step)
    ensures ClientsFrame(w, Next(w, step), Actor(step))
  {
    hide Answers, Decide, Settle, MayBegin, Holds, NeedsObject, Outgrowth, CanApply, CanLose, NameOf,
      BlockIds.IsNonce, Replays, IsConditional, Assembles, Stages, MayGiveUp;
  }

  lemma AppliedSendsFrame(w: World, k: nat, version: nat)
    requires k < |w.sends| && w.sends[k].fate.InFlight? && CanApply(w, w.sends[k].client)
    ensures var v := Applied(w, k, version);
            SendsFrame(w, v, None) && w.log <= v.log && |v.log| <= |w.log| + 1
  {
    hide Answers, Decide, Settle, MayBegin, Holds, NeedsObject, Outgrowth, CanApply, CanLose, NameOf,
      BlockIds.IsNonce, Replays, IsConditional, Assembles, Stages, MayGiveUp;
  }

  lemma ServiceSendsFrame(w: World, step: Step)
    requires Enabled(w, step) && ByService(step)
    ensures SendsFrame(w, Next(w, step), Actor(step))
    ensures w.log <= Next(w, step).log && |Next(w, step).log| <= |w.log| + 1
    ensures !MayChange(step) ==> Unchanging(w, Next(w, step))
  {
    if step.Apply? {
      AppliedSendsFrame(w, step.k, step.version);
    }
    hide Applied;
    hide Answers, Decide, Settle, MayBegin, Holds, NeedsObject, Outgrowth, CanApply, CanLose, NameOf,
      BlockIds.IsNonce, Replays, IsConditional, Assembles, Stages, MayGiveUp;
  }

  lemma ActorSendsFrame(w: World, step: Step)
    requires Enabled(w, step) && !ByService(step)
    ensures SendsFrame(w, Next(w, step), Actor(step)) && Next(w, step).log == w.log && Unchanging(w, Next(w, step))
  {
    hide Answers, Decide, Settle, MayBegin, Holds, NeedsObject, Outgrowth, CanApply, CanLose, NameOf,
      BlockIds.IsNonce, Replays, IsConditional, Assembles, Stages, MayGiveUp;
  }

  lemma Frame(w: World, step: Step)
    requires Enabled(w, step)
    ensures ClientsFrame(w, Next(w, step), Actor(step)) && SendsFrame(w, Next(w, step), Actor(step))
    ensures w.log <= Next(w, step).log && |Next(w, step).log| <= |w.log| + 1
    ensures !MayChange(step) ==> Unchanging(w, Next(w, step))
  {
    hide Enabled, Next, ClientsFrame, SendsFrame, Unchanging;
    if ByService(step) {
      ServiceClientsFrame(w, step);
      ServiceSendsFrame(w, step);
    } else {
      ActorClientsFrame(w, step);
      ActorSendsFrame(w, step);
    }
  }

  lemma {:induction false} RunFrame(w: World, steps: seq<Step>)
    requires Allowed(w, steps)
    ensures SameJobs(w, After(w, steps)) && w.log <= After(w, steps).log
    decreases |steps|
  {
    hide Enabled, Next;
    if steps != [] {
      Frame(w, steps[0]);
      RunFrame(Next(w, steps[0]), steps[1..]);
    }
  }
}
