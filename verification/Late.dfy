/**
 * What a call that is over may still do. A request that is still in flight may land after its client was told of a
 * conflict; it is exactly the requests in flight that can, of a version that still stands. A conflict told after one
 * send leaves none.
 */
module Late {

  import opened Bytes
  import opened Service
  import opened History
  import opened Landings
  import opened Swaps
  import opened Assembly
  import BlockIds

  predicate HasInFlight(w: World, i: nat) {
    exists k :: 0 <= k < |w.sends| && w.sends[k].client == i && w.sends[k].fate.InFlight?
  }

  /** A request of the client is in flight, and what it would assemble may still come together. */
  predicate Pending(w: World, i: nat)
    requires i < |w.clients|
  {
    HasInFlight(w, i) && WellFormedJob(w.clients[i].job) && MayAssemble(w, i)
  }

  /** The version a job is conditioned on, if it is, stands under the name. */
  predicate Stands(w: World, job: Job) {
    ConditionOf(job).Some? ==> HasVersion(w.cell, ConditionOf(job).value)
  }

  predicate MayStillLand(w: World, i: nat)
    requires i < |w.clients|
  {
    Pending(w, i) && Stands(w, w.clients[i].job)
  }

  /** Every request but a delete sent without its condition. */
  predicate IsFenced(job: Job) {
    job.Erase? ==> job.conditional
  }

  /** A request of the client that had not landed in `w` has in `v`. */
  predicate LandsFrom(w: World, v: World, i: nat) {
    exists k :: 0 <= k < |v.sends| && v.sends[k].client == i && v.sends[k].fate.Landed?
                && !(k < |w.sends| && w.sends[k].fate.Landed?)
  }

  predicate IsOver(w: World, i: nat) {
    i < |w.clients| && w.clients[i].phase.Done?
  }

  // ---------- only what is in flight can land ----------

  /** Without its parts, or its upload, a commit finds an object there, or nothing to assemble. */
  lemma AppliedLandsNothing(w: World, k: nat, version: nat, i: nat)
    requires k < |w.sends| && w.sends[k].fate.InFlight? && CanApply(w, w.sends[k].client)
    requires IsOver(w, i) && !Pending(w, i)
    ensures var v := Applied(w, k, version);
            forall m :: 0 <= m < |w.sends| && w.sends[m].client == i && v.sends[m].fate.Landed? ==>
              w.sends[m].fate.Landed?
  {
    hide NameOf, BlockIds.IsNonce, Outgrowth, Holds, NeedsObject, WellFormedJob;
    if w.sends[k].client == i {
      NotAPut(w, k, i);
    }
  }

  lemma NotAPut(w: World, k: nat, i: nat)
    requires k < |w.sends| && w.sends[k].fate.InFlight? && w.sends[k].client == i && CanApply(w, i)
    requires IsOver(w, i) && !Pending(w, i)
    ensures !Holds(w.clients[i].job, w.cell)
  {
    hide NameOf, BlockIds.IsNonce;
  }

  lemma NothingLands(w: World, step: Step, i: nat)
    requires Enabled(w, step) && IsOver(w, i) && !Pending(w, i) && SendsKept(w, Next(w, step))
    ensures forall k :: 0 <= k < |w.sends| && w.sends[k].client == i && Next(w, step).sends[k].fate.Landed? ==>
              w.sends[k].fate.Landed?
  {
    if step.Apply? {
      AppliedLandsNothing(w, step.k, step.version, i);
    } else if step.Sweep? {
      assert Next(w, step).sends == w.sends;
    } else {
      Frame(w, step);
    }
    hide Pending, IsOver, CanApply, CanLose, Decide, Settle, Answers, MayBegin, NameOf, BlockIds.IsNonce, WasThere;
  }

  lemma StepStaysEnded(w: World, step: Step, i: nat)
    requires Inv(w) && Enabled(w, step) && IsOver(w, i) && !Pending(w, i)
    ensures IsOver(Next(w, step), i) && !Pending(Next(w, step), i) && !LandsFrom(w, Next(w, step), i)
  {
    var v := Next(w, step);
    Frame(w, step);
    NothingLands(w, step, i);
    JobsAreWellFormed(w, i);
    if !MayAssemble(w, i) {
      StaysLost(w, step, i);
    }
    hide Inv, Enabled, Next, MayAssemble;
    assert v.clients[i] == w.clients[i];
    forall k | 0 <= k < |v.sends| && v.sends[k].client == i
      ensures k < |w.sends| && (v.sends[k].fate.InFlight? ==> w.sends[k].fate.InFlight?)
    {
    }
  }

  lemma {:induction false} RunKeepsSends(w: World, steps: seq<Step>)
    requires Allowed(w, steps)
    ensures SendsKept(w, After(w, steps))
    decreases |steps|
  {
    hide Enabled, Next;
    if steps != [] {
      Frame(w, steps[0]);
      RunKeepsSends(Next(w, steps[0]), steps[1..]);
    }
  }

  lemma {:induction false} StaysEnded(w: World, steps: seq<Step>, i: nat)
    requires Inv(w) && Allowed(w, steps) && IsOver(w, i) && !Pending(w, i)
    ensures !LandsFrom(w, After(w, steps), i) && SendsKept(w, After(w, steps))
    decreases |steps|
  {
    hide Inv, Enabled, Next, Pending, IsOver, SameJobs;
    RunKeepsSends(w, steps);
    if steps != [] {
      var u := Next(w, steps[0]);
      StepStaysEnded(w, steps[0], i);
      StepKeepsInv(w, steps[0]);
      StaysEnded(u, steps[1..], i);
      RunKeepsSends(u, steps[1..]);
    }
  }

  /** The change a landed request made. */
  lemma EventOf(w: World, k: nat) returns (e: nat)
    requires Inv(w) && k < |w.sends| && w.sends[k].fate.Landed?
    ensures e < |w.log| && w.log[e].send == Some(k) && EventFits(w, w.log[e]) && w.log[e].before == CellAt(w, e)
  {
    assert InLog(w, k);
    e :| 0 <= e < |w.log| && w.log[e].send == Some(k);
  }

  lemma EventIsOfALanding(w: World, e: nat)
    requires Inv(w) && e < |w.log|
    ensures EventFits(w, w.log[e])
  {
  }

  /** A version that is gone stands before no later change. */
  lemma GoneBeforeLater(u: World, v: World, version: nat, e: nat)
    requires Chained(u) && u.initial == v.initial && u.log <= v.log && NoReuse(v) && Retired(u, version)
    requires |u.log| <= e <= |v.log|
    ensures !HasVersion(CellAt(v, e), version)
  {
    var f :| 0 <= f <= |u.log| && HasVersion(CellAt(u, f), version);
    assert CellAt(v, f) == CellAt(u, f) && f < |u.log|;
  }

  lemma HoldsNeedsVersion(w: World, event: Event)
    requires EventFits(w, event) && event.send.Some? && ConditionOf(JobOf(w, event.send.value)).Some?
    ensures HasVersion(event.before, ConditionOf(JobOf(w, event.send.value)).value)
  {
  }

  lemma EventLanded(w: World, event: Event)
    requires EventFits(w, event) && event.send.Some?
    ensures event.send.value < |w.sends| && w.sends[event.send.value].fate.Landed?
  {
  }

  lemma LandedBefore(u: World, v: World, i: nat, k: nat)
    requires Inv(u) && Inv(v) && u.initial == v.initial && u.log <= v.log && NoReuse(v) && i < |v.clients|
    requires ConditionOf(v.clients[i].job).Some? && Retired(u, ConditionOf(v.clients[i].job).value)
    requires k < |v.sends| && v.sends[k].client == i && v.sends[k].fate.Landed?
    ensures k < |u.sends| && u.sends[k].fate.Landed?
  {
    hide Inv, NoReuse, Retired, EventFits, HasVersion;
    var e := EventOf(v, k);
    if e < |u.log| {
      EventIsOfALanding(u, e);
      EventLanded(u, u.log[e]);
    } else {
      InvIsChained(u);
      HoldsNeedsVersion(v, v.log[e]);
      GoneBeforeLater(u, v, ConditionOf(v.clients[i].job).value, e);
    }
  }

  lemma InvIsChained(w: World)
    requires Inv(w)
    ensures Chained(w)
  {
  }

  /** Once a version is gone, no request conditioned on it lands. */
  lemma RetiredLandsNothing(u: World, v: World, i: nat)
    requires Inv(u) && Inv(v) && SameJobs(u, v) && u.log <= v.log && NoReuse(v) && i < |v.clients|
    requires ConditionOf(v.clients[i].job).Some? && Retired(u, ConditionOf(v.clients[i].job).value)
    ensures !LandsFrom(u, v, i)
  {
    hide Inv, NoReuse, Retired;
    forall k | 0 <= k < |v.sends| && v.sends[k].client == i && v.sends[k].fate.Landed?
      ensures k < |u.sends| && u.sends[k].fate.Landed?
    {
      LandedBefore(u, v, i, k);
    }
  }

  // ---------- what is in flight can land ----------

  /** A version no object under the name has had. */
  lemma {:induction false} Unused(w: World, n: nat) returns (version: nat)
    requires n <= |w.log|
    ensures forall e :: 0 <= e <= n && CellAt(w, e).Some? ==> CellAt(w, e).value.version < version
  {
    if n == 0 {
      version := if w.initial.Some? then w.initial.value.version + 1 else 0;
    } else {
      version := Unused(w, n - 1);
      var cell := CellAt(w, n);
      if cell.Some? && cell.value.version >= version {
        version := cell.value.version + 1;
      }
    }
  }

  lemma StillUnused(w: World, v: World)
    requires NoReuse(w) && v.initial == w.initial && |v.log| == |w.log| + 1 && v.log[..|w.log|] == w.log
    requires v.cell.Some? ==> forall e :: 0 <= e <= |w.log| && CellAt(w, e).Some? ==>
               CellAt(w, e).value.version != v.cell.value.version
    requires v.log[|w.log|].after == v.cell
    ensures NoReuse(v)
  {
    assert forall e :: 0 <= e <= |w.log| ==> CellAt(v, e) == CellAt(w, e);
  }

  lemma LandedWorld(w: World, i: nat, k: nat, version: nat)
    requires i < |w.clients| && WellFormedJob(w.clients[i].job) && Holds(w.clients[i].job, w.cell)
    requires k < |w.sends| && w.sends[k].client == i && w.sends[k].fate.InFlight?
    requires Assembles(w.driver, w.clients[i].job) ==> HasParts(w, i)
    ensures Enabled(w, Apply(k, version))
    ensures var (v, after) := (Next(w, Apply(k, version)), Outgrowth(w, i, version));
            && v.sends == w.sends[k := Send(i, Landed)] && v.clients == w.clients && v.driver == w.driver
            && v.initial == w.initial && v.cell == after && v.log == w.log + [Event(Some(k), w.cell, after)]
            && v.posted == w.posted && v.uploads == w.uploads - {i}
            && (w.clients[i].job.Put? || v.parts == w.parts)
  {
    hide NameOf, BlockIds.IsNonce, HasParts, Outgrowth, Holds;
  }

  lemma OutgrowthOf(w: World, i: nat, version: nat)
    requires i < |w.clients| && WellFormedJob(w.clients[i].job)
    requires w.clients[i].job.Put? && Assembles(w.driver, w.clients[i].job) ==> HasParts(w, i)
    ensures var after := Outgrowth(w, i, version);
            && after.Some? == !(w.clients[i].job.Erase? || w.clients[i].job.RowDelete?)
            && (after.Some? ==> after.value.version == version)
  {
    hide NameOf, BlockIds.IsNonce, HasParts, Payload;
  }

  /** A request whose precondition holds is applied, and lands, under a version not used before. */
  lemma Lands(w: World, i: nat, k: nat) returns (version: nat)
    requires i < |w.clients| && WellFormedJob(w.clients[i].job) && Holds(w.clients[i].job, w.cell)
    requires k < |w.sends| && w.sends[k].client == i && w.sends[k].fate.InFlight?
    requires Assembles(w.driver, w.clients[i].job) ==> HasParts(w, i)
    ensures Enabled(w, Apply(k, version))
    ensures var v := Next(w, Apply(k, version));
            && v.sends == w.sends[k := Send(i, Landed)] && v.clients == w.clients && v.driver == w.driver
            && v.cell.Some? == !(w.clients[i].job.Erase? || w.clients[i].job.RowDelete?)
            && v.posted == w.posted && v.uploads == w.uploads - {i}
            && (w.clients[i].job.Put? || v.parts == w.parts)
            && (NoReuse(w) ==> NoReuse(v))
  {
    hide NameOf, BlockIds.IsNonce, HasParts, Outgrowth, NoReuse, Holds, Enabled, Next;
    version := Unused(w, |w.log|);
    LandedWorld(w, i, k, version);
    OutgrowthOf(w, i, version);
    if NoReuse(w) {
      StillUnused(w, Next(w, Apply(k, version)));
    }
  }

  /** The name is emptied, if it holds anything. */
  lemma Empties(w: World) returns (steps: seq<Step>, u: World)
    ensures Allowed(w, steps) && After(w, steps) == u && u.cell.None?
    ensures u == w.(cell := None, log := u.log)
    ensures NoReuse(w) ==> NoReuse(u)
  {
    if w.cell.None? {
      steps, u := [], w;
    } else {
      steps, u := [Sweep], Next(w, Sweep);
      assert [Sweep][1..] == [];
      if NoReuse(w) {
        StillUnused(w, u);
      }
    }
  }

  /**
   * The world is made ready for the client's request: the name as its precondition wants it, its parts stored again.
   */
  lemma Readies(w: World, i: nat) returns (steps: seq<Step>, u: World)
    requires Inv(w) && IsOver(w, i) && MayStillLand(w, i) && IsFenced(w.clients[i].job)
    ensures Allowed(w, steps) && After(w, steps) == u && Inv(u)
    ensures u.sends == w.sends && u.clients == w.clients && u.driver == w.driver
    ensures Holds(w.clients[i].job, u.cell) && (Assembles(w.driver, w.clients[i].job) ==> HasParts(u, i))
    ensures NoReuse(w) ==> NoReuse(u)
  {
    hide NameOf, BlockIds.IsNonce, Inv, Allowed, After, NoReuse, MayAssemble, HasParts, HasInFlight;
    var job := w.clients[i].job;
    JobsAreWellFormed(w, i);
    if ConditionOf(job).Some? {
      steps, u := [], w;
      NoSteps(w);
    } else {
      steps, u := Empties(w);
      if Assembles(w.driver, job) {
        var more;
        AllSent(w, u, i);
        more, u := Gathers(u, i);
        Continues(w, steps, more);
        steps := steps + more;
      }
      RunKeepsInv(w, steps);
    }
  }

  /** What is sent of the client's parts is stored. */
  lemma Gathers(w: World, i: nat) returns (steps: seq<Step>, u: World)
    requires i < |w.clients| && WellFormedJob(w.clients[i].job) && Assembles(w.driver, w.clients[i].job)
    requires w.driver.S3? ==> i in w.uploads
    requires forall n :: 0 <= n < |w.clients[i].job.parts| ==> IsSent(w, i, n)
    ensures Allowed(w, steps) && After(w, steps) == u && u == w.(parts := u.parts, posted := u.posted)
    ensures HasParts(u, i) && (NoReuse(w) ==> NoReuse(u))
  {
    hide NameOf, BlockIds.IsNonce, Allowed, After, NoReuse;
    steps, u := Restores(w, i, |w.clients[i].job.parts|);
    forall n | 0 <= n < |w.clients[i].job.parts|
      ensures NameOf(w.driver, i, w.clients[i].job, n) in u.parts
    {
      assert IsStored(u, i, n);
    }
    RestoredKeepsVersions(w, u);
  }

  /** A call that is over has no part left to send. */
  lemma AllSent(w: World, u: World, i: nat)
    requires IsOver(w, i) && Pending(w, i) && Assembles(w.driver, w.clients[i].job)
    requires u == w.(cell := u.cell, log := u.log)
    ensures u.driver.S3? ==> i in u.uploads
    ensures forall n :: 0 <= n < |u.clients[i].job.parts| ==> IsSent(u, i, n)
  {
    hide NameOf, BlockIds.IsNonce;
    forall n | 0 <= n < |u.clients[i].job.parts|
      ensures IsSent(u, i, n)
    {
      assert MayBeStored(w, i, n);
    }
  }

  lemma RestoredKeepsVersions(w: World, v: World)
    requires v == w.(parts := v.parts, posted := v.posted)
    ensures NoReuse(w) ==> NoReuse(v)
  {
    assert forall e :: 0 <= e <= |w.log| ==> CellAt(v, e) == CellAt(w, e);
  }

  lemma CanLand(w: World, i: nat) returns (later: seq<Step>)
    requires Inv(w) && IsOver(w, i) && MayStillLand(w, i) && IsFenced(w.clients[i].job)
    ensures Allowed(w, later) && LandsFrom(w, After(w, later), i)
    ensures NoReuse(w) ==> NoReuse(After(w, later))
  {
    hide Inv, Enabled, Next, Allowed, After, NoReuse, Holds, HasParts, BlockIds.IsNonce;
    assert HasInFlight(w, i);
    var k :| 0 <= k < |w.sends| && w.sends[k].client == i && w.sends[k].fate.InFlight?;
    JobsAreWellFormed(w, i);
    var steps, u := Readies(w, i);
    var version := Lands(u, i, k);
    Follows(w, steps, Apply(k, version));
    later := steps + [Apply(k, version)];
    assert After(w, later).sends[k] == Send(i, Landed);
  }

  /** The version a request in flight is conditioned on stands, or is gone. */
  lemma StandsOrIsGone(w: World, i: nat)
    requires Versioned(w) && i < |w.clients| && Pending(w, i) && !Stands(w, w.clients[i].job)
    ensures Retired(w, ConditionOf(w.clients[i].job).value)
  {
    assert HasInFlight(w, i);
    var k :| 0 <= k < |w.sends| && w.sends[k].client == i && w.sends[k].fate.InFlight?;
    assert SendKnows(w, k);
  }

  /** Where versions are not reused, or the job is conditioned on none, no continuation lands what may not. */
  lemma NeverLands(w: World, steps: seq<Step>, later: seq<Step>, i: nat)
    requires Start(w) && Allowed(w, steps + later) && Allowed(w, steps) && IsOver(After(w, steps), i)
    requires ConditionOf(After(w, steps).clients[i].job).Some? ==> NoReuse(After(w, steps + later))
    requires !MayStillLand(After(w, steps), i)
    ensures !LandsFrom(After(w, steps), After(w, steps + later), i)
  {
    hide Start, Allowed, After, Enabled, Next, NoReuse, LandsFrom, Inv, Versioned, Sound, SameJobs, Retired;
    RunsCompose(w, steps, later);
    StartHasInv(w);
    RunKeepsInv(w, steps);
    var (u, v) := (After(w, steps), After(w, steps + later));
    if !Pending(u, i) {
      StaysEnded(u, later, i);
    } else {
      RunFrame(u, later);
      JobsStay(u, v, i);
      EarlierNoReuse(u, v);
      RunKeepsAll(w, steps);
      RunKeepsInv(u, later);
      StandsOrIsGone(u, i);
      RetiredLandsNothing(u, v, i);
    }
  }

  lemma JobsStay(u: World, v: World, i: nat)
    requires SameJobs(u, v) && i < |u.clients|
    ensures v.initial == u.initial && i < |v.clients| && v.clients[i].job == u.clients[i].job
  {
  }

  /**
   * Exactly when a call that is over can still change the object, whatever else happens: when a request of it is in
   * flight; the version it is conditioned on, if it is, still stands; and, of a commit that names parts, each of them
   * is stored or a request for it is in flight, and S3's upload is open. Versions are taken not to be reused, where
   * there is one; the delete without a condition is `Fills.LateEraseExactly`.
   */
  lemma LateExactly(w: World, steps: seq<Step>, i: nat)
    requires Start(w) && Allowed(w, steps) && IsOver(After(w, steps), i)
    requires IsFenced(After(w, steps).clients[i].job)
    requires ConditionOf(After(w, steps).clients[i].job).Some? ==> NoReuse(After(w, steps))
    ensures var u := After(w, steps);
            MayStillLand(u, i) <==> exists later :: LandsLater(u, later, i)
  {
    hide Start, Allowed, After, Enabled, Next, Inv, MayStillLand, LandsFrom, NoReuse;
    StartHasInv(w);
    RunKeepsInv(w, steps);
    var u := After(w, steps);
    if MayStillLand(u, i) {
      var later := CanLand(u, i);
      assert LandsLater(u, later, i);
    } else {
      forall later | Allowed(u, later) && (ConditionOf(u.clients[i].job).Some? ==> NoReuse(After(u, later)))
        ensures !LandsFrom(u, After(u, later), i)
      {
        Continues(w, steps, later);
        NeverLands(w, steps, later, i);
      }
    }
  }

  /** A continuation in which a request of the client lands, no version of a conditioned one being reused. */
  predicate LandsLater(u: World, later: seq<Step>, i: nat) {
    && i < |u.clients| && Allowed(u, later) && LandsFrom(u, After(u, later), i)
    && (ConditionOf(u.clients[i].job).Some? ==> NoReuse(After(u, later)))
  }

  // ---------- a conflict after one send ----------

  /** A call that ended in a conflict, settled or not. */
  predicate EndedInConflict(client: Client) {
    client.phase == Done(Conflict) || client.phase == Done(Unsettled)
  }

  /**
   * A client waits for a later send, or backs off, only after it has sent before. While there is one send, what is read
   * back, and every conflict, follows an answer that was of that send.
   */
  predicate FirstAt(w: World, i: nat)
    requires i < |w.clients|
  {
    && (w.clients[i].phase.Waiting? && w.clients[i].phase.resent > 0 ==> !OneSend(w, i))
    && (w.clients[i].phase.Backoff? ==> !NoSends(w, i))
    && (w.clients[i].phase.Reading? || EndedInConflict(w.clients[i]) ==> (OneSend(w, i) ==> Dead(w, i)))
  }

  predicate Firsts(w: World) {
    forall i :: 0 <= i < |w.clients| ==> FirstAt(w, i)
  }

  lemma MoreSends(w: World, v: World, actor: Option<nat>, i: nat)
    requires SendsFrame(w, v, actor)
    ensures OneSend(v, i) ==> OneSend(w, i)
    ensures NoSends(v, i) ==> NoSends(w, i)
    ensures Some(i) != actor && Dead(w, i) ==> Dead(v, i)
  {
    forall k, m | 0 <= k < m < |w.sends|
      ensures w.sends[k].client == w.sends[m].client == i ==> v.sends[k].client == v.sends[m].client == i
    {
    }
  }

  lemma BystanderIsFirst(w: World, v: World, actor: Option<nat>, j: nat)
    requires j < |w.clients| && Some(j) != actor && FirstAt(w, j)
    requires ClientsFrame(w, v, actor) && SendsFrame(w, v, actor)
    ensures FirstAt(v, j)
  {
    MoreSends(w, v, actor, j);
    hide OneSend, NoSends, Dead, SendsFrame;
  }

  /** What leads to a read-back or to a conflict, after a first send, says that the request was not applied. */
  lemma ConflictsAreOfRefusals(driver: Driver, job: Job, fate: Fate, answer: Answer)
    requires Answers(driver, job, fate, answer)
    requires var verdict := Decide(driver, job, 0, answer);
             verdict.ReadBack? || verdict == Finish(Conflict) || verdict == Finish(Unsettled)
    ensures !fate.InFlight? && !fate.Landed?
  {
  }

  lemma HeardIsFirst(w: World, i: nat, answer: Answer)
    requires i < |w.clients| && w.clients[i].phase.Waiting? && PhaseFits(w, i) && FirstAt(w, i)
    requires Answers(w.driver, w.clients[i].job, w.sends[w.clients[i].phase.current].fate, answer)
    ensures FirstAt(Heard(w, i, answer), i)
  {
    var (v, current, job) := (Heard(w, i, answer), w.clients[i].phase.current, w.clients[i].job);
    assert v.sends == w.sends;
    assert !NoSends(v, i);
    assert OneSend(v, i) <==> OneSend(w, i);
    if OneSend(w, i) && (v.clients[i].phase.Reading? || EndedInConflict(v.clients[i])) {
      ConflictsAreOfRefusals(w.driver, job, w.sends[current].fate, answer);
      forall k | 0 <= k < |v.sends| && v.sends[k].client == i
        ensures k == current
      {
      }
    }
  }

  lemma SentIsFirst(w: World, i: nat, resent: nat)
    requires i < |w.clients| && (resent > 0 ==> !NoSends(w, i))
    ensures FirstAt(Sent(w, i, resent), i)
  {
    var v := Sent(w, i, resent);
    if resent > 0 {
      var k :| 0 <= k < |w.sends| && w.sends[k].client == i;
      assert v.sends[k].client == v.sends[|w.sends|].client == i;
    }
  }

  lemma LookedIsFirst(w: World, i: nat, outcome: Outcome)
    requires i < |w.clients| && w.clients[i].phase.Reading? && FirstAt(w, i)
    ensures FirstAt(WithPhase(w, i, Done(outcome)), i)
  {
    var v := WithPhase(w, i, Done(outcome));
    assert OneSend(v, i) <==> OneSend(w, i);
    assert Dead(v, i) <==> Dead(w, i);
  }

  /** Before its commit a client has sent nothing that could land. */
  lemma GivenUpIsFirst(w: World, i: nat, phase: Phase)
    requires i < |w.clients| && w.clients[i].phase.Staging? && PhaseFits(w, i) && (phase.Done? || phase.Reading?)
    ensures FirstAt(WithPhase(w, i, phase), i)
  {
    assert NoSends(WithPhase(w, i, phase), i);
  }

  function Opened(w: World, i: nat): World {
    w.(uploads := if w.driver.S3? then w.uploads + {i} else w.uploads)
  }

  lemma StagerIsFirst(w: World, i: nat, acked: nat)
    requires i < |w.clients|
    ensures FirstAt(WithPhase(w, i, Staging(acked)), i)
  {
  }

  lemma WaiterHasSent(w: World, i: nat)
    requires i < |w.clients| && PhaseFits(w, i) && w.clients[i].phase.Waiting?
    ensures !NoSends(w, i)
  {
  }

  lemma ActorIsFirst(w: World, step: Step)
    requires Inv(w) && Enabled(w, step) && Actor(step).Some? && Actor(step).value < |w.clients|
    requires FirstAt(w, Actor(step).value)
    ensures Actor(step).value < |Next(w, step).clients| && FirstAt(Next(w, step), Actor(step).value)
  {
    var i := Actor(step).value;
    PhaseOf(w, i);
    hide Inv, Decide, Settle, Answers, Dead, MayBegin, NameOf, BlockIds.IsNonce, WasThere, OneSend, NoSends, Replays,
      PhaseFits, FirstAt;
    match step
    case Begin(_) =>
      if !Stages(w.clients[i].job) {
        SentIsFirst(w, i, 0);
      } else {
        StagerIsFirst(Opened(w, i), i, 0);
      }
    case GiveUp(_, verdict) => GivenUpIsFirst(w, i, Next(w, step).clients[i].phase);
    case Commit(_) => SentIsFirst(w, i, 0);
    case Replay(_) =>
      WaiterHasSent(w, i);
      SentIsFirst(w, i, w.clients[i].phase.resent);
    case Hear(_, answer) => HeardIsFirst(w, i, answer);
    case Retry(_) => SentIsFirst(w, i, w.clients[i].phase.resent + 1);
    case Look(_) => LookedIsFirst(w, i, Settle(w.driver, w.clients[i].job, w.clients[i].phase.answer, w.cell));
    case LookFails(_) => LookedIsFirst(w, i, Failed);
    case Ack(_) => StagerIsFirst(w, i, w.clients[i].phase.acked + 1);
    case _ =>
  }

  lemma StepKeepsFirsts(w: World, step: Step)
    requires Inv(w) && Firsts(w) && Enabled(w, step)
    ensures Firsts(Next(w, step))
  {
    var v := Next(w, step);
    Frame(w, step);
    hide Inv, Enabled, Next, FirstAt;
    forall j | 0 <= j < |v.clients| ensures FirstAt(v, j) {
      if Actor(step) == Some(j) {
        ActorIsFirst(w, step);
      } else {
        BystanderIsFirst(w, v, Actor(step), j);
      }
    }
  }

  lemma {:induction false} RunKeepsFirsts(w: World, steps: seq<Step>)
    requires Inv(w) && Firsts(w) && Allowed(w, steps)
    ensures Firsts(After(w, steps))
    decreases |steps|
  {
    hide Inv, Firsts, Enabled, Next;
    if steps != [] {
      StepKeepsInv(w, steps[0]);
      StepKeepsFirsts(w, steps[0]);
      RunKeepsFirsts(Next(w, steps[0]), steps[1..]);
    }
  }

  lemma NoFirsts(w: World)
    requires Start(w)
    ensures Firsts(w)
  {
  }

  /**
   * A conflict after one send means that the request did nothing, and never will: of every driver, of puts, row writes
   * and deletes alike, whatever is deleted meanwhile.
   */
  lemma FirstConflictIsFinal(w: World, steps: seq<Step>, later: seq<Step>, i: nat)
    requires Start(w) && Allowed(w, steps + later) && Allowed(w, steps)
    requires i < |After(w, steps).clients| && EndedInConflict(After(w, steps).clients[i])
    requires OneSend(After(w, steps), i)
    ensures Dead(After(w, steps), i) && !LandedBy(After(w, steps + later), i)
  {
    hide Start, Allowed, After, Enabled, Next, Inv, Firsts, LandsFrom, OneSend, LandedBy;
    RunsCompose(w, steps, later);
    StartHasInv(w);
    NoFirsts(w);
    RunKeepsInv(w, steps);
    RunKeepsFirsts(w, steps);
    var u := After(w, steps);
    FirstAtOf(u, i);
    StaysEnded(u, later, i);
    DeadHasNotLanded(u, After(w, steps + later), i);
  }

  lemma FirstAtOf(w: World, i: nat)
    requires Firsts(w) && i < |w.clients|
    ensures FirstAt(w, i)
  {
  }

  lemma DeadHasNotLanded(u: World, v: World, i: nat)
    requires Dead(u, i) && !LandsFrom(u, v, i) && SendsKept(u, v)
    ensures !LandedBy(v, i)
  {
  }
}
