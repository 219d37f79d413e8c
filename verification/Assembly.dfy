/**
 * Whether what a staged commit names can still come together. A part is stored, or a request for it is in flight, or
 * its client has yet to send it; once none of these is so, it never will be again.
 */
module Assembly {

  import opened Bytes
  import opened Service
  import opened History
  import opened Landings
  import BlockIds

  /** The client has not learnt that the part is stored, so it may send it, or send it again. */
  predicate ToPost(phase: Phase, n: nat) {
    phase.Idle? || (phase.Staging? && n >= phase.acked)
  }

  predicate MayBeStored(w: World, i: nat, n: nat)
    requires i < |w.clients| && w.clients[i].job.Put? && WellFormedJob(w.clients[i].job)
  {
    NameOf(w.driver, i, w.clients[i].job, n) in w.parts || (i, n) in w.posted || ToPost(w.clients[i].phase, n)
  }

  /** Every part may be stored, in an upload that is open. A commit that carries its bytes needs neither. */
  predicate MayAssemble(w: World, i: nat)
    requires i < |w.clients| && WellFormedJob(w.clients[i].job)
  {
    Assembles(w.driver, w.clients[i].job) ==>
      && (w.driver.S3? ==> i in w.uploads || w.clients[i].phase.Idle?)
      && forall n :: 0 <= n < |w.clients[i].job.parts| ==> MayBeStored(w, i, n)
  }

  lemma JobsAreWellFormed(w: World, i: nat)
    requires Inv(w) && i < |w.clients|
    ensures WellFormedJob(w.clients[i].job)
  {
  }

  // ---------- what is lost stays lost ----------

  lemma UploadStaysGone(w: World, step: Step, i: nat)
    requires Enabled(w, step) && i < |w.clients| && !w.clients[i].phase.Idle? && i !in w.uploads
    ensures i !in Next(w, step).uploads
  {
    hide Answers, Decide, Settle, MayBegin, Holds, NeedsObject, Outgrowth, CanApply, CanLose, NameOf,
      BlockIds.IsNonce, Replays, IsConditional, Stages, Assembles;
  }

  lemma NeverIdleAgain(w: World, step: Step, i: nat)
    requires Enabled(w, step) && i < |w.clients| && !w.clients[i].phase.Idle?
    ensures i < |Next(w, step).clients| && !Next(w, step).clients[i].phase.Idle?
  {
    hide Answers, Decide, Settle, MayBegin, Holds, NeedsObject, Outgrowth, CanApply, CanLose, NameOf,
      BlockIds.IsNonce, Replays, IsConditional, Stages, Assembles;
  }

  lemma NeverToPostAgain(w: World, step: Step, i: nat, n: nat)
    requires Enabled(w, step) && i < |w.clients| && !ToPost(w.clients[i].phase, n)
    ensures i < |Next(w, step).clients| && !ToPost(Next(w, step).clients[i].phase, n)
  {
    hide Answers, Decide, Settle, MayBegin, Holds, NeedsObject, Outgrowth, CanApply, CanLose, NameOf,
      BlockIds.IsNonce, Replays, IsConditional, Stages, Assembles;
  }

  lemma NeverPostedAgain(w: World, step: Step, i: nat, n: nat)
    requires Enabled(w, step) && i < |w.clients| && !ToPost(w.clients[i].phase, n) && (i, n) !in w.posted
    ensures (i, n) !in Next(w, step).posted
  {
    hide Answers, Decide, Settle, MayBegin, Holds, NeedsObject, Outgrowth, CanApply, CanLose, NameOf,
      BlockIds.IsNonce, Replays, IsConditional, Stages, Assembles;
  }

  lemma OnlyStoresStore(w: World, step: Step, name: PartName)
    requires Enabled(w, step) && name !in w.parts && !step.Store?
    ensures name !in Next(w, step).parts
  {
    hide Answers, Decide, Settle, MayBegin, Holds, NeedsObject, Outgrowth, CanApply, CanLose, NameOf,
      BlockIds.IsNonce, Replays, IsConditional, Stages, Assembles;
  }

  lemma NeverStoredAgain(w: World, step: Step, i: nat, n: nat)
    requires DistinctIds(w) && Enabled(w, step) && i < |w.clients| && w.clients[i].job.Put?
    requires WellFormedJob(w.clients[i].job) && !MayBeStored(w, i, n)
    ensures NameOf(w.driver, i, w.clients[i].job, n) !in Next(w, step).parts
  {
    var name := NameOf(w.driver, i, w.clients[i].job, n);
    if step.Store? {
      if NameOf(w.driver, step.i, w.clients[step.i].job, step.n) == name {
        NamesAreDistinct(w, i, n, step.i, step.n);
      }
    } else {
      OnlyStoresStore(w, step, name);
    }
  }

  lemma StaysLost(w: World, step: Step, i: nat)
    requires Inv(w) && Enabled(w, step) && i < |w.clients| && WellFormedJob(w.clients[i].job) && !MayAssemble(w, i)
    ensures var v := Next(w, step);
            i < |v.clients| && v.clients[i].job == w.clients[i].job && v.driver == w.driver && !MayAssemble(v, i)
  {
    InvParts(w);
    Frame(w, step);
    hide Inv, DistinctIds, Enabled, Next, NameOf, BlockIds.IsNonce, SendsFrame, ToPost, Assembles;
    if w.driver.S3? && i !in w.uploads && !w.clients[i].phase.Idle? {
      UploadStaysGone(w, step, i);
      NeverIdleAgain(w, step, i);
    } else {
      var n :| 0 <= n < |w.clients[i].job.parts| && !MayBeStored(w, i, n);
      NeverToPostAgain(w, step, i, n);
      NeverPostedAgain(w, step, i, n);
      NeverStoredAgain(w, step, i, n);
      assert !MayBeStored(Next(w, step), i, n);
    }
  }

  // ---------- what may come, can ----------

  lemma NoSteps(w: World)
    ensures Allowed(w, []) && After(w, []) == w
  {
  }

  lemma {:induction false} Follows(w: World, a: seq<Step>, step: Step)
    requires Allowed(w, a) && Enabled(After(w, a), step)
    ensures Allowed(w, a + [step]) && After(w, a + [step]) == Next(After(w, a), step)
    decreases |a|
  {
    hide Enabled, Next;
    if a == [] {
      assert a + [step] == [step];
      assert [step][1..] == [];
    } else {
      assert (a + [step])[1..] == a[1..] + [step];
      Follows(Next(w, a[0]), a[1..], step);
    }
  }

  lemma {:induction false} Continues(w: World, a: seq<Step>, b: seq<Step>)
    requires Allowed(w, a) && Allowed(After(w, a), b)
    ensures Allowed(w, a + b) && After(w, a + b) == After(After(w, a), b)
    decreases |a|
  {
    hide Enabled, Next;
    if a == [] {
      assert a + b == b;
    } else {
      assert (a + b)[1..] == a[1..] + b;
      Continues(Next(w, a[0]), a[1..], b);
    }
  }

  /** The part is stored, or a request for it is in flight. */
  predicate IsSent(w: World, i: nat, n: nat)
    requires i < |w.clients| && w.clients[i].job.Put? && WellFormedJob(w.clients[i].job)
  {
    NameOf(w.driver, i, w.clients[i].job, n) in w.parts || (i, n) in w.posted
  }

  predicate IsStored(w: World, i: nat, n: nat)
    requires i < |w.clients| && w.clients[i].job.Put? && WellFormedJob(w.clients[i].job)
  {
    NameOf(w.driver, i, w.clients[i].job, n) in w.parts
  }

  /** The parts alone differ, and none is gone. */
  predicate MoreStored(w: World, u: World) {
    u == w.(parts := u.parts, posted := u.posted) && forall name <- w.parts :: name in u.parts
  }

  lemma StoresOneMore(w: World, i: nat, n: nat)
    requires Enabled(w, Store(i, n))
    ensures MoreStored(w, Next(w, Store(i, n))) && IsStored(Next(w, Store(i, n)), i, n)
    ensures forall m: nat :: m != n ==> ((i, m) in w.posted <==> (i, m) in Next(w, Store(i, n)).posted)
    ensures forall m :: 0 <= m < n && IsStored(w, i, m) ==> IsStored(Next(w, Store(i, n)), i, m)
  {
    hide NameOf, BlockIds.IsNonce;
  }

  /** The requests in flight are applied, and the first parts are all stored. */
  lemma {:induction false} Restores(w: World, i: nat, n: nat) returns (steps: seq<Step>, u: World)
    requires i < |w.clients| && WellFormedJob(w.clients[i].job) && Assembles(w.driver, w.clients[i].job)
    requires n <= |w.clients[i].job.parts| && (w.driver.S3? ==> i in w.uploads)
    requires forall m :: 0 <= m < n ==> IsSent(w, i, m)
    ensures Allowed(w, steps) && After(w, steps) == u && MoreStored(w, u)
    ensures forall m :: 0 <= m < n ==> IsStored(u, i, m)
    ensures forall m: nat :: m >= n ==> ((i, m) in w.posted <==> (i, m) in u.posted)
  {
    hide NameOf, BlockIds.IsNonce, Allowed, After;
    if n == 0 {
      steps, u := [], w;
      NoSteps(w);
    } else {
      steps, u := Restores(w, i, n - 1);
      assert IsSent(w, i, n - 1);
      if !IsStored(u, i, n - 1) {
        assert Enabled(u, Store(i, n - 1));
        var step := Store(i, n - 1);
        Follows(w, steps, step);
        steps := steps + [step];
        StoresOneMore(u, i, n - 1);
        u := Next(u, step);
      }
    }
  }
}
