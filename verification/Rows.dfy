/**
 * Registry rows: what the compare-and-swap is for. Updates that return are applied one after another, each to the row
 * it was computed from, and none is lost. On S3, where a version is an ETag computed from the row's bytes, that no
 * version is given twice follows from every row body being written once.
 */
module Rows {

  import opened Bytes
  import opened Service
  import opened History
  import opened Landings
  import opened Swaps

  /** The client whose swap made the `e`-th change, when one did. */
  predicate SwapAt(w: World, e: nat) {
    && e < |w.log| && w.log[e].send.Some? && w.log[e].send.value < |w.sends|
    && w.sends[w.log[e].send.value].client < |w.clients|
    && w.clients[w.sends[w.log[e].send.value].client].job.RowWrite?
    && w.clients[w.sends[w.log[e].send.value].client].job.expected.Version?
  }

  function WriterAt(w: World, e: nat): nat
    requires SwapAt(w, e)
  {
    w.sends[w.log[e].send.value].client
  }

  /** Each swap's body is computed by its writer's update from a row it read, under the version it expects. */
  predicate Computed(w: World, update: (nat, Bytes) -> Bytes) {
    forall i, f :: 0 <= i < |w.clients| && w.clients[i].job.RowWrite? && w.clients[i].job.expected.Version?
                   && 0 <= f <= |w.log| && HasVersion(CellAt(w, f), w.clients[i].job.expected.version) ==>
      w.clients[i].job.body == update(i, CellAt(w, f).value.bytes)
  }

  function Writers(w: World, n: nat): seq<nat>
    requires n <= |w.log| && forall e :: 0 <= e < n ==> SwapAt(w, e)
  {
    seq(n, e requires 0 <= e < n => WriterAt(w, e))
  }

  /** The updates of some writers, one after another. */
  function Folded(update: (nat, Bytes) -> Bytes, writers: seq<nat>, row: Bytes): Bytes {
    if writers == [] then row
    else update(writers[|writers| - 1], Folded(update, writers[..|writers| - 1], row))
  }

  /** A swap applies its update to the row that stood just before it. */
  lemma SwapAppliesItsUpdate(w: World, update: (nat, Bytes) -> Bytes, e: nat)
    requires Inv(w) && Computed(w, update) && SwapAt(w, e)
    ensures CellAt(w, e).Some? && CellAt(w, e + 1).Some?
    ensures CellAt(w, e + 1).value.bytes == update(WriterAt(w, e), CellAt(w, e).value.bytes)
  {
    assert EventFits(w, w.log[e]) && w.log[e].before == CellAt(w, e);
    assert HasVersion(CellAt(w, e), w.clients[WriterAt(w, e)].job.expected.version);
  }

  /** A row only swaps change is the first row with every landed update applied to it, in the order they landed. */
  lemma {:induction false} RowIsEveryUpdate(w: World, update: (nat, Bytes) -> Bytes, n: nat)
    requires Inv(w) && Computed(w, update) && w.initial.Some? && n <= |w.log|
    requires forall e :: 0 <= e < |w.log| ==> SwapAt(w, e)
    ensures CellAt(w, n).Some?
    ensures CellAt(w, n).value.bytes == Folded(update, Writers(w, n), w.initial.value.bytes)
  {
    hide Inv, Computed, SwapAt, WriterAt;
    if n == 0 {
      assert Writers(w, 0) == [];
    } else {
      RowIsEveryUpdate(w, update, n - 1);
      SwapAppliesItsUpdate(w, update, n - 1);
      hide CellAt;
      var writers := Writers(w, n);
      assert writers[..n - 1] == Writers(w, n - 1);
      assert writers[n - 1] == WriterAt(w, n - 1);
    }
  }

  lemma WritersDiffer(w: World, steps: seq<Step>, e: nat, f: nat)
    requires Start(w) && Allowed(w, steps) && NoReuse(After(w, steps))
    requires e < f && SwapAt(After(w, steps), e) && SwapAt(After(w, steps), f)
    ensures WriterAt(After(w, steps), e) != WriterAt(After(w, steps), f)
  {
    RunFrame(w, steps);
    hide NoReuse, Allowed, After, Start, Enabled, Next;
    if WriterAt(After(w, steps), e) == WriterAt(After(w, steps), f) {
      SwapLandsOnce(w, steps, e, f);
    }
  }

  predicate ReturnedWrite(w: World, i: nat)
    requires i < |w.clients|
  {
    w.clients[i].job.RowWrite? && w.clients[i].phase == Done(Returned)
  }

  /** A write that returned made one of the changes. */
  lemma ReturnedIsWriter(w: World, steps: seq<Step>, i: nat)
    requires Start(w) && Allowed(w, steps) && i < |After(w, steps).clients|
    requires forall e :: 0 <= e < |After(w, steps).log| ==> SwapAt(After(w, steps), e)
    requires ReturnedWrite(After(w, steps), i)
    ensures i in Writers(After(w, steps), |After(w, steps).log|)
  {
    RunFrame(w, steps);
    hide Allowed, After, Start, Enabled, Next, SwapAt;
    var v := After(w, steps);
    ReturnedHasLanded(w, steps, i);
    var e :| 0 <= e < |v.log| && v.log[e].send.Some? && EventFits(v, v.log[e])
             && v.sends[v.log[e].send.value].client == i;
    assert SwapAt(v, e);
    assert Writers(v, |v.log|)[e] == i;
  }

  /**
   * No update is lost, and none is applied twice: after any run of swaps alone the row is the updates of the writers
   * that landed, in order; every writer that returned is among them, once.
   */
  lemma NoUpdateIsLost(w: World, steps: seq<Step>, update: (nat, Bytes) -> Bytes)
    requires Start(w) && w.initial.Some? && Allowed(w, steps) && NoReuse(After(w, steps))
    requires Computed(After(w, steps), update)
    requires forall e :: 0 <= e < |After(w, steps).log| ==> SwapAt(After(w, steps), e)
    ensures var (v, n) := (After(w, steps), |After(w, steps).log|);
            && v.cell.Some? && v.cell.value.bytes == Folded(update, Writers(v, n), w.initial.value.bytes)
            && (forall e, f :: 0 <= e < f < n ==> Writers(v, n)[e] != Writers(v, n)[f])
            && (forall i :: 0 <= i < |v.clients| && ReturnedWrite(v, i) ==> i in Writers(v, n))
  {
    StartHasInv(w);
    RunKeepsInv(w, steps);
    RunFrame(w, steps);
    var v := After(w, steps);
    var n := |v.log|;
    EndOfLog(v);
    hide Inv, NoReuse, Computed, Allowed, After, Start, Enabled, Next, SwapAt, CellAt;
    RowIsEveryUpdate(v, update, n);
    forall e, f | 0 <= e < f < n ensures Writers(v, n)[e] != Writers(v, n)[f] {
      WritersDiffer(w, steps, e, f);
    }
    forall i | 0 <= i < |v.clients| && ReturnedWrite(v, i) ensures i in Writers(v, n)
    {
      ReturnedIsWriter(w, steps, i);
    }
  }

  lemma EndOfLog(w: World)
    requires Inv(w)
    ensures CellAt(w, |w.log|) == w.cell
  {
  }

  // ---------- S3's versions ----------

  /** Every version the name has held is the ETag of the bytes it was of. */
  predicate EtagVersions(w: World, etag: Bytes -> nat) {
    forall e :: 0 <= e <= |w.log| && CellAt(w, e).Some? ==>
      CellAt(w, e).value.version == etag(CellAt(w, e).value.bytes)
  }

  predicate RowsOnly(w: World) {
    forall i :: 0 <= i < |w.clients| ==> w.clients[i].job.RowWrite? || w.clients[i].job.RowDelete?
  }

  /** No two writes carry the same body, nor does any carry the first row's. */
  predicate DistinctBodies(w: World) {
    && (forall i, j :: 0 <= i < j < |w.clients| && w.clients[i].job.RowWrite? && w.clients[j].job.RowWrite? ==>
          w.clients[i].job.body != w.clients[j].job.body)
    && (forall i :: 0 <= i < |w.clients| && w.clients[i].job.RowWrite? && w.initial.Some? ==>
          w.clients[i].job.body != w.initial.value.bytes)
  }

  /** The bytes at a position are the first row's, or the body of the write that was logged there. */
  lemma BytesNameTheWrite(w: World, e: nat)
    requires Inv(w) && RowsOnly(w) && 0 < e <= |w.log| && CellAt(w, e).Some?
    ensures w.log[e - 1].send.Some? && EventFits(w, w.log[e - 1])
    ensures JobOf(w, w.log[e - 1].send.value).RowWrite?
    ensures CellAt(w, e).value.bytes == JobOf(w, w.log[e - 1].send.value).body
  {
    assert EventFits(w, w.log[e - 1]);
  }

  lemma StartsSoundly(w: World)
    requires Start(w)
    ensures Sound(w)
  {
  }

  lemma RowsStay(w: World, v: World)
    requires SameJobs(w, v) && w.driver.S3? && RowsOnly(w) && DistinctBodies(w)
    ensures v.driver.S3? && RowsOnly(v) && DistinctBodies(v)
  {
  }

  /** The name never held the same bytes twice, one object after another. */
  predicate DistinctBytes(w: World) {
    forall e, f :: 0 <= f < e <= |w.log| && CellAt(w, e).Some? && CellAt(w, f).Some? ==>
      CellAt(w, e).value.bytes != CellAt(w, f).value.bytes
  }

  /** Where versions are ETags, and no two bodies' are alike, one is reused exactly when the same bytes come back. */
  lemma ReusedExactly(w: World, etag: Bytes -> nat)
    requires EtagVersions(w, etag) && forall a, b :: etag(a) == etag(b) ==> a == b
    ensures NoReuse(w) <==> DistinctBytes(w)
  {
    forall e, f | 0 <= f < e <= |w.log| && CellAt(w, e).Some? && CellAt(w, f).Some?
      ensures CellAt(w, e).value.version == CellAt(w, f).value.version <==>
              CellAt(w, e).value.bytes == CellAt(w, f).value.bytes
    {
      assert etag(CellAt(w, e).value.bytes) == CellAt(w, e).value.version;
      assert etag(CellAt(w, f).value.bytes) == CellAt(w, f).value.version;
    }
    hide CellAt, EtagVersions;
  }

  /** With distinct bodies and no two ETags alike, S3's row versions are never reused, as each write goes out once. */
  lemma EtagsAreNeverReused(w: World, steps: seq<Step>, etag: Bytes -> nat)
    requires Start(w) && w.driver.S3? && RowsOnly(w) && DistinctBodies(w) && Allowed(w, steps)
    requires EtagVersions(After(w, steps), etag)
    requires forall a, b :: etag(a) == etag(b) ==> a == b
    ensures NoReuse(After(w, steps))
  {
    hide Start, Allowed, After, Enabled, Next, Inv, Sound, RowsOnly, DistinctBodies, SameJobs, NoReuse, EtagVersions;
    StartHasInv(w);
    StartsSoundly(w);
    RunIsSound(w, steps);
    RunFrame(w, steps);
    var v := After(w, steps);
    RowsStay(w, v);
    forall e, f | 0 <= f < e <= |v.log| && CellAt(v, e).Some? && CellAt(v, f).Some?
      ensures CellAt(v, e).value.bytes != CellAt(v, f).value.bytes
    {
      SameBytesSamePlace(v, e, f);
    }
    ReusedExactly(v, etag);
  }

  /** On S3 two changes are two clients', and two clients' bodies differ. */
  lemma TwoChangesTwoBodies(w: World, e: nat, f: nat)
    requires Inv(w) && Sound(w) && w.driver.S3? && DistinctBodies(w) && f < e < |w.log|
    requires EventFits(w, w.log[e]) && EventFits(w, w.log[f]) && w.log[e].send.Some? && w.log[f].send.Some?
    requires JobOf(w, w.log[e].send.value).RowWrite? && JobOf(w, w.log[f].send.value).RowWrite?
    ensures JobOf(w, w.log[e].send.value).body != JobOf(w, w.log[f].send.value).body
  {
    var (k, m) := (w.log[e].send.value, w.log[f].send.value);
    assert w.log[f].send != w.log[e].send;
    assert SoundAt(w, w.sends[k].client);
    TwoSendsTwoClients(w, k, m);
    hide Inv, Sound, EventFits, SoundAt;
  }

  lemma TwoSendsTwoClients(w: World, k: nat, m: nat)
    requires k < |w.sends| && m < |w.sends| && k != m && w.sends[k].client < |w.clients|
    requires w.driver.S3? && JobOf(w, k).RowWrite? && SoundAt(w, w.sends[k].client)
    ensures w.sends[k].client != w.sends[m].client
  {
    assert OneSend(w, w.sends[k].client);
  }

  lemma SameBytesSamePlace(w: World, e: nat, f: nat)
    requires Inv(w) && Sound(w) && w.driver.S3? && RowsOnly(w) && DistinctBodies(w)
    requires f < e <= |w.log| && CellAt(w, e).Some? && CellAt(w, f).Some?
    ensures CellAt(w, e).value.bytes != CellAt(w, f).value.bytes
  {
    hide Inv, Sound, RowsOnly, EventFits;
    BytesNameTheWrite(w, e);
    if f > 0 {
      BytesNameTheWrite(w, f);
      TwoChangesTwoBodies(w, e - 1, f - 1);
    } else {
      EventOwned(w, e - 1);
    }
  }

  lemma EventOwned(w: World, e: nat)
    requires e < |w.log| && EventFits(w, w.log[e]) && w.log[e].send.Some?
    ensures w.log[e].send.value < |w.sends| && w.sends[w.log[e].send.value].client < |w.clients|
  {
  }
}
