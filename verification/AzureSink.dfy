/**
 * The Azure driver's buffering write sink, and `putImmutable` around it. A full buffer is staged as a block, under an
 * id made of the sink's nonce and the number of blocks it has listed; the commit lists the ids. The pool of staged
 * blocks belongs to the name, so it may hold other writers' blocks too.
 */
module AzureSink {

  import opened Bytes
  import opened Parts
  import BlockIds
  import Commits
  import Limits
  import Service

  /**
   * What becomes of a request to stage a block: it fails, having been applied or not, or it succeeds. A failure is a
   * conflict when its answer reads as one, a 409 or a 412 of no other kind.
   */
  datatype Stage = StageFails(applied: bool, conflict: bool) | Staged

  // ---------- what the sizes alone tell ----------

  /** The bytes handed over, those pending, and whether a block is listed. */
  datatype Tally = Tally(total: nat, pending: nat, listed: bool)

  /** What a write is answered. */
  function ReplyTo(sizes: Limits.Sizes, t: Tally, bytes: Bytes, stage: Stage): Reply {
    if bytes == [] then Done
    else if t.total + |bytes| > sizes.ceiling then TooLarge
    else if t.pending + |bytes| < sizes.part || stage.Staged? then Done
    else PartLost
  }

  function Tallied(sizes: Limits.Sizes, t: Tally, bytes: Bytes, stage: Stage): Tally {
    var (total, pending) := (t.total + |bytes|, t.pending + |bytes|);
    if ReplyTo(sizes, t, bytes, stage).TooLarge? then t.(total := total)
    else if pending < sizes.part || bytes == [] then Tally(total, pending, t.listed)
    else Tally(total, 0, t.listed || stage.Staged?)
  }

  function SizingOf(sizes: Limits.Sizes): Sizing<Tally, Stage> {
    Sizing(Tally(0, 0, false),
           (t: Tally, call: Call<Stage>) => ReplyTo(sizes, t, call.bytes, call.fate),
           (t: Tally, call: Call<Stage>) => Tallied(sizes, t, call.bytes, call.fate))
  }

  lemma NoWrites(sizes: Limits.Sizes, calls: seq<Call<Stage>>)
    ensures GoesOn(SizingOf(sizes), calls, []) && Run(SizingOf(sizes), calls[..0]) == Tally(0, 0, false)
  {
    NoReplies(SizingOf(sizes), calls);
  }

  lemma OneMoreWrite(sizes: Limits.Sizes, calls: seq<Call<Stage>>, replies: seq<Reply>, reply: Reply, before: Tally,
                     after: Tally)
    requires GoesOn(SizingOf(sizes), calls, replies) && |replies| < |calls|
    requires before == Run(SizingOf(sizes), calls[..|replies|])
    requires reply == ReplyTo(sizes, before, calls[|replies|].bytes, calls[|replies|].fate)
    requires after == Tallied(sizes, before, calls[|replies|].bytes, calls[|replies|].fate)
    ensures Run(SizingOf(sizes), calls[..|replies| + 1]) == after
    ensures reply.Done? || calls[|replies|].swallowed ==> GoesOn(SizingOf(sizes), calls, replies + [reply])
    ensures !reply.Done? && !calls[|replies|].swallowed ==>
              Answered(SizingOf(sizes), calls, replies + [reply]) && Ended(SizingOf(sizes), calls, replies + [reply])
  {
    hide GoesOn, Answered, Ended, Run, ReplyTo, Tallied;
    OneMoreReply(SizingOf(sizes), calls, replies, reply);
  }

  lemma {:induction false} TotalIsHanded(sizes: Limits.Sizes, calls: seq<Call<Stage>>)
    ensures Run(SizingOf(sizes), calls).total == |Handed(calls)|
  {
    if calls != [] {
      TotalIsHanded(sizes, calls[..|calls| - 1]);
      HandedFront(calls);
      hide Handed;
    }
  }

  /**
   * A write is refused exactly when it takes what was handed over past the ceiling, and fails only if its request
   * did.
   */
  lemma RefusedExactly(sizes: Limits.Sizes, calls: seq<Call<Stage>>, replies: seq<Reply>, n: nat)
    requires Answered(SizingOf(sizes), calls, replies) && n < |replies|
    ensures replies[n].TooLarge? <==> calls[n].bytes != [] && |Handed(calls[..n + 1])| > sizes.ceiling
    ensures calls[n].bytes == [] || calls[n].fate.Staged? ==> replies[n].Done? || replies[n].TooLarge?
  {
    TotalIsHanded(sizes, calls[..n]);
    HandedAppends(calls, n);
    hide Handed, Run;
    assert replies[n] == ReplyAt(SizingOf(sizes), calls, n);
  }

  /** What `putImmutable` makes of a write that ends it: the conflict the request was answered, or a failure. */
  function Thrown(reply: Reply, stage: Stage): Service.Outcome {
    if reply.PartLost? && !stage.Staged? && stage.conflict then Service.Conflict else Service.Failed
  }

  /** The block that is left for the end is lost. */
  predicate LosesTheLast(t: Tally, last: Stage) {
    t.listed && t.pending > 0 && !last.Staged?
  }

  /** What is made of that: a conflict is read back, as the commit's own would be. */
  function LastThrown(put: Service.Job, last: Stage, script: Commits.Script): Service.Outcome
    requires Commits.IsScript(script)
  {
    if last.Staged? || !last.conflict then Service.Failed
    else Commits.Outcome(Service.Azure, put, 0, Conflicting(script))
  }

  /** A script in which the commit is answered with a conflict. */
  function Conflicting(script: Commits.Script): Commits.Script
    requires Commits.IsScript(script)
  {
    script.(answers := script.answers[0 := Service.Precondition])
  }

  // ---------- the pool ----------

  /** The ids are the sink's own, in order, and each names in the pool the body that was staged under it. */
  predicate Lists(pool: map<string, Bytes>, nonce: string, ids: seq<string>, staged: seq<Bytes>)
    requires BlockIds.IsNonce(nonce)
  {
    && |ids| == |staged|
    && forall k :: 0 <= k < |ids| ==>
         ids[k] == BlockIds.BlockId(nonce, k) && ids[k] in pool && pool[ids[k]] == staged[k]
  }

  /** What a commit of the ids makes: the pool's blocks, in the order of the list. */
  function Assembled(pool: map<string, Bytes>, ids: seq<string>): seq<Bytes>
    requires forall id <- ids :: id in pool
  {
    seq(|ids|, k requires 0 <= k < |ids| => pool[ids[k]])
  }

  lemma AssemblesListed(pool: map<string, Bytes>, nonce: string, ids: seq<string>, staged: seq<Bytes>)
    requires BlockIds.IsNonce(nonce) && Lists(pool, nonce, ids, staged)
    ensures (forall id <- ids :: id in pool) && Assembled(pool, ids) == staged
  {
  }

  /** Staging under the next id leaves every listed block as it is: no earlier id is the same. */
  lemma StagesOneMore(pool: map<string, Bytes>, nonce: string, ids: seq<string>, staged: seq<Bytes>, body: Bytes)
    requires BlockIds.IsNonce(nonce) && Lists(pool, nonce, ids, staged)
    ensures var id := BlockIds.BlockId(nonce, |ids|);
            && Lists(pool[id := body], nonce, ids, staged)
            && Lists(pool[id := body], nonce, ids + [id], staged + [body])
  {
    forall k | 0 <= k < |ids|
      ensures BlockIds.BlockId(nonce, k) != BlockIds.BlockId(nonce, |ids|)
    {
      if BlockIds.BlockId(nonce, k) == BlockIds.BlockId(nonce, |ids|) {
        BlockIds.Injective(nonce, k, nonce, |ids|);
      }
    }
  }

  /** Azure's rule for the ids of one blob: all of one length. */
  lemma IdsAreAlike(pool: map<string, Bytes>, nonce: string, ids: seq<string>, staged: seq<Bytes>)
    requires BlockIds.IsNonce(nonce) && Lists(pool, nonce, ids, staged) && |ids| <= Limits.AZURE.maxParts
    ensures forall k :: 0 <= k < |ids| ==> ids[k] == BlockIds.BlockId(nonce, k) && |ids[k]| == 28
  {
    forall k | 0 <= k < |ids|
      ensures ids[k] == BlockIds.BlockId(nonce, k) && |ids[k]| == 28
    {
      BlockIds.ConstantLength(nonce, k);
    }
  }

  /** What a commit stores: the blocks that are listed, or what was pending, when every block before it was lost. */
  predicate Stores(put: Service.Job, bodies: seq<Bytes>, listed: seq<nat>, taken: Bytes) {
    && put.Put? && Numbers(listed, |bodies|) && put.staged == (listed != [])
    && if put.staged then put.parts == Named(bodies, listed) && Concat(bodies) == taken
       else |put.parts| == 1 && Concat(bodies) + put.parts[0] == taken
  }

  class AzureBlockBlobSink {
    const nonce: string
    const sizes: Limits.Sizes
    var pending: seq<Bytes>
    var pendingLen: nat
    var total: nat
    var blockIds: seq<string>

    /** The service's pool of uncommitted blocks under the name. */
    var pool: map<string, Bytes>
    /** The body of each block the sink sent, lost or staged, and which of them, counted from one, its ids stand for. */
    ghost var bodies: seq<Bytes>
    ghost var listed: seq<nat>
    ghost var taken: Bytes
    ghost var refused: nat

    ghost function Sums(): Tally
      reads this
    {
      Tally(total, pendingLen, blockIds != [])
    }

    ghost predicate Kept()
      reads this
    {
      && BlockIds.IsNonce(nonce) && Numbers(listed, |bodies|) && |blockIds| == |listed| <= |bodies|
      && Lists(pool, nonce, blockIds, Named(bodies, listed))
      && pendingLen == |Concat(pending)|
      && Concat(bodies) + Concat(pending) == taken
      && total == |taken| + refused
    }

    ghost predicate Valid()
      reads this
    {
      && Limits.Fits(Limits.AZURE, sizes) && Kept()
      && |taken| <= sizes.ceiling && (refused > 0 ==> total > sizes.ceiling)
      && Limits.AtLeast(bodies, sizes.part)
    }

    constructor (nonce: string, sizes: Limits.Sizes, pool: map<string, Bytes>)
      requires BlockIds.IsNonce(nonce) && Limits.Fits(Limits.AZURE, sizes)
      ensures Valid() && fresh(this) && this.sizes == sizes && this.nonce == nonce && this.pool == pool
      ensures Sums() == Tally(0, 0, false) && taken == [] && refused == 0
      ensures bodies == [] && listed == [] && pending == []
    {
      this.nonce, this.sizes, this.pool := nonce, sizes, pool;
      pending, pendingLen, total, blockIds := [], 0, 0, [];
      bodies, listed, taken, refused := [], [], [], 0;
    }

    /** What the invariant says of the counts and of the listed ids. */
    lemma Counts()
      requires Kept()
      ensures total == |taken| + refused && |blockIds| == |listed| <= |bodies|
      ensures |blockIds| <= Limits.AZURE.maxParts ==>
                forall k :: 0 <= k < |blockIds| ==> blockIds[k] == BlockIds.BlockId(nonce, k) && |blockIds[k]| == 28
    {
      if |blockIds| <= Limits.AZURE.maxParts {
        IdsAreAlike(pool, nonce, blockIds, Named(bodies, listed));
      }
    }

    lemma WithinTheLimit()
      requires Valid()
      ensures Kept() && |blockIds| <= Limits.AZURE.maxParts
    {
      Limits.WithinTheLimit(bodies, sizes, Limits.AZURE.maxParts);
    }

    /** Stage what is pending under the next id. Only a staged block's id is listed, so a lost one's is used again. */
    method FlushBlock(stage: Stage) returns (reply: Reply)
      requires Kept()
      modifies `pending, `pendingLen, `blockIds, `pool, `bodies, `listed
      ensures reply.TooManyParts? <==> old(|blockIds|) >= Limits.AZURE.maxParts
      ensures !reply.TooManyParts? ==> Kept() && pending == [] && bodies == old(bodies) + [Concat(old(pending))]
      ensures !reply.TooManyParts? ==> reply == if stage.Staged? then Done else PartLost
      ensures listed == if reply.Done? then old(listed) + [old(|bodies|) + 1] else old(listed)
      ensures pool == old(pool) || pool == old(pool)[BlockIds.BlockId(nonce, old(|blockIds|)) := Concat(old(pending))]
    {
      hide Numbers, Named, Lists, BlockIds.BlockId;
      if |blockIds| >= Limits.AZURE.maxParts {
        return TooManyParts;
      }
      var body := Concat(pending);
      ConcatAppends(bodies, body);
      NumbersGrow(listed, |bodies|);
      NamedWithLast(bodies, body, listed);
      StagesOneMore(pool, nonce, blockIds, Named(bodies, listed), body);
      pending := [];
      pendingLen := 0;
      bodies := bodies + [body];
      var id := BlockIds.BlockId(nonce, |blockIds|);
      if stage.Staged? || stage.applied {
        pool := pool[id := body];
      }
      if !stage.Staged? {
        return PartLost;
      }
      listed := listed + [|bodies|];
      blockIds := blockIds + [id];
      return Done;
    }

    /** Take a write, as the S3 sink does, whose limit on blocks is never met either. */
    method Write(bytes: Bytes, stage: Stage) returns (reply: Reply)
      requires Valid()
      modifies this
      ensures Valid() && reply == ReplyTo(sizes, old(Sums()), bytes, stage)
      ensures !reply.TooManyParts? && !reply.OpenFailed? && !reply.StreamFailed? && (reply.TooLarge? ==> bytes != [])
      ensures Sums() == Tallied(sizes, old(Sums()), bytes, stage) && total == old(total) + |bytes|
      ensures taken == if reply.TooLarge? then old(taken) else old(taken) + bytes
      ensures refused == if reply.TooLarge? then old(refused) + |bytes| else old(refused)
      ensures reply.Done? && old(pendingLen) < sizes.part ==> pendingLen < sizes.part
      ensures |bodies| - |listed| == old(|bodies| - |listed|) + if reply.PartLost? then 1 else 0
    {
      hide Numbers, Named, Lists, Limits.AtLeast;
      if |bytes| == 0 {
        assert bytes == [];
        return Done;
      }
      if total + |bytes| > sizes.ceiling {
        total := total + |bytes|;
        refused := refused + |bytes|;
        return TooLarge;
      }
      reply := Buffer(bytes, stage);
    }

    /** The rest of `write`, for one that fits: its bytes are buffered, and a full block is flushed. */
    method Buffer(bytes: Bytes, stage: Stage) returns (reply: Reply)
      requires Valid() && bytes != [] && total + |bytes| <= sizes.ceiling
      modifies this
      ensures Valid() && reply == ReplyTo(sizes, old(Sums()), bytes, stage) && (reply.Done? || reply.PartLost?)
      ensures Sums() == Tallied(sizes, old(Sums()), bytes, stage) && total == old(total) + |bytes|
      ensures taken == old(taken) + bytes && refused == old(refused)
      ensures reply.Done? && old(pendingLen) < sizes.part ==> pendingLen < sizes.part
      ensures |bodies| - |listed| == old(|bodies| - |listed|) + if reply.PartLost? then 1 else 0
    {
      hide Numbers, Named, Lists, NoneEmpty, WholeButLast, Limits.AtLeast, BlockIds.BlockId, BlockIds.IsNonce;
      total := total + |bytes|;
      ConcatAppends(pending, bytes);
      assert Concat(bodies) + (Concat(pending) + bytes) == taken + bytes;
      taken := taken + bytes;
      pending := pending + [bytes];
      pendingLen := pendingLen + |bytes|;
      reply := Done;
      if pendingLen >= sizes.part {
        Limits.RoomForOneMore(bodies, sizes, Limits.AZURE.maxParts, pendingLen);
        WholeParts(bodies, sizes.part, Concat(pending));
        reply := FlushBlock(stage);
      }
    }

    /** Commit what was taken: one upload when no block is listed, else the listed blocks, the rest staged first. */
    method Finish(writeId: nat, stage: Stage, script: Commits.Script)
      returns (outcome: Service.Outcome, size: nat, put: Service.Job)
      requires Valid() && Commits.IsScript(script)
      modifies this
      ensures Kept() && taken == old(taken) && refused == old(refused) && total == old(total)
      ensures NoneEmpty(bodies) && WholeButLast(bodies, sizes.part) && |blockIds| <= Limits.AZURE.maxParts
      ensures put.Put? && put.writeId == writeId && put.nonce == nonce
      ensures put.staged == (old(listed) != []) && Stores(put, bodies, listed, taken)
      ensures size == total
      ensures outcome == if LosesTheLast(old(Sums()), stage) then LastThrown(put, stage, script)
                         else Commits.Outcome(Service.Azure, put, 0, script)
      ensures |bodies| - |listed| == old(|bodies| - |listed|) + if LosesTheLast(old(Sums()), stage) then 1 else 0
    {
      hide Numbers, Named, Lists, Assembled, NoneEmpty, WholeButLast, Limits.AtLeast, Commits.Outcome;
      size := total;
      WholeParts(bodies, sizes.part, Concat(pending));
      Limits.WithinTheLimit(bodies, sizes, Limits.AZURE.maxParts);
      if |blockIds| == 0 {
        put := Service.Put(writeId, nonce, [Concat(pending)], false);
      } else {
        ConcatAppends([], []);
        if pendingLen > 0 {
          Limits.RoomForOneMore(bodies, sizes, Limits.AZURE.maxParts, pendingLen);
          var reply := FlushBlock(stage);
          AssemblesListed(pool, nonce, blockIds, Named(bodies, listed));
          put := Service.Put(writeId, nonce, Assembled(pool, blockIds), true);
          if !reply.Done? {
            outcome := Service.Failed;
            if stage.conflict {
              outcome := Commits.ReplayedCommit(Service.Azure, writeId, put, Conflicting(script));
            }
            return;
          }
        } else {
          AssemblesListed(pool, nonce, blockIds, Named(bodies, listed));
          put := Service.Put(writeId, nonce, Assembled(pool, blockIds), true);
        }
      }
      outcome := Commits.ReplayedCommit(Service.Azure, writeId, put, script);
    }
  }

  lemma StoresConserves(put: Service.Job, bodies: seq<Bytes>, listed: seq<nat>, taken: Bytes, refused: nat, all: Bytes)
    requires Stores(put, bodies, listed, taken) && NoneEmpty(bodies)
    requires |taken| + refused == |all| && (refused == 0 ==> taken == all)
    ensures |listed| <= |bodies|
    ensures Concat(put.parts) == all <==> refused == 0 && |listed| == |bodies|
    ensures |Concat(put.parts)| == |all| <==> refused == 0 && |listed| == |bodies|
  {
    NamedInFull(bodies, listed);
    if put.staged {
      Conserved(bodies, listed, refused, all);
    } else {
      assert put.parts == [] + [put.parts[0]];
      ConcatAppends([], put.parts[0]);
      if bodies != [] {
        assert bodies[0] != [];
      }
    }
  }

  /** No write ended the put, and no block was lost at its end: the commit goes out. */
  predicate SendsCommit(sizes: Limits.Sizes, calls: seq<Call<Stage>>, replies: seq<Reply>, last: Stage) {
    !Ended(SizingOf(sizes), calls, replies) && !LosesTheLast(Run(SizingOf(sizes), calls), last)
  }

  /**
   * `putImmutable`. When its commit goes out, the size it reports is that of everything the callback handed over, and
   * what the commit stores is exactly that, in order, if and only if the size is true, which is if and only if no write
   * was refused and no block lost. A callback that swallows no failure always gets this. `bodies` are the blocks that
   * were sent, of which `listed` are listed, under `ids`.
   */
  method PutImmutable(nonce: string, sizes: Limits.Sizes, pool: map<string, Bytes>, calls: seq<Call<Stage>>,
                      writeId: nat, last: Stage, script: Commits.Script)
    returns (outcome: Service.Outcome, size: nat, put: Service.Job, replies: seq<Reply>, ids: seq<string>,
             ghost bodies: seq<Bytes>, ghost listed: seq<nat>)
    requires BlockIds.IsNonce(nonce) && Limits.Fits(Limits.AZURE, sizes) && Commits.IsScript(script)
    ensures put.Put? && put.writeId == writeId && Service.WellFormedJob(put)
    ensures |ids| == |listed| <= Limits.AZURE.maxParts
    ensures forall k :: 0 <= k < |ids| ==> ids[k] == BlockIds.BlockId(nonce, k) && |ids[k]| == 28
    ensures Answered(SizingOf(sizes), calls, replies)
    ensures outcome ==
            if Ended(SizingOf(sizes), calls, replies) then Thrown(replies[|replies| - 1], calls[|replies| - 1].fate)
            else if LosesTheLast(Run(SizingOf(sizes), calls), last) then LastThrown(put, last, script)
            else Commits.Outcome(Service.Azure, put, 0, script)
    ensures !Ended(SizingOf(sizes), calls, replies) ==> Stores(put, bodies, listed, Accepted(calls, replies))
    ensures !Ended(SizingOf(sizes), calls, replies) ==> size == |Handed(calls)|
    ensures SendsCommit(sizes, calls, replies, last) ==> |bodies| - |listed| == Losses(replies)
    ensures SendsCommit(sizes, calls, replies, last) ==> (Concat(put.parts) == Handed(calls) <==> Lossless(replies))
    ensures SendsCommit(sizes, calls, replies, last) ==> (|Concat(put.parts)| == size <==> Lossless(replies))
    ensures SendsCommit(sizes, calls, replies, last) && SwallowsNone(calls) ==> Concat(put.parts) == Handed(calls)
  {
    hide Numbers, Named, NoneEmpty, WholeButLast, Lossless, Handed, SwallowsNone, Lists, Limits.AtLeast,
      Commits.Outcome, ReplyTo, Tallied, Run, GoesOn, Answered, Ended, Adds, Accepted, Losses, Concat, LastThrown,
      Thrown, Stores, SizingOf, AzureBlockBlobSink.Valid, AzureBlockBlobSink.Kept;
    NoWrites(sizes, calls);
    Beginnings(calls);
    NothingAdds(calls);
    var sink := new AzureBlockBlobSink(nonce, sizes, pool);
    replies := [];
    for n := 0 to |calls|
      invariant sink.Valid() && fresh(sink) && sink.sizes == sizes && sink.nonce == nonce
      invariant |replies| == n && sink.Sums() == Run(SizingOf(sizes), calls[..n])
      invariant GoesOn(SizingOf(sizes), calls, replies)
      invariant Adds(calls, replies, sink.total, sink.refused, sink.taken, |sink.bodies| - |sink.listed|)
    {
      ghost var (total, refused, taken, lost) := (sink.total, sink.refused, sink.taken, |sink.bodies| - |sink.listed|);
      ghost var before := sink.Sums();
      var reply := sink.Write(calls[n].bytes, calls[n].fate);
      OneMoreWrite(sizes, calls, replies, reply, before, sink.Sums());
      AddsOneMore(calls, replies, reply, total, refused, taken, lost);
      replies := replies + [reply];
      if !reply.Done? && !calls[n].swallowed {
        outcome, size, put := Thrown(reply, calls[n].fate), 0, Service.Put(writeId, nonce, [], false);
        ids, bodies, listed := sink.blockIds, sink.bodies, sink.listed;
        sink.WithinTheLimit();
        sink.Counts();
        return;
      }
    }
    assert calls[..|calls|] == calls;
    AllReplied(SizingOf(sizes), calls, replies);
    AddsMeans(calls, replies, sink.total, sink.refused, sink.taken, |sink.bodies| - |sink.listed|);
    outcome, size, put := sink.Finish(writeId, last, script);
    ids, bodies, listed := sink.blockIds, sink.bodies, sink.listed;
    sink.Counts();
    StoresConserves(put, bodies, listed, sink.taken, sink.refused, Handed(calls));
  }
}
