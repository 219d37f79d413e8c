/**
 * The S3 driver's buffering write sink, and `putImmutable` around it. Bytes are handed over in writes, buffered, and
 * sent as the parts of a multipart upload, or as one request when they never fill a part. A request of the sink may
 * fail, and its caller may carry on writing after the failure was thrown at it, so what is proved covers that too.
 */
module S3Sink {

  import opened Bytes
  import Limits
  import BlockIds
  import Service
  import Commits
  import opened Parts

  /**
   * What becomes of a flush: the upload does not open, the part's request fails, or the part is stored. A failure is a
   * conflict when its answer reads as one, a 409 or a 412.
   */
  datatype Flush = OpenFails(conflict: bool) | PartFails(conflict: bool) | PartStored

  // ---------- what the sizes alone tell ----------

  /** The bytes handed over, those pending, and whether an upload is open. */
  datatype Tally = Tally(total: nat, pending: nat, open: bool)

  /** What a write is answered. */
  function ReplyTo(sizes: Limits.Sizes, t: Tally, bytes: Bytes, flush: Flush): Reply {
    if bytes == [] then Done
    else if t.total + |bytes| > sizes.ceiling then TooLarge
    else if t.pending + |bytes| < sizes.part || flush.PartStored? then Done
    else if !t.open && flush.OpenFails? then OpenFailed
    else PartLost
  }

  function Tallied(sizes: Limits.Sizes, t: Tally, bytes: Bytes, flush: Flush): Tally {
    var (total, pending, reply) := (t.total + |bytes|, t.pending + |bytes|, ReplyTo(sizes, t, bytes, flush));
    if reply.TooLarge? then t.(total := total)
    else if pending < sizes.part || bytes == [] || reply.OpenFailed? then Tally(total, pending, t.open)
    else Tally(total, 0, true)
  }

  function SizingOf(sizes: Limits.Sizes): Sizing<Tally, Flush> {
    Sizing(Tally(0, 0, false),
           (t: Tally, call: Call<Flush>) => ReplyTo(sizes, t, call.bytes, call.fate),
           (t: Tally, call: Call<Flush>) => Tallied(sizes, t, call.bytes, call.fate))
  }

  lemma NoWrites(sizes: Limits.Sizes, calls: seq<Call<Flush>>)
    ensures GoesOn(SizingOf(sizes), calls, []) && Run(SizingOf(sizes), calls[..0]) == Tally(0, 0, false)
  {
    NoReplies(SizingOf(sizes), calls);
  }

  lemma OneMoreWrite(sizes: Limits.Sizes, calls: seq<Call<Flush>>, replies: seq<Reply>, reply: Reply, before: Tally,
                     after: Tally)
    requires GoesOn(SizingOf(sizes), calls, replies) && |replies| < |calls|
    requires before == Run(SizingOf(sizes), calls[..|replies|])
    requires reply == ReplyTo(sizes, before, calls[|replies|].bytes, calls[|replies|].fate)
    requires after == Tallied(sizes, before, calls[|replies|].bytes, calls[|replies|].fate)
    ensures Run(SizingOf(sizes), calls[..|replies| + 1]) == after
    ensures reply.Done? || calls[|replies|].swallowed ==> GoesOn(SizingOf(sizes), calls, replies + [reply])
    ensures !reply.Done? && !calls[|replies|].swallowed ==>
              Answered(SizingOf(sizes), calls, replies + [reply]) && Ended(SizingOf(sizes), calls, replies + [reply])
  {
    hide GoesOn, Answered, Ended, Run, ReplyTo, Tallied;
    OneMoreReply(SizingOf(sizes), calls, replies, reply);
  }

  lemma {:induction false} TotalIsHanded(sizes: Limits.Sizes, calls: seq<Call<Flush>>)
    ensures Run(SizingOf(sizes), calls).total == |Handed(calls)|
  {
    if calls != [] {
      TotalIsHanded(sizes, calls[..|calls| - 1]);
      HandedFront(calls);
      hide Handed;
    }
  }

  /**
   * A write is refused exactly when it takes what was handed over past the ceiling, and fails only if its request
   * did.
   */
  lemma RefusedExactly(sizes: Limits.Sizes, calls: seq<Call<Flush>>, replies: seq<Reply>, n: nat)
    requires Answered(SizingOf(sizes), calls, replies) && n < |replies|
    ensures replies[n].TooLarge? <==> calls[n].bytes != [] && |Handed(calls[..n + 1])| > sizes.ceiling
    ensures calls[n].bytes == [] || calls[n].fate.PartStored? ==> replies[n].Done? || replies[n].TooLarge?
  {
    TotalIsHanded(sizes, calls[..n]);
    HandedAppends(calls, n);
    hide Handed, Run;
    assert replies[n] == ReplyAt(SizingOf(sizes), calls, n);
  }

  /** What `putImmutable` makes of a write that ends it: the conflict the request was answered, or a failure. */
  function Thrown(reply: Reply, flush: Flush): Service.Outcome {
    if (reply.OpenFailed? || reply.PartLost?) && !flush.PartStored? && flush.conflict then Service.Conflict
    else Service.Failed
  }

  /** The part that is left for the end is lost. */
  predicate LosesTheLast(t: Tally, last: Flush) {
    t.open && t.pending > 0 && !last.PartStored?
  }

  /** What a commit stores: the bodies that are listed, or all that was taken in one. */
  predicate Stores(put: Service.Job, bodies: seq<Bytes>, parts: seq<nat>, taken: Bytes) {
    && put.Put? && Numbers(parts, |bodies|) && put.staged == (bodies != [])
    && put.parts == (if put.staged then Named(bodies, parts) else [taken])
    && (put.staged ==> Concat(bodies) == taken)
  }

  class S3MultipartSink {
    const sizes: Limits.Sizes
    var pending: seq<Bytes>
    var pendingLen: nat
    var total: nat
    var uploading: bool
    var partNumber: nat
    var parts: seq<nat>

    /** What the service was sent: the body of each part, lost or stored. */
    var bodies: seq<Bytes>
    /** What the sink took: the bytes of every write that passed the size check. */
    ghost var taken: Bytes
    /** How many bytes the size check turned away. */
    ghost var refused: nat

    ghost function Sums(): Tally
      reads this
    {
      Tally(total, pendingLen, uploading)
    }

    /** No byte taken is dropped before it is sent, none changes place, and every part is sent under its own number. */
    ghost predicate Kept()
      reads this
    {
      && pendingLen == |Concat(pending)|
      && partNumber == |bodies| && Numbers(parts, |bodies|)
      && uploading == (bodies != [])
      && Concat(bodies) + Concat(pending) == taken
      && total == |taken| + refused
    }

    /** The ceiling holds of what was taken, and every part sent so far is a whole one. */
    ghost predicate Valid()
      reads this
    {
      && Limits.Fits(Limits.S3, sizes) && Kept()
      && |taken| <= sizes.ceiling && (refused > 0 ==> total > sizes.ceiling)
      && Limits.AtLeast(bodies, sizes.part)
    }

    constructor (sizes: Limits.Sizes)
      requires Limits.Fits(Limits.S3, sizes)
      ensures Valid() && fresh(this) && this.sizes == sizes
      ensures Sums() == Tally(0, 0, false) && taken == [] && refused == 0
      ensures bodies == [] && parts == [] && pending == []
    {
      this.sizes := sizes;
      pending, pendingLen, total, uploading, partNumber, parts := [], 0, 0, false, 0, [];
      bodies, taken, refused := [], [], 0;
    }

    /** What the invariant says of the counts. */
    lemma Counts()
      requires Kept()
      ensures total == |taken| + refused
    {
    }

    lemma WithinTheLimit()
      requires Valid()
      ensures |bodies| <= Limits.S3.maxParts && WholeButLast(bodies, sizes.part)
    {
      WholeParts(bodies, sizes.part, []);
      Limits.WithinTheLimit(bodies, sizes, Limits.S3.maxParts);
    }

    /** Send what is pending as the next part, opening the upload first. */
    method FlushPart(flush: Flush) returns (reply: Reply)
      requires Kept()
      modifies `pending, `pendingLen, `uploading, `partNumber, `parts, `bodies
      ensures Kept()
      ensures reply.OpenFailed? <==> !old(uploading) && flush.OpenFails?
      ensures reply.OpenFailed? ==>
                bodies == old(bodies) && pending == old(pending) && parts == old(parts) && !uploading
      ensures !reply.OpenFailed? ==> uploading && pending == [] && bodies == old(bodies) + [Concat(old(pending))]
      ensures reply.TooManyParts? ==> old(partNumber) >= Limits.S3.maxParts
      ensures !reply.OpenFailed? && old(partNumber) < Limits.S3.maxParts ==>
                reply == if flush.PartStored? then Done else PartLost
      ensures parts == if reply.Done? then old(parts) + [old(partNumber) + 1] else old(parts)
    {
      hide Numbers;
      if !uploading {
        if flush.OpenFails? {
          return OpenFailed;
        }
        uploading := true;
      }
      var body := Concat(pending);
      ConcatAppends(bodies, body);
      NumbersGrow(parts, |bodies|);
      bodies := bodies + [body];
      pending := [];
      pendingLen := 0;
      partNumber := partNumber + 1;
      if partNumber > Limits.S3.maxParts {
        return TooManyParts;
      }
      if !flush.PartStored? {
        return PartLost;
      }
      parts := parts + [partNumber];
      return Done;
    }

    /**
     * Take a write. Bytes over the ceiling are refused and buffer nothing, though they stay in the total; all others
     * are kept in order. The part limit is never met.
     */
    method Write(bytes: Bytes, flush: Flush) returns (reply: Reply)
      requires Valid()
      modifies this
      ensures Valid() && reply == ReplyTo(sizes, old(Sums()), bytes, flush)
      ensures !reply.TooManyParts? && !reply.StreamFailed? && (reply.TooLarge? ==> bytes != [])
      ensures Sums() == Tallied(sizes, old(Sums()), bytes, flush) && total == old(total) + |bytes|
      ensures taken == if reply.TooLarge? then old(taken) else old(taken) + bytes
      ensures refused == if reply.TooLarge? then old(refused) + |bytes| else old(refused)
      ensures bytes != [] && reply.Done? ==> pendingLen < sizes.part
      ensures bytes == [] || reply.TooLarge? ==> bodies == old(bodies) && pending == old(pending) && parts == old(parts)
      ensures |bodies| - |parts| == old(|bodies| - |parts|) + if reply.PartLost? then 1 else 0
    {
      hide Numbers, Limits.AtLeast;
      if |bytes| == 0 {
        assert bytes == [];
        return Done;
      }
      if total + |bytes| > sizes.ceiling {
        total := total + |bytes|;
        refused := refused + |bytes|;
        return TooLarge;
      }
      reply := Buffer(bytes, flush);
    }

    /** The rest of `write`, for one that fits: its bytes are buffered, and a full part is flushed. */
    method Buffer(bytes: Bytes, flush: Flush) returns (reply: Reply)
      requires Valid() && bytes != [] && total + |bytes| <= sizes.ceiling
      modifies this
      ensures Valid() && reply == ReplyTo(sizes, old(Sums()), bytes, flush)
      ensures reply.Done? || reply.OpenFailed? || reply.PartLost?
      ensures Sums() == Tallied(sizes, old(Sums()), bytes, flush) && total == old(total) + |bytes|
      ensures taken == old(taken) + bytes && refused == old(refused)
      ensures reply.Done? ==> pendingLen < sizes.part
      ensures |bodies| - |parts| == old(|bodies| - |parts|) + if reply.PartLost? then 1 else 0
    {
      hide Numbers, NoneEmpty, WholeButLast, Limits.AtLeast;
      total := total + |bytes|;
      ConcatAppends(pending, bytes);
      assert Concat(bodies) + (Concat(pending) + bytes) == taken + bytes;
      taken := taken + bytes;
      pending := pending + [bytes];
      pendingLen := pendingLen + |bytes|;
      reply := Done;
      if pendingLen >= sizes.part {
        Limits.RoomForOneMore(bodies, sizes, Limits.S3.maxParts, pendingLen);
        WholeParts(bodies, sizes.part, Concat(pending));
        reply := FlushPart(flush);
      }
    }

    /**
     * Commit what was taken: a single request when no part was ever sent, else the listed parts, the rest flushed
     * first. `put` is the request the commit sends, or would have sent.
     */
    method Finish(writeId: nat, nonce: string, flush: Flush, script: Commits.Script)
      returns (outcome: Service.Outcome, size: nat, put: Service.Job)
      requires Valid() && Commits.IsScript(script) && BlockIds.IsNonce(nonce)
      modifies this
      ensures Kept() && taken == old(taken) && refused == old(refused) && total == old(total)
      ensures old(bodies) <= bodies && |bodies| <= Limits.S3.maxParts
      ensures NoneEmpty(bodies) && WholeButLast(bodies, sizes.part)
      ensures old(parts) <= parts && |parts| - old(|parts|) <= |bodies| - old(|bodies|)
      ensures put.Put? && Service.WellFormedJob(put) && put.writeId == writeId && put.staged == (bodies != [])
      ensures Stores(put, bodies, parts, taken) && size == total
      ensures outcome == if LosesTheLast(old(Sums()), flush) then Thrown(PartLost, flush)
                         else Commits.Outcome(Service.S3, put, 0, script)
      ensures |bodies| - |parts| == old(|bodies| - |parts|) + if LosesTheLast(old(Sums()), flush) then 1 else 0
    {
      hide Numbers, NoneEmpty, WholeButLast, Limits.AtLeast, Commits.Outcome;
      size := total;
      WholeParts(bodies, sizes.part, Concat(pending));
      Limits.WithinTheLimit(bodies, sizes, Limits.S3.maxParts);
      var sends, waited;
      if !uploading {
        assert taken == Concat(bodies) + Concat(pending) == Concat(pending);
        put := Service.Put(writeId, nonce, [Concat(pending)], false);
        outcome, sends, waited := Commits.S3Commit(writeId, put, script);
        return;
      }
      ConcatAppends([], []);
      if pendingLen > 0 {
        Limits.RoomForOneMore(bodies, sizes, Limits.S3.maxParts, pendingLen);
        var reply := FlushPart(flush);
        put := Service.Put(writeId, nonce, Named(bodies, parts), true);
        if !reply.Done? {
          outcome := Thrown(reply, flush);
          return;
        }
      } else {
        put := Service.Put(writeId, nonce, Named(bodies, parts), true);
      }
      outcome, sends, waited := Commits.S3Commit(writeId, put, script);
    }
  }

  lemma StoresConserves(put: Service.Job, bodies: seq<Bytes>, parts: seq<nat>, taken: Bytes, refused: nat, all: Bytes)
    requires Stores(put, bodies, parts, taken) && NoneEmpty(bodies)
    requires |taken| + refused == |all| && (refused == 0 ==> taken == all)
    ensures |parts| <= |bodies|
    ensures Concat(put.parts) == all <==> refused == 0 && |parts| == |bodies|
    ensures |Concat(put.parts)| == |all| <==> refused == 0 && |parts| == |bodies|
  {
    if put.staged {
      NamedInFull(bodies, parts);
      Conserved(bodies, parts, refused, all);
    } else {
      if parts != [] {
        SomethingSent(parts, |bodies|);
      }
      ConcatAppends([], taken);
    }
  }

  /**
   * `putImmutable`. When it returns, the size it reports is that of everything the callback handed over, and what the
   * commit stored is exactly that, in order, if and only if the size is true, which is if and only if no write was
   * refused and no part lost. A callback that swallows no failure always gets this. `bodies` are the parts that were
   * sent, of which `parts` are listed.
   */
  method PutImmutable(sizes: Limits.Sizes, calls: seq<Call<Flush>>, writeId: nat, nonce: string, last: Flush,
                      script: Commits.Script)
    returns (outcome: Service.Outcome, size: nat, put: Service.Job, replies: seq<Reply>, bodies: seq<Bytes>,
             parts: seq<nat>)
    requires Limits.Fits(Limits.S3, sizes) && Commits.IsScript(script) && BlockIds.IsNonce(nonce)
    ensures put.Put? && Service.WellFormedJob(put) && put.writeId == writeId
    ensures |bodies| <= Limits.S3.maxParts && WholeButLast(bodies, sizes.part)
    ensures Answered(SizingOf(sizes), calls, replies)
    ensures outcome ==
            if Ended(SizingOf(sizes), calls, replies) then Thrown(replies[|replies| - 1], calls[|replies| - 1].fate)
            else if LosesTheLast(Run(SizingOf(sizes), calls), last) then Thrown(PartLost, last)
            else Commits.Outcome(Service.S3, put, 0, script)
    ensures !Ended(SizingOf(sizes), calls, replies) ==> Stores(put, bodies, parts, Accepted(calls, replies))
    ensures !Ended(SizingOf(sizes), calls, replies) ==>
              |bodies| - |parts| == Losses(replies) + if LosesTheLast(Run(SizingOf(sizes), calls), last) then 1 else 0
    ensures outcome.Returned? ==> size == |Handed(calls)|
    ensures outcome.Returned? ==> (Concat(put.parts) == Handed(calls) <==> Lossless(replies))
    ensures outcome.Returned? ==> (|Concat(put.parts)| == size <==> Lossless(replies))
    ensures outcome.Returned? && SwallowsNone(calls) ==> Concat(put.parts) == Handed(calls)
  {
    hide Numbers, Named, NoneEmpty, WholeButLast, Lossless, Handed, SwallowsNone, Limits.AtLeast, Commits.Outcome,
      ReplyTo, Tallied, Run, GoesOn, Answered, Ended, Adds, Accepted, Losses, Concat, Stores, SizingOf,
      S3MultipartSink.Valid, S3MultipartSink.Kept;
    NoWrites(sizes, calls);
    Beginnings(calls);
    NothingAdds(calls);
    var sink := new S3MultipartSink(sizes);
    replies := [];
    for n := 0 to |calls|
      invariant sink.Valid() && fresh(sink) && sink.sizes == sizes
      invariant |replies| == n && sink.Sums() == Run(SizingOf(sizes), calls[..n])
      invariant GoesOn(SizingOf(sizes), calls, replies)
      invariant Adds(calls, replies, sink.total, sink.refused, sink.taken, |sink.bodies| - |sink.parts|)
    {
      ghost var (total, refused, taken, lost) := (sink.total, sink.refused, sink.taken, |sink.bodies| - |sink.parts|);
      ghost var before := sink.Sums();
      var reply := sink.Write(calls[n].bytes, calls[n].fate);
      OneMoreWrite(sizes, calls, replies, reply, before, sink.Sums());
      AddsOneMore(calls, replies, reply, total, refused, taken, lost);
      replies := replies + [reply];
      if !reply.Done? && !calls[n].swallowed {
        outcome, size, put := Thrown(reply, calls[n].fate), 0, Service.Put(writeId, nonce, [], false);
        bodies, parts := sink.bodies, sink.parts;
        sink.WithinTheLimit();
        return;
      }
    }
    assert calls[..|calls|] == calls;
    AllReplied(SizingOf(sizes), calls, replies);
    AddsMeans(calls, replies, sink.total, sink.refused, sink.taken, |sink.bodies| - |sink.parts|);
    outcome, size, put := sink.Finish(writeId, nonce, last, script);
    bodies, parts := sink.bodies, sink.parts;
    sink.Counts();
    StoresConserves(put, bodies, parts, sink.taken, sink.refused, Handed(calls));
  }

  /**
   * The size can be wrong: a callback that fills one part, and carries on when its request fails, gets the size of
   * what it handed over for an object that does not hold it.
   */
  method SwallowedLoss(sizes: Limits.Sizes, writeId: nat, nonce: string)
    returns (outcome: Service.Outcome, size: nat, put: Service.Job)
    requires Limits.Fits(Limits.S3, sizes) && sizes.part <= sizes.ceiling && BlockIds.IsNonce(nonce)
    ensures put.Put? && outcome.Returned? && size == sizes.part && |Concat(put.parts)| != size
  {
    var bytes: Bytes := seq(sizes.part, _ => 0);
    var calls := [Call(bytes, PartFails(false), true)];
    var script := Commits.Script([Service.Ok, Service.Ok, Service.Ok, Service.Ok], [0.0, 0.0, 0.0, 0.0],
                                 Commits.LookFails);
    OneLostPart(sizes, bytes);
    hide Answered, Ended, Lossless, Handed, Run, ReplyAt, LosesTheLast;
    var replies, bodies, parts;
    outcome, size, put, replies, bodies, parts := PutImmutable(sizes, calls, writeId, nonce, PartStored, script);
    OnlyReply(sizes, calls, replies);
  }

  lemma OneLostPart(sizes: Limits.Sizes, bytes: Bytes)
    requires 0 < sizes.part == |bytes| <= sizes.ceiling
    ensures var calls := [Call(bytes, PartFails(false), true)];
            && ReplyAt(SizingOf(sizes), calls, 0) == PartLost && Handed(calls) == bytes
            && !LosesTheLast(Run(SizingOf(sizes), calls), PartStored)
  {
    var calls := [Call(bytes, PartFails(false), true)];
    assert calls[..0] == [];
    assert calls[..1] == calls;
    Beginnings(calls);
    HandedAppends(calls, 0);
  }

  lemma OnlyReply(sizes: Limits.Sizes, calls: seq<Call<Flush>>, replies: seq<Reply>)
    requires |calls| == 1 && calls[0].swallowed && Answered(SizingOf(sizes), calls, replies)
    requires ReplyAt(SizingOf(sizes), calls, 0) == PartLost
    ensures !Ended(SizingOf(sizes), calls, replies) && !Lossless(replies)
  {
    hide ReplyAt;
    assert |replies| == 1;
    assert replies[0] == PartLost && !replies[0].Done? && !replies[0].OpenFailed?;
  }
}
