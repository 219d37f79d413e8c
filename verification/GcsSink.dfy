/**
 * The GCS driver's write sink, and `putImmutable` around it. Bytes are buffered up to a threshold and sent in one
 * request, or, past it, streamed to a resumable upload. The stream may fail at any time; the failure is kept, and
 * thrown at every later write and by `finish`.
 */
module GcsSink {

  import opened Bytes
  import opened Parts
  import BlockIds
  import Commits
  import Limits
  import Service

  const MAX_OBJECT_BYTES: nat := 5 * Limits.TIB
  const DEFAULT_THRESHOLD_BYTES: nat := 8 * Limits.MIB

  datatype Sizes = Sizes(threshold: nat, ceiling: nat)

  /** The constructor: none when it throws. */
  function Resolve(maxObjectBytes: Option<int>, thresholdBytes: Option<int>): (r: Option<Sizes>)
    ensures r.Some? ==> 0 < r.value.threshold && 0 < r.value.ceiling <= MAX_OBJECT_BYTES
    ensures r.None? <==>
            || (thresholdBytes.Some? && thresholdBytes.value <= 0)
            || (maxObjectBytes.Some? && (maxObjectBytes.value <= 0 || maxObjectBytes.value > MAX_OBJECT_BYTES))
  {
    if thresholdBytes.Some? && thresholdBytes.value <= 0 then None
    else if maxObjectBytes.Some? && (maxObjectBytes.value <= 0 || maxObjectBytes.value > MAX_OBJECT_BYTES) then None
    else Some(Sizes(if thresholdBytes.Some? then thresholdBytes.value else DEFAULT_THRESHOLD_BYTES,
                    if maxObjectBytes.Some? then maxObjectBytes.value else MAX_OBJECT_BYTES))
  }

  /** The options as they are given, else 5 TiB and 8 MiB. */
  lemma ResolvesTo(maxObjectBytes: Option<int>, thresholdBytes: Option<int>)
    requires Resolve(maxObjectBytes, thresholdBytes).Some?
    ensures var sizes := Resolve(maxObjectBytes, thresholdBytes).value;
            && sizes.threshold == (if thresholdBytes.Some? then thresholdBytes.value else 8_388_608)
            && sizes.ceiling == (if maxObjectBytes.Some? then maxObjectBytes.value else 5_497_558_138_880)
            && sizes.ceiling <= 5_497_558_138_880
  {
  }

  /** What the stream did: nothing amiss, or an error, a failed precondition or any other. */
  datatype Fault = Fine | Refused | Broke

  /** What the stream does before a write, and while the write waits for it to drain. */
  datatype Moment = Moment(before: Fault, during: Fault)

  // ---------- what the sizes alone tell ----------

  /** The bytes handed over, whether they are streamed, and the stream's first error. */
  datatype Tally = Tally(total: nat, streaming: bool, failure: Fault)

  function First(streaming: bool, failure: Fault, error: Fault): Fault {
    if streaming && failure.Fine? then error else failure
  }

  /** What a write is answered. */
  function ReplyTo(sizes: Sizes, t: Tally, bytes: Bytes, during: Fault): Reply {
    if !t.failure.Fine? then StreamFailed
    else if bytes == [] then Done
    else if t.total + |bytes| > sizes.ceiling then TooLarge
    else if t.streaming && !during.Fine? then StreamFailed
    else Done
  }

  function Tallied(sizes: Sizes, t: Tally, bytes: Bytes, during: Fault): Tally {
    if !t.failure.Fine? || bytes == [] then t
    else
      var total := t.total + |bytes|;
      if total > sizes.ceiling then t.(total := total)
      else Tally(total, t.streaming || total > sizes.threshold, First(t.streaming, t.failure, during))
  }

  /** What the sink takes of a write: all of it, unless the stream has failed or it does not fit. */
  function Fitting(sizes: Sizes, t: Tally, bytes: Bytes): Bytes {
    if t.failure.Fine? && t.total + |bytes| <= sizes.ceiling then bytes else []
  }

  lemma WriteMeans(sizes: Sizes, t: Tally, bytes: Bytes, during: Fault)
    requires t.failure.Fine? || t.streaming
    ensures var (reply, after) := (ReplyTo(sizes, t, bytes, during), Tallied(sizes, t, bytes, during));
            && (reply.Done? || (reply.TooLarge? && bytes != []) || reply.StreamFailed?)
            && (!after.failure.Fine? <==> reply.StreamFailed?)
            && (if t.failure.Fine? then after.total == t.total + |bytes| else !after.failure.Fine?)
            && Fitting(sizes, t, bytes) == if reply.TooLarge? || !t.failure.Fine? then [] else bytes
  {
  }

  function Struck(t: Tally, error: Fault): Tally {
    t.(failure := First(t.streaming, t.failure, error))
  }

  function SizingOf(sizes: Sizes): Sizing<Tally, Moment> {
    Sizing(Tally(0, false, Fine),
           (t: Tally, call: Call<Moment>) => ReplyTo(sizes, Struck(t, call.fate.before), call.bytes, call.fate.during),
           (t: Tally, call: Call<Moment>) => Tallied(sizes, Struck(t, call.fate.before), call.bytes, call.fate.during))
  }

  /** Until the stream fails, the total is of all that was handed over. */
  lemma {:induction false} TotalIsHanded(sizes: Sizes, calls: seq<Call<Moment>>)
    ensures Run(SizingOf(sizes), calls).failure.Fine? ==> Run(SizingOf(sizes), calls).total == |Handed(calls)|
  {
    if calls != [] {
      TotalIsHanded(sizes, calls[..|calls| - 1]);
      HandedFront(calls);
      hide Handed;
    }
  }

  /** A write fails exactly once the stream has; until then it is refused exactly when it passes the ceiling. */
  lemma RefusedExactly(sizes: Sizes, calls: seq<Call<Moment>>, replies: seq<Reply>, n: nat)
    requires Answered(SizingOf(sizes), calls, replies) && n < |replies|
    ensures replies[n].StreamFailed? <==> !Run(SizingOf(sizes), calls[..n + 1]).failure.Fine?
    ensures !replies[n].StreamFailed? ==>
              if calls[n].bytes != [] && |Handed(calls[..n + 1])| > sizes.ceiling then replies[n].TooLarge?
              else replies[n].Done?
  {
    TotalIsHanded(sizes, calls[..n]);
    HandedAppends(calls, n);
    assert calls[..n + 1][..n] == calls[..n];
    StreamingFirst(sizes, calls[..n]);
    hide Handed;
    assert replies[n] == ReplyAt(SizingOf(sizes), calls, n);
  }

  /** Only an upload that streams fails so. */
  lemma {:induction false} StreamingFirst(sizes: Sizes, calls: seq<Call<Moment>>)
    ensures var t := Run(SizingOf(sizes), calls); t.failure.Fine? || t.streaming
  {
    if calls != [] {
      StreamingFirst(sizes, calls[..|calls| - 1]);
    }
  }

  /** What the sink takes of the writes, in order. */
  function TakenBy(sizes: Sizes, calls: seq<Call<Moment>>): Bytes {
    if calls == [] then []
    else
      var (before, call) := (calls[..|calls| - 1], calls[|calls| - 1]);
      TakenBy(sizes, before) + Fitting(sizes, Struck(Run(SizingOf(sizes), before), call.fate.before), call.bytes)
  }

  lemma NothingTaken(sizes: Sizes, calls: seq<Call<Moment>>)
    ensures TakenBy(sizes, calls[..0]) == []
  {
  }

  lemma TakenAppends(sizes: Sizes, calls: seq<Call<Moment>>, n: nat)
    requires n < |calls|
    ensures TakenBy(sizes, calls[..n + 1]) == TakenBy(sizes, calls[..n])
            + Fitting(sizes, Struck(Run(SizingOf(sizes), calls[..n]), calls[n].fate.before), calls[n].bytes)
  {
    hide Fitting, Run, Struck;
    assert calls[..n + 1][..n] == calls[..n];
  }

  /** What `putImmutable` makes of a write that ends it: a failed precondition is a conflict, and not read back. */
  function Thrown(reply: Reply, failure: Fault): Service.Outcome {
    if reply.StreamFailed? && failure.Refused? then Service.Conflict else Service.Failed
  }

  /** The answer to the commit: the failure of the stream stands for it, a failed precondition or any other. */
  function Told(failure: Fault, script: Commits.Script): Commits.Script
    requires Commits.IsScript(script)
  {
    match failure
    case Fine => script
    case Refused => script.(answers := script.answers[0 := Service.Precondition])
    case Broke => script.(answers := script.answers[0 := Service.Lost])
  }

  // ---------- the sink ----------

  /** Every byte taken is streamed or buffered, in order. */
  predicate Held(streamed: seq<Bytes>, buffered: seq<Bytes>, taken: Bytes) {
    Concat(streamed) + Concat(buffered) == taken
  }

  lemma HeldGrows(streamed: seq<Bytes>, buffered: seq<Bytes>, taken: Bytes, bytes: Bytes)
    requires Held(streamed, buffered, taken)
    ensures Held(streamed, buffered + [bytes], taken + bytes)
    ensures buffered == [] ==> Held(streamed + [bytes], buffered, taken + bytes)
  {
    ConcatAppends(streamed, bytes);
    ConcatAppends(buffered, bytes);
    assert Concat(streamed) + (Concat(buffered) + bytes) == taken + bytes;
  }

  lemma HeldMoves(buffered: seq<Bytes>, taken: Bytes)
    requires Held([], buffered, taken)
    ensures Held([Concat(buffered)], [], taken)
  {
    ConcatAppends([], Concat(buffered));
  }

  class GcsUploadSink {
    const sizes: Sizes
    var total: nat
    var buffered: seq<Bytes>
    var bufferedLen: nat
    var streaming: bool
    /** The first error of the stream. */
    var failure: Fault
    /** What the stream was given. */
    var streamed: seq<Bytes>
    ghost var taken: Bytes
    ghost var refused: nat

    ghost function Sums(): Tally
      reads this
    {
      Tally(total, streaming, failure)
    }

    /**
     * Every byte taken is buffered or streamed, in order; the upload streams exactly when they passed the threshold.
     */
    ghost predicate Valid()
      reads this
    {
      && bufferedLen == |Concat(buffered)| <= sizes.threshold
      && Held(streamed, buffered, taken)
      && total == |taken| + refused
      && |taken| <= sizes.ceiling && (refused > 0 ==> total > sizes.ceiling)
      && (streaming <==> |taken| > sizes.threshold)
      && (streaming ==> buffered == [])
      && (!streaming ==> streamed == [] && failure.Fine? && bufferedLen == |taken|)
    }

    constructor (sizes: Sizes)
      ensures Valid() && fresh(this) && this.sizes == sizes
      ensures taken == [] && refused == 0 && total == 0 && failure.Fine?
    {
      this.sizes := sizes;
      total, buffered, bufferedLen, streaming, failure, streamed := 0, [], 0, false, Fine, [];
      taken, refused := [], 0;
    }

    /** The stream's persistent `error` listener, once there is a stream: only the first error is kept. */
    method OnError(error: Fault)
      requires Valid()
      modifies `failure
      ensures Valid() && Sums() == Struck(old(Sums()), error)
    {
      if streaming && failure.Fine? {
        failure := error;
      }
    }

    /** Open the stream, and give it what is buffered. */
    method StartResumable()
      requires !streaming && streamed == [] && Held(streamed, buffered, taken)
      modifies `streaming, `streamed, `buffered, `bufferedLen
      ensures streaming && buffered == [] && bufferedLen == |Concat(buffered)| == 0
      ensures streamed == [Concat(old(buffered))] && Held(streamed, buffered, taken)
    {
      HeldMoves(buffered, taken);
      streaming := true;
      var body := Concat(buffered);
      buffered := [];
      bufferedLen := 0;
      streamed := [body];
    }

    /** Take a write. `fault` is the error the stream emits while the write waits for it to drain, if it does. */
    method Write(bytes: Bytes, fault: Fault) returns (reply: Reply)
      requires Valid()
      modifies this
      ensures Valid()
      ensures reply == ReplyTo(sizes, old(Sums()), bytes, fault)
      ensures Sums() == Tallied(sizes, old(Sums()), bytes, fault)
      ensures refused == if reply.TooLarge? then old(refused) + |bytes| else old(refused)
      ensures taken == if reply.TooLarge? || !old(failure).Fine? then old(taken) else old(taken) + bytes
    {
      hide Concat, Held;
      if !failure.Fine? {
        return StreamFailed;
      }
      if |bytes| == 0 {
        assert bytes == [];
        return Done;
      }
      total := total + |bytes|;
      if total > sizes.ceiling {
        refused := refused + |bytes|;
        return TooLarge;
      }
      HeldGrows(streamed, buffered, taken, bytes);
      taken := taken + bytes;
      if streaming {
        streamed := streamed + [bytes];
        if !fault.Fine? {
          OnError(fault);
          return StreamFailed;
        }
        return Done;
      }
      ConcatAppends(buffered, bytes);
      buffered := buffered + [bytes];
      bufferedLen := bufferedLen + |bytes|;
      if bufferedLen > sizes.threshold {
        StartResumable();
      }
      return Done;
    }

    /**
     * Commit what was taken: in one request, or by ending the stream. A failure of the stream stands for its answer.
     */
    method Finish(writeId: nat, nonce: string, script: Commits.Script)
      returns (outcome: Service.Outcome, size: nat, put: Service.Job)
      requires Valid() && Commits.IsScript(script) && BlockIds.IsNonce(nonce)
      ensures put.Put? && Service.WellFormedJob(put) && put.writeId == writeId
      ensures put.staged == (|taken| > sizes.threshold) && Concat(put.parts) == taken && size == total
      ensures outcome == Commits.Outcome(Service.Gcs, put, 0, Told(failure, script))
    {
      size := total;
      if !streaming {
        var body := Concat(buffered);
        ConcatAppends([], body);
        put := Service.Put(writeId, nonce, [body], false);
        var sends, waited;
        outcome, sends, waited := Commits.GcsSimpleCommit(writeId, put, script);
        return;
      }
      put := Service.Put(writeId, nonce, streamed, true);
      assert taken == Concat(streamed) + [];
      outcome := Commits.ReplayedCommit(Service.Gcs, writeId, put, Told(failure, script));
    }
  }

  /** A stream that failed commits nothing: the put fails, unless it was refused, which is read back. */
  predicate StreamDecides(failure: Fault, writeId: nat, look: Commits.Look, outcome: Service.Outcome) {
    && (failure.Broke? ==> outcome.Failed?)
    && (failure.Refused? ==>
          && (outcome.Returned? <==> Commits.FindsOwn(look, writeId))
          && (outcome.Conflict? <==> look.Stored? && !Commits.FindsOwn(look, writeId))
          && (outcome.Failed? <==> look.LookFails?))
  }

  lemma ToldDecides(put: Service.Job, writeId: nat, failure: Fault, script: Commits.Script)
    requires Commits.IsScript(script) && put.Put? && put.writeId == writeId && put.staged
    ensures StreamDecides(failure, writeId, script.look, Commits.Outcome(Service.Gcs, put, 0, Told(failure, script)))
  {
  }

  lemma MoreTooLarge(replies: seq<Reply>, reply: Reply)
    ensures TooLarge in replies + [reply] <==> TooLarge in replies || reply.TooLarge?
    ensures StreamFailed in replies + [reply] <==> StreamFailed in replies || reply.StreamFailed?
  {
  }

  /**
   * `putImmutable`. A write that meets a failed precondition ends it in a conflict; any other that ends it is a
   * failure. Otherwise the commit is of what the sink took, and the size is that and what was refused. Where no write
   * met a failed stream, the size is that of everything the callback handed over, and what the commit stores is
   * exactly that if and only if the size is true, which is if and only if no write was refused for its size. A
   * callback that swallows no failure always gets this. The stream may fail at any time: before a write, while it
   * waits, or, `last`, before the end.
   */
  method PutImmutable(sizes: Sizes, calls: seq<Call<Moment>>, writeId: nat, nonce: string, last: Fault,
                      script: Commits.Script)
    returns (outcome: Service.Outcome, size: nat, put: Service.Job, replies: seq<Reply>)
    requires Commits.IsScript(script) && BlockIds.IsNonce(nonce)
    ensures put.Put? && Service.WellFormedJob(put) && put.writeId == writeId
    ensures Answered(SizingOf(sizes), calls, replies)
    ensures outcome ==
            if Ended(SizingOf(sizes), calls, replies) then
              Thrown(replies[|replies| - 1], Run(SizingOf(sizes), calls[..|replies|]).failure)
            else Commits.Outcome(Service.Gcs, put, 0, Told(Struck(Run(SizingOf(sizes), calls), last).failure, script))
    ensures !Ended(SizingOf(sizes), calls, replies) ==>
              && put.staged == Run(SizingOf(sizes), calls).streaming == (|TakenBy(sizes, calls)| > sizes.threshold)
              && Concat(put.parts) == TakenBy(sizes, calls) && size == Run(SizingOf(sizes), calls).total
              && (|Concat(put.parts)| == size <==> TooLarge !in replies)
    ensures !Ended(SizingOf(sizes), calls, replies) ==>
              StreamDecides(Struck(Run(SizingOf(sizes), calls), last).failure, writeId, script.look, outcome)
    ensures !Ended(SizingOf(sizes), calls, replies) && StreamFailed !in replies ==>
              && size == |Handed(calls)|
              && (Concat(put.parts) == Handed(calls) <==> Lossless(replies))
              && (|Concat(put.parts)| == size <==> Lossless(replies))
    ensures outcome.Returned? && SwallowsNone(calls) ==> Concat(put.parts) == Handed(calls) && size == |Handed(calls)|
  {
    hide Lossless, Handed, SwallowsNone, Held, Concat, Commits.Outcome, ReplyTo, Tallied, Run, GoesOn, Answered,
      Ended, Told, TakenBy, Fitting;
    Beginnings(calls);
    NoReplies(SizingOf(sizes), calls);
    NothingTaken(sizes, calls);
    var sink := new GcsUploadSink(sizes);
    replies := [];
    for n := 0 to |calls|
      invariant sink.Valid() && fresh(sink) && sink.sizes == sizes
      invariant |replies| == n && sink.Sums() == Run(SizingOf(sizes), calls[..n])
      invariant GoesOn(SizingOf(sizes), calls, replies)
      invariant !sink.failure.Fine? <==> StreamFailed in replies
      invariant sink.taken == TakenBy(sizes, calls[..n]) && (sink.refused == 0 <==> TooLarge !in replies)
      invariant sink.failure.Fine? ==> sink.total == |Handed(calls[..n])|
      invariant sink.failure.Fine? ==> (Lossless(replies) <==> sink.refused == 0)
      invariant sink.failure.Fine? && sink.refused == 0 ==> sink.taken == Handed(calls[..n])
      invariant SwallowsNone(calls[..n]) ==> Lossless(replies) && sink.failure.Fine?
    {
      HandedAppends(calls, n);
      SwallowsNoneAppends(calls, n);
      sink.OnError(calls[n].fate.before);
      TakenAppends(sizes, calls, n);
      WriteMeans(sizes, sink.Sums(), calls[n].bytes, calls[n].fate.during);
      var reply := sink.Write(calls[n].bytes, calls[n].fate.during);
      OneMoreReply(SizingOf(sizes), calls, replies, reply);
      LosslessAppends(replies, reply);
      MoreTooLarge(replies, reply);
      replies := replies + [reply];
      if !reply.Done? && !calls[n].swallowed {
        outcome, size, put := Thrown(reply, sink.failure), 0, Service.Put(writeId, nonce, [], false);
        return;
      }
    }
    assert calls[..|calls|] == calls;
    AllReplied(SizingOf(sizes), calls, replies);
    sink.OnError(last);
    outcome, size, put := sink.Finish(writeId, nonce, script);
    if !sink.failure.Fine? {
      ToldDecides(put, writeId, sink.failure, script);
    }
  }
}
