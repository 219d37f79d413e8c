/**
 * The parts a sink sends, and those of them its commit names. A request may fail and its part be lost, so the named
 * parts may be fewer than those sent; no byte is missing exactly when none is lost and no write was refused.
 */
module Parts {

  import opened Bytes
  import Limits

  /** What a sink's `write` does: it resolves, or throws because of the size, its request, or the part limit. */
  datatype Reply = Done | TooLarge | OpenFailed | PartLost | TooManyParts | StreamFailed

  /** The bodies whose part numbers are listed, which a completion joins: numbers count from one. */
  function Named(bodies: seq<Bytes>, parts: seq<nat>): (named: seq<Bytes>)
    requires Numbers(parts, |bodies|)
    ensures |named| == |parts|
  {
    seq(|parts|, k requires 0 <= k < |parts| => bodies[parts[k] - 1])
  }

  /** Part numbers in ascending order, each of a part that was sent. */
  predicate Numbers(parts: seq<nat>, sent: int) {
    && (forall k :: 0 <= k < |parts| ==> 1 <= parts[k] <= sent)
    && (forall j, k :: 0 <= j < k < |parts| ==> parts[j] < parts[k])
  }

  lemma NumbersWithoutLast(parts: seq<nat>, sent: nat)
    requires Numbers(parts, sent) && sent > 0
    ensures parts != [] && parts[|parts| - 1] == sent ==> Numbers(parts[..|parts| - 1], sent - 1)
    ensures parts == [] || parts[|parts| - 1] != sent ==> Numbers(parts, sent - 1)
  {
  }

  lemma NumbersGrow(parts: seq<nat>, sent: nat)
    requires Numbers(parts, sent)
    ensures Numbers(parts, sent + 1) && Numbers(parts + [sent + 1], sent + 1)
  {
  }

  lemma NamedWithLast(front: seq<Bytes>, last: Bytes, parts: seq<nat>)
    requires Numbers(parts, |front|)
    ensures Numbers(parts, |front| + 1) && Named(front + [last], parts) == Named(front, parts)
    ensures Numbers(parts + [|front| + 1], |front| + 1)
    ensures Named(front + [last], parts + [|front| + 1]) == Named(front, parts) + [last]
  {
  }

  predicate NoneEmpty(bodies: seq<Bytes>) {
    forall n :: 0 <= n < |bodies| ==> bodies[n] != []
  }

  /** Every part is a whole one but, it may be, the last. */
  predicate WholeButLast(bodies: seq<Bytes>, part: nat) {
    forall n :: 0 <= n < |bodies| - 1 ==> |bodies[n]| >= part
  }

  lemma WholeParts(bodies: seq<Bytes>, part: nat, last: Bytes)
    requires Limits.AtLeast(bodies, part) && part > 0
    ensures NoneEmpty(bodies) && WholeButLast(bodies, part) && WholeButLast(bodies + [last], part)
    ensures last != [] ==> NoneEmpty(bodies + [last])
    ensures |last| >= part ==> Limits.AtLeast(bodies + [last], part)
  {
  }

  /**
   * Bytes are lost exactly when a part is: the named bodies are as long as all of them only if they are all of them.
   */
  lemma {:induction false} NamedInFull(bodies: seq<Bytes>, parts: seq<nat>)
    requires Numbers(parts, |bodies|) && NoneEmpty(bodies)
    ensures |parts| <= |bodies| && |Concat(Named(bodies, parts))| <= |Concat(bodies)|
    ensures |Concat(Named(bodies, parts))| == |Concat(bodies)| <==> |parts| == |bodies|
    ensures |parts| == |bodies| ==> Named(bodies, parts) == bodies
  {
    if bodies == [] {
      if parts != [] {
        SomethingSent(parts, |bodies|);
      }
    } else {
      var (front, last) := (bodies[..|bodies| - 1], bodies[|bodies| - 1]);
      assert bodies == front + [last];
      assert NoneEmpty(front) && last != [];
      ConcatAppends(front, last);
      NumbersWithoutLast(parts, |bodies|);
      hide Numbers, Named;
      if parts != [] && parts[|parts| - 1] == |bodies| {
        var rest := parts[..|parts| - 1];
        assert parts == rest + [|front| + 1];
        NamedInFull(front, rest);
        NamedWithLast(front, last, rest);
        ConcatAppends(Named(front, rest), last);
      } else {
        NamedInFull(front, parts);
        NamedWithLast(front, last, parts);
      }
    }
  }

  lemma SomethingSent(parts: seq<nat>, sent: int)
    requires Numbers(parts, sent) && parts != []
    ensures sent >= 1
  {
    assert 1 <= parts[0] <= sent;
  }

  /**
   * Of what was taken, all is stored exactly when every part is, and all that was handed over when none was refused.
   */
  lemma Conserved(bodies: seq<Bytes>, parts: seq<nat>, refused: nat, all: Bytes)
    requires Numbers(parts, |bodies|) && NoneEmpty(bodies)
    requires |Concat(bodies)| + refused == |all| && (refused == 0 ==> Concat(bodies) == all)
    ensures Concat(Named(bodies, parts)) == all <==> refused == 0 && |parts| == |bodies|
    ensures |Concat(Named(bodies, parts))| == |all| <==> refused == 0 && |parts| == |bodies|
  {
    NamedInFull(bodies, parts);
  }

  /**
   * One call of the sink's `write` by the callback `putImmutable` is given: its bytes, what becomes of the request it
   * may make, and whether the callback goes on when a failure is thrown at it.
   */
  datatype Call<F> = Call(bytes: Bytes, fate: F, swallowed: bool)

  /** What the callback handed over, in order. */
  function Handed<F>(calls: seq<Call<F>>): Bytes {
    Concat(seq(|calls|, k requires 0 <= k < |calls| => calls[k].bytes))
  }

  lemma HandedAppends<F>(calls: seq<Call<F>>, n: nat)
    requires n < |calls|
    ensures Handed(calls[..n + 1]) == Handed(calls[..n]) + calls[n].bytes
  {
    var before := seq(n, k requires 0 <= k < n => calls[..n][k].bytes);
    assert seq(n + 1, k requires 0 <= k < n + 1 => calls[..n + 1][k].bytes) == before + [calls[n].bytes];
    ConcatAppends(before, calls[n].bytes);
  }

  predicate SwallowsNone<F>(calls: seq<Call<F>>) {
    forall k :: 0 <= k < |calls| ==> !calls[k].swallowed
  }

  lemma HandedFront<F>(calls: seq<Call<F>>)
    requires calls != []
    ensures |Handed(calls)| == |Handed(calls[..|calls| - 1])| + |calls[|calls| - 1].bytes|
  {
    HandedAppends(calls, |calls| - 1);
    assert calls[..|calls|] == calls;
  }

  lemma SwallowsNoneAppends<F>(calls: seq<Call<F>>, n: nat)
    requires n < |calls|
    ensures SwallowsNone(calls[..n + 1]) <==> SwallowsNone(calls[..n]) && !calls[n].swallowed
  {
    assert calls[..n + 1] == calls[..n] + [calls[n]];
    assert calls[..n + 1][n] == calls[n];
    assert forall k :: 0 <= k < n ==> calls[..n + 1][k] == calls[..n][k];
  }

  /** Whether no write lost a byte: one whose upload did not open keeps its bytes, for the next flush. */
  predicate Lossless(replies: seq<Reply>) {
    forall k :: 0 <= k < |replies| ==> replies[k].Done? || replies[k].OpenFailed?
  }

  lemma Beginnings<F>(calls: seq<Call<F>>)
    ensures Lossless([]) && Numbers([], 0) && Handed(calls[..0]) == []
  {
  }

  lemma LosslessAppends(replies: seq<Reply>, reply: Reply)
    ensures Lossless(replies + [reply]) <==> Lossless(replies) && (reply.Done? || reply.OpenFailed?)
  {
    assert (replies + [reply])[|replies|] == reply;
    assert forall k :: 0 <= k < |replies| ==> (replies + [reply])[k] == replies[k];
  }

  /** What the sink took, in order: all but the writes it refused for their size. */
  function Accepted<F>(calls: seq<Call<F>>, replies: seq<Reply>): Bytes
    requires |replies| <= |calls|
  {
    Concat(seq(|replies|, k requires 0 <= k < |replies| => if replies[k].TooLarge? then [] else calls[k].bytes))
  }

  lemma AcceptedAppends<F>(calls: seq<Call<F>>, replies: seq<Reply>, reply: Reply)
    requires |replies| < |calls|
    ensures Accepted(calls, replies + [reply]) ==
            if reply.TooLarge? then Accepted(calls, replies) else Accepted(calls, replies) + calls[|replies|].bytes
  {
    var (n, more) := (|replies|, replies + [reply]);
    var before := seq(n, k requires 0 <= k < n => if replies[k].TooLarge? then [] else calls[k].bytes);
    var last := if reply.TooLarge? then [] else calls[n].bytes;
    assert seq(n + 1, k requires 0 <= k < n + 1 => if more[k].TooLarge? then [] else calls[k].bytes) == before + [last];
    ConcatAppends(before, last);
  }

  /** How many writes lost their part. */
  function Losses(replies: seq<Reply>): nat {
    if replies == [] then 0
    else Losses(replies[..|replies| - 1]) + if replies[|replies| - 1].PartLost? then 1 else 0
  }

  lemma LossesAppend(replies: seq<Reply>, reply: Reply)
    ensures Losses(replies + [reply]) == Losses(replies) + if reply.PartLost? then 1 else 0
  {
    assert (replies + [reply])[..|replies|] == replies;
  }

  /** What a sink counts and keeps agrees with what its writes were answered. */
  predicate Adds<F>(calls: seq<Call<F>>, replies: seq<Reply>, total: nat, refused: nat, taken: Bytes, lost: int) {
    && |replies| <= |calls|
    && total == |Handed(calls[..|replies|])| && taken == Accepted(calls, replies) && lost == Losses(replies)
    && (Lossless(replies) <==> refused == 0 && lost == 0)
    && (refused == 0 ==> taken == Handed(calls[..|replies|]))
    && (SwallowsNone(calls[..|replies|]) ==> Lossless(replies))
  }

  lemma NothingAdds<F>(calls: seq<Call<F>>)
    ensures Adds(calls, [], 0, 0, [], 0)
  {
    Beginnings(calls);
  }

  lemma AddsOneMore<F>(calls: seq<Call<F>>, replies: seq<Reply>, reply: Reply, total: nat, refused: nat, taken: Bytes,
                       lost: int)
    requires Adds(calls, replies, total, refused, taken, lost) && |replies| < |calls|
    requires reply.Done? || reply.TooLarge? || reply.OpenFailed? || reply.PartLost?
    requires reply.TooLarge? ==> calls[|replies|].bytes != []
    ensures var bytes := calls[|replies|].bytes;
            reply.Done? || calls[|replies|].swallowed ==>
              Adds(calls, replies + [reply], total + |bytes|, refused + (if reply.TooLarge? then |bytes| else 0),
                   if reply.TooLarge? then taken else taken + bytes, lost + if reply.PartLost? then 1 else 0)
  {
    HandedAppends(calls, |replies|);
    SwallowsNoneAppends(calls, |replies|);
    AcceptedAppends(calls, replies, reply);
    LossesAppend(replies, reply);
    LosslessAppends(replies, reply);
    hide Handed, SwallowsNone, Accepted, Losses, Lossless;
  }

  lemma AddsMeans<F>(calls: seq<Call<F>>, replies: seq<Reply>, total: nat, refused: nat, taken: Bytes, lost: int)
    requires Adds(calls, replies, total, refused, taken, lost)
    ensures |replies| <= |calls| && taken == Accepted(calls, replies) && lost == Losses(replies)
    ensures |replies| == |calls| ==>
              && total == |Handed(calls)| && (Lossless(replies) <==> refused == 0 && lost == 0)
              && (refused == 0 ==> taken == Handed(calls)) && (SwallowsNone(calls) ==> Lossless(replies))
  {
    assert calls[..|calls|] == calls;
  }

  // ---------- what the sizes alone tell ----------

  /** What a sink keeps of the sizes it was handed, what a write is answered, and what it leaves. */
  datatype Sizing<!T, !F> = Sizing(start: T, reply: (T, Call<F>) -> Reply, next: (T, Call<F>) -> T)

  function Run<T, F>(z: Sizing<T, F>, calls: seq<Call<F>>): T {
    if calls == [] then z.start else z.next(Run(z, calls[..|calls| - 1]), calls[|calls| - 1])
  }

  function ReplyAt<T, F>(z: Sizing<T, F>, calls: seq<Call<F>>, n: nat): Reply
    requires n < |calls|
  {
    z.reply(Run(z, calls[..n]), calls[n])
  }

  /** The write throws, and the callback lets it end the put. */
  predicate StopsAt<T, F>(z: Sizing<T, F>, calls: seq<Call<F>>, n: nat)
    requires n < |calls|
  {
    !ReplyAt(z, calls, n).Done? && !calls[n].swallowed
  }

  /** The writes made so far, none of which ended the put. */
  predicate GoesOn<T, F>(z: Sizing<T, F>, calls: seq<Call<F>>, replies: seq<Reply>) {
    && |replies| <= |calls|
    && forall k :: 0 <= k < |replies| ==> replies[k] == ReplyAt(z, calls, k) && !StopsAt(z, calls, k)
  }

  /** The last of the writes that were made ended the put. */
  predicate Ended<T, F>(z: Sizing<T, F>, calls: seq<Call<F>>, replies: seq<Reply>) {
    0 < |replies| <= |calls| && StopsAt(z, calls, |replies| - 1)
  }

  /** All the writes were made, or those up to the one that ended the put; and this is what each was answered. */
  predicate Answered<T, F>(z: Sizing<T, F>, calls: seq<Call<F>>, replies: seq<Reply>) {
    && |replies| <= |calls|
    && (forall k :: 0 <= k < |replies| ==> replies[k] == ReplyAt(z, calls, k))
    && (forall k :: 0 <= k < |replies| - 1 ==> !StopsAt(z, calls, k))
    && (|replies| < |calls| ==> Ended(z, calls, replies))
  }

  lemma NoReplies<T, F>(z: Sizing<T, F>, calls: seq<Call<F>>)
    ensures GoesOn(z, calls, []) && Run(z, calls[..0]) == z.start
  {
  }

  lemma OneMoreReply<T, F>(z: Sizing<T, F>, calls: seq<Call<F>>, replies: seq<Reply>, reply: Reply)
    requires GoesOn(z, calls, replies) && |replies| < |calls|
    requires var n := |replies|; reply == z.reply(Run(z, calls[..n]), calls[n])
    ensures var n := |replies|; Run(z, calls[..n + 1]) == z.next(Run(z, calls[..n]), calls[n])
    ensures reply.Done? || calls[|replies|].swallowed ==> GoesOn(z, calls, replies + [reply])
    ensures !reply.Done? && !calls[|replies|].swallowed ==>
              Answered(z, calls, replies + [reply]) && Ended(z, calls, replies + [reply])
  {
    var n := |replies|;
    assert calls[..n + 1][..n] == calls[..n];
  }

  lemma AllReplied<T, F>(z: Sizing<T, F>, calls: seq<Call<F>>, replies: seq<Reply>)
    requires GoesOn(z, calls, replies) && |replies| == |calls|
    ensures Answered(z, calls, replies) && !Ended(z, calls, replies)
  {
    hide ReplyAt;
  }
}
