/**
 * One GET of an object, as its stream's events drive it. The events may come in any order and number; the read settles
 * once, holds no more than it may, and lets go of its stream only after the response was announced.
 */
module ReadOnce {

  import opened Bytes

  /** `length` is the `Content-Length` of the response, when it is there once and is a number. */
  datatype Event =
    | Response(status: nat, length: Option<nat>)
    | Data(chunk: Bytes)
    | Failed
    | End
    | Close
    | Timer

  datatype Reason = Oversize | StreamError | CutOff | TimedOut

  datatype Result = Pending | Resolved(status: nat, bytes: Bytes) | Rejected(reason: Reason)

  /** The variables the handlers close over, and what came of the promise and the stream. */
  datatype State = State(
    chunks: seq<Bytes>,
    total: nat,
    status: nat,
    responded: bool,
    settled: bool,
    timing: bool,       // the timer is set
    result: Result,
    releases: nat)      // how often the stream's destruction was scheduled

  const START := State([], 0, 0, false, false, true, Pending, 0)

  function Fail(s: State, reason: Reason): State {
    if s.settled then s
    else
      s.(settled := true, timing := false, result := Rejected(reason),
         releases := if s.responded then s.releases + 1 else s.releases)
  }

  predicate IsSuccess(status: nat) {
    200 <= status <= 299
  }

  /** What one event does. */
  function Step(s: State, e: Event, maxBytes: nat): State {
    match e
    case Response(status, length) =>
      var heard := s.(responded := true);
      if s.settled then heard.(releases := s.releases + 1)
      else
        var told := heard.(status := status);
        if IsSuccess(status) && length.Some? && length.value > maxBytes then Fail(told, Oversize) else told
    case Data(chunk) =>
      if s.settled then s
      else
        var counted := s.(total := s.total + |chunk|);
        if counted.total > maxBytes then Fail(counted, Oversize) else counted.(chunks := s.chunks + [chunk])
    case Failed => Fail(s, StreamError)
    case End =>
      if s.settled then s
      else s.(settled := true, timing := false, result := Resolved(s.status, Concat(s.chunks)))
    case Close => Fail(s, CutOff)
    case Timer => if s.timing then Fail(s, TimedOut) else s
  }

  function Run(events: seq<Event>, maxBytes: nat): State {
    if events == [] then START else Step(Run(events[..|events| - 1], maxBytes), events[|events| - 1], maxBytes)
  }

  // ---------- the handlers ----------

  class Read {
    const maxBytes: nat
    var chunks: seq<Bytes>
    var total: nat
    var status: nat
    var responded: bool
    var settled: bool
    var timing: bool
    var result: Result
    var releases: nat
    ghost var events: seq<Event>

    ghost function Now(): State
      reads this
    {
      State(chunks, total, status, responded, settled, timing, result, releases)
    }

    ghost predicate Valid()
      reads this
    {
      Now() == Run(events, maxBytes)
    }

    constructor (maxBytes: nat)
      ensures Valid() && fresh(this) && this.maxBytes == maxBytes && events == []
    {
      this.maxBytes := maxBytes;
      chunks, total, status := [], 0, 0;
      responded, settled, timing, result, releases := false, false, true, Pending, 0;
      events := [];
    }

    method Settle(reason: Reason)
      modifies `settled, `timing, `result, `releases
      ensures Now() == Fail(old(Now()), reason)
    {
      if settled {
        return;
      }
      settled := true;
      timing := false;
      if responded {
        releases := releases + 1;
      }
      result := Rejected(reason);
    }

    /** One event of the stream, or the timer, handled by its listener. */
    method On(e: Event)
      requires Valid()
      modifies this
      ensures Valid() && events == old(events) + [e]
    {
      events := events + [e];
      assert events[..|events| - 1] == old(events);
      match e
      case Response(announced, length) =>
        responded := true;
        if settled {
          releases := releases + 1;
          return;
        }
        status := announced;
        if status < 200 || status > 299 {
          return;
        }
        if length.Some? && length.value > maxBytes {
          Settle(Oversize);
        }
      case Data(chunk) =>
        if settled {
          return;
        }
        total := total + |chunk|;
        if total > maxBytes {
          Settle(Oversize);
          return;
        }
        chunks := chunks + [chunk];
      case Failed => Settle(StreamError);
      case End =>
        if settled {
          return;
        }
        settled := true;
        timing := false;
        result := Resolved(status, Concat(chunks));
      case Close => Settle(CutOff);
      case Timer =>
        if timing {
          Settle(TimedOut);
        }
    }
  }

  // ---------- what the events say by themselves ----------

  /** The body received: the chunks of the data events, joined. */
  function Body(events: seq<Event>): Bytes {
    if events == [] then []
    else
      var e := events[|events| - 1];
      Body(events[..|events| - 1]) + if e.Data? then e.chunk else []
  }

  function LastStatus(events: seq<Event>): nat {
    if events == [] then 0
    else
      var e := events[|events| - 1];
      if e.Response? then e.status else LastStatus(events[..|events| - 1])
  }

  function Responses(events: seq<Event>): nat {
    if events == [] then 0
    else Responses(events[..|events| - 1]) + if events[|events| - 1].Response? then 1 else 0
  }

  /**
   * What the last of the events settles a read to that nothing settled before it; `Pending` when it settles nothing.
   */
  function Verdict(events: seq<Event>, maxBytes: nat): Result
    requires events != []
  {
    match events[|events| - 1]
    case Response(status, length) =>
      if IsSuccess(status) && length.Some? && length.value > maxBytes then Rejected(Oversize) else Pending
    case Data(_) => if |Body(events)| > maxBytes then Rejected(Oversize) else Pending
    case Failed => Rejected(StreamError)
    case End => Resolved(LastStatus(events), Body(events))
    case Close => Rejected(CutOff)
    case Timer => Rejected(TimedOut)
  }

  /** Whether the `m`-th event settles a read that is not settled yet. */
  predicate Settles(events: seq<Event>, m: nat, maxBytes: nat)
    requires m < |events|
  {
    Verdict(events[..m + 1], maxBytes) != Pending
  }

  predicate SettlesNone(events: seq<Event>, n: nat, maxBytes: nat)
    requires n <= |events|
  {
    forall m :: 0 <= m < n ==> !Settles(events, m, maxBytes)
  }

  /** The `n`-th event is the first to settle the read. */
  predicate SettlesFirst(events: seq<Event>, n: nat, maxBytes: nat) {
    n < |events| && SettlesNone(events, n, maxBytes) && Settles(events, n, maxBytes)
  }

  lemma SettlesEarlier(events: seq<Event>, more: seq<Event>, n: nat, maxBytes: nat)
    requires n <= |events|
    ensures n < |events| ==> Settles(events + more, n, maxBytes) == Settles(events, n, maxBytes)
    ensures SettlesNone(events + more, n, maxBytes) == SettlesNone(events, n, maxBytes)
  {
    forall m | 0 <= m < |events|
      ensures Settles(events + more, m, maxBytes) == Settles(events, m, maxBytes)
    {
      assert (events + more)[..m + 1] == events[..m + 1];
    }
  }

  /** A read that nothing has settled yet holds all it was sent, and no more than it may. */
  lemma {:induction false} Unsettled(events: seq<Event>, maxBytes: nat)
    requires SettlesNone(events, |events|, maxBytes)
    ensures var s := Run(events, maxBytes);
            && !s.settled && s.timing && s.result == Pending && s.releases == 0
            && Concat(s.chunks) == Body(events) && s.total == |Body(events)| <= maxBytes
            && s.status == LastStatus(events) && (s.responded <==> Responses(events) > 0)
  {
    if events != [] {
      var (before, e) := (events[..|events| - 1], events[|events| - 1]);
      assert events == before + [e];
      SettlesEarlier(before, [e], |before|, maxBytes);
      assert !Settles(events, |before|, maxBytes);
      hide SettlesNone;
      Unsettled(before, maxBytes);
      assert events[..|before| + 1] == events;
      if e.Data? {
        ConcatAppends(Run(before, maxBytes).chunks, e.chunk);
      }
    }
  }

  /** The read settles at the first event that settles it, to what that event says, and to nothing else after it. */
  lemma {:induction false} SettlesOnce(events: seq<Event>, n: nat, maxBytes: nat)
    requires SettlesFirst(events, n, maxBytes)
    ensures Run(events, maxBytes).settled && !Run(events, maxBytes).timing
    ensures Run(events, maxBytes).result == Verdict(events[..n + 1], maxBytes)
    ensures |Concat(Run(events, maxBytes).chunks)| <= maxBytes
    decreases |events|
  {
    var (before, e) := (events[..|events| - 1], events[|events| - 1]);
    assert events == before + [e];
    SettlesEarlier(before, [e], n, maxBytes);
    if n == |before| {
      assert events[..n + 1] == events;
      Unsettled(before, maxBytes);
    } else {
      assert before[..n + 1] == events[..n + 1];
      SettlesOnce(before, n, maxBytes);
    }
  }

  /** A length announced past the limit settles the read at once, but only under a status of success. */
  lemma AnnouncedTooLong(events: seq<Event>, status: nat, length: nat, maxBytes: nat)
    ensures Verdict(events + [Response(status, Some(length))], maxBytes) ==
            if 200 <= status < 300 && length > maxBytes then Rejected(Oversize) else Pending
  {
  }

  /** Every read is one of the two: nothing settled it, or there is a first event that did. */
  lemma SettlesOrNot(events: seq<Event>, maxBytes: nat) returns (n: nat)
    ensures n <= |events| && SettlesNone(events, n, maxBytes) && (n < |events| ==> SettlesFirst(events, n, maxBytes))
  {
    n := 0;
    while n < |events| && !Settles(events, n, maxBytes)
      invariant n <= |events| && SettlesNone(events, n, maxBytes)
    {
      n := n + 1;
    }
  }

  /**
   * A read resolves only with everything it was sent up to the end, under the status last announced, and all of it
   * fits.
   */
  lemma ResolvesWithTheBody(events: seq<Event>, maxBytes: nat) returns (n: nat)
    requires Run(events, maxBytes).result.Resolved?
    ensures n < |events| && events[n] == End
    ensures Run(events, maxBytes).result == Resolved(LastStatus(events[..n]), Body(events[..n]))
    ensures |Body(events[..n])| <= maxBytes
  {
    n := SettlesOrNot(events, maxBytes);
    if n == |events| {
      Unsettled(events, maxBytes);
    } else {
      SettlesOnce(events, n, maxBytes);
      var before := events[..n];
      assert events[..n + 1] == before + [events[n]];
      assert events == before + events[n..];
      SettlesEarlier(before, events[n..], n, maxBytes);
      Unsettled(before, maxBytes);
    }
  }

  /** Never more than `maxBytes` is buffered, whatever arrives. */
  lemma NeverHoldsMore(events: seq<Event>, maxBytes: nat)
    ensures |Concat(Run(events, maxBytes).chunks)| <= maxBytes
  {
    var n := SettlesOrNot(events, maxBytes);
    if n < |events| {
      SettlesOnce(events, n, maxBytes);
    } else {
      Unsettled(events, maxBytes);
    }
  }

  /**
   * When the stream is let go: once for a failure after the response, and once for each response that finds the read
   * settled. So never before a response; at most once when there is at most one; and always once a read has failed and
   * its response has come, in either order.
   */
  lemma {:induction false} LetsGo(events: seq<Event>, maxBytes: nat)
    ensures var s := Run(events, maxBytes);
            && (s.responded <==> Responses(events) > 0)
            && (s.settled <==> s.result != Pending)
            && s.releases <= Responses(events)
            && (!s.settled ==> s.releases == 0)
            && (s.result.Rejected? && Responses(events) > 0 ==> s.releases > 0)
  {
    if events != [] {
      LetsGo(events[..|events| - 1], maxBytes);
    }
  }
}
