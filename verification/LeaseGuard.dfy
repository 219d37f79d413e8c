/**
 * The guard a stream is wrapped in while a lease is held: it checks the lease before the first pull, and again before
 * it hands an item on. The caller may have several calls in flight, which settle in any order; each stretch of code
 * between two awaits runs by itself, and is one segment here.
 */
module LeaseGuard {

  import opened Bytes
  import BitRoute

  /** Whether every item is checked, or the first of each run of items with one key. */
  datatype Mode<!T, K> = EachItem | EachRun(key: T -> K)

  /** What the check says is part of the segment that may make it. */
  datatype Segment<T> =
    | Next(passes: bool)            // `next` is called
    | Pulled(item: T, passes: bool) // the inner stream answers a pull, or a `throw`, with an item
    | Finished                      // the inner stream answers that it is done
    | PullFails                     // a pull rejects
    | Return                        // `return` is called
    | Throw(inner: bool)            // `throw` is called; `inner` when the inner stream has one
    | ThrowFails                    // the inner stream's `throw` rejects

  datatype Entry<T> = Entered | Passed | Failed | Delivered(item: T)

  /**
   * The variables the guard closes over, the pulls in flight, how often the inner stream was ended, and what
   * happened.
   */
  datatype State<T, K> = State(first: bool, over: bool, last: Option<K>, pulls: nat, ended: nat, log: seq<Entry<T>>)

  function Ended<T, K>(s: State<T, K>): State<T, K> {
    s.(over := true, ended := s.ended + 1)
  }

  /** What a pull that settles with an item hands on. */
  function Deliver<T, K(==)>(mode: Mode<T, K>, s: State<T, K>, item: T, passes: bool): State<T, K> {
    if s.over then s
    else if mode.EachRun? && s.last == Some(mode.key(item)) then s.(log := s.log + [Delivered(item)])
    else if !passes then Ended(s.(log := s.log + [Failed]))
    else s.(log := s.log + [Passed, Delivered(item)], last := if mode.EachRun? then Some(mode.key(item)) else s.last)
  }

  predicate Enabled<T, K>(s: State<T, K>, segment: Segment<T>) {
    segment.Pulled? || segment.Finished? || segment.PullFails? || segment.ThrowFails? ==> s.pulls > 0
  }

  function Step<T, K(==)>(mode: Mode<T, K>, s: State<T, K>, segment: Segment<T>): State<T, K>
    requires Enabled(s, segment)
  {
    match segment
    case Next(passes) =>
      if s.over then s
      else if !s.first then s.(pulls := s.pulls + 1)
      else if passes then s.(first := false, pulls := s.pulls + 1, log := s.log + [Entered])
      else Ended(s.(first := false, log := s.log + [Failed]))
    case Pulled(item, passes) => Deliver(mode, s.(pulls := s.pulls - 1), item, passes)
    case Finished => s.(pulls := s.pulls - 1)
    case PullFails => s.(pulls := s.pulls - 1)
    case Return => Ended(s)
    case Throw(inner) =>
      var entered := s.(first := false);
      if inner then entered.(pulls := s.pulls + 1) else Ended(entered)
    case ThrowFails => s.(pulls := s.pulls - 1, over := true)
  }

  function Start<T, K>(): State<T, K> {
    State(true, false, None, 0, 0, [])
  }

  predicate Possible<T, K(==)>(mode: Mode<T, K>, segments: seq<Segment<T>>)
    decreases |segments|, 0
  {
    segments == [] ||
    var (before, segment) := (segments[..|segments| - 1], segments[|segments| - 1]);
    Possible(mode, before) && Enabled(Run(mode, before), segment)
  }

  function Run<T, K(==)>(mode: Mode<T, K>, segments: seq<Segment<T>>): State<T, K>
    requires Possible(mode, segments)
    decreases |segments|, 1
  {
    if segments == [] then Start()
    else Step(mode, Run(mode, segments[..|segments| - 1]), segments[|segments| - 1])
  }

  lemma Extends<T, K>(mode: Mode<T, K>, before: seq<Segment<T>>, segment: Segment<T>)
    requires Possible(mode, before) && Enabled(Run(mode, before), segment)
    ensures Possible(mode, before + [segment])
    ensures Run(mode, before + [segment]) == Step(mode, Run(mode, before), segment)
  {
    assert (before + [segment])[..|before|] == before;
  }

  // ---------- the closure ----------

  class Guard<T, K(==)> {
    const mode: Mode<T, K>
    var first: bool
    var over: bool
    /** The key of the last check that passed: no item's key is the -1 it starts as. */
    var last: Option<K>
    var pulls: nat
    var ended: nat
    var log: seq<Entry<T>>
    ghost var segments: seq<Segment<T>>

    ghost function Now(): State<T, K>
      reads this
    {
      State(first, over, last, pulls, ended, log)
    }

    ghost predicate Valid()
      reads this
    {
      Possible(mode, segments) && Now() == Run(mode, segments)
    }

    constructor (mode: Mode<T, K>)
      ensures Valid() && fresh(this) && this.mode == mode && segments == []
    {
      this.mode := mode;
      first, over, last, pulls, ended, log, segments := true, false, None, 0, 0, [], [];
    }

    method EndInner()
      modifies `over, `ended
      ensures over && ended == old(ended) + 1
    {
      over := true;
      ended := ended + 1;
    }

    /** `next`, up to its pull of the inner stream. */
    method Next(passes: bool)
      requires Valid()
      modifies this
      ensures Valid() && segments == old(segments) + [Segment.Next(passes)]
    {
      hide Possible, Run;
      Extends(mode, segments, Segment.Next(passes));
      segments := segments + [Segment.Next(passes)];
      if over {
        return;
      }
      if first {
        first := false;
        if !passes {
          log := log + [Failed];
          EndInner();
          return;
        }
        log := log + [Entered];
      }
      pulls := pulls + 1;
    }

    /** The rest of a `next` or a `throw` whose pull gave an item. */
    method Settle(item: T, passes: bool)
      requires Valid() && pulls > 0
      modifies this
      ensures Valid() && segments == old(segments) + [Pulled(item, passes)]
    {
      hide Possible, Run;
      Extends(mode, segments, Pulled(item, passes));
      segments := segments + [Pulled(item, passes)];
      pulls := pulls - 1;
      if over {
        return;
      }
      if mode.EachItem? || last != Some(mode.key(item)) {
        if !passes {
          log := log + [Failed];
          EndInner();
          return;
        }
        log := log + [Passed];
        if mode.EachRun? {
          last := Some(mode.key(item));
        }
      }
      log := log + [Delivered(item)];
    }

    /** The rest of a call whose pull gave no item: the inner stream is done, or the pull rejected. */
    method SettleEmpty(rejects: bool)
      requires Valid() && pulls > 0
      modifies this
      ensures Valid() && segments == old(segments) + [if rejects then PullFails else Finished]
    {
      hide Possible, Run;
      Extends(mode, segments, if rejects then PullFails else Finished);
      segments := segments + [if rejects then PullFails else Finished];
      pulls := pulls - 1;
    }

    method Return()
      requires Valid()
      modifies this
      ensures Valid() && segments == old(segments) + [Segment.Return]
    {
      hide Possible, Run;
      Extends(mode, segments, Segment.Return);
      segments := segments + [Segment.Return];
      EndInner();
    }

    /** `throw`, up to its call of the inner stream's, when there is one. */
    method Throw(inner: bool)
      requires Valid()
      modifies this
      ensures Valid() && segments == old(segments) + [Segment.Throw(inner)]
    {
      hide Possible, Run;
      Extends(mode, segments, Segment.Throw(inner));
      segments := segments + [Segment.Throw(inner)];
      first := false;
      if !inner {
        EndInner();
        return;
      }
      pulls := pulls + 1;
    }

    /** The rest of a `throw` that the inner stream's rejected. */
    method ThrowFails()
      requires Valid() && pulls > 0
      modifies this
      ensures Valid() && segments == old(segments) + [Segment.ThrowFails]
    {
      hide Possible, Run;
      Extends(mode, segments, Segment.ThrowFails);
      segments := segments + [Segment.ThrowFails];
      pulls := pulls - 1;
      over := true;
    }
  }

  /** What was possible was possible step by step. */
  lemma {:induction false} PossibleSoFar<T, K>(mode: Mode<T, K>, segments: seq<Segment<T>>, n: nat)
    requires Possible(mode, segments) && n <= |segments|
    ensures Possible(mode, segments[..n])
    ensures n < |segments| ==> Enabled(Run(mode, segments[..n]), segments[n])
    decreases |segments|
  {
    if n == |segments| {
      assert segments[..n] == segments;
    } else if n + 1 < |segments| {
      assert segments[..|segments| - 1][..n] == segments[..n];
      PossibleSoFar(mode, segments[..|segments| - 1], n);
    }
  }

  /** A guarded stream, called and answered in any order: it comes to what the segments come to one after the other. */
  method Drive<T, K(==)>(mode: Mode<T, K>, segments: seq<Segment<T>>) returns (state: State<T, K>)
    requires Possible(mode, segments)
    ensures state == Run(mode, segments)
  {
    hide Possible, Run, Enabled;
    var guard := new Guard(mode);
    assert guard.segments == segments[..0];
    for n := 0 to |segments|
      invariant guard.Valid() && fresh(guard) && guard.mode == mode && guard.segments == segments[..n]
    {
      PossibleSoFar(mode, segments, n);
      AwaitsAPull(guard.Now(), segments[n]);
      assert segments[..n] + [segments[n]] == segments[..n + 1];
      match segments[n]
      case Next(passes) => guard.Next(passes);
      case Pulled(item, passes) => guard.Settle(item, passes);
      case Finished => guard.SettleEmpty(false);
      case PullFails => guard.SettleEmpty(true);
      case Return => guard.Return();
      case Throw(inner) => guard.Throw(inner);
      case ThrowFails => guard.ThrowFails();
    }
    assert segments[..|segments|] == segments;
    state := State(guard.first, guard.over, guard.last, guard.pulls, guard.ended, guard.log);
  }

  lemma AwaitsAPull<T, K>(s: State<T, K>, segment: Segment<T>)
    requires Enabled(s, segment)
    ensures segment.Pulled? || segment.Finished? || segment.PullFails? || segment.ThrowFails? ==> s.pulls > 0
  {
  }

  // ---------- what is handed on ----------

  /** The items handed on, in order. */
  function Items<T>(log: seq<Entry<T>>): seq<T> {
    if log == [] then []
    else
      var e := log[|log| - 1];
      Items(log[..|log| - 1]) + if e.Delivered? then [e.item] else []
  }

  lemma OverStays<T, K>(mode: Mode<T, K>, s: State<T, K>, segment: Segment<T>)
    requires s.over && Enabled(s, segment)
    ensures Step(mode, s, segment).over && Step(mode, s, segment).log == s.log
  {
  }

  /** Once a stream is over it hands on nothing more, whatever was in flight. */
  lemma {:induction false} OverIsFinal<T, K>(mode: Mode<T, K>, before: seq<Segment<T>>, segments: seq<Segment<T>>)
    requires before <= segments && Possible(mode, segments) && Possible(mode, before) && Run(mode, before).over
    ensures Run(mode, segments).over && Run(mode, segments).log == Run(mode, before).log
    decreases |segments|
  {
    hide Step;
    if |segments| == |before| {
      assert segments == before;
    } else {
      var shorter := segments[..|segments| - 1];
      OverIsFinal(mode, before, shorter);
      OverStays(mode, Run(mode, shorter), segments[|segments| - 1]);
    }
  }

  /** A stream is over once `return` was called, or a check threw, which also ends the inner stream. */
  lemma {:induction false} EndsAtOnce<T, K>(mode: Mode<T, K>, segments: seq<Segment<T>>)
    requires Possible(mode, segments)
    ensures var s := Run(mode, segments);
            && (Return in segments || ThrowFails in segments || Failed in s.log ==> s.over)
            && (Return in segments || Failed in s.log ==> s.ended > 0)
  {
    if segments != [] {
      EndsAtOnce(mode, segments[..|segments| - 1]);
    }
  }

  /** What a stream hands on after a check threw or `return` was called: what it had handed on by then. */
  lemma NothingAfterTheEnd<T, K>(mode: Mode<T, K>, before: seq<Segment<T>>, segments: seq<Segment<T>>)
    requires before <= segments && Possible(mode, segments) && Possible(mode, before)
    requires Return in before || Failed in Run(mode, before).log
    ensures Items(Run(mode, segments).log) == Items(Run(mode, before).log)
  {
    EndsAtOnce(mode, before);
    OverIsFinal(mode, before, segments);
  }

  // ---------- what is checked ----------

  predicate SameRun<T, K(==)>(mode: Mode<T, K>, items: seq<T>, item: T) {
    mode.EachRun? && items != [] && mode.key(items[|items| - 1]) == mode.key(item)
  }

  /**
   * The checks and deliveries that handing these items on should have taken: one passed check before each, or each
   * run.
   */
  function Due<T, K(==)>(mode: Mode<T, K>, items: seq<T>): seq<Entry<T>> {
    if items == [] then []
    else
      var (before, item) := (items[..|items| - 1], items[|items| - 1]);
      Due(mode, before) + if SameRun(mode, before, item) then [Delivered(item)] else [Passed, Delivered(item)]
  }

  lemma {:induction false} DueDelivers<T, K>(mode: Mode<T, K>, items: seq<T>)
    ensures Items(Due(mode, items)) == items
  {
    if items != [] {
      var (before, item) := (items[..|items| - 1], items[|items| - 1]);
      DueDelivers(mode, before);
      ItemsAppend(Due(mode, before), [Delivered(item)]);
      ItemsAppend(Due(mode, before), [Passed, Delivered(item)]);
      assert Items([Passed, Delivered(item)]) == [item] by {
        ItemsAppend([Passed], [Delivered(item)]);
        assert [Passed, Delivered(item)] == [Passed] + [Delivered(item)];
      }
    }
  }

  lemma {:induction false} ItemsAppend<T>(a: seq<Entry<T>>, b: seq<Entry<T>>)
    ensures Items(a + b) == Items(a) + Items(b)
  {
    if b == [] {
      assert a + b == a;
    } else {
      assert (a + b)[..|a + b| - 1] == a + b[..|b| - 1];
      ItemsAppend(a, b[..|b| - 1]);
    }
  }

  /** The check before the first pull, if it was made, what the items are due, and a check that threw, if one did. */
  function History<T, K(==)>(mode: Mode<T, K>, entered: bool, items: seq<T>, failed: bool): seq<Entry<T>> {
    (if entered then [Entered] else []) + Due(mode, items) + (if failed then [Failed] else [])
  }

  lemma HistoryDelivers<T, K>(mode: Mode<T, K>, entered: bool, items: seq<T>, failed: bool)
    ensures Items(History(mode, entered, items, failed)) == items
  {
    hide Due;
    DueDelivers(mode, items);
    assert Items<T>([Entered]) == [] && Items<T>([Failed]) == [];
    ItemsAppend([Entered], Due(mode, items));
    hide Items;
    var log := (if entered then [Entered] else []) + Due(mode, items);
    assert [] + Due(mode, items) == Due(mode, items);
    ItemsAppend(log, [Failed]);
    assert log + [] == log;
  }

  function LastKey<T, K(==)>(mode: Mode<T, K>, items: seq<T>): Option<K> {
    if mode.EachItem? || items == [] then None else Some(mode.key(items[|items| - 1]))
  }

  /** What the guard remembers agrees with what it has done. */
  ghost predicate Agrees<T, K>(mode: Mode<T, K>, s: State<T, K>, entered: bool, items: seq<T>) {
    && s.log == History(mode, entered, items, Failed in s.log)
    && s.last == LastKey(mode, items)
    && (s.first ==> s.pulls == 0 && !entered && items == [])
    && (Failed in s.log ==> s.over)
  }

  lemma DeliverAgrees<T, K>(mode: Mode<T, K>, s: State<T, K>, entered: bool, items: seq<T>, item: T, passes: bool)
    returns (after: seq<T>)
    requires Agrees(mode, s, entered, items) && !s.first
    ensures Agrees(mode, Deliver(mode, s, item, passes), entered, after)
  {
    hide Due, Items;
    after := if s.over || !(SameRun(mode, items, item) || passes) then items else items + [item];
    if !s.over {
      assert s.log == History(mode, entered, items, false);
      HistoryGrows(mode, entered, items, item);
      NeverFailed(mode, entered, items + [item]);
    }
  }

  lemma HistoryGrows<T, K>(mode: Mode<T, K>, entered: bool, items: seq<T>, item: T)
    ensures var log := History(mode, entered, items, false);
            && History(mode, entered, items, true) == log + [Failed]
            && History(mode, entered, items + [item], false)
               == log + if SameRun(mode, items, item) then [Delivered(item)] else [Passed, Delivered(item)]
  {
    assert (items + [item])[..|items|] == items;
  }

  lemma {:induction false} NeverFailed<T, K>(mode: Mode<T, K>, entered: bool, items: seq<T>)
    ensures Failed !in History(mode, entered, items, false)
  {
    if items != [] {
      NeverFailed(mode, entered, items[..|items| - 1]);
    }
  }

  lemma StepAgrees<T, K>(mode: Mode<T, K>, s: State<T, K>, segment: Segment<T>, entered: bool, items: seq<T>)
    returns (nowEntered: bool, after: seq<T>)
    requires Agrees(mode, s, entered, items) && Enabled(s, segment)
    ensures Agrees(mode, Step(mode, s, segment), nowEntered, after)
  {
    nowEntered, after := entered, items;
    if segment.Pulled? {
      after := DeliverAgrees(mode, s.(pulls := s.pulls - 1), entered, items, segment.item, segment.passes);
    } else if segment.Next? && s.first && !s.over {
      assert s.log == [];
      nowEntered := segment.passes;
      assert Step(mode, s, segment).log == History(mode, nowEntered, [], !segment.passes);
    } else {
      assert Step(mode, s, segment).log == s.log;
    }
  }

  /** The whole history of a guarded stream, in any order of calls and answers, is the one its items are due. */
  lemma {:induction false} ChecksAreDue<T, K>(mode: Mode<T, K>, segments: seq<Segment<T>>)
    returns (entered: bool, items: seq<T>)
    requires Possible(mode, segments)
    ensures Agrees(mode, Run(mode, segments), entered, items) && Items(Run(mode, segments).log) == items
  {
    hide Step, Items, History;
    if segments == [] {
      entered, items := false, [];
      NothingYet(mode);
    } else {
      var before := segments[..|segments| - 1];
      entered, items := ChecksAreDue(mode, before);
      entered, items := StepAgrees(mode, Run(mode, before), segments[|segments| - 1], entered, items);
    }
    HistoryDelivers(mode, entered, items, Failed in Run(mode, segments).log);
  }

  lemma NothingYet<T, K>(mode: Mode<T, K>)
    ensures History(mode, false, [], false) == []
  {
  }

  // ---------- which items ----------

  /** What a stream has handed on, and whether it is over. */
  datatype Handed<T> = Handed(items: seq<T>, over: bool)

  /** The caller has not called `next` or `throw` yet. */
  predicate NotEntered<T>(segments: seq<Segment<T>>) {
    forall k :: 0 <= k < |segments| ==> !segments[k].Next? && !segments[k].Throw?
  }

  /**
   * What one more call or answer makes of it: an item pulled while the stream is not over is handed on when its check
   * passes or is not due; and the stream is over after `return`, a `throw` the inner stream has not or rejects, or a
   * check that throws.
   */
  function More<T, K(==)>(mode: Mode<T, K>, h: Handed<T>, notEntered: bool, segment: Segment<T>): Handed<T> {
    match segment
    case Next(passes) => h.(over := h.over || (notEntered && !passes))
    case Pulled(item, passes) =>
      if h.over then h
      else if mode.EachRun? && h.items != [] && mode.key(h.items[|h.items| - 1]) == mode.key(item) then
        h.(items := h.items + [item])
      else if passes then h.(items := h.items + [item])
      else h.(over := true)
    case Finished => h
    case PullFails => h
    case Return => h.(over := true)
    case Throw(inner) => h.(over := h.over || !inner)
    case ThrowFails => h.(over := true)
  }

  function HandedOn<T, K(==)>(mode: Mode<T, K>, segments: seq<Segment<T>>): Handed<T> {
    if segments == [] then Handed([], false)
    else
      var before := segments[..|segments| - 1];
      More(mode, HandedOn(mode, before), NotEntered(before), segments[|segments| - 1])
  }

  ghost predicate HandsOn<T, K>(mode: Mode<T, K>, s: State<T, K>, segments: seq<Segment<T>>) {
    && Handed(Items(s.log), s.over) == HandedOn(mode, segments)
    && (!s.over ==> s.first == NotEntered(segments))
  }

  lemma StepHandsOn<T, K>(mode: Mode<T, K>, s: State<T, K>, before: seq<Segment<T>>, segment: Segment<T>)
    requires Enabled(s, segment) && HandsOn(mode, s, before) && s.last == LastKey(mode, Items(s.log))
    ensures HandsOn(mode, Step(mode, s, segment), before + [segment])
  {
    hide Items, NotEntered, Step, More, Enabled;
    var segments := before + [segment];
    assert segments[..|segments| - 1] == before;
    EntersOrNot(before, segment);
    MoreIsStep(mode, s, NotEntered(before), segment);
  }

  /** For one call or answer. */
  lemma MoreIsStep<T, K>(mode: Mode<T, K>, s: State<T, K>, notEntered: bool, segment: Segment<T>)
    requires Enabled(s, segment) && s.last == LastKey(mode, Items(s.log)) && (!s.over ==> s.first == notEntered)
    ensures var t := Step(mode, s, segment);
            && Handed(Items(t.log), t.over) == More(mode, Handed(Items(s.log), s.over), notEntered, segment)
            && (!t.over ==> t.first == (notEntered && !segment.Next? && !segment.Throw?))
  {
    hide Items, Deliver;
    if segment.Pulled? {
      DeliverHandsOn(mode, s.(pulls := s.pulls - 1), notEntered, segment.item, segment.passes);
    } else {
      LogGrows(s.log, Entered);
      LogGrows(s.log, Failed);
    }
  }

  lemma DeliverHandsOn<T, K>(mode: Mode<T, K>, s: State<T, K>, notEntered: bool, item: T, passes: bool)
    requires s.last == LastKey(mode, Items(s.log))
    ensures var t := Deliver(mode, s, item, passes);
            && t.first == s.first
            && Handed(Items(t.log), t.over) ==
                 More(mode, Handed(Items(s.log), s.over), notEntered, Pulled(item, passes))
  {
    hide Items;
    LogGrows(s.log, Failed);
    LogGrows(s.log, Delivered(item));
    CheckedGrows(s.log, item);
  }

  lemma CheckedGrows<T>(log: seq<Entry<T>>, item: T)
    ensures Items(log + [Passed, Delivered(item)]) == Items(log) + [item]
  {
    hide Items;
    LogGrows(log, Passed);
    LogGrows(log + [Passed], Delivered(item));
    assert log + [Passed, Delivered(item)] == log + [Passed] + [Delivered(item)];
  }

  lemma LogGrows<T>(log: seq<Entry<T>>, e: Entry<T>)
    ensures Items(log + [e]) == if e.Delivered? then Items(log) + [e.item] else Items(log)
  {
  }

  lemma EntersOrNot<T>(before: seq<Segment<T>>, segment: Segment<T>)
    ensures NotEntered(before + [segment]) <==> NotEntered(before) && !segment.Next? && !segment.Throw?
  {
    var segments := before + [segment];
    assert segments[|before|] == segment && forall k :: 0 <= k < |before| ==> segments[k] == before[k];
  }

  /** What a guarded stream hands on, under any interleaving, is exactly that, in order. */
  lemma {:induction false} ItemsAreHandedOn<T, K>(mode: Mode<T, K>, segments: seq<Segment<T>>)
    requires Possible(mode, segments)
    ensures HandsOn(mode, Run(mode, segments), segments)
    ensures Items(Run(mode, segments).log) == HandedOn(mode, segments).items
  {
    hide Step, Items, Agrees, Enabled;
    if segments == [] {
      NothingHandedOn(mode);
    } else {
      var before := segments[..|segments| - 1];
      ItemsAreHandedOn(mode, before);
      var entered, items := ChecksAreDue(mode, before);
      AgreesOnLast(mode, Run(mode, before), entered, items);
      assert segments == before + [segments[|segments| - 1]];
      StepHandsOn(mode, Run(mode, before), before, segments[|segments| - 1]);
    }
    hide Run;
  }

  lemma NothingHandedOn<T, K>(mode: Mode<T, K>)
    ensures HandsOn(mode, Start(), [])
  {
  }

  lemma AgreesOnLast<T, K>(mode: Mode<T, K>, s: State<T, K>, entered: bool, items: seq<T>)
    requires Agrees(mode, s, entered, items)
    ensures s.last == LastKey(mode, items)
  {
  }

  /**
   * A `next` of a stream that is not over pulls, once, if it need not check or its check passes; and may be answered.
   */
  lemma NextPulls<T, K>(mode: Mode<T, K>, segments: seq<Segment<T>>, passes: bool)
    requires Possible(mode, segments) && !HandedOn(mode, segments).over && (passes || !NotEntered(segments))
    ensures Possible(mode, segments + [Next(passes)])
    ensures Run(mode, segments + [Next(passes)]).pulls == Run(mode, segments).pulls + 1
    ensures forall item, fine :: Enabled(Run(mode, segments + [Next(passes)]), Pulled(item, fine))
  {
    ItemsAreHandedOn(mode, segments);
    NextIsPossible(mode, segments, passes);
    Extends(mode, segments, Next(passes));
    hide Possible, Run, Items, HandedOn, NotEntered;
  }

  lemma NextIsPossible<T, K>(mode: Mode<T, K>, segments: seq<Segment<T>>, passes: bool)
    requires Possible(mode, segments)
    ensures Enabled(Run(mode, segments), Next(passes))
  {
  }

  /** The items pulled, in order. */
  function PulledItems<T>(segments: seq<Segment<T>>): seq<T> {
    if segments == [] then []
    else
      var last := segments[|segments| - 1];
      PulledItems(segments[..|segments| - 1]) + if last.Pulled? then [last.item] else []
  }

  /** Every check passes, and the caller only calls `next`. */
  ghost predicate AllPasses<T>(segments: seq<Segment<T>>) {
    forall s <- segments ::
      (s.Next? ==> s.passes) && (s.Pulled? ==> s.passes) && !s.Return? && !s.Throw? && !s.ThrowFails?
  }

  lemma {:induction false} PassesOn<T, K>(mode: Mode<T, K>, segments: seq<Segment<T>>)
    requires AllPasses(segments)
    ensures HandedOn(mode, segments) == Handed(PulledItems(segments), false)
  {
    if segments != [] {
      var (before, last) := (segments[..|segments| - 1], segments[|segments| - 1]);
      assert last in segments && forall s <- before :: s in segments;
      PassesOn(mode, before);
    }
  }

  /** A stream whose checks all pass, and that nobody ends, hands on exactly what the inner stream gave, in order. */
  lemma NothingIsDropped<T, K>(mode: Mode<T, K>, segments: seq<Segment<T>>)
    requires Possible(mode, segments) && AllPasses(segments)
    ensures Items(Run(mode, segments).log) == PulledItems(segments) && !Run(mode, segments).over
  {
    hide Items, Run, HandedOn, PulledItems;
    ItemsAreHandedOn(mode, segments);
    PassesOn(mode, segments);
  }

  // ---------- how many checks ----------

  function Count<T(==)>(log: seq<Entry<T>>): nat {
    if log == [] then 0 else Count(log[..|log| - 1]) + if log[|log| - 1].Passed? then 1 else 0
  }

  function Keys(items: seq<BitRoute.Id>): set<nat> {
    set item <- items :: BitRoute.ChunkKey(item)
  }

  const PER_CHUNK: Mode<BitRoute.Id, nat> := EachRun(BitRoute.ChunkKey)

  predicate Ascending(items: seq<BitRoute.Id>) {
    forall i, j :: 0 <= i < j < |items| ==> items[i] <= items[j]
  }

  lemma DueCounts(before: seq<BitRoute.Id>, item: BitRoute.Id)
    ensures Count(Due(PER_CHUNK, before + [item])) ==
            Count(Due(PER_CHUNK, before)) + if SameRun(PER_CHUNK, before, item) then 0 else 1
  {
    var items := before + [item];
    var due := Due(PER_CHUNK, before);
    assert items[..|items| - 1] == before && items[|items| - 1] == item;
    assert (due + [Delivered(item)])[..|due|] == due;
    assert (due + [Passed, Delivered(item)])[..|due| + 1] == due + [Passed];
    assert (due + [Passed])[..|due|] == due;
  }

  lemma KeysGrow(before: seq<BitRoute.Id>, item: BitRoute.Id)
    ensures |Keys(before + [item])| == |Keys(before)| + if BitRoute.ChunkKey(item) in Keys(before) then 0 else 1
  {
    hide BitRoute.ChunkKey;
    assert Keys(before + [item]) == Keys(before) + {BitRoute.ChunkKey(item)};
  }

  /** An ascending id is of a chunk seen before exactly when it is of the last one's. */
  lemma NewChunk(before: seq<BitRoute.Id>, item: BitRoute.Id)
    requires Ascending(before + [item])
    ensures BitRoute.ChunkKey(item) in Keys(before) <==> SameRun(PER_CHUNK, before, item)
  {
    hide BitRoute.ChunkKey;
    if BitRoute.ChunkKey(item) in Keys(before) {
      var i :| 0 <= i < |before| && BitRoute.ChunkKey(before[i]) == BitRoute.ChunkKey(item);
      var all := before + [item];
      assert all[i] <= all[|before| - 1] <= all[|before|];
      BitRoute.BetweenIsSame(before[i], before[|before| - 1], item);
    } else if before != [] {
      assert before[|before| - 1] in before;
    }
  }

  /** Handing on ascending ids takes exactly one passed check for each chunk they are in. */
  lemma {:induction false} OncePerChunk(items: seq<BitRoute.Id>)
    requires Ascending(items)
    ensures Count(Due(PER_CHUNK, items)) == |Keys(items)|
  {
    if items == [] {
      assert Keys(items) == {};
    } else {
      var (before, item) := (items[..|items| - 1], items[|items| - 1]);
      assert items == before + [item];
      assert Ascending(before);
      OncePerChunk(before);
      NewChunk(before, item);
      DueCounts(before, item);
      KeysGrow(before, item);
    }
  }

  lemma HistoryCounts(entered: bool, items: seq<BitRoute.Id>, failed: bool)
    ensures Count(History(PER_CHUNK, entered, items, failed)) == Count(Due(PER_CHUNK, items))
  {
    var due := Due(PER_CHUNK, items);
    CountAppend([Entered], due);
    var log := (if entered then [Entered] else []) + due;
    assert [] + due == due;
    CountAppend(log, [Failed]);
    assert log + [] == log;
  }

  lemma {:induction false} CountAppend(a: seq<Entry<BitRoute.Id>>, b: seq<Entry<BitRoute.Id>>)
    ensures Count(a + b) == Count(a) + Count(b)
  {
    if b == [] {
      assert a + b == a;
    } else {
      assert (a + b)[..|a + b| - 1] == a + b[..|b| - 1];
      CountAppend(a, b[..|b| - 1]);
    }
  }

  /** A guarded stream of ascending ids passes exactly one check for each chunk it hands an id of on. */
  lemma CheckedOncePerChunk(segments: seq<Segment<BitRoute.Id>>)
    requires Possible(PER_CHUNK, segments) && Ascending(Items(Run(PER_CHUNK, segments).log))
    ensures Count(Run(PER_CHUNK, segments).log) == |Keys(Items(Run(PER_CHUNK, segments).log))|
  {
    var entered, items := ChecksAreDue(PER_CHUNK, segments);
    hide Run, Due, Count, History;
    HistoryCounts(entered, items, Failed in Run(PER_CHUNK, segments).log);
    OncePerChunk(items);
  }

  /** Nothing is pulled, or handed on, before a check has passed, unless the caller throws into the stream. */
  lemma {:induction false} EntersByACheck<T, K>(mode: Mode<T, K>, segments: seq<Segment<T>>)
    requires Possible(mode, segments) && forall segment <- segments :: !segment.Throw?
    ensures var s := Run(mode, segments);
            && (s.first ==> s.log == [])
            && (s.log != [] && s.log[0] != Entered ==> s.log == [Failed] && s.over)
    ensures var s := Run(mode, segments);
            s.pulls > 0 || (!s.first && !s.over) || Items(s.log) != [] ==> s.log != [] && s.log[0] == Entered
  {
    if segments != [] {
      EntersByACheck(mode, segments[..|segments| - 1]);
    }
  }
}
