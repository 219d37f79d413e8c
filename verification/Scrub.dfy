/**
 * The scrubbing copy of an error: memoised, so that a cycle stays a cycle, bounded in depth, and made beside the live
 * objects, none of which it changes. The heap is explicit, so that this can be stated.
 */
module Scrub {

  import opened Bytes
  import opened Copies
  import opened Heap
  import opened Reasons
  import opened Text

  /** A finished copy of an object. */
  ghost predicate Good(k: Subject, m: Memo, deep: bool, src: Node, out: Node) {
    match src
    case List(items, extra) =>
      && out.List? && !out.extra && |out.items| == |items| && ListCarried(k, m, deep, items, out.items)
      && (m.changed || !extra)
    case Table(entries, extra) =>
      out.Table? && !out.extra && TableCarried(k, m, deep, entries, out.entries) && (m.changed || !extra)
    case Group(items, extra) =>
      out.Group? && !out.extra && GroupCarried(k, m, deep, items, out.items) && (m.changed || !extra)
    case Record(isError, fields, _) =>
      && out.Record? && out.isError == isError && out.slots == []
      && RecordCarried(k, m, deep, src, Sources(k.texts, src), out.fields) && PairsHidden(k.texts, src, out.fields)
      && (m.changed || forall f <- fields :: FieldQuiet(k.texts, isError, f))
    case Instance => false
  }

  lemma GoodStays(k: Subject, m: Memo, n: Memo, deep: bool, src: Node, out: Node)
    requires Good(k, m, deep, src, out) && Grows(m, n)
    ensures Good(k, n, deep, src, out)
  {
    hide ListCarried, TableCarried, GroupCarried, RecordCarried, PairsHidden, FieldQuiet, Sources;
    match src
    case List(items, _) => ListStays(k, m, n, deep, items, out.items);
    case Table(entries, _) => TableStays(k, m, n, deep, entries, out.entries);
    case Group(items, _) => GroupStays(k, m, n, deep, items, out.items);
    case Record(_, _, _) => RecordStays(k, m, n, deep, src, Sources(k.texts, src), out.fields);
  }

  /** A finished copy shows no credential, hides what is beside one's name, and refers only to copies. */
  lemma GoodIsSafe(k: Subject, m: Memo, deep: bool, src: Node, out: Node)
    requires Sound(k.texts) && KeysAreDistinct(src) && Good(k, m, deep, src, out)
    ensures Safe(k.texts, out) && forall c :: RefersTo(out, c) ==> IsCopy(m, c)
    ensures src.Record? ==> out.Record? && PairsHidden(k.texts, src, out.fields)
  {
    hide ListCarried, TableCarried, GroupCarried, RecordCarried, PairsHidden, FieldQuiet, Sources, Safe, IsCopy,
      KeysAreDistinct, FieldValues;
    match src
    case List(items, _) => ListIsSafe(k, m, deep, items, out.items);
    case Table(entries, _) => TableIsSafe(k, m, deep, entries, out.entries);
    case Group(items, _) => GroupIsSafe(k, m, deep, items, out.items);
    case Record(_, _, _) =>
      RecordIsSafe(k, m, deep, src, out.fields);
      FieldValuesAreFields(out.fields);
  }

  /** An object whose copy changed nothing was safe, and refers only to objects that were copied. */
  lemma QuietIsSafe(k: Subject, m: Memo, deep: bool, src: Node, out: Node)
    requires Sound(k.texts) && KeysAreDistinct(src) && Good(k, m, deep, src, out) && !m.changed
    ensures Safe(k.texts, src) && forall r :: RefersTo(src, r) ==> r in m.copies
    ensures src.Record? ==> PairsHidden(k.texts, src, src.fields)
  {
    hide ListCarried, TableCarried, GroupCarried, RecordCarried, PairsHidden, FieldQuiet, Sources, Safe,
      KeysAreDistinct, FieldValues;
    match src
    case List(items, _) => QuietListIsSafe(k, m, deep, items, out.items);
    case Table(entries, _) => QuietTableIsSafe(k, m, deep, entries, out.entries);
    case Group(items, _) => GroupIsSafe(k, m, deep, items, out.items);
    case Record(_, _, _) =>
      QuietRecordIsSafe(k, m, deep, src, out.fields);
      QuietPairsAreHidden(k, m, deep, src, out.fields);
  }

  // ---------- the state of a copy being made ----------

  /** The heap, the table of copies, and of each copy what it is of, and whether what it holds lies too deep. */
  datatype State = State(heap: map<Ref, Node>, next: Ref, memo: Memo, sources: map<Ref, Ref>, deep: map<Ref, bool>)

  ghost predicate Finished(k: Subject, s: State, c: Ref) {
    && c in s.heap && c in s.sources && c in s.deep && s.sources[c] in k.originals
    && Good(k, s.memo, s.deep[c], k.originals[s.sources[c]], s.heap[c])
  }

  /**
   * From one state to a later one: nothing there is changed, and every object made since is a finished copy, but
   * `open`.
   */
  ghost predicate Advances(k: Subject, s: State, t: State, open: Option<Ref>) {
    && s.next <= t.next && Grows(s.memo, t.memo)
    && (forall r <- s.heap :: r in t.heap && t.heap[r] == s.heap[r])
    && Extends(s.sources, t.sources)
    && (forall c <- s.deep :: c in t.deep && t.deep[c] == s.deep[c])
    && (forall c :: s.next <= c < t.next && open != Some(c) ==> Finished(k, t, c))
  }

  /** The originals are where they were, and every other object is a copy. */
  ghost predicate Placed(k: Subject, base: Ref, s: State) {
    && (forall r <- k.originals :: r < base) && base <= s.next
    && (forall r :: r in s.heap <==> r in k.originals || base <= r < s.next)
    && (forall r <- k.originals :: s.heap[r] == k.originals[r])
    && (forall c :: c in s.sources <==> base <= c < s.next)
    && (forall c :: c in s.deep <==> base <= c < s.next)
  }

  /** Each copied object has one copy, and each copy is of one object. */
  ghost predicate Paired(k: Subject, copies: map<Ref, Ref>, sources: map<Ref, Ref>) {
    && (forall r <- copies :: r in k.originals && copies[r] in sources && sources[copies[r]] == r)
    && (forall c <- sources :: sources[c] in copies && copies[sources[c]] == c)
  }

  /** What lies too deep is held by an object that is far from the root. */
  ghost predicate DeepIsFar(k: Subject, root: Ref, sources: map<Ref, Ref>, deep: map<Ref, bool>) {
    forall c <- deep :: deep[c] ==> c in sources && IsFar(k, root, sources[c])
  }

  lemma DeepIsFarStill(k: Subject, root: Ref, s: State, ref: Ref, deep: bool)
    requires DeepIsFar(k, root, s.sources, s.deep) && s.next !in s.sources && (deep ==> IsFar(k, root, ref))
    ensures DeepIsFar(k, root, s.sources[s.next := ref], s.deep[s.next := deep])
  {
    hide IsFar;
  }

  lemma NextIsNew(k: Subject, base: Ref, s: State)
    requires Coherent(k, base, s)
    ensures s.next !in s.sources
  {
  }

  ghost predicate Coherent(k: Subject, base: Ref, s: State) {
    Placed(k, base, s) && Paired(k, s.memo.copies, s.sources)
  }

  lemma FinishedStays(k: Subject, base: Ref, s: State, t: State, c: Ref)
    requires Finished(k, s, c) && Grows(s.memo, t.memo)
    requires c in t.heap && t.heap[c] == s.heap[c]
    requires Extends(s.sources, t.sources) && c in t.deep && t.deep[c] == s.deep[c]
    ensures Finished(k, t, c)
  {
    hide Good;
    GoodStays(k, s.memo, t.memo, s.deep[c], k.originals[s.sources[c]], s.heap[c]);
  }

  /** What is made for an object inside one being copied leaves the copy of the outer one as it was. */
  lemma Chains(k: Subject, base: Ref, s: State, t: State, u: State, open: Option<Ref>)
    requires Coherent(k, base, s) && Coherent(k, base, t) && Coherent(k, base, u)
    requires Advances(k, s, t, open) && Advances(k, t, u, None)
    ensures Advances(k, s, u, open)
  {
    hide Finished;
    forall c | s.next <= c < u.next && open != Some(c)
      ensures Finished(k, u, c)
    {
      if c < t.next {
        FinishedStays(k, base, t, u, c);
      }
    }
  }

  function Allocated(s: State, ref: Ref, node: Node, deep: bool): State {
    var c := s.next;
    State(s.heap[c := node], c + 1, s.memo.(copies := s.memo.copies[ref := c]), s.sources[c := ref], s.deep[c := deep])
  }

  lemma PairsOneMore(k: Subject, copies: map<Ref, Ref>, sources: map<Ref, Ref>, r: Ref, c: Ref)
    requires Paired(k, copies, sources) && r in k.originals && r !in copies && c !in sources
    ensures Paired(k, copies[r := c], sources[c := r])
  {
  }

  lemma PlacesOneMore(k: Subject, base: Ref, s: State, ref: Ref, node: Node, deep: bool)
    requires Placed(k, base, s)
    ensures Placed(k, base, Allocated(s, ref, node, deep))
  {
  }

  lemma AdvancesByOne(k: Subject, s: State, ref: Ref, node: Node, deep: bool)
    requires s.next !in s.sources && s.next !in s.deep && s.next !in s.heap && ref !in s.memo.copies
    ensures Advances(k, s, Allocated(s, ref, node, deep), Some(s.next))
  {
    hide Finished;
    var t := Allocated(s, ref, node, deep);
    assert forall r <- s.heap :: r != s.next && t.heap[r] == s.heap[r];
  }

  /** A new object enters the table, to be finished. */
  lemma Allocates(k: Subject, base: Ref, s: State, ref: Ref, node: Node, deep: bool)
    requires Coherent(k, base, s) && ref in k.originals && ref !in s.memo.copies
    ensures Coherent(k, base, Allocated(s, ref, node, deep))
    ensures Advances(k, s, Allocated(s, ref, node, deep), Some(s.next))
  {
    assert s.next !in s.sources && s.next !in s.deep && s.next !in s.heap;
    PairsOneMore(k, s.memo.copies, s.sources, ref, s.next);
    PlacesOneMore(k, base, s, ref, node, deep);
    AdvancesByOne(k, s, ref, node, deep);
    hide Placed, Paired, Advances;
  }

  lemma PlacedStays(k: Subject, base: Ref, t: State, c: Ref, node: Node)
    requires Placed(k, base, t) && base <= c < t.next
    ensures Placed(k, base, t.(heap := t.heap[c := node]))
  {
  }

  /** The copy being made may be written to. */
  lemma Writes(k: Subject, base: Ref, s: State, t: State, c: Ref, node: Node)
    requires Coherent(k, base, s) && Coherent(k, base, t) && Advances(k, s, t, Some(c)) && s.next <= c < t.next
    ensures Coherent(k, base, t.(heap := t.heap[c := node])) && Advances(k, s, t.(heap := t.heap[c := node]), Some(c))
  {
    var u := t.(heap := t.heap[c := node]);
    assert c !in s.heap && base <= c;
    hide Finished, Paired, Placed;
    PlacedStays(k, base, t, c, node);
    forall d | s.next <= d < u.next && d != c
      ensures Finished(k, u, d)
    {
      FinishedStays(k, base, t, u, d);
    }
  }

  /** Finding that something differs unfinishes no copy. */
  lemma Marks(k: Subject, base: Ref, s: State)
    requires Coherent(k, base, s)
    ensures var t := s.(memo := s.memo.(changed := true)); Coherent(k, base, t) && Advances(k, s, t, None)
  {
  }

  /** Nothing has happened yet. */
  lemma Rests(k: Subject, base: Ref, s: State)
    requires Coherent(k, base, s)
    ensures Advances(k, s, s, None)
    ensures forall r <- k.originals :: r in s.heap && s.heap[r] == k.originals[r]
  {
  }

  // ---------- an object being copied ----------

  /** In `t`, the copy of `ref` that was begun in `s` is the one object made since that is not finished. */
  ghost predicate Opened(k: Subject, base: Ref, s: State, t: State, ref: Ref, copy: Ref, deep: bool) {
    && Coherent(k, base, s) && Coherent(k, base, t) && Advances(k, s, t, Some(copy))
    && copy == s.next < t.next && copy in t.heap && copy in t.deep && t.deep[copy] == deep
    && ref in k.originals && ref in t.memo.copies && t.memo.copies[ref] == copy
    && copy in t.sources && t.sources[copy] == ref
  }

  lemma Opens(k: Subject, base: Ref, s: State, ref: Ref, node: Node, deep: bool)
    requires Coherent(k, base, s) && ref in k.originals && ref !in s.memo.copies
    ensures Opened(k, base, s, Allocated(s, ref, node, deep), ref, s.next, deep)
  {
    Allocates(k, base, s, ref, node, deep);
    hide Coherent, DeepIsFar, Advances;
  }

  /** What is copied, or found to differ, meanwhile leaves the open copy as it is. */
  lemma OpenStays(k: Subject, base: Ref, s: State, t: State, u: State, ref: Ref, copy: Ref, deep: bool)
    requires Opened(k, base, s, t, ref, copy, deep) && Coherent(k, base, u) && Advances(k, t, u, None)
    ensures Opened(k, base, s, u, ref, copy, deep) && copy in t.heap && copy in u.heap && u.heap[copy] == t.heap[copy]
    ensures Grows(t.memo, u.memo) && (t.memo.changed ==> u.memo.changed)
  {
    Chains(k, base, s, t, u, Some(copy));
    hide Coherent, DeepIsFar, Finished;
  }

  lemma OpenWrites(k: Subject, base: Ref, s: State, t: State, ref: Ref, copy: Ref, deep: bool, node: Node)
    requires Opened(k, base, s, t, ref, copy, deep)
    ensures Opened(k, base, s, t.(heap := t.heap[copy := node]), ref, copy, deep)
    ensures Coherent(k, base, t.(heap := t.heap[copy := node]))
  {
    Writes(k, base, s, t, copy, node);
    hide Coherent, DeepIsFar, Advances;
  }

  /** A copy that is good is finished, and then nothing is open. */
  lemma OpenCloses(k: Subject, base: Ref, s: State, t: State, ref: Ref, copy: Ref, deep: bool)
    requires Opened(k, base, s, t, ref, copy, deep) && Good(k, t.memo, deep, k.originals[ref], t.heap[copy])
    ensures Advances(k, s, t, None) && ref in t.memo.copies && t.memo.copies[ref] == copy
  {
    hide Coherent, DeepIsFar, Good;
  }

  /** What an object holds is there to be copied. */
  lemma HeldIsThere(k: Subject, ref: Ref, v: Value)
    requires WellFormed(k.originals) && ref in k.originals && v in Values(k.originals[ref])
    ensures v.Obj? ==> v.ref in k.originals
  {
    if v.Obj? {
      assert RefersTo(k.originals[ref], v.ref);
    }
  }

  // ---------- the copy ----------

  class Copying {
    const k: Subject
    const base: Ref
    const root: Ref
    var heap: map<Ref, Node>
    var next: Ref
    var copies: map<Ref, Ref>
    var changed: bool
    ghost var sources: map<Ref, Ref>
    ghost var deep: map<Ref, bool>

    ghost function Seen(): Memo
      reads this
    {
      Memo(copies, changed)
    }

    ghost function Now(): State
      reads this
    {
      State(heap, next, Seen(), sources, deep)
    }

    ghost predicate Valid()
      reads this
    {
      && Sound(k.texts) && WellFormed(k.originals) && Coherent(k, base, Now())
      && DeepIsFar(k, root, sources, deep)
      && (changed ==> Reason(k, root))
    }

    constructor (texts: Texts, originals: map<Ref, Node>, base: Ref, root: Ref)
      requires Sound(texts) && WellFormed(originals) && forall r <- originals :: r < base
      ensures Valid() && fresh(this) && k == Subject(texts, originals) && this.base == base && this.root == root
      ensures heap == originals && copies == map[] && !changed && next == base
    {
      k := Subject(texts, originals);
      this.base := base;
      this.root := root;
      heap, next, copies, changed, sources, deep := originals, base, map[], false, map[], map[];
    }

    /** A new object, entered in the table as the copy of `ref` before anything it holds is copied. */
    method Begin(ref: Ref, depth: nat, node: Node) returns (copy: Ref)
      requires Valid() && ref in k.originals && ref !in copies && (depth >= MAX_DEPTH ==> IsFar(k, root, ref))
      modifies this
      ensures Valid() && copy == old(next) && Now() == Allocated(old(Now()), ref, node, depth >= MAX_DEPTH)
      ensures Opened(k, base, old(Now()), Now(), ref, copy, depth >= MAX_DEPTH)
    {
      hide Coherent, DeepIsFar, Opened, WellFormed, Sound, Reason;
      NextIsNew(k, base, Now());
      DeepIsFarStill(k, root, Now(), ref, depth >= MAX_DEPTH);
      Opens(k, base, Now(), ref, node, depth >= MAX_DEPTH);
      Allocates(k, base, Now(), ref, node, depth >= MAX_DEPTH);
      copy := next;
      next := next + 1;
      heap := heap[copy := node];
      copies := copies[ref := copy];
      sources := sources[copy := ref];
      deep := deep[copy := depth >= MAX_DEPTH];
    }

    /** Note that something differs, as there is a reason for. */
    method Differ()
      requires Valid() && (changed || Reason(k, root))
      modifies `changed
      ensures Valid() && Now() == old(Now()).(memo := old(Now()).memo.(changed := true))
      ensures Advances(k, old(Now()), Now(), None)
    {
      hide Coherent, DeepIsFar, Advances, WellFormed, Sound, Reason;
      Marks(k, base, Now());
      changed := true;
    }

    /** Write to the copy being made. */
    method Assign(ghost s: State, ghost ref: Ref, copy: Ref, ghost depth: nat, node: Node)
      requires Valid() && Opened(k, base, s, Now(), ref, copy, depth >= MAX_DEPTH)
      modifies `heap
      ensures Valid() && Now() == old(Now()).(heap := old(heap)[copy := node])
      ensures Opened(k, base, s, Now(), ref, copy, depth >= MAX_DEPTH)
    {
      hide Coherent, DeepIsFar, Opened, WellFormed, Sound, Reason;
      OpenWrites(k, base, s, Now(), ref, copy, depth >= MAX_DEPTH, node);
      heap := heap[copy := node];
    }

    /** A copy of a value, or none when it may not be kept. */
    method CopyOf(value: Value, depth: nat, ghost path: seq<Ref>) returns (kept: Option<Value>)
      requires Valid() && (value.Obj? ==> value.ref in k.originals) && depth <= MAX_DEPTH + 1
      requires Leads(k, root, path, copies, value) && |path| == depth
      modifies this
      ensures Valid() && Advances(k, old(Now()), Now(), None)
      ensures Carries(k, Seen(), depth > MAX_DEPTH, false, value, kept)
      decreases MAX_DEPTH + 1 - depth, 4
    {
      hide Coherent, DeepIsFar, Advances, WellFormed, Sound, Reason, Leads, Way;
      Rests(k, base, Now());
      if !TidyValue(k.texts, value) {
        UntidyValue(k, root, path, copies, value);
      }
      match value
      case Str(text) =>
        var clean := k.texts.redact(text);
        if clean != text {
          Differ();
        }
        return Some(Str(clean));
      case Live =>
        Differ();
        return None;
      case Obj(ref) =>
        if ref in copies {
          return Some(Obj(copies[ref]));
        }
        LeadsOn(k, root, path, copies, ref);
        if depth > MAX_DEPTH {
          TooDeep(k, root, path + [ref], copies, ref);
          Differ();
          return None;
        }
        var copy := CopyObject(ref, depth, path + [ref]);
        return if copy.Some? then Some(Obj(copy.value)) else None;
      case _ => return Some(value);
    }

    /** A copy of an object, of whatever kind, or none for an instance: a stream, a socket. */
    method CopyObject(ref: Ref, depth: nat, ghost path: seq<Ref>) returns (copy: Option<Ref>)
      requires Valid() && ref in k.originals && ref !in copies && depth <= MAX_DEPTH
      requires Way(k, root, path, copies, ref) && |path| == depth + 1
      modifies this
      ensures Valid() && Advances(k, old(Now()), Now(), None)
      ensures if copy.Some? then ref in copies && copies[ref] == copy.value else changed && IsInstance(k, ref)
      decreases MAX_DEPTH + 1 - depth, 3
    {
      hide Coherent, DeepIsFar, Advances, WellFormed, Sound, Reason, Way;
      Rests(k, base, Now());
      var made;
      match heap[ref]
      case List(_, _) =>
        made := CopyList(ref, depth, path);
        return Some(made);
      case Table(_, _) =>
        made := CopyTable(ref, depth, path);
        return Some(made);
      case Group(_, _) =>
        made := CopyGroup(ref, depth, path);
        return Some(made);
      case Record(_, _, _) =>
        made := CopyRecord(ref, depth, path);
        return Some(made);
      case Instance =>
        UntidyObject(k, root, path, copies, ref);
        Differ();
        return None;
    }

    /** A copy of an array, where the value after a credential's name is one. */
    method CopyList(ref: Ref, depth: nat, ghost path: seq<Ref>) returns (copy: Ref)
      requires Valid() && ref in k.originals && k.originals[ref].List? && ref !in copies && depth <= MAX_DEPTH
      requires Way(k, root, path, copies, ref) && |path| == depth + 1
      modifies this
      ensures Valid() && Advances(k, old(Now()), Now(), None)
      ensures ref in copies && copies[ref] == copy
      decreases MAX_DEPTH + 1 - depth, 0
    {
      hide Coherent, DeepIsFar, Advances, Opened, Good, WellFormed, Sound, Reason, Way, Leads, ListCarried,
        ItemCarried, Carries, Grows;
      ghost var s := Now();
      Rests(k, base, s);
      var List(items, extra) := heap[ref];
      WayIsFar(k, root, path, copies, ref);
      copy := Begin(ref, depth, List([], false));
      if extra {
        ghost var t := Now();
        UntidyObject(k, root, path, s.memo.copies, ref);
        Differ();
        OpenStays(k, base, s, t, Now(), ref, copy, depth >= MAX_DEPTH);
      }
      var out := [];
      var hidden := false;
      StartsList(k, Seen(), depth >= MAX_DEPTH, items);
      for i := 0 to |items|
        invariant Valid() && Opened(k, base, s, Now(), ref, copy, depth >= MAX_DEPTH)
        invariant copy in heap && heap[copy] == List(out, false) && |out| == i && (changed || !extra)
        invariant ListCarried(k, Seen(), depth >= MAX_DEPTH, items, out)
        invariant hidden == (i > 0 && SpellsName(k.texts, items[i - 1]))
      {
        var item := items[i];
        ghost var t := Now();
        var w := Str(REDACTED);
        if hidden && !Nullish(item) {
          Rests(k, base, Now());
          if item != w {
            UntidyItem(k.texts, items, extra, i);
            UntidyObject(k, root, path, s.memo.copies, ref);
            Differ();
          }
          ItemHidden(k, Seen(), depth >= MAX_DEPTH, items, i);
        } else {
          HeldIsThere(k, ref, item);
          WayLeads(k, base, s, t, ref, copy, depth >= MAX_DEPTH, root, path, item);
          var kept := CopyOf(item, depth + 1, path);
          w := if kept.Some? then kept.value else Undefined;
          ItemCopied(k, Seen(), depth >= MAX_DEPTH, items, i, kept);
        }
        OpenStays(k, base, s, t, Now(), ref, copy, depth >= MAX_DEPTH);
        ListStays(k, t.memo, Seen(), depth >= MAX_DEPTH, items, out);
        ListGrows(k, Seen(), depth >= MAX_DEPTH, items, out, w);
        out := out + [w];
        Assign(s, ref, copy, depth, List(out, false));
        hidden := SpellsName(k.texts, item);
      }
      ListFinished(k, Seen(), depth >= MAX_DEPTH, items, extra, out);
      OpenCloses(k, base, s, Now(), ref, copy, depth >= MAX_DEPTH);
    }

    /**
     * A copy of a map, where the value under a credential's name is one. An entry whose key may not be kept is left
     * out.
     */
    method CopyTable(ref: Ref, depth: nat, ghost path: seq<Ref>) returns (copy: Ref)
      requires Valid() && ref in k.originals && k.originals[ref].Table? && ref !in copies && depth <= MAX_DEPTH
      requires Way(k, root, path, copies, ref) && |path| == depth + 1
      modifies this
      ensures Valid() && Advances(k, old(Now()), Now(), None)
      ensures ref in copies && copies[ref] == copy
      decreases MAX_DEPTH + 1 - depth, 1
    {
      hide Coherent, DeepIsFar, Advances, Opened, Good, WellFormed, Sound, Reason, Way, Leads, TableCarried,
        EntryCarried, EntryQuiet, Carries, Grows, Put;
      ghost var s := Now();
      Rests(k, base, s);
      var Table(entries, extra) := heap[ref];
      WayIsFar(k, root, path, copies, ref);
      copy := Begin(ref, depth, Table([], false));
      if extra {
        ghost var t := Now();
        UntidyObject(k, root, path, s.memo.copies, ref);
        Differ();
        OpenStays(k, base, s, t, Now(), ref, copy, depth >= MAX_DEPTH);
      }
      var out := [];
      StartsTable(k, Seen(), depth >= MAX_DEPTH);
      for i := 0 to |entries|
        invariant Valid() && Opened(k, base, s, Now(), ref, copy, depth >= MAX_DEPTH)
        invariant copy in heap && heap[copy] == Table(out, false) && (changed || !extra)
        invariant TableCarried(k, Seen(), depth >= MAX_DEPTH, entries[..i], out)
      {
        var e := entries[i];
        ghost var t := Now();
        EntryIsThere(k, ref, i);
        out := CopyEntry(s, ref, copy, depth, path, entries[..i], e, out);
        assert entries[..i + 1] == entries[..i] + [e];
        Assign(s, ref, copy, depth, Table(out, false));
      }
      assert entries[..|entries|] == entries;
      TableFinished(k, Seen(), depth >= MAX_DEPTH, entries, extra, out);
      OpenCloses(k, base, s, Now(), ref, copy, depth >= MAX_DEPTH);
    }

    /** The copy's entries with one more put, or as they were. */
    method CopyEntry(ghost s: State, ghost ref: Ref, ghost copy: Ref, depth: nat, ghost path: seq<Ref>,
                     ghost before: Entries, e: Pair<Value, Value>, out: Entries) returns (put: Entries)
      requires Valid() && Opened(k, base, s, Now(), ref, copy, depth >= MAX_DEPTH) && depth <= MAX_DEPTH
      requires (e.key.Obj? ==> e.key.ref in k.originals) && (e.value.Obj? ==> e.value.ref in k.originals)
      requires TableCarried(k, Seen(), depth >= MAX_DEPTH, before, out)
      requires Way(k, root, path, s.memo.copies, ref) && |path| == depth + 1
      requires ref in k.originals && k.originals[ref].Table? && e in k.originals[ref].entries
      modifies this
      ensures Valid() && Opened(k, base, s, Now(), ref, copy, depth >= MAX_DEPTH)
      ensures copy in old(heap) && copy in heap && heap[copy] == old(heap)[copy] && (old(changed) ==> changed)
      ensures TableCarried(k, Seen(), depth >= MAX_DEPTH, before + [e], put)
      decreases MAX_DEPTH + 1 - depth, 0
    {
      hide Coherent, DeepIsFar, Advances, Opened, Good, WellFormed, Sound, Reason, Way, Leads, TableCarried,
        EntryCarried, Grows, Put;
      ghost var deep := depth >= MAX_DEPTH;
      IsThere(k, base, s, Now(), ref, copy, deep);
      ghost var t := Now();
      EntryIsHeld(k.originals[ref], e);
      WayLeads(k, base, s, t, ref, copy, deep, root, path, e.key);
      var key := CopyOf(e.key, depth + 1, path);
      OpenStays(k, base, s, t, Now(), ref, copy, deep);
      TableStays(k, t.memo, Seen(), deep, before, out);
      ghost var u := Now();
      if key.None? {
        TableSkips(k, Seen(), deep, before, out, e);
        return out;
      }
      var kept;
      if SpellsName(k.texts, e.key) && !Nullish(e.value) {
        Rests(k, base, Now());
        kept := Some(Str(REDACTED));
        if e.value != Str(REDACTED) {
          UntidyObject(k, root, path, s.memo.copies, ref);
          Differ();
        }
      } else {
        WayLeads(k, base, s, u, ref, copy, deep, root, path, e.value);
        kept := CopyOf(e.value, depth + 1, path);
      }
      OpenStays(k, base, s, u, Now(), ref, copy, deep);
      TableStays(k, u.memo, Seen(), deep, before, out);
      CarriesLater(k, u.memo, Seen(), deep, false, e.key, key);
      if kept.None? {
        TableSkips(k, Seen(), deep, before, out, e);
        return out;
      }
      EntryIsCarried(k, Seen(), deep, e, key.value, kept.value);
      TablePuts(k, Seen(), deep, before, out, e, Pair(key.value, kept.value));
      put := Put(out, key.value, kept.value);
    }

    /** A copy of a set. */
    method CopyGroup(ref: Ref, depth: nat, ghost path: seq<Ref>) returns (copy: Ref)
      requires Valid() && ref in k.originals && k.originals[ref].Group? && ref !in copies && depth <= MAX_DEPTH
      requires Way(k, root, path, copies, ref) && |path| == depth + 1
      modifies this
      ensures Valid() && Advances(k, old(Now()), Now(), None)
      ensures ref in copies && copies[ref] == copy
      decreases MAX_DEPTH + 1 - depth, 0
    {
      hide Coherent, DeepIsFar, Advances, Opened, Good, WellFormed, Sound, Reason, Way, Leads, GroupCarried, Carries,
        Grows;
      ghost var s := Now();
      Rests(k, base, s);
      var Group(items, extra) := heap[ref];
      WayIsFar(k, root, path, copies, ref);
      copy := Begin(ref, depth, Group([], false));
      if extra {
        ghost var t := Now();
        UntidyObject(k, root, path, s.memo.copies, ref);
        Differ();
        OpenStays(k, base, s, t, Now(), ref, copy, depth >= MAX_DEPTH);
      }
      var out := [];
      StartsGroup(k, Seen(), depth >= MAX_DEPTH);
      for i := 0 to |items|
        invariant Valid() && Opened(k, base, s, Now(), ref, copy, depth >= MAX_DEPTH)
        invariant copy in heap && heap[copy] == Group(out, false) && (changed || !extra)
        invariant GroupCarried(k, Seen(), depth >= MAX_DEPTH, items[..i], out)
      {
        ghost var t := Now();
        HeldIsThere(k, ref, items[i]);
        WayLeads(k, base, s, t, ref, copy, depth >= MAX_DEPTH, root, path, items[i]);
        var kept := CopyOf(items[i], depth + 1, path);
        OpenStays(k, base, s, t, Now(), ref, copy, depth >= MAX_DEPTH);
        GroupStays(k, t.memo, Seen(), depth >= MAX_DEPTH, items[..i], out);
        GroupGrows(k, Seen(), depth >= MAX_DEPTH, items[..i], out, items[i], kept);
        assert items[..i + 1] == items[..i] + [items[i]];
        if kept.Some? && kept.value !in out {
          out := out + [kept.value];
          Assign(s, ref, copy, depth, Group(out, false));
        }
      }
      assert items[..|items|] == items;
      GroupFinished(k, Seen(), depth >= MAX_DEPTH, items, extra, out);
      OpenCloses(k, base, s, Now(), ref, copy, depth >= MAX_DEPTH);
    }

    /** A copy of an error or a plain object. */
    method CopyRecord(ref: Ref, depth: nat, ghost path: seq<Ref>) returns (copy: Ref)
      requires Valid() && ref in k.originals && k.originals[ref].Record? && ref !in copies && depth <= MAX_DEPTH
      requires Way(k, root, path, copies, ref) && |path| == depth + 1
      modifies this
      ensures Valid() && Advances(k, old(Now()), Now(), None)
      ensures ref in copies && copies[ref] == copy
      decreases MAX_DEPTH + 1 - depth, 2
    {
      hide Coherent, DeepIsFar, Advances, Opened, Good, WellFormed, Sound, Reason, Way, Leads, RecordCarried, Carries,
        Grows, FieldSources, FieldQuiet, PairsHidden;
      ghost var s := Now();
      Rests(k, base, s);
      ghost var deep := depth >= MAX_DEPTH;
      var src := heap[ref];
      var Record(isError, fields, slots) := src;
      WayIsFar(k, root, path, copies, ref);
      copy := Begin(ref, depth, Record(isError, [], []));
      var out := [];
      StartsRecord(k, Seen(), deep, src);
      for i := 0 to |fields|
        invariant Valid() && Opened(k, base, s, Now(), ref, copy, deep)
        invariant copy in heap && heap[copy] == Record(isError, out, [])
        invariant RecordCarried(k, Seen(), deep, src, FieldSources(k.texts, isError, fields[..i]), out)
        invariant changed || forall f <- fields[..i] :: FieldQuiet(k.texts, isError, f)
      {
        FieldIsThere(k, ref, i);
        out := CopyField(s, ref, copy, depth, path, src, fields[..i], fields[i], out);
        assert fields[..i + 1] == fields[..i] + [fields[i]];
        Assign(s, ref, copy, depth, Record(isError, out, []));
      }
      assert fields[..|fields|] == fields;
      out := KeepSlotFields(s, ref, copy, depth, path, src, out);
      out := RedactPairs(s, ref, copy, depth, path, src, out);
      Assign(s, ref, copy, depth, Record(isError, out, []));
      RecordFinished(k, Seen(), deep, src, out);
      OpenCloses(k, base, s, Now(), ref, copy, deep);
    }

    /**
     * Carry one own property over: a transport and an accessor are not, an error's stack is read through the
     * original.
     */
    method CopyField(ghost s: State, ghost ref: Ref, ghost copy: Ref, depth: nat, ghost path: seq<Ref>, src: Node,
                     ghost before: Fields, f: Pair<Key, Prop>, out: Fields) returns (put: Fields)
      requires Valid() && Opened(k, base, s, Now(), ref, copy, depth >= MAX_DEPTH) && depth <= MAX_DEPTH && src.Record?
      requires forall v <- FieldValues([f]) :: v.Obj? ==> v.ref in k.originals
      requires Way(k, root, path, s.memo.copies, ref) && |path| == depth + 1
      requires ref in k.originals && k.originals[ref] == src && f in src.fields
      requires RecordCarried(k, Seen(), depth >= MAX_DEPTH, src, FieldSources(k.texts, src.isError, before), out)
      modifies this
      ensures Valid() && Opened(k, base, s, Now(), ref, copy, depth >= MAX_DEPTH)
      ensures copy in old(heap) && copy in heap && heap[copy] == old(heap)[copy] && (old(changed) ==> changed)
      ensures RecordCarried(k, Seen(), depth >= MAX_DEPTH, src, FieldSources(k.texts, src.isError, before + [f]), put)
      ensures changed || FieldQuiet(k.texts, src.isError, f)
      decreases MAX_DEPTH + 1 - depth, 1
    {
      hide Coherent, DeepIsFar, Advances, Opened, WellFormed, Sound, Reason, Way, Leads, RecordCarried, Grows,
        FieldSources;
      ghost var deep := depth >= MAX_DEPTH;
      OneMoreField(k.texts, src.isError, before, f);
      Rests(k, base, Now());
      OpenStays(k, base, s, Now(), Now(), ref, copy, deep);
      ghost var t := Now();
      ghost var sources := FieldSources(k.texts, src.isError, before);
      FieldIsHeld(src, f);
      if !TidyField(k.texts, src.isError, f) {
        UntidyField(k.texts, src, f);
        UntidyObject(k, root, path, s.memo.copies, ref);
      }
      if f.key.Name? && f.key.name in TRANSPORT {
        Differ();
        OpenStays(k, base, s, t, Now(), ref, copy, deep);
        RecordStays(k, t.memo, Seen(), deep, src, sources, out);
        return out;
      }
      if src.isError && f.key == Name("stack") {
        if f.value.Accessor? && f.value.read.None? {
          return out;
        }
        var stack := if f.value.Data? then f.value.value else f.value.read.value;
        put := CopySource(s, ref, copy, depth, path, src, sources, Source(f.key, false, stack), out);
        return;
      }
      if f.value.Accessor? {
        Differ();
        OpenStays(k, base, s, t, Now(), ref, copy, deep);
        RecordStays(k, t.memo, Seen(), deep, src, sources, out);
        return out;
      }
      var to := RedactedKey(k.texts, f.key);
      if to != f.key {
        Differ();
        OpenStays(k, base, s, t, Now(), ref, copy, deep);
        RecordStays(k, t.memo, Seen(), deep, src, sources, out);
      }
      put := CopySource(s, ref, copy, depth, path, src, sources, Source(to, IsName(k.texts, f.key), f.value.value),
                        out);
    }

    /**
     * Carry over the `name`, `message` and `code` that the original reads through its prototype and the copy cannot.
     */
    method KeepSlotFields(ghost s: State, ref: Ref, ghost copy: Ref, depth: nat, ghost path: seq<Ref>, src: Node,
                          out: Fields)
      returns (put: Fields)
      requires Valid() && Opened(k, base, s, Now(), ref, copy, depth >= MAX_DEPTH) && depth <= MAX_DEPTH && src.Record?
      requires ref in k.originals && k.originals[ref] == src
      requires Way(k, root, path, s.memo.copies, ref) && |path| == depth + 1
      requires RecordCarried(k, Seen(), depth >= MAX_DEPTH, src, FieldSources(k.texts, src.isError, src.fields), out)
      modifies this
      ensures Valid() && Opened(k, base, s, Now(), ref, copy, depth >= MAX_DEPTH)
      ensures copy in old(heap) && copy in heap && heap[copy] == old(heap)[copy] && (old(changed) ==> changed)
      ensures RecordCarried(k, Seen(), depth >= MAX_DEPTH, src, Sources(k.texts, src), put)
      decreases MAX_DEPTH + 1 - depth, 1
    {
      hide Coherent, DeepIsFar, Advances, Opened, WellFormed, Sound, Reason, Way, Leads, RecordCarried, Grows,
        FieldSources;
      Rests(k, base, Now());
      OpenStays(k, base, s, Now(), Now(), ref, copy, depth >= MAX_DEPTH);
      put := out;
      ghost var sources := FieldSources(k.texts, src.isError, src.fields);
      assert sources + SlotSources(src.slots[..0]) == sources;
      for i := 0 to |src.slots|
        invariant Valid() && Opened(k, base, s, Now(), ref, copy, depth >= MAX_DEPTH)
        invariant copy in heap && heap[copy] == old(heap)[copy] && (old(changed) ==> changed)
        invariant RecordCarried(k, Seen(), depth >= MAX_DEPTH, src, sources + SlotSources(src.slots[..i]), put)
      {
        SlotIsThere(k, ref, i);
        SlotIsHeld(src, i);
        ghost var before := sources + SlotSources(src.slots[..i]);
        var source := SlotSource(src.slots[i]);
        assert sources + SlotSources(src.slots[..i + 1]) == before + [source];
        put := CopySource(s, ref, copy, depth, path, src, before, source, put);
      }
      assert src.slots[..|src.slots|] == src.slots;
    }

    /** Define what a value becomes under its key: hidden under a credential's name, left out when it is not data. */
    method CopySource(ghost s: State, ghost ref: Ref, ghost copy: Ref, depth: nat, ghost path: seq<Ref>,
                      ghost src: Node, ghost sources: seq<Source>, source: Source, out: Fields) returns (put: Fields)
      requires Valid() && Opened(k, base, s, Now(), ref, copy, depth >= MAX_DEPTH) && depth <= MAX_DEPTH && src.Record?
      requires source.value.Obj? ==> source.value.ref in k.originals
      requires Way(k, root, path, s.memo.copies, ref) && |path| == depth + 1
      requires ref in k.originals && k.originals[ref] == src && source.value in Values(src)
      requires source.named && !Harmless(source.value) ==> changed || Reason(k, root)
      requires RecordCarried(k, Seen(), depth >= MAX_DEPTH, src, sources, out)
      modifies this
      ensures Valid() && Opened(k, base, s, Now(), ref, copy, depth >= MAX_DEPTH)
      ensures copy in old(heap) && copy in heap && heap[copy] == old(heap)[copy] && (old(changed) ==> changed)
      ensures RecordCarried(k, Seen(), depth >= MAX_DEPTH, src, sources + [source], put)
      decreases MAX_DEPTH + 1 - depth, 0
    {
      hide Coherent, DeepIsFar, Advances, Opened, WellFormed, Sound, Reason, Way, Leads, RecordCarried, Grows, Put;
      ghost var deep := depth >= MAX_DEPTH;
      ghost var t := Now();
      var kept;
      if source.named && !Nullish(source.value) {
        Rests(k, base, Now());
        kept := Some(Str(REDACTED));
        if source.value != Str(REDACTED) {
          Differ();
        }
      } else {
        WayLeads(k, base, s, t, ref, copy, deep, root, path, source.value);
        kept := CopyOf(source.value, depth + 1, path);
      }
      OpenStays(k, base, s, t, Now(), ref, copy, deep);
      RecordStays(k, t.memo, Seen(), deep, src, sources, out);
      RecordGrows(k, Seen(), deep, src, sources, out, source, kept);
      put := if kept.Some? then Put(out, source.to, Data(kept.value)) else out;
    }

    /** Hide what a record holds beside a credential's name. */
    method RedactPairs(ghost s: State, ghost ref: Ref, ghost copy: Ref, depth: nat, ghost path: seq<Ref>, src: Node,
                       out: Fields)
      returns (put: Fields)
      requires Valid() && Opened(k, base, s, Now(), ref, copy, depth >= MAX_DEPTH) && src.Record?
      requires RecordCarried(k, Seen(), depth >= MAX_DEPTH, src, Sources(k.texts, src), out)
      requires Way(k, root, path, s.memo.copies, ref) && ref in k.originals && k.originals[ref] == src
      modifies `changed
      ensures Valid() && Opened(k, base, s, Now(), ref, copy, depth >= MAX_DEPTH)
      ensures copy in old(heap) && copy in heap && heap[copy] == old(heap)[copy] && (old(changed) ==> changed)
      ensures RecordCarried(k, Seen(), depth >= MAX_DEPTH, src, Sources(k.texts, src), put)
      ensures PairsHidden(k.texts, src, put)
    {
      hide Coherent, DeepIsFar, Advances, Opened, WellFormed, Sound, Reason, Way, Leads, RecordCarried, Grows,
        Sources, Names, Lower;
      ghost var deep := depth >= MAX_DEPTH;
      Rests(k, base, Now());
      OpenStays(k, base, s, Now(), Now(), ref, copy, deep);
      put := out;
      var names := Names(k.texts, src.fields);
      if names == {} {
        return;
      }
      var values := set n <- names | EndsInName(n) :: ValueName(n);
      for i := 0 to |out|
        invariant Valid() && Opened(k, base, s, Now(), ref, copy, deep) && (old(changed) ==> changed)
        invariant copy in heap && heap == old(heap) && |put| == |out|
        invariant RecordCarried(k, Seen(), deep, src, Sources(k.texts, src), put)
        invariant forall j :: 0 <= j < i ==> HiddenField(k.texts, src, put[j])
      {
        var (key, held) := (put[i].key, put[i].value);
        HoldsData(k, Seen(), deep, src, Sources(k.texts, src), put, i);
        if key.Symbol? || key.name in names {
        } else if src.isError && Lower(key.name) !in values {
        } else if Harmless(held.value) {
        } else if held.value.Str? || held.value.Obj? {
          ghost var t := Now();
          if !changed {
            UntidyBeside(k, Seen(), deep, src, put, i);
            UntidyObject(k, root, path, s.memo.copies, ref);
          }
          Differ();
          OpenStays(k, base, s, t, Now(), ref, copy, deep);
          RecordStays(k, t.memo, Seen(), deep, src, Sources(k.texts, src), put);
          RecordHides(k, Seen(), deep, src, Sources(k.texts, src), put, i);
          put := put[i := Pair(key, Data(Str(REDACTED)))];
        }
      }
    }
  }

  /** A field that is not beside a credential's name, or is hidden. */
  predicate HiddenField(texts: Texts, src: Node, f: Pair<Key, Prop>)
    requires src.Record?
  {
    f.value.Data? && Beside(texts, src.isError, src.fields, f.key) ==> Harmless(f.value.value) || f.value.value.Scalar?
  }

  lemma HoldsData(k: Subject, m: Memo, deep: bool, src: Node, sources: seq<Source>, out: Fields, i: nat)
    requires src.Record? && i < |out| && RecordCarried(k, m, deep, src, sources, out)
    ensures out[i].value.Data? && !out[i].value.value.Live?
  {
    assert HasSource(k, m, deep, src, sources, out[i]);
  }

  lemma RecordHides(k: Subject, m: Memo, deep: bool, src: Node, sources: seq<Source>, out: Fields, i: nat)
    requires src.Record? && i < |out| && RecordCarried(k, m, deep, src, sources, out) && m.changed
    requires Beside(k.texts, src.isError, src.fields, out[i].key) && out[i].value.Data?
    requires (out[i].value.value.Str? || out[i].value.value.Obj?) && !Harmless(out[i].value.value)
    ensures RecordCarried(k, m, deep, src, sources, out[i := Pair(out[i].key, Data(Str(REDACTED)))])
  {
    var f := Pair(out[i].key, Data(Str(REDACTED)));
    var put := out[i := f];
    assert put[i] == f;
    forall s <- sources | FieldCarried(k, m, deep, src, s, out[i])
      ensures FieldCarried(k, m, deep, src, s, f)
    {
    }
    hide FieldCarried, Beside, Carries;
    forall g <- put
      ensures HasSource(k, m, deep, src, sources, g)
    {
      if g == f {
        assert HasSource(k, m, deep, src, sources, out[i]);
      } else {
        assert g in out;
      }
    }
    forall s <- sources | Alone(sources, s)
      ensures SourceKept(k, m, deep, src, s, put)
    {
      assert SourceKept(k, m, deep, src, s, out);
      if g :| g in out && FieldCarried(k, m, deep, src, s, g) {
        var j :| 0 <= j < |out| && out[j] == g;
        assert put[j] in put;
      }
    }
  }

  lemma OneMoreField(texts: Texts, isError: bool, before: Fields, f: Pair<Key, Prop>)
    ensures FieldSources(texts, isError, before + [f]) ==
            FieldSources(texts, isError, before) +
            match FieldSource(texts, isError, f) case None => [] case Some(s) => [s]
    ensures FieldSource(texts, isError, f).None? ==>
              FieldSources(texts, isError, before + [f]) == FieldSources(texts, isError, before)
  {
    assert (before + [f])[..|before|] == before;
  }

  lemma FieldIsThere(k: Subject, ref: Ref, i: nat)
    requires WellFormed(k.originals) && ref in k.originals && k.originals[ref].Record?
    requires i < |k.originals[ref].fields|
    ensures forall v <- FieldValues([k.originals[ref].fields[i]]) :: v.Obj? ==> v.ref in k.originals
  {
    var f := k.originals[ref].fields[i];
    forall v <- FieldValues([f])
      ensures v.Obj? ==> v.ref in k.originals
    {
      FieldValuesAreFields([f]);
      HeldByField(k.originals[ref].fields, i, v);
      HeldIsThere(k, ref, v);
    }
  }

  lemma {:induction false} HeldByField(fields: Fields, i: nat, v: Value)
    requires i < |fields| && (fields[i].value == Data(v) || fields[i].value == Accessor(Some(v)))
    ensures v in FieldValues(fields)
  {
    if i + 1 < |fields| {
      HeldByField(fields[..|fields| - 1], i, v);
    }
  }

  lemma SlotIsThere(k: Subject, ref: Ref, i: nat)
    requires WellFormed(k.originals) && ref in k.originals && k.originals[ref].Record?
    requires i < |k.originals[ref].slots|
    ensures var v := k.originals[ref].slots[i].value; v.Obj? ==> v.ref in k.originals
  {
    var node := k.originals[ref];
    assert Values(node)[|FieldValues(node.fields)| + i] == node.slots[i].value;
    HeldIsThere(k, ref, node.slots[i].value);
  }

  lemma StartsRecord(k: Subject, m: Memo, deep: bool, src: Node)
    requires src.Record?
    ensures FieldSources(k.texts, src.isError, src.fields[..0]) == []
    ensures RecordCarried(k, m, deep, src, [], [])
  {
  }

  lemma RecordFinished(k: Subject, m: Memo, deep: bool, src: Node, out: Fields)
    requires src.Record? && RecordCarried(k, m, deep, src, Sources(k.texts, src), out) && PairsHidden(k.texts, src, out)
    requires m.changed || forall f <- src.fields :: FieldQuiet(k.texts, src.isError, f)
    ensures Good(k, m, deep, src, Record(src.isError, out, []))
  {
  }

  lemma StartsGroup(k: Subject, m: Memo, deep: bool)
    ensures GroupCarried(k, m, deep, [], [])
  {
  }

  lemma GroupFinished(k: Subject, m: Memo, deep: bool, items: seq<Value>, extra: bool, out: seq<Value>)
    requires GroupCarried(k, m, deep, items, out) && (m.changed || !extra)
    ensures Good(k, m, deep, Group(items, extra), Group(out, false))
  {
  }

  lemma CarriesLater(k: Subject, m: Memo, n: Memo, deep: bool, named: bool, v: Value, w: Option<Value>)
    requires Carries(k, m, deep, named, v, w) && Grows(m, n)
    ensures Carries(k, n, deep, named, v, w)
  {
    CarriesStays(k, m, n, deep, named, v, w);
  }

  lemma EntryIsCarried(k: Subject, m: Memo, deep: bool, e: Pair<Value, Value>, key: Value, value: Value)
    requires Carries(k, m, deep, false, e.key, Some(key))
    requires Carries(k, m, deep, SpellsName(k.texts, e.key), e.value, Some(value))
    ensures EntryCarried(k, m, deep, e, Pair(key, value))
  {
  }

  lemma IsThere(k: Subject, base: Ref, s: State, t: State, ref: Ref, copy: Ref, deep: bool)
    requires Opened(k, base, s, t, ref, copy, deep)
    ensures copy in t.heap
  {
  }

  lemma EntryIsThere(k: Subject, ref: Ref, i: nat)
    requires WellFormed(k.originals) && ref in k.originals && k.originals[ref].Table?
    requires i < |k.originals[ref].entries|
    ensures var e := k.originals[ref].entries[i];
            (e.key.Obj? ==> e.key.ref in k.originals) && (e.value.Obj? ==> e.value.ref in k.originals)
  {
    var (node, n) := (k.originals[ref], |k.originals[ref].entries|);
    assert Values(node)[i] == node.entries[i].key && Values(node)[n + i] == node.entries[i].value;
    HeldIsThere(k, ref, node.entries[i].key);
    HeldIsThere(k, ref, node.entries[i].value);
  }

  lemma StartsTable(k: Subject, m: Memo, deep: bool)
    ensures TableCarried(k, m, deep, [], [])
  {
  }

  lemma TableFinished(k: Subject, m: Memo, deep: bool, entries: Entries, extra: bool, out: Entries)
    requires TableCarried(k, m, deep, entries, out) && (m.changed || !extra)
    ensures Good(k, m, deep, Table(entries, extra), Table(out, false))
  {
  }

  /** In the open copy's way, its object's values are led to. */
  lemma WayLeads(k: Subject, base: Ref, s: State, t: State, ref: Ref, copy: Ref, deep: bool,
                 root: Ref, path: seq<Ref>, v: Value)
    requires Opened(k, base, s, t, ref, copy, deep) && Way(k, root, path, s.memo.copies, ref)
    requires v in Values(k.originals[ref])
    ensures Leads(k, root, path, t.memo.copies, v)
  {
    hide Coherent, DeepIsFar, Finished;
    forall r <- path
      ensures r in t.memo.copies
    {
      if r != ref {
        var i :| 0 <= i < |path| && path[i] == r;
        assert path[..|path| - 1][i] == r;
      }
    }
  }

  lemma UntidyItem(texts: Texts, items: seq<Value>, extra: bool, i: nat)
    requires i < |items| && FollowsName(texts, items, i) && !Harmless(items[i])
    ensures !Tidy(texts, List(items, extra))
  {
  }

  /** A field that copying keeps as it is, its value aside. */
  predicate TidyField(texts: Texts, isError: bool, f: Pair<Key, Prop>) {
    FieldQuiet(texts, isError, f) && (f.value.Data? && IsName(texts, f.key) ==> Harmless(f.value.value))
  }

  lemma UntidyField(texts: Texts, src: Node, f: Pair<Key, Prop>)
    requires src.Record? && f in src.fields && !TidyField(texts, src.isError, f)
    ensures !Tidy(texts, src)
  {
  }

  lemma EntryIsHeld(node: Node, e: Pair<Value, Value>)
    requires node.Table? && e in node.entries
    ensures e.key in Values(node) && e.value in Values(node)
  {
    var i :| 0 <= i < |node.entries| && node.entries[i] == e;
    assert Values(node)[i] == e.key && Values(node)[|node.entries| + i] == e.value;
  }

  lemma FieldIsHeld(src: Node, f: Pair<Key, Prop>)
    requires src.Record? && f in src.fields
    ensures f.value.Data? ==> f.value.value in Values(src)
    ensures f.value.Accessor? && f.value.read.Some? ==> f.value.read.value in Values(src)
  {
    if f.value.Data? {
      HeldByAField(src.fields, f, f.value.value);
    } else if f.value.read.Some? {
      HeldByAField(src.fields, f, f.value.read.value);
    }
  }

  lemma SlotIsHeld(src: Node, i: nat)
    requires src.Record? && i < |src.slots|
    ensures src.slots[i].value in Values(src)
  {
    assert Values(src)[|FieldValues(src.fields)| + i] == src.slots[i].value;
  }

  lemma ItemHidden(k: Subject, m: Memo, deep: bool, items: seq<Value>, i: nat)
    requires i < |items| && FollowsName(k.texts, items, i) && !Nullish(items[i])
    requires m.changed || items[i] == Str(REDACTED)
    ensures ItemCarried(k, m, deep, items, i, Str(REDACTED))
  {
  }

  lemma ItemCopied(k: Subject, m: Memo, deep: bool, items: seq<Value>, i: nat, kept: Option<Value>)
    requires i < |items| && (FollowsName(k.texts, items, i) ==> Nullish(items[i]))
    requires Carries(k, m, deep, false, items[i], kept)
    ensures ItemCarried(k, m, deep, items, i, if kept.Some? then kept.value else Undefined)
  {
  }

  lemma StartsList(k: Subject, m: Memo, deep: bool, items: seq<Value>)
    ensures ListCarried(k, m, deep, items, [])
  {
  }

  lemma ListGrows(k: Subject, m: Memo, deep: bool, items: seq<Value>, out: seq<Value>, w: Value)
    requires ListCarried(k, m, deep, items, out) && |out| < |items| && ItemCarried(k, m, deep, items, |out|, w)
    ensures ListCarried(k, m, deep, items, out + [w])
  {
    hide ItemCarried;
  }

  lemma ListFinished(k: Subject, m: Memo, deep: bool, items: seq<Value>, extra: bool, out: seq<Value>)
    requires ListCarried(k, m, deep, items, out) && |out| == |items| && (m.changed || !extra)
    ensures Good(k, m, deep, List(items, extra), List(out, false))
  {
  }

  // ---------- the whole of it ----------

  /** What the result of scrubbing promises of every object in reach of it. */
  ghost predicate Scrubbed(texts: Texts, heap: map<Ref, Node>, root: Ref) {
    forall path :: IsPath(heap, root, path) ==> Safe(texts, heap[path[|path| - 1]])
  }

  /** Every record in reach of the root has what is beside a credential's name hidden. */
  ghost predicate NamesTellNothing(texts: Texts, heap: map<Ref, Node>, root: Ref) {
    forall path :: IsPath(heap, root, path) && heap[path[|path| - 1]].Record? ==>
      PairsHidden(texts, heap[path[|path| - 1]], heap[path[|path| - 1]].fields)
  }

  /** No object in reach of the root is one of `live`. */
  ghost predicate SharesNothing(heap: map<Ref, Node>, root: Ref, live: map<Ref, Node>) {
    forall path :: IsPath(heap, root, path) ==> path[|path| - 1] !in live
  }

  /** Every copy is a good one of its original. */
  ghost predicate AllGood(k: Subject, root: Ref, m: Memo, heap: map<Ref, Node>) {
    forall r <- m.copies ::
      && r in k.originals && m.copies[r] in heap
      && exists deep :: Good(k, m, deep, k.originals[r], heap[m.copies[r]]) && (deep ==> IsFar(k, root, r))
  }

  lemma AllAreGood(k: Subject, base: Ref, root: Ref, s: State, t: State)
    requires DeepIsFar(k, root, t.sources, t.deep)
    requires Coherent(k, base, s) && Coherent(k, base, t) && Advances(k, s, t, None) && s.next == base
    ensures AllGood(k, root, t.memo, t.heap)
  {
    hide Good, IsFar;
    forall r <- t.memo.copies
      ensures r in k.originals && t.memo.copies[r] in t.heap
      ensures exists deep ::
                Good(k, t.memo, deep, k.originals[r], t.heap[t.memo.copies[r]]) && (deep ==> IsFar(k, root, r))
    {
      var c := t.memo.copies[r];
      assert Finished(k, t, c);
      assert Good(k, t.memo, t.deep[c], k.originals[r], t.heap[c]);
    }
  }

  /** The copies refer only to copies, and each is safe: so is all that is in reach of one. */
  lemma CopiesAreScrubbed(k: Subject, base: Ref, root: Ref, t: State, r: Ref)
    requires Sound(k.texts) && WellFormed(k.originals) && Coherent(k, base, t) && AllGood(k, root, t.memo, t.heap)
    requires r in t.memo.copies
    ensures Scrubbed(k.texts, t.heap, t.memo.copies[r]) && SharesNothing(t.heap, t.memo.copies[r], k.originals)
  {
    var made := t.memo.copies.Values;
    forall c <- made
      ensures c in t.heap && c !in k.originals && Safe(k.texts, t.heap[c])
      ensures forall d :: RefersTo(t.heap[c], d) ==> d in made
    {
      var o :| o in t.memo.copies && t.memo.copies[o] == c;
      var deep :| Good(k, t.memo, deep, k.originals[o], t.heap[c]);
      GoodIsSafe(k, t.memo, deep, k.originals[o], t.heap[c]);
    }
    hide Coherent, DeepIsFar, AllGood, Safe, WellFormed;
    forall path | IsPath(t.heap, t.memo.copies[r], path)
      ensures path[|path| - 1] in made
    {
      PathStaysInside(t.heap, t.memo.copies[r], path, made);
    }
  }

  /** Where nothing changed, every object that was copied was safe, and refers only to such. */
  lemma OriginalsWereScrubbed(k: Subject, base: Ref, root: Ref, t: State, r: Ref)
    requires Sound(k.texts) && WellFormed(k.originals) && Coherent(k, base, t) && AllGood(k, root, t.memo, t.heap)
    requires r in t.memo.copies && !t.memo.changed
    ensures Scrubbed(k.texts, t.heap, r) && NamesTellNothing(k.texts, t.heap, r)
  {
    var seen := t.memo.copies.Keys;
    forall o <- seen
      ensures o in t.heap && Safe(k.texts, t.heap[o]) && forall d :: RefersTo(t.heap[o], d) ==> d in seen
      ensures t.heap[o].Record? ==> PairsHidden(k.texts, t.heap[o], t.heap[o].fields)
    {
      var deep :| Good(k, t.memo, deep, k.originals[o], t.heap[t.memo.copies[o]]);
      QuietIsSafe(k, t.memo, deep, k.originals[o], t.heap[t.memo.copies[o]]);
    }
    hide Coherent, DeepIsFar, AllGood, Safe, WellFormed, PairsHidden;
    forall path | IsPath(t.heap, r, path)
      ensures path[|path| - 1] in seen
    {
      PathStaysInside(t.heap, r, path, seen);
    }
  }

  /**
   * What scrubbing promises of an error that is an object to copy: the result is the error itself, or its copy, in
   * reach of which is none of the live objects; all in reach of the result shows no credential and holds no
   * transport; and each copy is a faithful one of its original.
   */
  ghost predicate Scrubs(k: Subject, err: Ref, result: Value, after: map<Ref, Node>, copies: map<Ref, Ref>) {
    && result.Obj? && Scrubbed(k.texts, after, result.ref)
    && err in copies && (result == Obj(err) || result == Obj(copies[err]))
    && (if result == Obj(err) then NamesTellNothing(k.texts, after, err)
        else SharesNothing(after, result.ref, k.originals))
    && AllGood(k, err, Memo(copies, result != Obj(err)), after)
  }

  /** The result is the error itself, or its copy; either way each object in reach of it stands for an original. */
  ghost predicate StandsFor(result: Value, err: Ref, copies: map<Ref, Ref>, original: Ref, shown: Ref) {
    if result == Obj(err) then shown == original else original in copies && copies[original] == shown
  }

  /**
   * What is in reach of the result, outright: no object shows a credential; and a record tells nothing beside a
   * credential's name that its original holds.
   */
  ghost predicate TellsNoSecret(k: Subject, err: Ref, result: Value, after: map<Ref, Node>, copies: map<Ref, Ref>)
    requires result.Obj?
  {
    forall path :: IsPath(after, result.ref, path) ==>
      var shown := path[|path| - 1];
      && ShowsNoCredential(k.texts, after[shown])
      && (after[shown].Record? ==> IsPaired(k, err, result, after, copies, shown))
  }

  ghost predicate IsPaired(k: Subject, err: Ref, result: Value, after: map<Ref, Node>, copies: map<Ref, Ref>,
                           shown: Ref)
    requires shown in after && after[shown].Record?
  {
    exists o <- k.originals ::
      && StandsFor(result, err, copies, o, shown) && k.originals[o].Record?
      && NamesTell(k.texts, k.originals[o], after[shown].fields)
  }

  lemma ScrubsTellsNoSecret(k: Subject, err: Ref, result: Value, after: map<Ref, Node>, copies: map<Ref, Ref>)
    requires Sound(k.texts) && Scrubs(k, err, result, after, copies) && err in k.originals
    requires forall r <- k.originals :: r in after && after[r] == k.originals[r]
    requires WellFormed(k.originals)
    ensures TellsNoSecret(k, err, result, after, copies)
  {
    hide Safe, ShowsNoCredential, PairsHidden, NamesTell, AllGood, SharesNothing, WellFormed, Sound, IsPaired;
    forall path | IsPath(after, result.ref, path)
      ensures var shown := path[|path| - 1];
              && ShowsNoCredential(k.texts, after[shown])
              && (after[shown].Record? ==> IsPaired(k, err, result, after, copies, shown))
    {
      var shown := path[|path| - 1];
      SafeShows(k.texts, after[shown]);
      if after[shown].Record? {
        if result == Obj(err) {
          ReachStaysLive(k.originals, after, err, path);
          LiveIsPaired(k, err, after, copies, shown);
        } else {
          CopyIsPaired(k, err, result, after, copies, path);
        }
      }
    }
  }

  lemma LiveIsPaired(k: Subject, err: Ref, after: map<Ref, Node>, copies: map<Ref, Ref>, shown: Ref)
    requires shown in k.originals && shown in after && after[shown] == k.originals[shown] && after[shown].Record?
    requires PairsHidden(k.texts, after[shown], after[shown].fields)
    ensures IsPaired(k, err, Obj(err), after, copies, shown)
  {
    hide PairsHidden, NamesTell;
    HiddenTellsNothing(k.texts, after[shown], after[shown].fields);
  }

  /** From a live object only live ones are in reach. */
  lemma ReachStaysLive(live: map<Ref, Node>, after: map<Ref, Node>, err: Ref, path: seq<Ref>)
    requires WellFormed(live) && err in live && IsPath(after, err, path)
    requires forall r <- live :: r in after && after[r] == live[r]
    ensures path[|path| - 1] in live
  {
    hide RefersTo;
    PathStaysInside(after, err, path, live.Keys);
  }

  /** From a copy only copies are in reach, and each is of a record when it is one. */
  lemma CopyIsPaired(k: Subject, err: Ref, result: Value, after: map<Ref, Node>, copies: map<Ref, Ref>, path: seq<Ref>)
    requires Sound(k.texts) && WellFormed(k.originals)
    requires Scrubs(k, err, result, after, copies) && result != Obj(err)
    requires IsPath(after, result.ref, path) && after[path[|path| - 1]].Record?
    ensures IsPaired(k, err, result, after, copies, path[|path| - 1])
  {
    hide Scrubbed, SharesNothing, NamesTellNothing, Good, IsPaired, PairsHidden, KeysAreDistinct, Safe;
    var (m, made) := (Memo(copies, true), copies.Values);
    forall c, d | c in made && c in after && RefersTo(after[c], d)
      ensures d in made
    {
      var o :| o in copies && copies[o] == c;
      var deep :| Good(k, m, deep, k.originals[o], after[c]);
      GoodIsSafe(k, m, deep, k.originals[o], after[c]);
    }
    PathStaysInside(after, result.ref, path, made);
    var shown := path[|path| - 1];
    var o :| o in copies && copies[o] == shown;
    var deep :| Good(k, m, deep, k.originals[o], after[shown]);
    GoodIsPaired(k, m, deep, err, result, after, copies, o);
  }

  lemma GoodIsPaired(k: Subject, m: Memo, deep: bool, err: Ref, result: Value, after: map<Ref, Node>,
                     copies: map<Ref, Ref>, o: Ref)
    requires o in copies && o in k.originals && copies[o] in after && after[copies[o]].Record? && result != Obj(err)
    requires Good(k, m, deep, k.originals[o], after[copies[o]])
    ensures IsPaired(k, err, result, after, copies, copies[o])
  {
    hide RecordCarried, ListCarried, TableCarried, GroupCarried, PairsHidden, NamesTell;
    HiddenTellsNothing(k.texts, k.originals[o], after[copies[o]].fields);
  }

  lemma Concludes(k: Subject, base: Ref, s: State, t: State, err: Ref, copy: Option<Value>)
    requires Sound(k.texts) && WellFormed(k.originals) && err in k.originals && !k.originals[err].Instance?
    requires Coherent(k, base, s) && Coherent(k, base, t) && Advances(k, s, t, None) && s.next == base
    requires Carries(k, t.memo, false, false, Obj(err), copy) && DeepIsFar(k, err, t.sources, t.deep)
    ensures copy.Some? && Scrubs(k, err, if t.memo.changed then copy.value else Obj(err), t.heap, t.memo.copies)
  {
    hide Coherent, DeepIsFar, Advances, AllGood, Scrubbed, NamesTellNothing, SharesNothing, Carries, WellFormed, Sound;
    RootIsCopied(k, t.memo, err, copy);
    CopyIsNew(k, base, t);
    AllAreGood(k, base, err, s, t);
    CopiesAreScrubbed(k, base, err, t, err);
    if !t.memo.changed {
      OriginalsWereScrubbed(k, base, err, t, err);
    }
    assert t.memo == Memo(t.memo.copies, t.memo.changed);
  }

  lemma RootIsCopied(k: Subject, m: Memo, err: Ref, copy: Option<Value>)
    requires err in k.originals && !k.originals[err].Instance? && Carries(k, m, false, false, Obj(err), copy)
    ensures err in m.copies && copy == Some(Obj(m.copies[err]))
  {
  }

  lemma CopyIsNew(k: Subject, base: Ref, t: State)
    requires Coherent(k, base, t)
    ensures forall r <- t.memo.copies :: t.memo.copies[r] !in k.originals
  {
  }

  /**
   * `scrubCredentials`: no live object is changed, whatever the value; a value that is no object to copy, a primitive
   * or a class instance, is returned as it is; and so is an error, unless there is a reason to copy it.
   */
  method ScrubCredentials(texts: Texts, heap: map<Ref, Node>, base: Ref, err: Value)
    returns (result: Value, after: map<Ref, Node>, copies: map<Ref, Ref>)
    requires Sound(texts) && WellFormed(heap) && (forall r <- heap :: r < base)
    requires err.Obj? ==> err.ref in heap
    ensures forall r <- heap :: r in after && after[r] == heap[r]
    ensures !err.Obj? || heap[err.ref].Instance? ==> result == err
    ensures err.Obj? && !heap[err.ref].Instance? ==> Scrubs(Subject(texts, heap), err.ref, result, after, copies)
    ensures err.Obj? && !heap[err.ref].Instance? ==>
              result.Obj? && TellsNoSecret(Subject(texts, heap), err.ref, result, after, copies)
    ensures result != err ==> err.Obj? && Reason(Subject(texts, heap), err.ref)
  {
    hide Coherent, DeepIsFar, Advances, Scrubs, WellFormed, Sound, Good, Reason, TellsNoSecret;
    if !err.Obj? {
      return err, heap, map[];
    }
    var ctx := new Copying(texts, heap, base, err.ref);
    ghost var s := ctx.Now();
    var copy := ctx.CopyOf(err, 0, []);
    Rests(ctx.k, base, ctx.Now());
    if !heap[err.ref].Instance? {
      Concludes(ctx.k, base, s, ctx.Now(), err.ref, copy);
    } else {
      InstanceIsNone(ctx.k, base, s, ctx.Now(), err.ref, copy);
    }
    result := if ctx.changed && copy.Some? then copy.value else err;
    after, copies := ctx.heap, ctx.copies;
    if !heap[err.ref].Instance? {
      ScrubsTellsNoSecret(Subject(texts, heap), err.ref, result, after, copies);
    }
  }

  /** An instance is never in the table of copies. */
  lemma InstanceIsNone(k: Subject, base: Ref, s: State, t: State, err: Ref, copy: Option<Value>)
    requires err in k.originals && k.originals[err].Instance?
    requires Coherent(k, base, s) && Coherent(k, base, t) && Advances(k, s, t, None) && s.next == base
    requires Carries(k, t.memo, false, false, Obj(err), copy) && DeepIsFar(k, err, t.sources, t.deep)
    ensures copy.None?
  {
    hide Coherent, DeepIsFar, Advances;
    AllAreGood(k, base, err, s, t);
  }
}
