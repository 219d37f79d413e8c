/**
 * What a scrubbed error still tells: a copy holds all that its original held and that is no credential, each text as
 * redaction leaves it, so that an error can still be classified by it.
 */
module Keeps {

  import opened Bytes
  import opened Copies
  import opened Heap
  import opened Reasons
  import opened Scrub
  import opened Text

  /** What becomes of a value that is not hidden. Only a function, and an object that is not copied, is dropped. */
  predicate Kept(texts: Texts, copies: map<Ref, Ref>, v: Value, w: Value) {
    match v
    case Str(text) => w == Str(texts.redact(text))
    case Scalar(n) => w == Scalar(n)
    case Null => w == Null
    case Undefined => w == Undefined
    case Live => w == Undefined
    case Obj(r) => if r in copies then w == Obj(copies[r]) || w == Undefined else w == Undefined
  }

  /** A field that is carried over as it is: no transport, its name no credential's and as redaction leaves it. */
  predicate IsOrdinary(texts: Texts, original: Node, f: Pair<Key, Prop>)
    requires original.Record?
  {
    && f in original.fields && f.value.Data?
    && f.key !in {Name("$response"), Name("$responseBodyText"), Name("socket"), Name("_httpMessage"), Name("req"),
                  Name("request"), Name("connection"), Name("agent"), Name("stack")}
    && (f.key.Name? ==> !texts.isName(f.key.name) && texts.redact(f.key.name) == f.key.name)
    && forall g <- original.fields :: g.key.Name? && f.key.Name? && g != f ==> texts.redact(g.key.name) != f.key.name
  }

  /**
   * The copy of a list keeps the place of every item, and the copies of maps, sets and records every entry, member and
   * field that is no credential.
   */
  ghost predicate KeepsTheRest(texts: Texts, copies: map<Ref, Ref>, original: Node, copy: Node) {
    match original
    case List(items, _) =>
      && copy.List? && |copy.items| == |items|
      && forall i :: 0 <= i < |items| && !(i > 0 && items[i - 1].Str? && texts.isName(items[i - 1].text)) ==>
           Kept(texts, copies, items[i], copy.items[i])
    case Record(isError, fields, _) =>
      && copy.Record? && copy.isError == isError
      && (forall f <- fields :: IsNoSecret(texts, original, f) ==> IsThere(texts, copies, f, copy.fields))
      && SlotsAreKept(texts, copies, original, copy.fields)
    case Table(entries, _) =>
      copy.Table? && forall e <- entries :: IsNoSecretEntry(texts, entries, e) ==> EntryIsThere(texts, e, copy.entries)
    case Group(items, _) =>
      copy.Group? && forall v <- items :: MemberIsThere(texts, v, copy.items)
    case Instance => false
  }

  /** A number or a text under a text that is no credential's name, and that no other is redacted to. */
  predicate IsNoSecretEntry(texts: Texts, entries: seq<Pair<Value, Value>>, e: Pair<Value, Value>) {
    && e.key.Str? && !texts.isName(e.key.text) && (e.value.Str? || e.value.Scalar?)
    && forall f <- entries :: f.key.Str? && f != e ==> texts.redact(f.key.text) != texts.redact(e.key.text)
  }

  predicate EntryIsThere(texts: Texts, e: Pair<Value, Value>, shown: seq<Pair<Value, Value>>)
    requires e.key.Str?
  {
    Pair(Str(texts.redact(e.key.text)), if e.value.Str? then Str(texts.redact(e.value.text)) else e.value) in shown
  }

  predicate MemberIsThere(texts: Texts, v: Value, shown: seq<Value>) {
    (v.Str? ==> Str(texts.redact(v.text)) in shown) && (v.Scalar? ==> v in shown)
  }

  /** An ordinary field that is a number, or a text beside no credential's name. */
  ghost predicate IsNoSecret(texts: Texts, original: Node, f: Pair<Key, Prop>)
    requires original.Record?
  {
    && IsOrdinary(texts, original, f)
    && (f.value.value.Scalar? || (f.value.value.Str? && IsBesideNone(texts, original, f)))
  }

  /** What is read through the prototype, a number or a text, where no name and no key stands in its way. */
  ghost predicate IsNoSecretSlot(texts: Texts, original: Node, s: Pair<Key, Value>)
    requires original.Record?
  {
    && s in original.slots && s.key.Name?
    && (forall g <- original.fields :: g.key.Name? ==> texts.redact(g.key.name) != s.key.name)
    && (s.value.Scalar? || (s.value.Str? && IsBesideNone(texts, original, Pair(s.key, Data(s.value)))))
  }

  ghost predicate SlotsAreKept(texts: Texts, copies: map<Ref, Ref>, original: Node, shown: Fields)
    requires original.Record?
  {
    forall s <- original.slots :: IsNoSecretSlot(texts, original, s) ==>
      IsThere(texts, copies, Pair(s.key, Data(s.value)), shown)
  }

  predicate IsThere(texts: Texts, copies: map<Ref, Ref>, f: Pair<Key, Prop>, shown: Fields) {
    exists g <- shown ::
      g.key == f.key && f.value.Data? && g.value.Data? && Kept(texts, copies, f.value.value, g.value.value)
  }

  /** No field holds a credential's name beside this one; on an error, no partner of it does. */
  ghost predicate IsBesideNone(texts: Texts, original: Node, f: Pair<Key, Prop>)
    requires original.Record?
  {
    forall n <- original.fields :: HoldsName(texts, n) && f.key.Name? ==>
      n.key == f.key || (original.isError && !Partners(n.key.name, f.key.name))
  }

  lemma NotBeside(texts: Texts, original: Node, f: Pair<Key, Prop>)
    requires original.Record? && IsBesideNone(texts, original, f)
    ensures !Beside(texts, original.isError, original.fields, f.key)
  {
    BesideExactly(texts, original.isError, original.fields, f.key);
    hide Partners;
  }

  lemma OrdinarySource(texts: Texts, original: Node, f: Pair<Key, Prop>)
    requires original.Record? && KeysAreDistinct(original) && IsOrdinary(texts, original, f)
    ensures Source(f.key, false, f.value.value) in Sources(texts, original)
    ensures Alone(Sources(texts, original), Source(f.key, false, f.value.value))
  {
    var s := Source(f.key, false, f.value.value);
    FieldSourcesAreFields(texts, original.isError, original.fields);
    assert FieldSource(texts, original.isError, f) == Some(s);
    forall o <- Sources(texts, original)
      ensures o.to == s.to ==> o == s
    {
      if o in FieldSources(texts, original.isError, original.fields) {
        var g :| g in original.fields && FieldSource(texts, original.isError, g) == Some(o);
        OnlyItself(texts, original, f, g, o);
      } else {
        SlotsAreApart(original, f, o);
      }
    }
  }

  lemma SlotsAreApart(original: Node, f: Pair<Key, Prop>, o: Source)
    requires original.Record? && KeysAreDistinct(original) && f in original.fields && o in SlotSources(original.slots)
    ensures o.to != f.key
  {
    var i :| 0 <= i < |original.slots| && SlotSources(original.slots)[i] == o;
    assert original.slots[i] in original.slots;
  }

  lemma OnlyItself(texts: Texts, original: Node, f: Pair<Key, Prop>, g: Pair<Key, Prop>, o: Source)
    requires original.Record? && KeysAreDistinct(original) && IsOrdinary(texts, original, f)
    requires g in original.fields && FieldSource(texts, original.isError, g) == Some(o)
    ensures g != f ==> o.to != f.key
    ensures g == f ==> o == Source(f.key, false, f.value.value)
  {
    var i :| 0 <= i < |original.fields| && original.fields[i] == g;
    var j :| 0 <= j < |original.fields| && original.fields[j] == f;
    assert i != j ==> g.key != f.key;
  }

  lemma FieldIsKept(k: Subject, m: Memo, deep: bool, original: Node, out: Fields, f: Pair<Key, Prop>)
    requires original.Record? && KeysAreDistinct(original) && IsNoSecret(k.texts, original, f)
    requires RecordCarried(k, m, deep, original, Sources(k.texts, original), out)
    requires PairsHidden(k.texts, original, out)
    ensures IsThere(k.texts, m.copies, f, out)
  {
    var s := Source(f.key, false, f.value.value);
    OrdinarySource(k.texts, original, f);
    assert SourceKept(k, m, deep, original, s, out);
    if f.value.value.Str? {
      NotBeside(k.texts, original, f);
    }
    hide Sources, Alone, PairsHidden, Beside, IsBesideNone, IsOrdinary;
    var g :| g in out && FieldCarried(k, m, deep, original, s, g);
  }

  lemma SlotSourceIsAlone(texts: Texts, original: Node, s: Pair<Key, Value>)
    requires original.Record? && KeysAreDistinct(original) && IsNoSecretSlot(texts, original, s)
    ensures SlotSource(s) in Sources(texts, original) && Alone(Sources(texts, original), SlotSource(s))
  {
    FieldSourcesAreFields(texts, original.isError, original.fields);
    var n :| 0 <= n < |original.slots| && original.slots[n] == s;
    assert SlotSources(original.slots)[n] == SlotSource(s);
    forall o <- Sources(texts, original)
      ensures o.to == s.key ==> o == SlotSource(s)
    {
      if o in FieldSources(texts, original.isError, original.fields) {
        var g :| g in original.fields && FieldSource(texts, original.isError, g) == Some(o);
        FieldIsApart(texts, original, s, g, o);
      } else {
        var i :| 0 <= i < |original.slots| && SlotSources(original.slots)[i] == o;
        assert o == SlotSource(original.slots[i]) && (i != n ==> original.slots[i].key != s.key);
      }
    }
  }

  lemma FieldIsApart(texts: Texts, original: Node, s: Pair<Key, Value>, g: Pair<Key, Prop>, o: Source)
    requires original.Record? && KeysAreDistinct(original) && IsNoSecretSlot(texts, original, s)
    requires g in original.fields && FieldSource(texts, original.isError, g) == Some(o)
    ensures o.to != s.key
  {
    assert s.key.name in SLOTS && g.key != s.key;
  }

  lemma SlotIsKept(k: Subject, m: Memo, deep: bool, original: Node, out: Fields, slot: Pair<Key, Value>)
    requires original.Record? && KeysAreDistinct(original) && IsNoSecretSlot(k.texts, original, slot)
    requires RecordCarried(k, m, deep, original, Sources(k.texts, original), out)
    ensures IsThere(k.texts, m.copies, Pair(slot.key, Data(slot.value)), out)
  {
    var s := SlotSource(slot);
    SlotSourceIsAlone(k.texts, original, slot);
    assert SourceKept(k, m, deep, original, s, out);
    if slot.value.Str? {
      NotBeside(k.texts, original, Pair(slot.key, Data(slot.value)));
    }
    hide Sources, Alone, Beside, IsBesideNone, IsNoSecretSlot;
    var g :| g in out && FieldCarried(k, m, deep, original, s, g);
  }

  lemma ListKeeps(k: Subject, m: Memo, deep: bool, items: seq<Value>, out: seq<Value>, i: nat)
    requires ListCarried(k, m, deep, items, out) && |out| == |items| && i < |items|
    requires !(i > 0 && items[i - 1].Str? && k.texts.isName(items[i - 1].text))
    ensures Kept(k.texts, m.copies, items[i], out[i])
  {
    assert ItemCarried(k, m, deep, items, i, out[i]);
  }

  lemma SlotsKept(k: Subject, m: Memo, deep: bool, original: Node, out: Fields)
    requires original.Record? && KeysAreDistinct(original)
    requires RecordCarried(k, m, deep, original, Sources(k.texts, original), out)
    ensures SlotsAreKept(k.texts, m.copies, original, out)
  {
    hide IsNoSecretSlot, IsThere, RecordCarried, KeysAreDistinct, Sources;
    forall s <- original.slots | IsNoSecretSlot(k.texts, original, s)
      ensures IsThere(k.texts, m.copies, Pair(s.key, Data(s.value)), out)
    {
      SlotIsKept(k, m, deep, original, out, s);
    }
  }

  lemma EntryStays(k: Subject, m: Memo, deep: bool, entries: Entries, out: Entries, e: Pair<Value, Value>)
    requires TableCarried(k, m, deep, entries, out) && e in entries && IsNoSecretEntry(k.texts, entries, e)
    ensures EntryIsThere(k.texts, e, out)
  {
    assert StaysApart(k, entries, e) && EntryKept(k, m, deep, e, out);
    var o :| o in out && EntryCarried(k, m, deep, e, o);
  }

  lemma MemberStays(k: Subject, m: Memo, deep: bool, items: seq<Value>, out: seq<Value>, v: Value)
    requires GroupCarried(k, m, deep, items, out) && v in items
    ensures MemberIsThere(k.texts, v, out)
  {
    assert MemberKept(k, m, deep, v, out);
  }

  lemma GoodKeeps(k: Subject, m: Memo, deep: bool, original: Node, copy: Node)
    requires KeysAreDistinct(original) && Good(k, m, deep, original, copy)
    ensures KeepsTheRest(k.texts, m.copies, original, copy)
  {
    hide KeysAreDistinct, RecordCarried, ListCarried, TableCarried, GroupCarried, PairsHidden, IsNoSecret,
      SlotsAreKept, IsThere, Kept, Sources, MemberIsThere;
    match original
    case List(items, _) =>
      forall i | 0 <= i < |items| && !(i > 0 && items[i - 1].Str? && k.texts.isName(items[i - 1].text))
        ensures Kept(k.texts, m.copies, items[i], copy.items[i])
      {
        ListKeeps(k, m, deep, items, copy.items, i);
      }
    case Record(isError, fields, _) =>
      forall f <- fields | IsNoSecret(k.texts, original, f)
        ensures IsThere(k.texts, m.copies, f, copy.fields)
      {
        FieldIsKept(k, m, deep, original, copy.fields, f);
      }
      SlotsKept(k, m, deep, original, copy.fields);
    case Table(entries, _) =>
      forall e <- entries | IsNoSecretEntry(k.texts, entries, e)
        ensures EntryIsThere(k.texts, e, copy.entries)
      {
        EntryStays(k, m, deep, entries, copy.entries, e);
      }
    case Group(items, _) =>
      forall v <- items
        ensures MemberIsThere(k.texts, v, copy.items)
      {
        MemberStays(k, m, deep, items, copy.items, v);
      }
    case _ =>
  }

  /** Every copy `scrubCredentials` makes keeps what is no credential of its original. */
  lemma CopiesKeepTheRest(k: Subject, err: Ref, result: Value, after: map<Ref, Node>, copies: map<Ref, Ref>, o: Ref)
    requires Scrubs(k, err, result, after, copies) && WellFormed(k.originals) && o in copies
    ensures o in k.originals && copies[o] in after && KeepsTheRest(k.texts, copies, k.originals[o], after[copies[o]])
  {
    hide Scrubbed, SharesNothing, NamesTellNothing, Good, KeepsTheRest, KeysAreDistinct;
    var m := Memo(copies, result != Obj(err));
    var deep :| Good(k, m, deep, k.originals[o], after[copies[o]]);
    GoodKeeps(k, m, deep, k.originals[o], after[copies[o]]);
  }

  // ---------- the objects an object holds ----------

  /** The value is an object that can be copied. */
  predicate IsCopyable(k: Subject, v: Value) {
    v.Obj? && !(v.ref in k.originals && k.originals[v.ref].Instance?)
  }

  predicate IsCopied(copies: map<Ref, Ref>, v: Value, w: Value)
    requires v.Obj?
  {
    v.ref in copies && w == Obj(copies[v.ref])
  }

  predicate HoldsCopyOf(copies: map<Ref, Ref>, f: Pair<Key, Prop>, shown: Fields) {
    exists g <- shown ::
      && g.key == f.key && f.value.Data? && g.value.Data? && f.value.value.Obj?
      && IsCopied(copies, f.value.value, g.value.value)
  }

  predicate MemberIsCopied(copies: map<Ref, Ref>, v: Value, shown: seq<Value>)
    requires v.Obj?
  {
    v.ref in copies && Obj(copies[v.ref]) in shown
  }

  /** Every object a list, a set or an ordinary field holds is held by the copy as its copy. */
  ghost predicate KeepsObjects(k: Subject, copies: map<Ref, Ref>, original: Node, copy: Node) {
    match original
    case List(items, _) => copy.List? && |copy.items| == |items| && ItemsAreCopied(k, copies, items, copy.items)
    case Group(items, _) => copy.Group? && MembersAreCopied(k, copies, items, copy.items)
    case Record(_, _, _) => copy.Record? && FieldsAreCopied(k, copies, original, copy.fields)
    case _ => true
  }

  predicate ItemsAreCopied(k: Subject, copies: map<Ref, Ref>, items: seq<Value>, out: seq<Value>)
    requires |out| == |items|
  {
    forall i :: 0 <= i < |items| && IsCopyable(k, items[i])
                && !(i > 0 && items[i - 1].Str? && k.texts.isName(items[i - 1].text)) ==>
      IsCopied(copies, items[i], out[i])
  }

  predicate MembersAreCopied(k: Subject, copies: map<Ref, Ref>, items: seq<Value>, out: seq<Value>) {
    forall v <- items :: IsCopyable(k, v) ==> MemberIsCopied(copies, v, out)
  }

  ghost predicate FieldsAreCopied(k: Subject, copies: map<Ref, Ref>, original: Node, out: Fields)
    requires original.Record?
  {
    forall f <- original.fields :: IsPlainObject(k, original, f) ==> HoldsCopyOf(copies, f, out)
  }

  ghost predicate IsPlainObject(k: Subject, original: Node, f: Pair<Key, Prop>)
    requires original.Record?
  {
    IsOrdinary(k.texts, original, f) && IsCopyable(k, f.value.value) && IsBesideNone(k.texts, original, f)
  }

  lemma ItemsCopied(k: Subject, m: Memo, items: seq<Value>, out: seq<Value>)
    requires ListCarried(k, m, false, items, out) && |out| == |items|
    ensures ItemsAreCopied(k, m.copies, items, out)
  {
    forall i | 0 <= i < |items| && IsCopyable(k, items[i])
               && !(i > 0 && items[i - 1].Str? && k.texts.isName(items[i - 1].text))
      ensures IsCopied(m.copies, items[i], out[i])
    {
      assert ItemCarried(k, m, false, items, i, out[i]);
    }
  }

  lemma MembersCopied(k: Subject, m: Memo, items: seq<Value>, out: seq<Value>)
    requires GroupCarried(k, m, false, items, out)
    ensures MembersAreCopied(k, m.copies, items, out)
  {
    forall v <- items | IsCopyable(k, v)
      ensures MemberIsCopied(m.copies, v, out)
    {
      assert MemberKept(k, m, false, v, out);
    }
  }

  lemma FieldsCopied(k: Subject, m: Memo, original: Node, out: Fields)
    requires original.Record? && KeysAreDistinct(original)
    requires RecordCarried(k, m, false, original, Sources(k.texts, original), out)
    ensures FieldsAreCopied(k, m.copies, original, out)
  {
    hide KeysAreDistinct, RecordCarried, IsPlainObject, HoldsCopyOf, Sources;
    forall f <- original.fields | IsPlainObject(k, original, f)
      ensures HoldsCopyOf(m.copies, f, out)
    {
      FieldIsCopied(k, m, original, out, f);
    }
  }

  lemma FieldIsCopied(k: Subject, m: Memo, original: Node, out: Fields, f: Pair<Key, Prop>)
    requires original.Record? && KeysAreDistinct(original) && IsPlainObject(k, original, f)
    requires RecordCarried(k, m, false, original, Sources(k.texts, original), out)
    ensures HoldsCopyOf(m.copies, f, out)
  {
    var s := Source(f.key, false, f.value.value);
    OrdinarySource(k.texts, original, f);
    NotBeside(k.texts, original, f);
    assert SourceKept(k, m, false, original, s, out);
    hide Sources, Alone, Beside, IsBesideNone, IsOrdinary;
    var g :| g in out && FieldCarried(k, m, false, original, s, g);
  }

  lemma GoodKeepsObjects(k: Subject, m: Memo, original: Node, copy: Node)
    requires KeysAreDistinct(original) && Good(k, m, false, original, copy)
    ensures KeepsObjects(k, m.copies, original, copy)
  {
    hide KeysAreDistinct, RecordCarried, ListCarried, TableCarried, GroupCarried, PairsHidden, ItemsAreCopied,
      MembersAreCopied, FieldsAreCopied, Sources;
    match original
    case List(items, _) => ItemsCopied(k, m, items, copy.items);
    case Group(items, _) => MembersCopied(k, m, items, copy.items);
    case Record(_, _, _) => FieldsCopied(k, m, original, copy.fields);
    case _ =>
  }

  /** An object to which no way is eleven objects long keeps every object it holds, but instances and what is hidden. */
  lemma CopiesKeepObjects(k: Subject, err: Ref, result: Value, after: map<Ref, Node>, copies: map<Ref, Ref>, o: Ref)
    requires Scrubs(k, err, result, after, copies) && WellFormed(k.originals) && o in copies
    requires forall path :: IsPath(k.originals, err, path) && path[|path| - 1] == o && Distinct(path) ==> |path| != 11
    ensures o in k.originals && copies[o] in after && KeepsObjects(k, copies, k.originals[o], after[copies[o]])
  {
    hide Scrubbed, SharesNothing, NamesTellNothing, Good, KeepsObjects, KeysAreDistinct;
    var m := Memo(copies, result != Obj(err));
    var deep :| Good(k, m, deep, k.originals[o], after[copies[o]]) && (deep ==> IsFar(k, err, o));
    GoodKeepsObjects(k, m, k.originals[o], after[copies[o]]);
  }

  // ---------- an error that is returned as it is ----------

  /** A value that may be shown as it stands. */
  predicate IsFit(texts: Texts, v: Value) {
    !v.Live? && (v.Str? ==> texts.redact(v.text) == v.text)
  }

  /**
   * An object with nothing to hide: plain data, no credential's name, no transport, no accessor but an error's stack.
   */
  predicate HasNothingToHide(texts: Texts, node: Node) {
    match node
    case List(items, extra) =>
      !extra && forall v <- items :: IsFit(texts, v) && !(v.Str? && texts.isName(v.text))
    case Table(entries, extra) =>
      !extra && forall e <- entries ::
        IsFit(texts, e.key) && IsFit(texts, e.value) && !(e.key.Str? && texts.isName(e.key.text))
    case Group(items, extra) => !extra && forall v <- items :: IsFit(texts, v)
    case Record(isError, fields, slots) =>
      && (forall f <- fields :: !HoldsName(texts, f) && IsFitField(texts, isError, f))
      && (forall s <- slots :: IsFit(texts, s.value))
    case Instance => false
  }

  predicate IsFitField(texts: Texts, isError: bool, f: Pair<Key, Prop>) {
    && f.key !in {Name("$response"), Name("$responseBodyText"), Name("socket"), Name("_httpMessage"), Name("req"),
                  Name("request"), Name("connection"), Name("agent")}
    && match f.value
       case Data(v) =>
         IsFit(texts, v) && (f.key.Name? ==> texts.redact(f.key.name) == f.key.name && !texts.isName(f.key.name))
       case Accessor(read) => isError && f.key == Name("stack") && (read.Some? ==> IsFit(texts, read.value))
  }

  lemma {:induction false} FitValues(texts: Texts, isError: bool, fields: Fields)
    requires forall f <- fields :: IsFitField(texts, isError, f)
    ensures forall v <- FieldValues(fields) :: IsFit(texts, v)
  {
    if fields != [] {
      assert fields[|fields| - 1] in fields;
      FitValues(texts, isError, fields[..|fields| - 1]);
    }
  }

  lemma NothingToHideIsTidy(texts: Texts, node: Node)
    requires HasNothingToHide(texts, node)
    ensures Tidy(texts, node)
  {
    match node
    case Record(isError, fields, slots) =>
      FitValues(texts, isError, fields);
      forall f <- fields
        ensures FieldQuiet(texts, isError, f) && (f.value.Data? ==> !IsName(texts, f.key))
      {
        assert IsFitField(texts, isError, f);
      }
      forall key: Key
        ensures !Beside(texts, isError, fields, key)
      {
        BesideExactly(texts, isError, fields, key);
      }
    case _ =>
  }

  /** There is no reason to copy an error in reach of which is nothing to hide, and no way through more than eleven. */
  lemma NothingToHideNoReason(k: Subject, err: Ref)
    requires forall path :: IsPath(k.originals, err, path) ==>
               HasNothingToHide(k.texts, k.originals[path[|path| - 1]]) && (Distinct(path) ==> |path| <= 11)
    ensures !Reason(k, err)
  {
    hide HasNothingToHide, Tidy;
    forall path | IsPath(k.originals, err, path)
      ensures !IsReason(k, err, path)
    {
      NothingToHideIsTidy(k.texts, k.originals[path[|path| - 1]]);
    }
  }
}
