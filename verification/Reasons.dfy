/**
 * Why a copy may differ from its original: an object in reach of the error that is not fit to be shown as it is, or
 * objects too deep inside each other to be copied. Where there is neither, the error itself is thrown.
 */
module Reasons {

  import opened Bytes
  import opened Copies
  import opened Heap
  import opened Text

  /** How deep into errors and plain data the copy goes; anything below is dropped. */
  const MAX_DEPTH: nat := 10

  predicate TidyValue(texts: Texts, v: Value) {
    !v.Live? && (v.Str? ==> texts.redact(v.text) == v.text)
  }

  /** An object that copying would leave as it is. */
  predicate Tidy(texts: Texts, node: Node) {
    && (forall v <- Values(node) :: TidyValue(texts, v))
    && match node
       case List(items, extra) =>
         !extra && forall i :: 0 <= i < |items| && FollowsName(texts, items, i) ==> Harmless(items[i])
       case Table(entries, extra) =>
         !extra && forall e <- entries :: SpellsName(texts, e.key) ==> Harmless(e.value)
       case Group(_, extra) => !extra
       case Record(isError, fields, slots) =>
         && (forall f <- fields :: FieldQuiet(texts, isError, f))
         && (forall f <- fields :: f.value.Data? && IsName(texts, f.key) ==> Harmless(f.value.value))
         && (forall f <- fields :: f.value.Data? && Beside(texts, isError, fields, f.key) ==>
               Harmless(f.value.value) || f.value.value.Scalar?)
         && (forall s <- slots :: Beside(texts, isError, fields, s.key) ==> Harmless(s.value) || s.value.Scalar?)
       case Instance => false
  }

  predicate Distinct(path: seq<Ref>) {
    forall i, j :: 0 <= i < j < |path| ==> path[i] != path[j]
  }

  /** A way to an object that is not tidy, or through more objects than the copy is deep, none of them twice. */
  predicate IsReason(k: Subject, root: Ref, path: seq<Ref>) {
    && IsPath(k.originals, root, path)
    && (!Tidy(k.texts, k.originals[path[|path| - 1]]) || (|path| > MAX_DEPTH + 1 && Distinct(path)))
  }

  ghost predicate Reason(k: Subject, root: Ref) {
    exists path :: IsReason(k, root, path)
  }

  // ---------- the way to what is being copied ----------

  /** The way to an object that is to be copied, through objects that are being. */
  predicate Way(k: Subject, root: Ref, path: seq<Ref>, copies: map<Ref, Ref>, ref: Ref) {
    && IsPath(k.originals, root, path) && path[|path| - 1] == ref && Distinct(path)
    && forall r <- path[..|path| - 1] :: r in copies
  }

  /** Some way to the object is as long as the copy is deep, so that what it holds may be dropped. */
  ghost predicate IsFar(k: Subject, root: Ref, ref: Ref) {
    exists path ::
      IsPath(k.originals, root, path) && path[|path| - 1] == ref && Distinct(path) && |path| == MAX_DEPTH + 1
  }

  lemma WayIsFar(k: Subject, root: Ref, path: seq<Ref>, copies: map<Ref, Ref>, ref: Ref)
    requires Way(k, root, path, copies, ref)
    ensures |path| == MAX_DEPTH + 1 ==> IsFar(k, root, ref)
  {
  }

  /** The way to a value, through the object that holds it; none to the root. */
  predicate Leads(k: Subject, root: Ref, path: seq<Ref>, copies: map<Ref, Ref>, v: Value) {
    && (if path == [] then root in k.originals && v == Obj(root)
        else IsPath(k.originals, root, path) && v in Values(k.originals[path[|path| - 1]]))
    && Distinct(path) && forall r <- path :: r in copies
  }

  lemma LeadsOn(k: Subject, root: Ref, path: seq<Ref>, copies: map<Ref, Ref>, ref: Ref)
    requires Leads(k, root, path, copies, Obj(ref)) && ref in k.originals && ref !in copies
    ensures Way(k, root, path + [ref], copies, ref)
  {
    var more := path + [ref];
    assert more[..|more| - 1] == path;
    if path != [] {
      assert RefersTo(k.originals[path[|path| - 1]], ref);
      forall i | 0 <= i < |more| - 1
        ensures RefersTo(k.originals[more[i]], more[i + 1])
      {
        if i < |path| - 1 {
          assert RefersTo(k.originals[path[i]], path[i + 1]);
        }
      }
    }
  }

  lemma UntidyValue(k: Subject, root: Ref, path: seq<Ref>, copies: map<Ref, Ref>, v: Value)
    requires Leads(k, root, path, copies, v) && !TidyValue(k.texts, v)
    ensures Reason(k, root)
  {
    assert IsReason(k, root, path);
  }

  lemma UntidyObject(k: Subject, root: Ref, path: seq<Ref>, copies: map<Ref, Ref>, ref: Ref)
    requires Way(k, root, path, copies, ref) && !Tidy(k.texts, k.originals[ref])
    ensures Reason(k, root)
  {
    assert IsReason(k, root, path);
  }

  lemma TooDeep(k: Subject, root: Ref, path: seq<Ref>, copies: map<Ref, Ref>, ref: Ref)
    requires Way(k, root, path, copies, ref) && |path| > MAX_DEPTH + 1
    ensures Reason(k, root)
  {
    assert IsReason(k, root, path);
  }

  // ---------- what is hidden beside a name ----------

  lemma ValueNameEnds(n: string)
    requires |n| >= 4
    ensures ValueName(n) != "" && ValueName(n)[|ValueName(n)| - 1] == 'e'
  {
    var long := n[..|n| - 4] + "value";
    assert long[|long| - 1] == 'e';
  }

  lemma StackEnds()
    ensures |Lower("stack")| == 5 && Lower("stack")[4] == 'k'
  {
  }

  /** An error's stack is never beside a credential's name: no name of a value is spelled so. */
  lemma StackIsNotBeside(texts: Texts, fields: seq<Pair<Key, Prop>>)
    ensures !Beside(texts, true, fields, Name("stack"))
  {
    StackEnds();
    hide Lower, ValueName, Names;
    forall n <- Names(texts, fields) | EndsInName(n)
      ensures ValueName(n) != Lower("stack")
    {
      ValueNameEnds(n);
    }
  }

  /** If something is hidden beside a credential's name in a copy that had changed nothing, the original is not tidy. */
  lemma UntidyBeside(k: Subject, m: Memo, deep: bool, src: Node, out: Fields, i: nat)
    requires src.Record? && RecordCarried(k, m, deep, src, Sources(k.texts, src), out) && i < |out| && !m.changed
    requires out[i].value.Data? && (out[i].value.value.Str? || out[i].value.value.Obj?) && !Harmless(out[i].value.value)
    requires Beside(k.texts, src.isError, src.fields, out[i].key)
    ensures !Tidy(k.texts, src)
  {
    assert HasSource(k, m, deep, src, Sources(k.texts, src), out[i]);
    var s :| s in Sources(k.texts, src) && FieldCarried(k, m, deep, src, s, out[i]);
    if Tidy(k.texts, src) {
      SourceIsHeld(k.texts, src, s);
      FieldValuesOrSlots(k.texts, src, s);
    }
  }

  lemma SourceIsHeld(texts: Texts, src: Node, s: Source)
    requires src.Record? && s in Sources(texts, src)
    ensures s.value in Values(src)
  {
    FieldSourcesAreFields(texts, src.isError, src.fields);
    if s in FieldSources(texts, src.isError, src.fields) {
      var f :| f in src.fields && FieldSource(texts, src.isError, f) == Some(s);
      HeldByAField(src.fields, f, s.value);
    } else {
      var i :| 0 <= i < |src.slots| && SlotSources(src.slots)[i] == s;
      assert Values(src)[|FieldValues(src.fields)| + i] == s.value;
    }
  }

  lemma {:induction false} HeldByAField(fields: Fields, f: Pair<Key, Prop>, v: Value)
    requires f in fields && (f.value == Data(v) || f.value == Accessor(Some(v)))
    ensures v in FieldValues(fields)
  {
    if f != fields[|fields| - 1] {
      HeldByAField(fields[..|fields| - 1], f, v);
    }
  }

  /** In a tidy record, what is carried to a key beside a credential's name is harmless, or a number. */
  lemma FieldValuesOrSlots(texts: Texts, src: Node, s: Source)
    requires src.Record? && Tidy(texts, src) && s in Sources(texts, src)
    requires Beside(texts, src.isError, src.fields, s.to)
    ensures Harmless(s.value) || s.value.Scalar?
  {
    FieldSourcesAreFields(texts, src.isError, src.fields);
    if s in FieldSources(texts, src.isError, src.fields) {
      var f :| f in src.fields && FieldSource(texts, src.isError, f) == Some(s);
      assert FieldQuiet(texts, src.isError, f);
      if f.value.Accessor? {
        StackIsNotBeside(texts, src.fields);
      }
    } else {
      var i :| 0 <= i < |src.slots| && SlotSources(src.slots)[i] == s;
      assert src.slots[i] in src.slots;
    }
  }
}
