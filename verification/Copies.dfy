/**
 * What it is to be a faithful copy of an object: each text redacted, each object replaced by its copy, each value under
 * or beside a credential's name hidden, and nothing else lost but what may not be kept. A faithful copy is safe, and an
 * object whose copy changed nothing was safe already.
 */
module Copies {

  import opened Bytes
  import opened Heap

  /** What is copied, and how texts are redacted. */
  datatype Subject = Subject(texts: Texts, originals: map<Ref, Node>)

  /** The table of copies, and whether any copy differs from its original. */
  datatype Memo = Memo(copies: map<Ref, Ref>, changed: bool)

  predicate Extends(a: map<Ref, Ref>, b: map<Ref, Ref>) {
    forall r <- a :: r in b && b[r] == a[r]
  }

  predicate Grows(m: Memo, n: Memo) {
    Extends(m.copies, n.copies) && (m.changed ==> n.changed)
  }

  // ---------- one value ----------

  predicate IsInstance(k: Subject, r: Ref) {
    r in k.originals && k.originals[r].Instance?
  }

  /**
   * The copy of a value; `deep` when it lies too deep for an object to be copied, though one copied before is found.
   */
  predicate Image(k: Subject, copies: map<Ref, Ref>, deep: bool, v: Value, w: Option<Value>) {
    match v
    case Str(text) => w == Some(Str(k.texts.redact(text)))
    case Live => w.None?
    case Obj(r) => (r in copies && w == Some(Obj(copies[r]))) || (w.None? && (deep || IsInstance(k, r)))
    case _ => w == Some(v)
  }

  /** If nothing has changed, copying the value gave it back. */
  predicate Quiet(k: Subject, m: Memo, v: Value) {
    m.changed ||
    match v
    case Str(text) => k.texts.redact(text) == text
    case Live => false
    case Obj(r) => r in m.copies
    case _ => true
  }

  predicate Hides(named: bool, v: Value) {
    named && !Nullish(v)
  }

  predicate NamedQuiet(k: Subject, m: Memo, named: bool, v: Value) {
    if Hides(named, v) then m.changed || v == Str(REDACTED) else Quiet(k, m, v)
  }

  /** What a value becomes, under a credential's name or not. */
  predicate Carries(k: Subject, m: Memo, deep: bool, named: bool, v: Value, w: Option<Value>) {
    && NamedQuiet(k, m, named, v)
    && (w.None? ==> m.changed)
    && if Hides(named, v) then w == Some(Str(REDACTED)) else Image(k, m.copies, deep, v, w)
  }

  lemma CarriesStays(k: Subject, m: Memo, n: Memo, deep: bool, named: bool, v: Value, w: Option<Value>)
    requires Carries(k, m, deep, named, v, w) && Grows(m, n)
    ensures Carries(k, n, deep, named, v, w)
  {
  }

  predicate IsCopy(m: Memo, c: Ref) {
    exists r <- m.copies :: m.copies[r] == c
  }

  lemma CarriedIsPlain(k: Subject, m: Memo, deep: bool, named: bool, v: Value, w: Value)
    requires Sound(k.texts) && Carries(k, m, deep, named, v, Some(w))
    ensures Plain(k.texts, w) && (named ==> Harmless(w)) && (w.Obj? ==> IsCopy(m, w.ref))
    ensures SpellsName(k.texts, w) ==> SpellsName(k.texts, v)
  {
    if w == Str(REDACTED) {
      assert REDACTED[0] == '[';
      assert Marked(REDACTED);
    }
    if v.Str? && !Hides(named, v) {
      assert k.texts.redact(v.text) == w.text;
    }
  }

  /** A value that nothing changed under was plain, and refers to an object that was copied. */
  lemma QuietIsPlain(k: Subject, m: Memo, named: bool, v: Value)
    requires NamedQuiet(k, m, named, v) && !m.changed
    ensures Plain(k.texts, v) && (named ==> Harmless(v)) && (v.Obj? ==> v.ref in m.copies)
  {
    if v.Str? && !Hides(named, v) {
      assert k.texts.redact(v.text) == v.text;
    }
  }

  // ---------- lists ----------

  /** An item that may not be kept leaves its place empty. */
  predicate ItemCarried(k: Subject, m: Memo, deep: bool, items: seq<Value>, i: nat, w: Value)
    requires i < |items|
  {
    var named := FollowsName(k.texts, items, i);
    Carries(k, m, deep, named, items[i], Some(w)) || (w.Undefined? && Carries(k, m, deep, named, items[i], None))
  }

  /** The first items are copied, each in its place. */
  predicate ListCarried(k: Subject, m: Memo, deep: bool, items: seq<Value>, out: seq<Value>) {
    |out| <= |items| && forall i :: 0 <= i < |out| ==> ItemCarried(k, m, deep, items, i, out[i])
  }

  lemma ListStays(k: Subject, m: Memo, n: Memo, deep: bool, items: seq<Value>, out: seq<Value>)
    requires ListCarried(k, m, deep, items, out) && Grows(m, n)
    ensures ListCarried(k, n, deep, items, out)
  {
    hide Carries, FollowsName;
    forall i | 0 <= i < |out|
      ensures ItemCarried(k, n, deep, items, i, out[i])
    {
      assert ItemCarried(k, m, deep, items, i, out[i]);
      var named := FollowsName(k.texts, items, i);
      if Carries(k, m, deep, named, items[i], Some(out[i])) {
        CarriesStays(k, m, n, deep, named, items[i], Some(out[i]));
      } else {
        CarriesStays(k, m, n, deep, named, items[i], None);
      }
    }
  }

  lemma ListIsSafe(k: Subject, m: Memo, deep: bool, items: seq<Value>, out: seq<Value>)
    requires Sound(k.texts) && ListCarried(k, m, deep, items, out) && |out| == |items|
    ensures Safe(k.texts, List(out, false)) && forall v <- out :: v.Obj? ==> IsCopy(m, v.ref)
  {
    hide Carries, IsCopy, Plain;
    forall i | 0 <= i < |out|
      ensures Plain(k.texts, out[i]) && (SpellsName(k.texts, out[i]) ==> SpellsName(k.texts, items[i]))
      ensures (FollowsName(k.texts, items, i) ==> Harmless(out[i])) && (out[i].Obj? ==> IsCopy(m, out[i].ref))
    {
      assert ItemCarried(k, m, deep, items, i, out[i]);
      var named := FollowsName(k.texts, items, i);
      if Carries(k, m, deep, named, items[i], Some(out[i])) {
        CarriedIsPlain(k, m, deep, named, items[i], out[i]);
      } else {
        UndefinedIsPlain(k.texts);
      }
    }
  }

  lemma UndefinedIsPlain(texts: Texts)
    ensures Plain(texts, Undefined)
  {
  }

  lemma QuietListIsSafe(k: Subject, m: Memo, deep: bool, items: seq<Value>, out: seq<Value>)
    requires ListCarried(k, m, deep, items, out) && |out| == |items| && !m.changed
    ensures Safe(k.texts, List(items, false)) && forall v <- items :: v.Obj? ==> v.ref in m.copies
  {
    forall i | 0 <= i < |items|
      ensures Plain(k.texts, items[i]) && (FollowsName(k.texts, items, i) ==> Harmless(items[i]))
      ensures items[i].Obj? ==> items[i].ref in m.copies
    {
      assert ItemCarried(k, m, deep, items, i, out[i]);
      QuietIsPlain(k, m, FollowsName(k.texts, items, i), items[i]);
    }
  }

  // ---------- sets ----------

  predicate MemberCarried(k: Subject, m: Memo, deep: bool, items: seq<Value>, w: Value) {
    exists v <- items :: Carries(k, m, deep, false, v, Some(w))
  }

  /** A member is in the copy, or may not be kept. */
  predicate MemberKept(k: Subject, m: Memo, deep: bool, v: Value, out: seq<Value>) {
    Carries(k, m, deep, false, v, None) || exists w <- out :: Carries(k, m, deep, false, v, Some(w))
  }

  predicate GroupCarried(k: Subject, m: Memo, deep: bool, items: seq<Value>, out: seq<Value>) {
    && (forall w <- out :: MemberCarried(k, m, deep, items, w))
    && (forall v <- items :: MemberKept(k, m, deep, v, out))
  }

  lemma GroupStays(k: Subject, m: Memo, n: Memo, deep: bool, items: seq<Value>, out: seq<Value>)
    requires GroupCarried(k, m, deep, items, out) && Grows(m, n)
    ensures GroupCarried(k, n, deep, items, out)
  {
    hide Carries;
    forall v: Value, w: Option<Value> | Carries(k, m, deep, false, v, w)
      ensures Carries(k, n, deep, false, v, w)
    {
      CarriesStays(k, m, n, deep, false, v, w);
    }
    forall w <- out
      ensures MemberCarried(k, n, deep, items, w)
    {
      assert MemberCarried(k, m, deep, items, w);
    }
    forall v <- items
      ensures MemberKept(k, n, deep, v, out)
    {
      assert MemberKept(k, m, deep, v, out);
    }
  }

  lemma GroupGrows(k: Subject, m: Memo, deep: bool, items: seq<Value>, out: seq<Value>, v: Value, w: Option<Value>)
    requires GroupCarried(k, m, deep, items, out) && Carries(k, m, deep, false, v, w)
    ensures w.None? ==> GroupCarried(k, m, deep, items + [v], out)
    ensures w.Some? && w.value in out ==> GroupCarried(k, m, deep, items + [v], out)
    ensures w.Some? ==> GroupCarried(k, m, deep, items + [v], out + [w.value])
  {
    hide Carries;
    var more := if w.Some? then out + [w.value] else out;
    assert v in items + [v];
    forall x <- more | x in out || w == Some(x)
      ensures MemberCarried(k, m, deep, items + [v], x)
    {
      if x in out {
        assert MemberCarried(k, m, deep, items, x);
      }
    }
    forall u <- items + [v]
      ensures MemberKept(k, m, deep, u, more)
      ensures w.None? || w.value in out ==> MemberKept(k, m, deep, u, out)
    {
      if u in items {
        assert MemberKept(k, m, deep, u, out);
      }
    }
  }

  lemma GroupIsSafe(k: Subject, m: Memo, deep: bool, items: seq<Value>, out: seq<Value>)
    requires Sound(k.texts) && GroupCarried(k, m, deep, items, out)
    ensures Safe(k.texts, Group(out, false)) && forall v <- out :: v.Obj? ==> IsCopy(m, v.ref)
    ensures !m.changed ==> Safe(k.texts, Group(items, false)) && forall v <- items :: v.Obj? ==> v.ref in m.copies
  {
    hide Carries, IsCopy, Plain;
    forall w <- out
      ensures Plain(k.texts, w) && (w.Obj? ==> IsCopy(m, w.ref))
    {
      assert MemberCarried(k, m, deep, items, w);
      var v :| v in items && Carries(k, m, deep, false, v, Some(w));
      CarriedIsPlain(k, m, deep, false, v, w);
    }
    if !m.changed {
      forall v <- items
        ensures Plain(k.texts, v) && (v.Obj? ==> v.ref in m.copies)
      {
        assert MemberKept(k, m, deep, v, out);
        CarriesQuietly(k, m, deep, false, v);
        QuietIsPlain(k, m, false, v);
      }
    }
  }

  lemma CarriesQuietly(k: Subject, m: Memo, deep: bool, named: bool, v: Value)
    requires exists w :: Carries(k, m, deep, named, v, w)
    ensures NamedQuiet(k, m, named, v)
  {
  }

  // ---------- maps ----------

  type Entries = seq<Pair<Value, Value>>

  predicate EntryCarried(k: Subject, m: Memo, deep: bool, e: Pair<Value, Value>, o: Pair<Value, Value>) {
    && Carries(k, m, deep, false, e.key, Some(o.key))
    && Carries(k, m, deep, SpellsName(k.texts, e.key), e.value, Some(o.value))
  }

  predicate HasEntry(k: Subject, m: Memo, deep: bool, entries: Entries, o: Pair<Value, Value>) {
    exists e <- entries :: EntryCarried(k, m, deep, e, o)
  }

  /** No other key of the entries is a text that is redacted to the same one. */
  predicate StaysApart(k: Subject, entries: Entries, e: Pair<Value, Value>) {
    && e.key.Str?
    && forall f <- entries :: f.key.Str? && k.texts.redact(f.key.text) == k.texts.redact(e.key.text) ==> f == e
  }

  predicate EntryKept(k: Subject, m: Memo, deep: bool, e: Pair<Value, Value>, out: Entries) {
    || Carries(k, m, deep, SpellsName(k.texts, e.key), e.value, None)
    || exists o <- out :: EntryCarried(k, m, deep, e, o)
  }

  predicate EntryQuiet(k: Subject, m: Memo, e: Pair<Value, Value>) {
    m.changed || (Quiet(k, m, e.key) && NamedQuiet(k, m, SpellsName(k.texts, e.key), e.value))
  }

  predicate TableCarried(k: Subject, m: Memo, deep: bool, entries: Entries, out: Entries) {
    && (forall o <- out :: HasEntry(k, m, deep, entries, o))
    && (forall e <- entries :: StaysApart(k, entries, e) ==> EntryKept(k, m, deep, e, out))
    && (forall e <- entries :: EntryQuiet(k, m, e))
  }

  lemma EntryStays(k: Subject, m: Memo, n: Memo, deep: bool, e: Pair<Value, Value>, o: Pair<Value, Value>)
    requires EntryCarried(k, m, deep, e, o) && Grows(m, n)
    ensures EntryCarried(k, n, deep, e, o)
  {
    CarriesStays(k, m, n, deep, false, e.key, Some(o.key));
    CarriesStays(k, m, n, deep, SpellsName(k.texts, e.key), e.value, Some(o.value));
  }

  lemma KeptStays(k: Subject, m: Memo, n: Memo, deep: bool, e: Pair<Value, Value>, out: Entries)
    requires EntryKept(k, m, deep, e, out) && Grows(m, n)
    ensures EntryKept(k, n, deep, e, out)
  {
    hide EntryCarried, Carries;
    if o :| o in out && EntryCarried(k, m, deep, e, o) {
      EntryStays(k, m, n, deep, e, o);
    } else {
      CarriesStays(k, m, n, deep, SpellsName(k.texts, e.key), e.value, None);
    }
  }

  lemma TableStays(k: Subject, m: Memo, n: Memo, deep: bool, entries: Entries, out: Entries)
    requires TableCarried(k, m, deep, entries, out) && Grows(m, n)
    ensures TableCarried(k, n, deep, entries, out)
  {
    hide EntryCarried, EntryKept, StaysApart;
    forall o <- out
      ensures HasEntry(k, n, deep, entries, o)
    {
      assert HasEntry(k, m, deep, entries, o);
      var e :| e in entries && EntryCarried(k, m, deep, e, o);
      EntryStays(k, m, n, deep, e, o);
    }
    forall e <- entries | StaysApart(k, entries, e)
      ensures EntryKept(k, n, deep, e, out)
    {
      KeptStays(k, m, n, deep, e, out);
    }
  }

  /** A further entry whose key may not be kept, or whose value may not: nothing is put. */
  lemma TableSkips(k: Subject, m: Memo, deep: bool, entries: Entries, out: Entries, e: Pair<Value, Value>)
    requires TableCarried(k, m, deep, entries, out) && EntryQuiet(k, m, e)
    requires e.key.Str? ==> Carries(k, m, deep, SpellsName(k.texts, e.key), e.value, None)
    ensures TableCarried(k, m, deep, entries + [e], out)
  {
    hide EntryCarried, EntryQuiet, Carries;
    forall o <- out
      ensures HasEntry(k, m, deep, entries + [e], o)
    {
      assert HasEntry(k, m, deep, entries, o);
    }
    forall f <- entries + [e] | StaysApart(k, entries + [e], f)
      ensures EntryKept(k, m, deep, f, out)
    {
      if f in entries {
        assert StaysApart(k, entries, f);
      }
    }
  }

  /** A further entry, put under its key. */
  lemma TablePuts(k: Subject, m: Memo, deep: bool, entries: Entries, out: Entries,
                  e: Pair<Value, Value>, o: Pair<Value, Value>)
    requires TableCarried(k, m, deep, entries, out) && EntryCarried(k, m, deep, e, o)
    ensures TableCarried(k, m, deep, entries + [e], Put(out, o.key, o.value))
  {
    var put := Put(out, o.key, o.value);
    assert Pair(o.key, o.value) == o;
    assert EntryQuiet(k, m, e);
    KeyFollows(k, m, deep, e, o);
    hide EntryCarried, EntryQuiet, Put;
    forall p <- put
      ensures HasEntry(k, m, deep, entries + [e], p)
    {
      if p != o {
        assert HasEntry(k, m, deep, entries, p);
      }
    }
    forall f <- entries + [e] | StaysApart(k, entries + [e], f)
      ensures EntryKept(k, m, deep, f, put)
    {
      if f != e {
        assert StaysApart(k, entries, f);
        if p :| p in out && EntryCarried(k, m, deep, f, p) {
          KeyFollows(k, m, deep, f, p);
          assert p.key != o.key;
        }
      }
    }
  }

  /** A text key is put under its redaction, and no other key is put under a text. */
  lemma KeyFollows(k: Subject, m: Memo, deep: bool, e: Pair<Value, Value>, o: Pair<Value, Value>)
    requires EntryCarried(k, m, deep, e, o)
    ensures e.key.Str? <==> o.key.Str?
    ensures e.key.Str? ==> o.key.text == k.texts.redact(e.key.text)
  {
  }

  lemma TableIsSafe(k: Subject, m: Memo, deep: bool, entries: Entries, out: Entries)
    requires Sound(k.texts) && TableCarried(k, m, deep, entries, out)
    ensures Safe(k.texts, Table(out, false))
    ensures forall o <- out :: (o.key.Obj? ==> IsCopy(m, o.key.ref)) && (o.value.Obj? ==> IsCopy(m, o.value.ref))
  {
    hide Carries, IsCopy, Plain;
    forall o <- out
      ensures Plain(k.texts, o.key) && Plain(k.texts, o.value) && (SpellsName(k.texts, o.key) ==> Harmless(o.value))
      ensures (o.key.Obj? ==> IsCopy(m, o.key.ref)) && (o.value.Obj? ==> IsCopy(m, o.value.ref))
    {
      assert HasEntry(k, m, deep, entries, o);
      var e :| e in entries && EntryCarried(k, m, deep, e, o);
      CarriedIsPlain(k, m, deep, false, e.key, o.key);
      CarriedIsPlain(k, m, deep, SpellsName(k.texts, e.key), e.value, o.value);
    }
  }

  lemma QuietTableIsSafe(k: Subject, m: Memo, deep: bool, entries: Entries, out: Entries)
    requires TableCarried(k, m, deep, entries, out) && !m.changed
    ensures Safe(k.texts, Table(entries, false))
    ensures forall e <- entries :: (e.key.Obj? ==> e.key.ref in m.copies) && (e.value.Obj? ==> e.value.ref in m.copies)
  {
    forall e <- entries
      ensures Plain(k.texts, e.key) && Plain(k.texts, e.value) && (SpellsName(k.texts, e.key) ==> Harmless(e.value))
      ensures (e.key.Obj? ==> e.key.ref in m.copies) && (e.value.Obj? ==> e.value.ref in m.copies)
    {
      assert EntryQuiet(k, m, e);
      QuietIsPlain(k, m, false, e.key);
      QuietIsPlain(k, m, SpellsName(k.texts, e.key), e.value);
    }
  }

  // ---------- records ----------

  type Fields = seq<Pair<Key, Prop>>

  /** A value a record's copy is to hold: the key it goes under, and whether that spells a credential's name. */
  datatype Source = Source(to: Key, named: bool, value: Value)

  function RedactedKey(texts: Texts, key: Key): Key {
    if key.Name? then Name(texts.redact(key.name)) else key
  }

  /** What is carried of one field: not a transport, not an accessor but an error's stack, read through the original. */
  function FieldSource(texts: Texts, isError: bool, f: Pair<Key, Prop>): Option<Source> {
    if f.key.Name? && f.key.name in TRANSPORT then None
    else if isError && f.key == Name("stack") then
      match f.value
      case Data(v) => Some(Source(f.key, false, v))
      case Accessor(read) => if read.Some? then Some(Source(f.key, false, read.value)) else None
    else
      match f.value
      case Data(v) => Some(Source(RedactedKey(texts, f.key), IsName(texts, f.key), v))
      case Accessor(_) => None
  }

  function SlotSource(s: Pair<Key, Value>): Source {
    Source(s.key, false, s.value)
  }

  function FieldSources(texts: Texts, isError: bool, fields: Fields): seq<Source> {
    if fields == [] then []
    else
      FieldSources(texts, isError, fields[..|fields| - 1]) +
      match FieldSource(texts, isError, fields[|fields| - 1])
      case None => []
      case Some(s) => [s]
  }

  function SlotSources(slots: seq<Pair<Key, Value>>): seq<Source> {
    seq(|slots|, i requires 0 <= i < |slots| => SlotSource(slots[i]))
  }

  /** A field of the copy holds what its source carries, or was hidden beside a credential's name. */
  predicate FieldCarried(k: Subject, m: Memo, deep: bool, src: Node, s: Source, f: Pair<Key, Prop>)
    requires src.Record?
  {
    && f.key == s.to && f.value.Data?
    && NamedQuiet(k, m, s.named, s.value)
    && (Carries(k, m, deep, s.named, s.value, Some(f.value.value)) ||
        (m.changed && f.value.value == Str(REDACTED) && (s.value.Str? || s.value.Obj?) &&
         Beside(k.texts, src.isError, src.fields, f.key)))
  }

  predicate HasSource(k: Subject, m: Memo, deep: bool, src: Node, sources: seq<Source>, f: Pair<Key, Prop>)
    requires src.Record?
  {
    exists s <- sources :: FieldCarried(k, m, deep, src, s, f)
  }

  predicate Alone(sources: seq<Source>, s: Source) {
    forall o <- sources :: o.to == s.to ==> o == s
  }

  predicate SourceKept(k: Subject, m: Memo, deep: bool, src: Node, s: Source, out: Fields)
    requires src.Record?
  {
    || Carries(k, m, deep, s.named, s.value, None)
    || exists f <- out :: FieldCarried(k, m, deep, src, s, f)
  }

  predicate RecordCarried(k: Subject, m: Memo, deep: bool, src: Node, sources: seq<Source>, out: Fields)
    requires src.Record?
  {
    && (forall f <- out :: HasSource(k, m, deep, src, sources, f))
    && (forall s <- sources :: Alone(sources, s) ==> SourceKept(k, m, deep, src, s, out))
    && (forall s <- sources :: NamedQuiet(k, m, s.named, s.value))
  }

  lemma FieldStays(k: Subject, m: Memo, n: Memo, deep: bool, src: Node, s: Source, f: Pair<Key, Prop>)
    requires src.Record? && FieldCarried(k, m, deep, src, s, f) && Grows(m, n)
    ensures FieldCarried(k, n, deep, src, s, f)
  {
    hide Beside;
    if Carries(k, m, deep, s.named, s.value, Some(f.value.value)) {
      CarriesStays(k, m, n, deep, s.named, s.value, Some(f.value.value));
    }
  }

  lemma RecordStays(k: Subject, m: Memo, n: Memo, deep: bool, src: Node, sources: seq<Source>, out: Fields)
    requires src.Record? && RecordCarried(k, m, deep, src, sources, out) && Grows(m, n)
    ensures RecordCarried(k, n, deep, src, sources, out)
  {
    hide FieldCarried, Carries, Alone;
    forall f <- out
      ensures HasSource(k, n, deep, src, sources, f)
    {
      assert HasSource(k, m, deep, src, sources, f);
      var s :| s in sources && FieldCarried(k, m, deep, src, s, f);
      FieldStays(k, m, n, deep, src, s, f);
    }
    forall s <- sources | Alone(sources, s)
      ensures SourceKept(k, n, deep, src, s, out)
    {
      assert SourceKept(k, m, deep, src, s, out);
      if f :| f in out && FieldCarried(k, m, deep, src, s, f) {
        FieldStays(k, m, n, deep, src, s, f);
      } else {
        CarriesStays(k, m, n, deep, s.named, s.value, None);
      }
    }
  }

  /** A further source: put under its key, or not kept. */
  lemma RecordGrows(k: Subject, m: Memo, deep: bool, src: Node, sources: seq<Source>, out: Fields, s: Source,
                    w: Option<Value>)
    requires src.Record? && RecordCarried(k, m, deep, src, sources, out) && Carries(k, m, deep, s.named, s.value, w)
    ensures w.None? ==> RecordCarried(k, m, deep, src, sources + [s], out)
    ensures w.Some? ==> RecordCarried(k, m, deep, src, sources + [s], Put(out, s.to, Data(w.value)))
  {
    var more := sources + [s];
    var put := if w.Some? then Put(out, s.to, Data(w.value)) else out;
    assert NamedQuiet(k, m, s.named, s.value);
    assert s in more;
    forall f <- put
      ensures HasSource(k, m, deep, src, more, f)
    {
      if f in out {
        assert HasSource(k, m, deep, src, sources, f);
      } else {
        assert FieldCarried(k, m, deep, src, s, f);
      }
    }
    hide Carries, Put, NamedQuiet, Beside;
    forall t <- more | Alone(more, t)
      ensures SourceKept(k, m, deep, src, t, put)
    {
      if t == s {
        if w.Some? {
          assert FieldCarried(k, m, deep, src, s, Pair(s.to, Data(w.value)));
        }
      } else {
        assert Alone(sources, t) && SourceKept(k, m, deep, src, t, out);
        if f :| f in out && FieldCarried(k, m, deep, src, t, f) {
          assert f in put;
        }
      }
    }
  }

  /** All that a record's copy is to hold: its fields, then what it reads through its prototype. */
  function Sources(texts: Texts, src: Node): seq<Source>
    requires src.Record?
  {
    FieldSources(texts, src.isError, src.fields) + SlotSources(src.slots)
  }

  /** Nothing is dropped or renamed in copying the field. */
  predicate FieldQuiet(texts: Texts, isError: bool, f: Pair<Key, Prop>) {
    && !(f.key.Name? && f.key.name in TRANSPORT)
    && ((isError && f.key == Name("stack")) || (f.value.Data? && RedactedKey(texts, f.key) == f.key))
  }

  /** A source's key is no transport's, and spells a credential's name only when its field's did. */
  ghost predicate Fine(texts: Texts, s: Source) {
    !(s.to.Name? && s.to.name in TRANSPORT) && (IsName(texts, s.to) ==> s.named)
  }

  lemma FieldSourceIsFine(texts: Texts, isError: bool, f: Pair<Key, Prop>)
    requires Sound(texts) && FieldSource(texts, isError, f).Some?
    ensures Fine(texts, FieldSource(texts, isError, f).value)
  {
    TransportIsUnmarked();
    if f.key.Name? {
      var name := f.key.name;
      assert texts.redact(name) == name || Marked(texts.redact(name));
    }
  }

  lemma TransportIsUnmarked()
    ensures forall name <- TRANSPORT :: !Marked(name)
  {
  }

  lemma {:induction false} FieldSourcesAreFields(texts: Texts, isError: bool, fields: Fields)
    ensures forall s <- FieldSources(texts, isError, fields) ::
      exists f <- fields :: FieldSource(texts, isError, f) == Some(s)
    ensures forall f <- fields :: FieldSource(texts, isError, f).Some? ==>
      FieldSource(texts, isError, f).value in FieldSources(texts, isError, fields)
  {
    if fields != [] {
      FieldSourcesAreFields(texts, isError, fields[..|fields| - 1]);
      assert fields == fields[..|fields| - 1] + [fields[|fields| - 1]];
    }
  }

  lemma SourcesAreFine(texts: Texts, src: Node)
    requires Sound(texts) && src.Record? && KeysAreDistinct(src)
    ensures forall s <- Sources(texts, src) :: Fine(texts, s)
  {
    FieldSourcesAreFields(texts, src.isError, src.fields);
    forall s <- Sources(texts, src)
      ensures Fine(texts, s)
    {
      if s in FieldSources(texts, src.isError, src.fields) {
        var f :| f in src.fields && FieldSource(texts, src.isError, f) == Some(s);
        FieldSourceIsFine(texts, src.isError, f);
      } else {
        assert s in SlotSources(src.slots);
        var slot :| slot in src.slots && s == SlotSource(slot);
        assert slot.key.name in SLOTS;
      }
    }
  }

  lemma FieldIsSafe(k: Subject, m: Memo, deep: bool, src: Node, s: Source, f: Pair<Key, Prop>)
    requires Sound(k.texts) && src.Record? && FieldCarried(k, m, deep, src, s, f) && Fine(k.texts, s)
    ensures SafeField(k.texts, src.isError, f) && f.value.Data? && (f.value.value.Obj? ==> IsCopy(m, f.value.value.ref))
  {
    if Carries(k, m, deep, s.named, s.value, Some(f.value.value)) {
      CarriedIsPlain(k, m, deep, s.named, s.value, f.value.value);
    }
  }

  lemma RecordIsSafe(k: Subject, m: Memo, deep: bool, src: Node, out: Fields)
    requires Sound(k.texts) && src.Record? && KeysAreDistinct(src)
    requires RecordCarried(k, m, deep, src, Sources(k.texts, src), out)
    ensures Safe(k.texts, Record(src.isError, out, []))
    ensures forall f <- out :: f.value.Data? && (f.value.value.Obj? ==> IsCopy(m, f.value.value.ref))
  {
    SourcesAreFine(k.texts, src);
    hide FieldCarried, Fine, SafeField, IsCopy;
    forall f <- out
      ensures SafeField(k.texts, src.isError, f) && f.value.Data?
      ensures f.value.value.Obj? ==> IsCopy(m, f.value.value.ref)
    {
      assert HasSource(k, m, deep, src, Sources(k.texts, src), f);
      var s :| s in Sources(k.texts, src) && FieldCarried(k, m, deep, src, s, f);
      FieldIsSafe(k, m, deep, src, s, f);
    }
  }

  // ---------- a record whose copy changed nothing ----------

  lemma QuietFieldIsSafe(k: Subject, m: Memo, isError: bool, f: Pair<Key, Prop>)
    requires Sound(k.texts) && !m.changed && FieldQuiet(k.texts, isError, f)
    requires var s := FieldSource(k.texts, isError, f); s.Some? ==> NamedQuiet(k, m, s.value.named, s.value.value)
    ensures SafeField(k.texts, isError, f)
    ensures f.value.Data? && f.value.value.Obj? ==> f.value.value.ref in m.copies
    ensures f.value.Accessor? && f.value.read.Some? && f.value.read.value.Obj? ==> f.value.read.value.ref in m.copies
  {
    var s := FieldSource(k.texts, isError, f);
    if s.Some? {
      QuietIsPlain(k, m, s.value.named, s.value.value);
    }
  }

  lemma QuietRecordIsSafe(k: Subject, m: Memo, deep: bool, src: Node, out: Fields)
    requires Sound(k.texts) && src.Record? && !m.changed
    requires RecordCarried(k, m, deep, src, Sources(k.texts, src), out)
    requires forall f <- src.fields :: FieldQuiet(k.texts, src.isError, f)
    ensures Safe(k.texts, src)
    ensures forall v <- Values(src) :: v.Obj? ==> v.ref in m.copies
  {
    var texts := k.texts;
    FieldSourcesAreFields(texts, src.isError, src.fields);
    hide FieldQuiet, NamedQuiet, SafeField, FieldSource, Plain, FieldSources, FieldValues;
    forall f <- src.fields
      ensures SafeField(texts, src.isError, f)
      ensures f.value.Data? && f.value.value.Obj? ==> f.value.value.ref in m.copies
      ensures f.value.Accessor? && f.value.read.Some? && f.value.read.value.Obj? ==> f.value.read.value.ref in m.copies
    {
      QuietFieldIsSafe(k, m, src.isError, f);
    }
    forall slot <- src.slots
      ensures Plain(texts, slot.value) && (slot.value.Obj? ==> slot.value.ref in m.copies)
    {
      var i :| 0 <= i < |src.slots| && src.slots[i] == slot;
      assert SlotSources(src.slots)[i] == SlotSource(slot);
      assert SlotSource(slot) in Sources(texts, src);
      QuietIsPlain(k, m, false, slot.value);
    }
    FieldValuesAreFields(src.fields);
  }

  lemma {:induction false} FieldValuesAreFields(fields: Fields)
    ensures forall v <- FieldValues(fields) ::
      exists f <- fields :: f.value == Data(v) || f.value == Accessor(Some(v))
  {
    if fields != [] {
      FieldValuesAreFields(fields[..|fields| - 1]);
      assert fields == fields[..|fields| - 1] + [fields[|fields| - 1]];
    }
  }

  lemma QuietSourcesKeepKeys(texts: Texts, src: Node)
    requires src.Record? && forall f <- src.fields :: FieldQuiet(texts, src.isError, f)
    ensures forall s <- FieldSources(texts, src.isError, src.fields) ::
      exists f <- src.fields :: f.key == s.to && FieldSource(texts, src.isError, f) == Some(s)
  {
    FieldSourcesAreFields(texts, src.isError, src.fields);
    forall s <- FieldSources(texts, src.isError, src.fields)
      ensures exists f <- src.fields :: f.key == s.to && FieldSource(texts, src.isError, f) == Some(s)
    {
      var f :| f in src.fields && FieldSource(texts, src.isError, f) == Some(s);
      assert f.key == s.to;
    }
  }

  /** Unrenamed keys are as distinct as the fields' and the slots' are. */
  lemma QuietSourcesStayApart(texts: Texts, src: Node)
    requires src.Record? && KeysAreDistinct(src) && forall f <- src.fields :: FieldQuiet(texts, src.isError, f)
    ensures forall s <- Sources(texts, src) :: Alone(Sources(texts, src), s)
  {
    QuietSourcesKeepKeys(texts, src);
    hide FieldQuiet, FieldSource, FieldSources;
    forall s, o | s in Sources(texts, src) && o in Sources(texts, src) && s.to == o.to
      ensures s == o
    {
    }
  }

  lemma QuietlyHarmless(k: Subject, m: Memo, deep: bool, src: Node, s: Source, o: Pair<Key, Prop>)
    requires src.Record? && !m.changed && FieldCarried(k, m, deep, src, s, o)
    requires Harmless(o.value.value) || o.value.value.Scalar?
    ensures Harmless(s.value) || s.value.Scalar?
  {
  }

  /** What is beside a credential's name in a record whose copy changed nothing was hidden already. */
  lemma QuietPairsAreHidden(k: Subject, m: Memo, deep: bool, src: Node, out: Fields)
    requires Sound(k.texts) && src.Record? && KeysAreDistinct(src) && !m.changed
    requires RecordCarried(k, m, deep, src, Sources(k.texts, src), out) && PairsHidden(k.texts, src, out)
    requires forall f <- src.fields :: FieldQuiet(k.texts, src.isError, f)
    ensures PairsHidden(k.texts, src, src.fields)
  {
    var texts := k.texts;
    FieldSourcesAreFields(texts, src.isError, src.fields);
    QuietSourcesStayApart(texts, src);
    forall f <- src.fields | f.value.Data? && Beside(texts, src.isError, src.fields, f.key)
      ensures Harmless(f.value.value) || f.value.value.Scalar?
    {
      assert FieldQuiet(texts, src.isError, f);
      var s := FieldSource(texts, src.isError, f).value;
      assert s.to == f.key && s.value == f.value.value;
      hide Alone, Beside, FieldSources, FieldQuiet, FieldSource, Harmless;
      assert s in Sources(texts, src);
      assert SourceKept(k, m, deep, src, s, out);
      NotOmitted(k, m, deep, s);
      var o :| o in out && FieldCarried(k, m, deep, src, s, o);
      QuietlyHarmless(k, m, deep, src, s, o);
    }
  }

  lemma NotOmitted(k: Subject, m: Memo, deep: bool, s: Source)
    requires !m.changed
    ensures !Carries(k, m, deep, s.named, s.value, None)
  {
  }
}
