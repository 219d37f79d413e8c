/**
 * The objects an error is made of, as the scrubbing copy sees them: a heap of lists, maps, sets, records and
 * instances, which may refer to each other in cycles. What a safe object is, and what a faithful copy is, are stated
 * here; the copy that is proved to be both is `Scrub`.
 */
module Heap {

  import opened Bytes
  import opened Text

  type Ref = nat

  datatype Value =
    | Str(text: string)
    | Scalar(n: int)   // a number, a boolean or a bigint
    | Null
    | Undefined
    | Live             // a function or a symbol
    | Obj(ref: Ref)

  datatype Key = Name(name: string) | Symbol(id: nat)

  /** A data property, or an accessor and what reading it gives: none when it throws. */
  datatype Prop = Data(value: Value) | Accessor(read: Option<Value>)

  datatype Pair<K, V> = Pair(key: K, value: V)

  /**
   * One object. `extra` says that a list has a named property, or a map or a set any. A record's `slots` are the
   * `name`, `message` and `code` that an error reads through its prototype and a bare copy would not.
   */
  datatype Node =
    | List(items: seq<Value>, extra: bool)
    | Table(entries: seq<Pair<Value, Value>>, extra: bool)
    | Group(items: seq<Value>, extra: bool)
    | Record(isError: bool, fields: seq<Pair<Key, Prop>>, slots: seq<Pair<Key, Value>>)
    | Instance

  // ---------- texts ----------

  const REDACTED := "[redacted]"

  const TRANSPORT: set<string> :=
    {"$response", "$responseBodyText", "socket", "_httpMessage", "req", "request", "connection", "agent"}

  const SLOTS: set<string> := {"name", "message", "code"}

  /**
   * The redaction of a text, and whether a text is a credential's name: regular expressions, of which little is
   * needed.
   */
  datatype Texts = Texts(redact: string -> string, isName: string -> bool)

  predicate Marked(text: string) {
    '[' in text
  }

  /**
   * A text that redaction changes holds `[redacted]`, and a text with a bracket is no credential's name; nor are the
   * names an error's own text goes under.
   */
  ghost predicate Sound(texts: Texts) {
    && (forall s: string :: texts.redact(s) == s || Marked(texts.redact(s)))
    && (forall s: string :: texts.isName(s) ==> !Marked(s))
    && (forall s: string :: s in SLOTS || s == "stack" ==> !texts.isName(s))
  }

  /** A text the copy may show: one that redaction has produced. */
  ghost predicate Shown(texts: Texts, text: string) {
    text == REDACTED || exists s: string :: texts.redact(s) == text
  }

  // ---------- safe objects ----------

  predicate Nullish(v: Value) {
    v.Null? || v.Undefined?
  }

  /** What may stand under a credential's name. */
  predicate Harmless(v: Value) {
    Nullish(v) || v == Str(REDACTED)
  }

  predicate SpellsName(texts: Texts, v: Value) {
    v.Str? && texts.isName(v.text)
  }

  ghost predicate Plain(texts: Texts, v: Value) {
    !v.Live? && (v.Str? ==> Shown(texts, v.text))
  }

  /** The item follows a credential's name in a flat list of names and values. */
  predicate FollowsName(texts: Texts, items: seq<Value>, i: nat)
    requires i < |items|
  {
    i > 0 && SpellsName(texts, items[i - 1])
  }

  predicate IsName(texts: Texts, key: Key) {
    key.Name? && texts.isName(key.name)
  }

  /**
   * A field that may be kept: no transport, no accessor but an error's stack, nothing told under a credential's name.
   */
  ghost predicate SafeField(texts: Texts, isError: bool, f: Pair<Key, Prop>) {
    && !(f.key.Name? && f.key.name in TRANSPORT)
    && match f.value
       case Data(v) => Plain(texts, v) && (IsName(texts, f.key) ==> Harmless(v))
       case Accessor(read) => isError && f.key == Name("stack") && (read.Some? ==> Plain(texts, read.value))
  }

  /** An object that shows no credential and holds no transport. */
  ghost predicate Safe(texts: Texts, node: Node) {
    match node
    case List(items, extra) =>
      !extra && forall i :: 0 <= i < |items| ==>
        Plain(texts, items[i]) && (FollowsName(texts, items, i) ==> Harmless(items[i]))
    case Table(entries, extra) =>
      !extra && forall e <- entries ::
        Plain(texts, e.key) && Plain(texts, e.value) && (SpellsName(texts, e.key) ==> Harmless(e.value))
    case Group(items, extra) =>
      !extra && forall v <- items :: Plain(texts, v)
    case Record(isError, fields, slots) =>
      && (forall f <- fields :: SafeField(texts, isError, f))
      && (forall s <- slots :: Plain(texts, s.value))
    case Instance => false
  }

  // ---------- a credential beside its name ----------

  /** The fields whose text is a credential's name. */
  function Names(texts: Texts, fields: seq<Pair<Key, Prop>>): set<string> {
    set f <- fields | f.key.Name? && f.value.Data? && SpellsName(texts, f.value.value) :: f.key.name
  }

  /** Whether a field's name ends in `name`, and the name of the field its value would be under, in lower case. */
  predicate EndsInName(s: string) {
    |s| >= 4 && Lower(s[|s| - 4..]) == "name"
  }

  function ValueName(s: string): string
    requires |s| >= 4
  {
    Lower(s[..|s| - 4] + "value")
  }

  /**
   * Whether a record's field is beside a credential's name, and so redacted: on a plain record every field but the
   * names is, on an error only the `...Value` field of a `...Name` one.
   */
  predicate Beside(texts: Texts, isError: bool, fields: seq<Pair<Key, Prop>>, key: Key) {
    var names := Names(texts, fields);
    && key.Name? && names != {} && key.name !in names
    && (isError ==> exists n <- names :: EndsInName(n) && ValueName(n) == Lower(key.name))
  }

  /** No field of `fields` that is beside a credential's name in `original` holds a text or an object. */
  ghost predicate PairsHidden(texts: Texts, original: Node, fields: seq<Pair<Key, Prop>>)
    requires original.Record?
  {
    forall f <- fields :: f.value.Data? && Beside(texts, original.isError, original.fields, f.key) ==>
      Harmless(f.value.value) || f.value.value.Scalar?
  }

  // ---------- the same, outright ----------

  /** No value, or the mark of a redaction. */
  predicate Hushed(v: Value) {
    v == Null || v == Undefined || v == Str("[redacted]")
  }

  /** A number is never a credential. */
  predicate TellsNothing(v: Value) {
    Hushed(v) || v.Scalar?
  }

  /** The field is named, and its text is a credential's name. */
  predicate HoldsName(texts: Texts, f: Pair<Key, Prop>) {
    f.key.Name? && f.value.Data? && f.value.value.Str? && texts.isName(f.value.value.text)
  }

  predicate KeyHoldsName(texts: Texts, fields: seq<Pair<Key, Prop>>, key: Key) {
    exists f <- fields :: f.key == key && HoldsName(texts, f)
  }

  /** The two names are one with `name` and with `value` at its end, in any case. */
  ghost predicate Partners(name: string, value: string) {
    exists stem: string, ending: string ::
      name == stem + ending && Lower(ending) == "name" && Lower(value) == Lower(stem) + "value"
  }

  lemma LowerJoins(a: string, b: string)
    ensures Lower(a + b) == Lower(a) + Lower(b)
  {
  }

  lemma PartnersEnd(name: string, value: string)
    ensures Partners(name, value) <==> EndsInName(name) && ValueName(name) == Lower(value)
  {
    assert Lower("value") == "value";
    if EndsInName(name) {
      var (stem, ending) := (name[..|name| - 4], name[|name| - 4..]);
      assert name == stem + ending;
      LowerJoins(stem, "value");
    }
    if Partners(name, value) {
      var stem: string, ending: string :|
        name == stem + ending && Lower(ending) == "name" && Lower(value) == Lower(stem) + "value";
      assert |ending| == |Lower(ending)| == 4;
      assert name[..|name| - 4] == stem && name[|name| - 4..] == ending;
      LowerJoins(stem, "value");
    }
  }

  lemma NamesAreHeld(texts: Texts, fields: seq<Pair<Key, Prop>>)
    ensures forall n: string :: n in Names(texts, fields) <==> KeyHoldsName(texts, fields, Name(n))
  {
  }

  lemma HoldersAreNamed(texts: Texts, fields: seq<Pair<Key, Prop>>)
    ensures forall f <- fields :: HoldsName(texts, f) ==> f.key.Name?
  {
  }

  /**
   * A key is beside a credential's name exactly when some field holds one, its own does not, and, on an error, the one
   * that does is named as its partner.
   */
  lemma BesideExactly(texts: Texts, isError: bool, fields: seq<Pair<Key, Prop>>, key: Key)
    ensures Beside(texts, isError, fields, key) <==>
              && key.Name? && !KeyHoldsName(texts, fields, key)
              && exists f <- fields :: HoldsName(texts, f) && (isError ==> Partners(f.key.name, key.name))
  {
    NamesAreHeld(texts, fields);
    if key.Name? {
      forall n: string
        ensures Partners(n, key.name) <==> EndsInName(n) && ValueName(n) == Lower(key.name)
      {
        PartnersEnd(n, key.name);
      }
    }
    HoldersAreNamed(texts, fields);
    hide Partners, EndsInName, ValueName, Names, Lower, HoldsName;
    if Beside(texts, isError, fields, key) {
      var n :| n in Names(texts, fields) && (isError ==> EndsInName(n) && ValueName(n) == Lower(key.name));
      assert KeyHoldsName(texts, fields, Name(n));
    }
    if f :| && f in fields && f.key.Name? && HoldsName(texts, f)
            && (isError ==> key.Name? && Partners(f.key.name, key.name)) {
      assert KeyHoldsName(texts, fields, Name(f.key.name));
    }
  }

  /**
   * What is shown of a record tells nothing under a key whose partner holds a credential's name in the original, if
   * that is an error; in any other record, under no key, but those that hold such a name.
   */
  ghost predicate NamesTell(texts: Texts, original: Node, shown: seq<Pair<Key, Prop>>)
    requires original.Record?
  {
    forall n <- original.fields, f <- shown ::
      && HoldsName(texts, n) && f.key.Name? && f.value.Data? && !KeyHoldsName(texts, original.fields, f.key)
      && (original.isError ==> Partners(n.key.name, f.key.name))
      ==> TellsNothing(f.value.value)
  }

  lemma HiddenTellsNothing(texts: Texts, original: Node, shown: seq<Pair<Key, Prop>>)
    requires original.Record? && PairsHidden(texts, original, shown)
    ensures NamesTell(texts, original, shown)
  {
    hide Beside, KeyHoldsName, Partners;
    forall f <- shown
      ensures Beside(texts, original.isError, original.fields, f.key) <==>
                && f.key.Name? && !KeyHoldsName(texts, original.fields, f.key)
                && exists n <- original.fields ::
                     HoldsName(texts, n) && (original.isError ==> Partners(n.key.name, f.key.name))
    {
      BesideExactly(texts, original.isError, original.fields, f.key);
    }
  }

  /**
   * No text but what redaction made, nothing live, no transport, and nothing told under or after a credential's name.
   */
  ghost predicate ShowsNoCredential(texts: Texts, node: Node) {
    match node
    case List(items, _) =>
      && (forall v <- items :: IsClean(texts, v))
      && forall i :: 0 < i < |items| && items[i - 1].Str? && texts.isName(items[i - 1].text) ==> Hushed(items[i])
    case Table(entries, _) =>
      forall e <- entries ::
        && IsClean(texts, e.key) && IsClean(texts, e.value)
        && (e.key.Str? && texts.isName(e.key.text) ==> Hushed(e.value))
    case Group(items, _) => forall v <- items :: IsClean(texts, v)
    case Record(_, fields, slots) =>
      && (forall f <- fields ::
            && f.key !in {Name("$response"), Name("$responseBodyText"), Name("socket"), Name("_httpMessage"),
                          Name("req"), Name("request"), Name("connection"), Name("agent")}
            && (f.value.Data? ==> IsClean(texts, f.value.value))
            && (f.value.Data? && f.key.Name? && texts.isName(f.key.name) ==> Hushed(f.value.value)))
      && (forall s <- slots :: IsClean(texts, s.value))
    case Instance => false
  }

  ghost predicate IsClean(texts: Texts, v: Value) {
    !v.Live? && (v.Str? ==> v.text == "[redacted]" || exists s: string :: texts.redact(s) == v.text)
  }

  lemma SafeShows(texts: Texts, node: Node)
    requires Safe(texts, node)
    ensures ShowsNoCredential(texts, node)
  {
    if node.Record? {
      forall f <- node.fields
        ensures f.key !in {Name("$response"), Name("$responseBodyText"), Name("socket"), Name("_httpMessage"),
                           Name("req"), Name("request"), Name("connection"), Name("agent")}
      {
        assert SafeField(texts, node.isError, f);
      }
    }
  }

  // ---------- references ----------

  function FieldValues(fields: seq<Pair<Key, Prop>>): seq<Value> {
    if fields == [] then []
    else
      FieldValues(fields[..|fields| - 1]) +
      match fields[|fields| - 1].value
      case Data(v) => [v]
      case Accessor(read) => if read.Some? then [read.value] else []
  }

  /** Everything an object holds. */
  function Values(node: Node): seq<Value> {
    match node
    case List(items, _) => items
    case Table(entries, _) => seq(|entries|, i requires 0 <= i < |entries| => entries[i].key)
                              + seq(|entries|, i requires 0 <= i < |entries| => entries[i].value)
    case Group(items, _) => items
    case Record(_, fields, slots) => FieldValues(fields) + seq(|slots|, i requires 0 <= i < |slots| => slots[i].value)
    case Instance => []
  }

  predicate RefersTo(node: Node, r: Ref) {
    Obj(r) in Values(node)
  }

  /** A way through the heap, from one object to the next it refers to. */
  predicate IsPath(heap: map<Ref, Node>, from: Ref, path: seq<Ref>) {
    && path != [] && path[0] == from
    && (forall r <- path :: r in heap)
    && forall i :: 0 <= i < |path| - 1 ==> RefersTo(heap[path[i]], path[i + 1])
  }

  /** An object that is not one of `inside` is out of reach of a set that refers only to itself. */
  lemma {:induction false} PathStaysInside(heap: map<Ref, Node>, from: Ref, path: seq<Ref>, inside: set<Ref>)
    requires IsPath(heap, from, path) && from in inside
    requires forall r, s :: r in inside && r in heap && RefersTo(heap[r], s) ==> s in inside
    ensures path[|path| - 1] in inside
    decreases |path|
  {
    if |path| > 1 {
      var before := path[..|path| - 1];
      assert RefersTo(heap[path[|path| - 2]], path[|path| - 2 + 1]);
      PathStaysInside(heap, from, before, inside);
    }
  }

  /** What every heap of objects keeps: references lead to objects, and keys are not repeated. */
  ghost predicate WellFormed(heap: map<Ref, Node>) {
    && (forall r, s :: r in heap && RefersTo(heap[r], s) ==> s in heap)
    && (forall r <- heap :: KeysAreDistinct(heap[r]))
  }

  predicate KeysAreDistinct(node: Node) {
    match node
    case Table(entries, _) => forall i, j :: 0 <= i < j < |entries| ==> entries[i].key != entries[j].key
    case Record(_, fields, slots) =>
      && (forall i, j :: 0 <= i < j < |fields| ==> fields[i].key != fields[j].key)
      && (forall s <- slots :: s.key.Name? && s.key.name in SLOTS && forall f <- fields :: f.key != s.key)
      && (forall i, j :: 0 <= i < j < |slots| ==> slots[i].key != slots[j].key)
    case _ => true
  }

  // ---------- assignment by key ----------

  /** Define a property or a map's entry: the one under the key is replaced, a new one comes last. */
  function Put<K(==), V>(pairs: seq<Pair<K, V>>, key: K, value: V): (put: seq<Pair<K, V>>)
    ensures Pair(key, value) in put
    ensures forall p <- put :: p == Pair(key, value) || p in pairs
    ensures forall p <- pairs :: p.key != key ==> p in put
  {
    if pairs == [] then [Pair(key, value)]
    else if pairs[0].key == key then [Pair(key, value)] + pairs[1..]
    else [pairs[0]] + Put(pairs[1..], key, value)
  }
}
