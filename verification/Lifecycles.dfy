/**
 * What a bucket's lifecycle rules mean for a store under a prefix. The checks compare the rule's prefixes and
 * suffixes with the store's as texts; what they are for is whether some name of the store's is met by a rule. The two
 * agree exactly.
 */
module Lifecycles {

  import opened Bytes
  import opened Text

  predicate PrefixRelated(a: string, b: string) {
    StartsWith(a, b) || StartsWith(b, a)
  }

  predicate SuffixRelated(a: string, b: string) {
    EndsWith(a, b) || EndsWith(b, a)
  }

  function Longer(a: string, b: string): string {
    if |a| < |b| then b else a
  }

  /** Two texts start, and two end, one name exactly when they are related: the longer two, joined, are such a name. */
  lemma Related(p: string, q: string, s: string, t: string)
    ensures PrefixRelated(p, q) && SuffixRelated(s, t) ==>
              var name := Longer(p, q) + Longer(s, t);
              StartsWith(name, p) && StartsWith(name, q) && EndsWith(name, s) && EndsWith(name, t)
    ensures forall name :: StartsWith(name, p) && StartsWith(name, q) ==> PrefixRelated(p, q)
    ensures forall name :: EndsWith(name, s) && EndsWith(name, t) ==> SuffixRelated(s, t)
  {
    if PrefixRelated(p, q) && SuffixRelated(s, t) {
      var name := Longer(p, q) + Longer(s, t);
      EndsToo(Longer(p, q), Longer(s, t), s);
      EndsToo(Longer(p, q), Longer(s, t), t);
    }
    forall name | EndsWith(name, s) && EndsWith(name, t)
      ensures SuffixRelated(s, t)
    {
      if |s| <= |t| {
        assert name[|name| - |s|..] == name[|name| - |t|..][|t| - |s|..];
      } else {
        assert name[|name| - |t|..] == name[|name| - |s|..][|s| - |t|..];
      }
    }
  }

  lemma EndsToo(front: string, back: string, suffix: string)
    ensures EndsWith(back, suffix) ==> EndsWith(front + back, suffix)
  {
    if EndsWith(back, suffix) {
      assert (front + back)[|front + back| - |suffix|..] == back[|back| - |suffix|..];
    }
  }

  /** A prefix reaches a name of the store's and one that is not. */
  ghost predicate ReachesBoth(own: string, prefix: string) {
    && (exists name :: StartsWith(name, own) && StartsWith(name, prefix))
    && exists name :: StartsWith(name, own) && !StartsWith(name, prefix)
  }

  /**
   * Related prefixes: of the names that start with the one, some do not start with the other exactly if it is longer.
   */
  lemma BothOrInside(own: string, prefix: string)
    ensures ReachesBoth(own, prefix) <==> PrefixRelated(own, prefix) && !StartsWith(own, prefix)
  {
    Related(own, prefix, "", "");
    assert StartsWith(own, own);
    if PrefixRelated(own, prefix) {
      assert StartsWith(Longer(own, prefix), own) && StartsWith(Longer(own, prefix), prefix);
    }
  }

  // ---------- GCS ----------

  const SAFE_ACTIONS: set<string> := {"SetStorageClass", "AbortIncompleteMultipartUpload"}

  /** The suffixes of every name the store writes. */
  const NAME_SUFFIXES: seq<string> := [".crbm", ".reg"]

  /** The condition `numNewerVersions`, when it is a number. */
  datatype Newer = Absent | Number(n: int) | OfAnotherType

  datatype GcsRule =
    | NoRule
    | GcsRule(action: Option<string>, isLive: Option<bool>, noncurrentOnly: bool, newer: Newer,
              prefixes: seq<string>, suffixes: seq<string>)

  /** Whether the rule may delete, and live objects may meet what it asks besides a name. */
  predicate MayDeleteLive(rule: GcsRule) {
    && rule.GcsRule?
    && !(rule.action.Some? && rule.action.value in SAFE_ACTIONS)
    && rule.isLive != Some(false) && !rule.noncurrentOnly
    && (rule.newer.Number? ==> rule.newer.n < 1)
  }

  /** A live object has no newer version and no time at which it became noncurrent. */
  predicate LiveMeets(isLive: Option<bool>, noncurrentOnly: bool, newer: Newer) {
    isLive != Some(false) && !noncurrentOnly && match newer case Number(n) => 0 >= n case _ => true
  }

  /** A rule may delete a live object unless its action is one of the two that are safe, or no live object meets it. */
  lemma DeletesLiveExactly(rule: GcsRule)
    ensures MayDeleteLive(rule) <==>
              && rule.GcsRule? && LiveMeets(rule.isLive, rule.noncurrentOnly, rule.newer)
              && rule.action != Some("SetStorageClass") && rule.action != Some("AbortIncompleteMultipartUpload")
  {
  }

  /** The store's names end in one of two ways. */
  lemma OursByName(name: string, prefix: string)
    ensures IsOurs(name, prefix) <==> StartsWith(name, prefix) && (EndsWith(name, ".crbm") || EndsWith(name, ".reg"))
  {
    assert NAME_SUFFIXES[0] in NAME_SUFFIXES && NAME_SUFFIXES[1] in NAME_SUFFIXES;
  }

  predicate DeletesOurs(rule: GcsRule, prefix: string) {
    && MayDeleteLive(rule)
    && (rule.prefixes != [] ==> exists p <- rule.prefixes :: PrefixRelated(p, prefix))
    && (rule.suffixes != [] ==> exists s <- rule.suffixes :: exists ours <- NAME_SUFFIXES :: SuffixRelated(s, ours))
  }

  /** A name the store may write. */
  predicate IsOurs(name: string, prefix: string) {
    StartsWith(name, prefix) && exists ours <- NAME_SUFFIXES :: EndsWith(name, ours)
  }

  /** A name the rule meets. */
  predicate Meets(rule: GcsRule, name: string)
    requires rule.GcsRule?
  {
    && (rule.prefixes != [] ==> exists p <- rule.prefixes :: StartsWith(name, p))
    && (rule.suffixes != [] ==> exists s <- rule.suffixes :: EndsWith(name, s))
  }

  /** `judgeMetadata` finds a problem. */
  predicate GcsProblem(rules: seq<GcsRule>, prefix: string) {
    exists rule <- rules :: DeletesOurs(rule, prefix)
  }

  /** A rule is found exactly when it may delete live objects and some name of the store's meets it. */
  lemma DeletesSomeName(rule: GcsRule, prefix: string)
    ensures DeletesOurs(rule, prefix) <==>
              MayDeleteLive(rule) && exists name :: IsOurs(name, prefix) && Meets(rule, name)
  {
    if DeletesOurs(rule, prefix) {
      var p := prefix;
      if rule.prefixes != [] {
        p :| p in rule.prefixes && PrefixRelated(p, prefix);
      }
      var s, ours := ".crbm", ".crbm";
      if rule.suffixes != [] {
        s :| s in rule.suffixes && exists ours <- NAME_SUFFIXES :: SuffixRelated(s, ours);
        ours :| ours in NAME_SUFFIXES && SuffixRelated(s, ours);
      } else {
        assert NAME_SUFFIXES[0] == ours;
      }
      Related(p, prefix, s, ours);
      var name := Longer(p, prefix) + Longer(s, ours);
      assert IsOurs(name, prefix) && Meets(rule, name);
    }
    if MayDeleteLive(rule) && exists name :: IsOurs(name, prefix) && Meets(rule, name) {
      var name :| IsOurs(name, prefix) && Meets(rule, name);
      if rule.prefixes != [] {
        var p :| p in rule.prefixes && StartsWith(name, p);
        Related(p, prefix, "", "");
      }
      if rule.suffixes != [] {
        var s :| s in rule.suffixes && EndsWith(name, s);
        var ours :| ours in NAME_SUFFIXES && EndsWith(name, ours);
        Related("", "", s, ours);
      }
    }
  }

  /** The verdict is a problem exactly when a rule that may delete live objects meets a name the store may write. */
  lemma GcsProblemIsReal(rules: seq<GcsRule>, prefix: string)
    ensures GcsProblem(rules, prefix) <==>
              exists rule <- rules :: MayDeleteLive(rule) && exists name :: IsOurs(name, prefix) && Meets(rule, name)
  {
    forall rule <- rules
      ensures DeletesOurs(rule, prefix) <==>
                MayDeleteLive(rule) && exists name :: IsOurs(name, prefix) && Meets(rule, name)
    {
      DeletesSomeName(rule, prefix);
    }
    hide DeletesOurs, MayDeleteLive, IsOurs, Meets;
  }

  /** Whether narrowing the rule's prefixes cannot exclude the store. */
  predicate GcsSitsInside(rule: GcsRule, prefix: string)
    requires rule.GcsRule?
  {
    prefix != "" && rule.prefixes != [] && !exists p <- rule.prefixes :: p != prefix && StartsWith(prefix, p)
  }

  /**
   * A rule sits inside exactly when the store leaves some name alone, the rule names prefixes, and each of them reaches
   * names of the store's alone or none of them. One beside the store's does not count against it.
   */
  lemma GcsInsideIsInside(rule: GcsRule, prefix: string)
    requires rule.GcsRule?
    ensures GcsSitsInside(rule, prefix) <==>
              && (exists name :: !StartsWith(name, prefix))
              && rule.prefixes != [] && forall p <- rule.prefixes :: !ReachesBoth(p, prefix)
  {
    forall p <- rule.prefixes
      ensures prefix != "" ==> (p != prefix && StartsWith(prefix, p) <==> ReachesBoth(p, prefix))
    {
      BothOrInside(p, prefix);
    }
    if prefix != "" {
      assert !StartsWith("", prefix);
    }
  }

  /** So a rule sits inside though a prefix of it is neither the store's nor within it. */
  lemma BesideIsInsideToo()
    ensures var rule := GcsRule(None, None, false, Absent, ["a/", "b/"], []);
            && MayDeleteLive(rule) && GcsSitsInside(rule, "a/")
            && !StartsWith(rule.prefixes[1], "a/") && !ReachesBoth(rule.prefixes[1], "a/")
  {
    BothOrInside("b/", "a/");
    assert "b/"[0] != "a/"[0];
    var prefixes := ["a/", "b/"];
    assert forall p <- prefixes :: p == "a/" || p == "b/";
  }

  // ---------- S3 ----------

  const READABLE_CLASSES: set<string> := {"STANDARD", "STANDARD_IA", "ONEZONE_IA", "GLACIER_IR", "INTELLIGENT_TIERING"}
  const ARCHIVE_CLASSES: set<string> := {"GLACIER", "DEEP_ARCHIVE"}

  /**
   * A rule; its prefix and its tags may stand in the filter, in the filter's `And`, or, the prefix, beside the
   * filter.
   */
  datatype S3Rule = S3Rule(
    disabled: bool,
    filterPrefix: Option<string>, andPrefix: Option<string>, ownPrefix: Option<string>,
    filterTag: bool, andTags: nat,
    expires: bool,                              // `Days` or `Date`
    transitions: seq<Option<string>>)           // the storage class of each

  function RulePrefix(rule: S3Rule): string {
    if rule.filterPrefix.Some? then rule.filterPrefix.value
    else if rule.andPrefix.Some? then rule.andPrefix.value
    else if rule.ownPrefix.Some? then rule.ownPrefix.value
    else ""
  }

  /**
   * A key the rule is for: under the filter's prefix if it has one, else under that in its `And`, else under its own.
   */
  predicate Reaches(rule: S3Rule, key: string) {
    && (rule.filterPrefix.Some? ==> StartsWith(key, rule.filterPrefix.value))
    && (rule.filterPrefix.None? && rule.andPrefix.Some? ==> StartsWith(key, rule.andPrefix.value))
    && (rule.filterPrefix.None? && rule.andPrefix.None? && rule.ownPrefix.Some? ==>
          StartsWith(key, rule.ownPrefix.value))
  }

  /** A rule without any prefix is for every key. */
  lemma ReachesByPrefix(rule: S3Rule, key: string)
    ensures Reaches(rule, key) <==> StartsWith(key, RulePrefix(rule))
  {
  }

  predicate HasTagFilter(rule: S3Rule) {
    rule.filterTag || rule.andTags > 0
  }

  datatype Threat = Expires | Archives(archive: string) | MovesTo(unknown: Option<string>)

  function FirstArchive(transitions: seq<Option<string>>): Option<string> {
    if transitions == [] then None
    else if transitions[0].Some? && transitions[0].value in ARCHIVE_CLASSES then transitions[0]
    else FirstArchive(transitions[1..])
  }

  function FirstUnknown(transitions: seq<Option<string>>): Option<Option<string>> {
    if transitions == [] then None
    else if transitions[0].None? || transitions[0].value !in READABLE_CLASSES then Some(transitions[0])
    else FirstUnknown(transitions[1..])
  }

  /** How a rule threatens current objects, if it does. */
  function HowThreatens(rule: S3Rule): Option<Threat> {
    if rule.expires then Some(Expires)
    else
      var archive := FirstArchive(rule.transitions);
      if archive.Some? then Some(Archives(archive.value))
      else
        var unknown := FirstUnknown(rule.transitions);
        if unknown.Some? then Some(MovesTo(unknown.value)) else None
  }

  /** A storage class an object can be read from at once. */
  predicate IsReadable(storageClass: Option<string>) {
    storageClass.Some? && storageClass.value in READABLE_CLASSES
  }

  /** The classes whose objects a read gets at once, and the two whose must be restored first. */
  lemma ClassesByName()
    ensures IsReadable(Some("STANDARD")) && IsReadable(Some("STANDARD_IA")) && IsReadable(Some("ONEZONE_IA"))
    ensures IsReadable(Some("GLACIER_IR")) && IsReadable(Some("INTELLIGENT_TIERING"))
    ensures !IsReadable(Some("GLACIER")) && !IsReadable(Some("DEEP_ARCHIVE")) && !IsReadable(None)
  {
  }

  lemma ArchivesAreUnreadable()
    ensures forall c <- ARCHIVE_CLASSES :: c !in READABLE_CLASSES
  {
    assert forall c <- ARCHIVE_CLASSES :: |c| == 7 || |c| == 12;
    assert forall c <- READABLE_CLASSES :: |c| != 7 && |c| != 12;
  }

  lemma {:induction false} FirstsAreThere(transitions: seq<Option<string>>)
    ensures FirstArchive(transitions).Some? ==> exists c <- transitions :: !IsReadable(c)
    ensures FirstUnknown(transitions).Some? <==> exists c <- transitions :: !IsReadable(c)
  {
    ArchivesAreUnreadable();
    hide ARCHIVE_CLASSES, READABLE_CLASSES;
    if transitions != [] {
      FirstsAreThere(transitions[1..]);
      assert forall c <- transitions :: c == transitions[0] || c in transitions[1..];
      assert transitions[0] in transitions && forall c <- transitions[1..] :: c in transitions;
    }
  }

  /** A rule threatens exactly when it expires objects, or moves them to a class they cannot be read from at once. */
  lemma ThreatensOutright(rule: S3Rule)
    ensures HowThreatens(rule).Some? <==> rule.expires || exists c <- rule.transitions :: !IsReadable(c)
  {
    FirstsAreThere(rule.transitions);
  }

  predicate IsThreat(rule: S3Rule, prefix: string) {
    !rule.disabled && PrefixRelated(RulePrefix(rule), prefix) && !HasTagFilter(rule) && HowThreatens(rule).Some?
  }

  /** `judgeRules` finds a problem. */
  predicate S3Problem(rules: seq<S3Rule>, prefix: string) {
    exists rule <- rules :: IsThreat(rule, prefix)
  }

  /** A rule that is in force, asks for no tag, and takes objects from where they can be read at once. */
  predicate TakesCurrent(rule: S3Rule) {
    && !rule.disabled && !rule.filterTag && rule.andTags == 0
    && (rule.expires || exists c <- rule.transitions :: !IsReadable(c))
  }

  /** The verdict is a problem exactly when such a rule and the store have a key in common. */
  lemma S3ProblemIsReal(rules: seq<S3Rule>, prefix: string)
    ensures S3Problem(rules, prefix) <==>
              exists rule <- rules ::
                TakesCurrent(rule) && exists key :: Reaches(rule, key) && StartsWith(key, prefix)
  {
    forall rule <- rules
      ensures IsThreat(rule, prefix) <==>
                TakesCurrent(rule) && exists key :: Reaches(rule, key) && StartsWith(key, prefix)
    {
      ThreatensOutright(rule);
      var own := RulePrefix(rule);
      Related(own, prefix, "", "");
      forall key: string
        ensures Reaches(rule, key) <==> StartsWith(key, own)
      {
        ReachesByPrefix(rule, key);
      }
      if PrefixRelated(own, prefix) {
        assert Reaches(rule, Longer(own, prefix)) && StartsWith(Longer(own, prefix), prefix);
      }
    }
    hide IsThreat, TakesCurrent, RulePrefix, Reaches;
  }

  /** Whether narrowing the rule cannot exclude the store. */
  predicate SitsInside(rule: S3Rule, prefix: string) {
    prefix != "" && StartsWith(RulePrefix(rule), prefix)
  }

  /** A rule sits inside exactly when the store leaves some key alone and every key the rule reaches is the store's. */
  lemma InsideIsInside(rule: S3Rule, prefix: string)
    ensures SitsInside(rule, prefix) <==>
              && (exists key :: !StartsWith(key, prefix))
              && forall key :: StartsWith(key, RulePrefix(rule)) ==> StartsWith(key, prefix)
  {
    assert StartsWith(RulePrefix(rule), RulePrefix(rule));
    if prefix != "" {
      assert !StartsWith("", prefix);
    }
  }

  /** The advice of a problem is to narrow a rule that threatens. */
  predicate AdvisesNarrowing(rules: seq<S3Rule>, prefix: string) {
    prefix != "" && exists rule <- rules :: IsThreat(rule, prefix) && !SitsInside(rule, prefix)
  }

  /** To narrow a rule is advised exactly when some threatening rule reaches keys of the store's and others. */
  lemma NarrowingIsPossible(rules: seq<S3Rule>, prefix: string)
    ensures AdvisesNarrowing(rules, prefix) <==>
              exists rule <- rules :: TakesCurrent(rule) && ReachesBoth(RulePrefix(rule), prefix)
  {
    forall rule <- rules
      ensures prefix != "" && IsThreat(rule, prefix) && !SitsInside(rule, prefix) <==>
                TakesCurrent(rule) && ReachesBoth(RulePrefix(rule), prefix)
    {
      ThreatensOutright(rule);
      BothOrInside(RulePrefix(rule), prefix);
    }
    hide IsThreat, TakesCurrent, RulePrefix, SitsInside, ReachesBoth;
  }
}
