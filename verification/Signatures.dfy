/**
 * The scanner that takes signatures out of a text: after each `Signature=`, also percent-encoded, a run of sixteen or
 * more of the characters a signature is written in is replaced. It reads the text once, and after it no such run is
 * left.
 */
module Signatures {

  import opened Text

  const REDACTED := "[redacted]"
  const PLAIN := "signature="
  const ENCODED := "signature%3d"
  const SHORTEST: nat := 16

  predicate MatchesAt(s: string, p: nat, pattern: string) {
    p + |pattern| <= |s| && forall i :: 0 <= i < |pattern| ==> LowerChar(s[p + i]) == pattern[i]
  }

  /** How long the name at `p` is; nothing when there is none. */
  function NameLength(s: string, p: nat): nat {
    if MatchesAt(s, p, PLAIN) then |PLAIN| else if MatchesAt(s, p, ENCODED) then |ENCODED| else 0
  }

  predicate InSignature(c: char) {
    'A' <= c <= 'Z' || 'a' <= c <= 'z' || '0' <= c <= '9' || c in "+/=_.-"
  }

  /** A character of a run: one a signature is written in, or the start of an encoded one, but not of an encoded `&`. */
  predicate InRun(s: string, i: nat)
    requires i < |s|
  {
    InSignature(s[i]) || (s[i] == '%' && !(i + 3 <= |s| && s[i + 1] == '2' && s[i + 2] == '6'))
  }

  /** Where the run from `i` on ends. */
  function RunEnd(s: string, i: nat): (end: nat)
    requires i <= |s|
    ensures i <= end <= |s|
    ensures forall j :: i <= j < end ==> InRun(s, j)
    ensures end < |s| ==> !InRun(s, end)
    decreases |s| - i
  {
    if i < |s| && InRun(s, i) then RunEnd(s, i + 1) else i
  }

  /** A name at `p` with a signature after it. */
  predicate Shows(s: string, p: nat) {
    NameLength(s, p) > 0 && RunEnd(s, p + NameLength(s, p)) - (p + NameLength(s, p)) >= SHORTEST
  }

  // ---------- names and runs ----------

  /** The two spellings begin with their only `s`, and hold nothing but what a run does. */
  lemma Spellings()
    ensures forall i :: 0 < i < |PLAIN| ==> PLAIN[i] != 's'
    ensures forall i :: 0 < i < |ENCODED| ==> ENCODED[i] != 's'
    ensures forall i :: 0 <= i < |PLAIN| ==> 'a' <= PLAIN[i] <= 'z' || PLAIN[i] == '='
    ensures forall i :: 0 <= i < |ENCODED| ==>
              'a' <= ENCODED[i] <= 'z' || ENCODED[i] == '3' || (i == 9 && ENCODED[i] == '%')
    ensures PLAIN[0] == 's' && ENCODED[0] == 's' && ENCODED[9..] == "%3d"
  {
  }

  /** No name starts within another. */
  lemma NamesStayApart(s: string, p: nat, q: nat)
    requires NameLength(s, p) > 0 && p < q < p + NameLength(s, p)
    ensures NameLength(s, q) == 0
  {
    Spellings();
    hide PLAIN, ENCODED;
    var i := q - p;
    if MatchesAt(s, p, PLAIN) {
      assert LowerChar(s[p + i]) == PLAIN[i];
    } else {
      assert LowerChar(s[p + i]) == ENCODED[i];
    }
    StartsWithS(s, q);
  }

  lemma StartsWithS(s: string, p: nat)
    ensures NameLength(s, p) > 0 ==> p < |s| && LowerChar(s[p]) == 's'
  {
    Spellings();
    if NameLength(s, p) > 0 {
      assert MatchesAt(s, p, PLAIN) || MatchesAt(s, p, ENCODED);
      assert LowerChar(s[p + 0]) == 's';
    }
  }

  /** The characters of a name are a run's. */
  lemma NameIsInRun(s: string, p: nat, i: nat)
    requires NameLength(s, p) > 0 && p <= i < p + NameLength(s, p)
    ensures InRun(s, i)
  {
    Spellings();
    if MatchesAt(s, p, PLAIN) {
      assert LowerChar(s[p + (i - p)]) == PLAIN[i - p];
    } else {
      assert LowerChar(s[p + (i - p)]) == ENCODED[i - p];
      assert LowerChar(s[p + 10]) == ENCODED[10] == '3';
    }
  }

  lemma {:induction false} RunEndsAlike(s: string, i: nat, j: nat)
    requires i <= |s| && i <= j <= RunEnd(s, i)
    ensures RunEnd(s, j) == RunEnd(s, i)
    decreases j - i
  {
    if i < j {
      RunEndsAlike(s, i + 1, j);
    }
  }

  /** A name in a run shows no more than the run does. */
  lemma NameInAShortRun(s: string, start: nat, q: nat)
    requires start <= |s| && start <= q < RunEnd(s, start) && RunEnd(s, start) - start < SHORTEST
    ensures !Shows(s, q)
  {
    var (end, n) := (RunEnd(s, start), NameLength(s, q));
    if n > 0 {
      if q + n > end {
        NameIsInRun(s, q, end);
      }
      RunEndsAlike(s, start, q + n);
    }
  }

  /** Two texts that agree up to a place where the first one's run stops: no run of the first is longer. */
  lemma {:induction false} RunStops(s: string, t: string, i: nat, stop: nat)
    requires i <= stop <= |t| && stop < |s| && !InRun(s, stop)
    requires forall j :: i <= j < stop ==> j < |s| && (InRun(s, j) ==> InRun(t, j))
    ensures RunEnd(s, i) <= stop && RunEnd(s, i) <= RunEnd(t, i)
    decreases stop - i
  {
    if i < stop && InRun(s, i) {
      RunStops(s, t, i + 1, stop);
    }
  }

  lemma SameMatches(s: string, i: nat, t: string, j: nat, pattern: string)
    requires i <= |s| && j <= |t| && s[i..] == t[j..]
    ensures MatchesAt(s, i, pattern) == MatchesAt(t, j, pattern)
  {
    assert |s| - i == |t| - j;
    forall a | i <= a < |s|
      ensures s[a] == t[j + a - i]
    {
      assert s[i..][a - i] == t[j..][a - i];
    }
  }

  /** What a name and a run are does not depend on what comes before. */
  lemma {:induction false} Shifts(a: string, x: string, d: nat)
    requires d <= |x|
    ensures NameLength(a + x, |a| + d) == NameLength(x, d)
    ensures RunEnd(a + x, |a| + d) == |a| + RunEnd(x, d)
    decreases |x| - d
  {
    var s := a + x;
    assert s[|a| + d..] == x[d..];
    SameMatches(s, |a| + d, x, d, PLAIN);
    SameMatches(s, |a| + d, x, d, ENCODED);
    if d < |x| {
      assert InRun(s, |a| + d) == InRun(x, d);
      Shifts(a, x, d + 1);
    }
  }

  // ---------- one cut ----------

  /** The text with the run after the name at `p` replaced. */
  function Cut(s: string, p: nat): string
    requires p < |s| && NameLength(s, p) > 0
  {
    var stop := p + NameLength(s, p);
    s[..stop] + REDACTED + s[RunEnd(s, stop)..]
  }

  lemma Brackets(s: string, p: nat)
    requires p < |s| && NameLength(s, p) > 0
    ensures var (t, stop) := (Cut(s, p), p + NameLength(s, p));
            && |t| >= stop + |REDACTED| && (forall j :: 0 <= j < stop ==> t[j] == s[j])
            && t[stop] == '[' && !InRun(t, stop)
            && forall j :: stop <= j < stop + |REDACTED| ==> LowerChar(t[j]) != 's'
  {
    var (t, stop) := (Cut(s, p), p + NameLength(s, p));
    hide NameLength, RunEnd;
    assert t[..stop] == s[..stop] && t[stop..stop + |REDACTED|] == REDACTED;
    forall j | stop <= j < stop + |REDACTED|
      ensures t[j] == REDACTED[j - stop]
    {
      assert t[j] == t[stop..stop + |REDACTED|][j - stop];
    }
    NoSInBrackets();
  }

  lemma NoSInBrackets()
    ensures REDACTED[0] == '[' && forall j :: 0 <= j < |REDACTED| ==> LowerChar(REDACTED[j]) != 's'
  {
  }

  /** A name does not end in what may begin an encoded character. */
  lemma NameEnds(s: string, p: nat)
    requires NameLength(s, p) > 0
    ensures p + NameLength(s, p) <= |s| && NameLength(s, p) >= 2
    ensures s[p + NameLength(s, p) - 1] != '%' && s[p + NameLength(s, p) - 2] != '%'
  {
    if MatchesAt(s, p, PLAIN) {
      assert LowerChar(s[p + 9]) == PLAIN[9] && LowerChar(s[p + 8]) == PLAIN[8];
    } else {
      assert LowerChar(s[p + 11]) == ENCODED[11] && LowerChar(s[p + 10]) == ENCODED[10];
    }
  }

  lemma NamesWithin(s: string, t: string, p: nat, stop: nat)
    requires stop <= |s| && stop <= |t| && forall j :: 0 <= j < stop ==> t[j] == s[j]
    requires NameLength(t, p) > 0 && p + NameLength(t, p) <= stop
    ensures NameLength(s, p) == NameLength(t, p)
  {
  }

  /** A cut leaves no signature shown before its end, if none was before its name. */
  lemma CutShowsNothing(s: string, p: nat, q: nat)
    requires p < |s| && NameLength(s, p) > 0 && forall i :: 0 <= i < p ==> !Shows(s, i)
    requires q < p + NameLength(s, p) + |REDACTED|
    ensures !Shows(Cut(s, p), q)
  {
    var (t, stop) := (Cut(s, p), p + NameLength(s, p));
    Brackets(s, p);
    NameEnds(s, p);
    var n := NameLength(t, q);
    hide Cut, NameLength;
    if n > 0 {
      if stop < q {
        StartsWithS(t, q);
      } else if q + n > stop {
        NameIsInRun(t, q, stop);
      } else {
        NamesWithin(s, t, q, stop);
        if p < q {
          NamesStayApart(s, p, q);
        } else if q < p {
          assert !Shows(s, q);
          forall j | q + n <= j < stop && InRun(t, j)
            ensures InRun(s, j)
          {
          }
          RunStops(t, s, q + n, stop);
        }
      }
    }
  }

  // ---------- one step of the scan ----------

  lemma SameFrom(s: string, i: nat, t: string, j: nat, d: nat)
    requires i <= |s| && j <= |t| && s[i..] == t[j..] && d <= |s| - i
    ensures NameLength(s, i + d) == NameLength(t, j + d) && RunEnd(s, i + d) - i == RunEnd(t, j + d) - j
  {
    hide NameLength, RunEnd;
    assert s == s[..i] + s[i..] && t == t[..j] + t[j..];
    Shifts(s[..i], s[i..], d);
    Shifts(t[..j], t[j..], d);
  }

  /** Nothing is shown before the next name: what is scanned at `at` of the text is at `c` of what is made of it. */
  lemma NothingBefore(whole: string, c: nat, text: string, at: nat, m: nat)
    requires c <= |whole| && at <= |text| && whole[c..] == text[at..] && at <= m <= |text|
    requires forall p :: 0 <= p < c ==> !Shows(whole, p)
    requires forall i :: at <= i < m ==> NameLength(text, i) == 0
    ensures forall p :: 0 <= p < c + (m - at) ==> !Shows(whole, p)
  {
    forall p | c <= p < c + (m - at)
      ensures !Shows(whole, p)
    {
      SameFrom(whole, c, text, at, p - c);
    }
  }

  /** Nor in a short run, or the name before it. */
  lemma NothingInAShortRun(whole: string, p: nat)
    requires NameLength(whole, p) > 0 && p + NameLength(whole, p) <= |whole|
    requires forall i :: 0 <= i < p ==> !Shows(whole, i)
    requires RunEnd(whole, p + NameLength(whole, p)) - (p + NameLength(whole, p)) < SHORTEST
    ensures forall i :: 0 <= i < RunEnd(whole, p + NameLength(whole, p)) ==> !Shows(whole, i)
  {
    var start := p + NameLength(whole, p);
    forall i | p <= i < RunEnd(whole, start)
      ensures !Shows(whole, i)
    {
      if p < i < start {
        NamesStayApart(whole, p, i);
      } else if start <= i {
        NameInAShortRun(whole, start, i);
      }
    }
  }

  lemma NothingBeforeTheCut(whole: string, p: nat)
    requires p < |whole| && NameLength(whole, p) > 0 && forall i :: 0 <= i < p ==> !Shows(whole, i)
    ensures forall q :: 0 <= q < p + NameLength(whole, p) + |REDACTED| ==> !Shows(Cut(whole, p), q)
  {
    forall q | 0 <= q < p + NameLength(whole, p) + |REDACTED|
      ensures !Shows(Cut(whole, p), q)
    {
      CutShowsNothing(whole, p, q);
    }
  }

  // ---------- the same, outright ----------

  /** `Signature=`, or with its equals sign encoded, each letter in either case. */
  predicate SpellsSignature(name: string) {
    || (|name| == 10 && forall i :: 0 <= i < 10 ==> name[i] == "signature="[i] || name[i] == "SIGNATURE="[i])
    || (|name| == 12 && forall i :: 0 <= i < 12 ==> name[i] == "signature%3d"[i] || name[i] == "SIGNATURE%3D"[i])
  }

  /** What base64 and its variants are written in. */
  predicate IsSignatureChar(c: char) {
    || 'A' <= c <= 'Z' || 'a' <= c <= 'z' || '0' <= c <= '9'
    || c == '+' || c == '/' || c == '=' || c == '_' || c == '.' || c == '-'
  }

  predicate IsSignature(run: string) {
    |run| >= 16 && forall i :: 0 <= i < |run| ==> IsSignatureChar(run[i])
  }

  lemma LowersBoth()
    ensures forall i :: 0 <= i < 10 ==> LowerChar("signature="[i]) == LowerChar("SIGNATURE="[i]) == PLAIN[i]
    ensures forall i :: 0 <= i < 12 ==> LowerChar("signature%3d"[i]) == LowerChar("SIGNATURE%3D"[i]) == ENCODED[i]
  {
  }

  lemma SpelledIsName(s: string, p: nat, name: string)
    requires SpellsSignature(name) && p + |name| <= |s| && s[p..p + |name|] == name
    ensures NameLength(s, p) == |name|
  {
    LowersBoth();
    assert forall j :: p <= j < p + |name| ==> s[j] == name[j - p];
    if |name| == 12 {
      assert LowerChar(s[p + 9]) == '%';
      assert PLAIN[9] == '=';
    }
  }

  lemma {:induction false} RunIsLong(s: string, i: nat, end: nat)
    requires i <= end <= |s| && forall j :: i <= j < end ==> IsSignatureChar(s[j])
    ensures RunEnd(s, i) >= end
    decreases end - i
  {
    if i < end {
      assert InRun(s, i);
      RunIsLong(s, i + 1, end);
    }
  }

  /** A signature after its name, in any case and between any texts, is shown. */
  lemma SignatureIsShown(before: string, name: string, run: string, after: string)
    requires SpellsSignature(name) && IsSignature(run)
    ensures Shows(before + name + run + after, |before|)
  {
    var s := before + name + run + after;
    var start := |before| + |name|;
    assert s[|before|..start] == name && s[start..start + |run|] == run;
    SpelledIsName(s, |before|, name);
    assert forall j :: start <= j < start + |run| ==> s[j] == s[start..start + |run|][j - start];
    RunIsLong(s, start, start + |run|);
    hide NameLength, RunEnd;
  }

  predicate Reads(s: string, before: string, name: string, run: string, after: string) {
    s == before + name + run + after
  }

  /** The text holds no signature after its name. */
  ghost predicate HoldsNoSignature(s: string) {
    forall before: string, name: string, run: string, after: string :: Reads(s, before, name, run, after) ==>
      !(SpellsSignature(name) && IsSignature(run))
  }

  lemma NothingShownNothingHeld(s: string)
    requires forall p :: 0 <= p < |s| ==> !Shows(s, p)
    ensures HoldsNoSignature(s)
  {
    forall before: string, name: string, run: string, after: string | Reads(s, before, name, run, after)
      ensures !(SpellsSignature(name) && IsSignature(run))
    {
      if SpellsSignature(name) && IsSignature(run) {
        SignatureIsShown(before, name, run, after);
      }
    }
  }

  /** A cut run holds nothing but what a signature is written in, and the percent signs of encoded characters. */
  lemma CutsAreOfSignatures(s: string, start: nat, i: nat)
    requires start <= |s| && start <= i < RunEnd(s, start)
    ensures i < |s| && (IsSignatureChar(s[i]) || s[i] == '%')
  {
    assert InRun(s, i);
  }

  /** Only a text in which some name has a signature after it is cut. */
  lemma CutsWereShown(text: string, cuts: Cuts)
    requires AreRuns(text, cuts) && cuts != []
    ensures exists p :: 0 <= p < |text| && Shows(text, p)
  {
    var start := cuts[|cuts| - 1].0;
    var m :| 0 <= m < start && NameLength(text, m) > 0 && m + NameLength(text, m) == start;
    assert Shows(text, m);
  }

  // ---------- the scan ----------

  /** The runs that are cut out, and what is kept before the last of them ends. */
  type Cuts = seq<(nat, nat)>

  function LastEnd(cuts: Cuts): nat {
    if cuts == [] then 0 else cuts[|cuts| - 1].1
  }

  predicate AreRuns(text: string, cuts: Cuts)
    decreases |cuts|
  {
    cuts != [] ==>
      var (before, (start, end)) := (cuts[..|cuts| - 1], cuts[|cuts| - 1]);
      && AreRuns(text, before) && LastEnd(before) <= start <= |text|
      && end == RunEnd(text, start) && end - start >= SHORTEST
      && exists m :: 0 <= m < start && NameLength(text, m) > 0 && m + NameLength(text, m) == start
  }

  function Kept(text: string, cuts: Cuts): string
    requires AreRuns(text, cuts)
    decreases |cuts|
  {
    if cuts == [] then ""
    else
      var (before, (start, end)) := (cuts[..|cuts| - 1], cuts[|cuts| - 1]);
      Kept(text, before) + text[LastEnd(before)..start] + REDACTED
  }

  /** The first name at or after `at`, and its length. */
  method FindName(text: string, at: nat) returns (m: nat, n: nat)
    requires at <= |text|
    ensures n == NameLength(text, m) && at <= m <= |text| && (n > 0 ==> m + n <= |text|) && (n == 0 ==> m == |text|)
    ensures forall i :: at <= i < m ==> NameLength(text, i) == 0
  {
    m := at;
    while m < |text| && NameLength(text, m) == 0
      invariant at <= m <= |text|
      invariant forall i :: at <= i < m ==> NameLength(text, i) == 0
    {
      m := m + 1;
    }
    n := NameLength(text, m);
  }

  /** The run from `start`: signature characters, and past each `%` that is not an encoded `&`. */
  method FindRunEnd(text: string, start: nat) returns (end: nat)
    requires start <= |text|
    ensures end == RunEnd(text, start)
  {
    end := start;
    while true
      invariant start <= end <= |text| && RunEnd(text, end) == RunEnd(text, start)
      decreases |text| - end
    {
      while end < |text| && InSignature(text[end])
        invariant start <= end <= |text| && RunEnd(text, end) == RunEnd(text, start)
      {
        end := end + 1;
      }
      if end == |text| || text[end] != '%' || (end + 3 <= |text| && text[end + 1] == '2' && text[end + 2] == '6') {
        return;
      }
      end := end + 1;
    }
  }

  /**
   * `redactSignatures`. In what it returns no name has sixteen or more characters of a run after it; and that is the
   * text with whole such runs, each after a name, replaced, and all else kept, in order.
   */
  method RedactSignatures(text: string) returns (redacted: string, cuts: Cuts)
    ensures forall p :: 0 <= p < |redacted| ==> !Shows(redacted, p)
    ensures HoldsNoSignature(redacted)
    ensures AreRuns(text, cuts) && LastEnd(cuts) <= |text|
    ensures (forall p :: 0 <= p < |text| ==> !Shows(text, p)) ==> redacted == text
    ensures redacted == Kept(text, cuts) + text[LastEnd(cuts)..]
  {
    hide Shows, NameLength, RunEnd, InRun, AreRuns, Kept, Cut, HoldsNoSignature;
    NoCuts(text);
    var out := "";
    var from, at := 0, 0;
    cuts := [];
    ghost var whole := text;
    while true
      invariant from <= at <= |text| && AreRuns(text, cuts) && from == LastEnd(cuts) && out == Kept(text, cuts)
      invariant whole == out + text[from..]
      invariant forall p :: 0 <= p < |out| + at - from ==> !Shows(whole, p)
      decreases |text| - at
    {
      var m, n := FindName(text, at);
      ghost var c := |out| + at - from;
      assert whole[c..] == text[at..];
      NothingBefore(whole, c, text, at, m);
      if n == 0 {
        break;
      }
      var start := m + n;
      var end := FindRunEnd(text, start);
      ghost var p := c + (m - at);
      SameFrom(whole, c, text, at, m - at);
      SameFrom(whole, c, text, at, start - at);
      if end - start >= SHORTEST {
        NothingBeforeTheCut(whole, p);
        CutsAlike(whole, out, text, from, start, end, p);
        OneMoreCut(text, cuts, m, start, end);
        out := out + text[from..start] + REDACTED;
        cuts := cuts + [(start, end)];
        from := end;
        whole := out + text[from..];
      } else {
        NothingInAShortRun(whole, p);
      }
      at := end;
    }
    redacted := out + text[from..];
    NothingShownNothingHeld(redacted);
    if cuts == [] {
      NoCuts(text);
    } else {
      CutsWereShown(text, cuts);
    }
  }

  lemma NoCuts(text: string)
    ensures AreRuns(text, []) && Kept(text, []) == ""
  {
  }

  lemma OneMoreCut(text: string, cuts: Cuts, m: nat, start: nat, end: nat)
    requires AreRuns(text, cuts) && LastEnd(cuts) <= start <= |text| && end == RunEnd(text, start)
    requires end - start >= SHORTEST && m < start && NameLength(text, m) > 0 && m + NameLength(text, m) == start
    ensures AreRuns(text, cuts + [(start, end)])
    ensures Kept(text, cuts + [(start, end)]) == Kept(text, cuts) + text[LastEnd(cuts)..start] + REDACTED
  {
    var more := cuts + [(start, end)];
    assert more[..|more| - 1] == cuts;
  }

  lemma CutsAlike(whole: string, out: string, text: string, from: nat, start: nat, end: nat, p: nat)
    requires from <= start <= end <= |text| && whole == out + text[from..]
    requires p < |whole| && NameLength(whole, p) > 0 && p + NameLength(whole, p) == |out| + (start - from)
    requires RunEnd(whole, p + NameLength(whole, p)) == |out| + (end - from)
    ensures Cut(whole, p) == out + text[from..start] + REDACTED + text[end..]
  {
    assert whole[..|out| + (start - from)] == out + text[from..start];
    assert whole[|out| + (end - from)..] == text[end..];
  }
}
