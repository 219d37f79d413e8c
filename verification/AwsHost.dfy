/**
 * Which hosts are AWS's S3: by their structure, an AWS domain under a label that names S3, followed only by what S3
 * puts there. The check takes the last S3 label and reads on greedily; the grammar says that some reading exists.
 * They agree, because no label is of two kinds.
 */
module AwsHost {

  import opened Text

  const DOMAINS: seq<string> := [".amazonaws.com", ".amazonaws.com.cn"]

  const S3_LABELS: set<string> :=
    {"s3", "s3-fips", "s3-accesspoint", "s3-accesspoint-fips", "s3-global", "s3-object-lambda", "s3-outposts",
     "s3-external-1"}

  // ---------- labels ----------

  predicate IsLetter(c: char) {
    'a' <= c <= 'z'
  }

  predicate IsDigit(c: char) {
    '0' <= c <= '9'
  }

  predicate Letters(s: string) {
    s != "" && forall c <- s :: IsLetter(c)
  }

  predicate Digits(s: string) {
    s != "" && forall c <- s :: IsDigit(c)
  }

  /** Two letters, words after dashes, and a number: `us-east-1`, `us-gov-west-1`. */
  predicate IsRegion(s: string) {
    |s| > 2 && Letters(s[..2]) && IsWords(s[2..])
  }

  /** One dashed word or more, then a dashed number. */
  predicate IsWords(s: string) {
    exists i :: 1 < i < |s| && s[0] == '-' && Letters(s[1..i]) && (IsNumber(s[i..]) || IsWords(s[i..]))
  }

  predicate IsNumber(s: string) {
    |s| > 1 && s[0] == '-' && Digits(s[1..])
  }

  /**
   * A region as S3 joins it to its label: two letters, `-gov` or not, one word, which may itself be `gov`, and a
   * digit.
   */
  predicate IsDashRegion(s: string) {
    |s| > 2 && Letters(s[..2]) && (IsWordAndDigit(s[2..]) || ("-gov-" <= s[2..] && IsWordAndDigit(s[6..])))
  }

  /** A dashed word and a dashed digit. */
  predicate IsWordAndDigit(s: string) {
    |s| > 3 && s[0] == '-' && Letters(s[1..|s| - 2]) && s[|s| - 2] == '-' && IsDigit(s[|s| - 1])
  }

  predicate IsS3Label(s: string) {
    || s in S3_LABELS
    || ("s3-" <= s && (IsDashRegion(s[3..]) || ("s3-fips-" <= s && IsDashRegion(s[8..]))))
    || ("s3express-" < s && forall c <- s[10..] :: IsLetter(c) || IsDigit(c) || c == '-')
  }

  /** A label is of one kind at most: the second and third characters tell. */
  lemma KindsAreDisjoint(s: string)
    ensures IsS3Label(s) ==> s != "dualstack" && s != "vpce" && !IsRegion(s)
    ensures IsRegion(s) ==> s != "dualstack" && s != "vpce"
  {
    if IsS3Label(s) {
      SecondIsThree(s);
    }
    if IsRegion(s) {
      assert s[..2][1] == s[1] && IsLetter(s[1]);
      assert s[2..][0] == s[2] == '-';
    }
  }

  lemma GovBeforeTheWord()
    ensures IsDashRegion("us-gov-west-1")
  {
    var s := "us-gov-west-1";
    assert s[..2] == "us" && s[2..] == "-gov-west-1" && s[6..] == "-west-1";
    assert "-west-1"[1..5] == "west";
  }

  lemma GovAsTheWord()
    ensures IsDashRegion("us-gov-1")
  {
    var s := "us-gov-1";
    assert s[..2] == "us" && s[2..] == "-gov-1";
    assert "-gov-1"[1..4] == "gov";
  }

  /** A label with `gov` in it is read either way: as the optional part before the word, and as the word. */
  lemma GovIsReadBothWays()
    ensures IsS3Label("s3-us-gov-west-1") && IsS3Label("s3-us-gov-1") && IsS3Label("s3-fips-us-gov-1")
  {
    hide IsDashRegion;
    GovBeforeTheWord();
    GovAsTheWord();
    assert "s3-us-gov-west-1"[3..] == "us-gov-west-1";
    assert "s3-us-gov-1"[3..] == "us-gov-1" && "s3-fips-us-gov-1"[8..] == "us-gov-1";
  }

  lemma SecondIsThree(s: string)
    requires IsS3Label(s)
    ensures |s| > 1 && s[1] == '3'
  {
    if "s3-" <= s {
      assert "s3-"[1] == s[1];
    } else if "s3express-" <= s {
      assert "s3express-"[1] == s[1];
    }
  }

  // ---------- the grammar ----------

  /** What may follow the S3 label: `dualstack`, a region and `vpce`, each or not, in that order. */
  ghost predicate IsTail(labels: seq<string>) {
    exists dual: bool, region: bool, vpce: bool :: IsTailOf(labels, dual, region, vpce)
  }

  predicate IsTailOf(labels: seq<string>, dual: bool, region: bool, vpce: bool) {
    var (d, r, v) := (if dual then 1 else 0, if region then 1 else 0, if vpce then 1 else 0);
    && |labels| == d + r + v
    && (dual ==> labels[0] == "dualstack")
    && (region ==> IsRegion(labels[d]))
    && (vpce ==> labels[d + r] == "vpce")
  }

  /** Anything, an S3 label, and a tail. */
  ghost predicate IsService(labels: seq<string>) {
    exists at :: 0 <= at < |labels| && IsS3Label(labels[at]) && IsTail(labels[at + 1..])
  }

  /** Nothing in a tail is an S3 label. */
  lemma NoS3InATail(labels: seq<string>, i: nat)
    requires IsTail(labels) && i < |labels|
    ensures !IsS3Label(labels[i])
  {
    KindsAreDisjoint(labels[i]);
  }

  /** The reading the check takes: each optional label is taken whenever it is there. */
  function Greedy(rest: seq<string>): (k: nat)
    ensures k <= |rest|
  {
    var d := if |rest| > 0 && rest[0] == "dualstack" then 1 else 0;
    var r := if d < |rest| && IsRegion(rest[d]) then d + 1 else d;
    if r < |rest| && rest[r] == "vpce" then r + 1 else r
  }

  /** It reads all of a tail, and only of a tail. */
  lemma GreedyReadsTails(rest: seq<string>)
    ensures Greedy(rest) == |rest| <==> IsTail(rest)
  {
    var d := if |rest| > 0 && rest[0] == "dualstack" then 1 else 0;
    var r := if d < |rest| && IsRegion(rest[d]) then d + 1 else d;
    if Greedy(rest) == |rest| {
      assert IsTailOf(rest, d == 1, r == d + 1, r < |rest|);
    }
    if IsTail(rest) {
      var dual, region, vpce :| IsTailOf(rest, dual, region, vpce);
      forall i | 0 <= i < |rest|
        ensures IsRegion(rest[i]) ==> rest[i] != "dualstack" && rest[i] != "vpce"
      {
        KindsAreDisjoint(rest[i]);
      }
      hide IsRegion;
    }
  }

  // ---------- the check ----------

  /** In lower case, without one dot at the end. */
  function Normal(hostname: string): string {
    var lower := Lower(hostname);
    if lower != "" && lower[|lower| - 1] == '.' then lower[..|lower| - 1] else lower
  }

  function Split(s: string): (labels: seq<string>)
    ensures labels != []
  {
    if s == "" then [""]
    else
      var front := Split(s[..|s| - 1]);
      var c := s[|s| - 1];
      if c == '.' then front + [""] else front[..|front| - 1] + [front[|front| - 1] + [c]]
  }

  function Join(labels: seq<string>): string {
    if labels == [] then "" else if |labels| == 1 then labels[0]
    else Join(labels[..|labels| - 1]) + "." + labels[|labels| - 1]
  }

  /** The host is some labels of a service, dots between them, under an AWS domain. */
  ghost predicate IsS3Host(host: string) {
    exists labels, domain :: domain in DOMAINS && host == Join(labels) + domain && Dotless(labels) && IsService(labels)
  }

  predicate Dotless(labels: seq<string>) {
    forall part <- labels :: '.' !in part
  }

  lemma {:induction false} SplitJoins(s: string)
    ensures Join(Split(s)) == s
  {
    if s != "" {
      var (front, c) := (Split(s[..|s| - 1]), s[|s| - 1]);
      SplitJoins(s[..|s| - 1]);
      assert s == s[..|s| - 1] + [c];
      if c == '.' {
        JoinAppends(front, "");
      } else {
        JoinExtends(front[..|front| - 1], front[|front| - 1], c);
        assert front == front[..|front| - 1] + [front[|front| - 1]];
      }
    }
  }

  lemma JoinAppends(labels: seq<string>, last: string)
    requires labels != []
    ensures Join(labels + [last]) == Join(labels) + "." + last
  {
    assert (labels + [last])[..|labels|] == labels;
  }

  lemma Tacks(a: string, b: string, c: char)
    ensures a + (b + [c]) == a + b + [c]
  {
  }

  lemma JoinExtends(front: seq<string>, last: string, c: char)
    ensures Join(front + [last + [c]]) == Join(front + [last]) + [c]
  {
    if front == [] {
      assert front + [last + [c]] == [last + [c]] && front + [last] == [last];
    } else {
      hide Join;
      JoinAppends(front, last);
      JoinAppends(front, last + [c]);
      Tacks(Join(front) + ".", last, c);
    }
  }

  lemma {:induction false} SplitIsDotless(s: string)
    ensures Dotless(Split(s))
  {
    if s != "" {
      var front := Split(s[..|s| - 1]);
      SplitIsDotless(s[..|s| - 1]);
      assert front[|front| - 1] in front;
    }
  }

  lemma {:induction false} JoinSplits(labels: seq<string>)
    requires labels != [] && Dotless(labels)
    ensures Split(Join(labels)) == labels
    decreases |labels|, |labels[|labels| - 1]|
  {
    var (front, last) := (labels[..|labels| - 1], labels[|labels| - 1]);
    assert labels == front + [last];
    DotlessParts(front, last);
    if last != "" {
      var (cut, c) := (last[..|last| - 1], last[|last| - 1]);
      assert last == cut + [c];
      DotlessParts(front, cut);
      hide Dotless;
      JoinSplits(front + [cut]);
      JoinExtends(front, cut, c);
      assert (front + [cut])[..|front|] == front;
      SplitExtends(Join(front + [cut]), c);
    } else if front != [] {
      hide Dotless;
      JoinSplits(front);
      JoinAppends(front, "");
      assert Join(labels) == Join(front) + ".";
      SplitExtends(Join(front), '.');
    }
  }

  lemma SplitExtends(s: string, c: char)
    ensures var front := Split(s);
            Split(s + [c]) == if c == '.' then front + [""] else front[..|front| - 1] + [front[|front| - 1] + [c]]
  {
    assert (s + [c])[..|s|] == s;
  }

  lemma DotlessParts(front: seq<string>, last: string)
    ensures Dotless(front + [last]) <==> Dotless(front) && '.' !in last
    ensures last != "" && '.' !in last ==> '.' !in last[..|last| - 1] && last[|last| - 1] != '.'
  {
    assert last in front + [last];
    assert forall part <- front :: part in front + [last];
  }

  lemma EndsAlike(s: string, suffix: string)
    requires EndsWith(s, suffix) && suffix != ""
    ensures s != "" && s[|s| - 1] == suffix[|suffix| - 1]
  {
    assert s[|s| - |suffix|..][|suffix| - 1] == s[|s| - 1];
  }

  /** One host is under one domain at most: the last characters differ. */
  lemma OneDomain(host: string)
    ensures !(EndsWith(host, DOMAINS[0]) && EndsWith(host, DOMAINS[1]))
  {
    var (com, cn) := (DOMAINS[0], DOMAINS[1]);
    if EndsWith(host, com) {
      EndsAlike(host, com);
      if EndsWith(host, cn) {
        EndsAlike(host, cn);
      }
    }
  }

  /** A host of some labels under a domain can be read in one way, the one the split gives. */
  lemma ReadsOneWay(host: string, name: string, domain: string)
    requires domain in DOMAINS && host == name + domain
    ensures IsS3Host(host) <==> IsService(Split(name))
  {
    SplitJoins(name);
    SplitIsDotless(name);
    hide IsService, Split, Join, Dotless;
    if IsS3Host(host) {
      var labels, other :| other in DOMAINS && host == Join(labels) + other && Dotless(labels) && IsService(labels);
      OneDomain(host);
      assert EndsWith(host, domain) && EndsWith(host, other);
      assert name == host[..|host| - |domain|] == Join(labels);
      ServicesHaveLabels(labels);
      JoinSplits(labels);
    }
  }

  lemma ServicesHaveLabels(labels: seq<string>)
    requires IsService(labels)
    ensures labels != []
  {
  }

  /** The last of the labels that names S3 is the service's. */
  method LastS3Label(labels: seq<string>) returns (at: int)
    ensures -1 <= at < |labels|
    ensures at >= 0 ==> IsS3Label(labels[at])
    ensures forall i :: at < i < |labels| ==> !IsS3Label(labels[i])
  {
    at := -1;
    for i := 0 to |labels|
      invariant -1 <= at < i
      invariant at >= 0 ==> IsS3Label(labels[at])
      invariant forall j :: at < j < i ==> !IsS3Label(labels[j])
    {
      if IsS3Label(labels[i]) {
        at := i;
      }
    }
  }

  /**
   * The labels under the domain are a service's exactly when the last S3 label is followed by a tail, read greedily.
   */
  method IsServiceHost(labels: seq<string>) returns (r: bool)
    ensures r <==> IsService(labels)
  {
    var at := LastS3Label(labels);
    hide IsRegion, IsS3Label, IsTail;
    if at == -1 {
      return false;
    }
    var rest := labels[at + 1..];
    var k := 0;
    if k < |rest| && rest[k] == "dualstack" {
      k := k + 1;
    }
    if k < |rest| && IsRegion(rest[k]) {
      k := k + 1;
    }
    if k < |rest| && rest[k] == "vpce" {
      k := k + 1;
    }
    assert k == Greedy(rest);
    GreedyReadsTails(rest);
    forall i | 0 <= i < |labels| && IsS3Label(labels[i]) && IsTail(labels[i + 1..])
      ensures i == at
    {
      if i < at {
        assert labels[i + 1..][at - i - 1] == labels[at];
        NoS3InATail(labels[i + 1..], at - i - 1);
      }
    }
    return k == |rest|;
  }

  /** `isAwsS3Host`: it accepts exactly the hosts of the grammar. */
  method IsAwsS3Host(hostname: string) returns (r: bool)
    ensures r <==> IsS3Host(Normal(hostname))
  {
    hide IsService, Normal, IsS3Host;
    var host := Normal(hostname);
    var domain;
    if EndsWith(host, DOMAINS[0]) {
      domain := DOMAINS[0];
    } else if EndsWith(host, DOMAINS[1]) {
      domain := DOMAINS[1];
    } else {
      UnderNoDomain(host);
      return false;
    }
    var name := host[..|host| - |domain|];
    assert host == name + domain;
    r := IsServiceHost(Split(name));
    ReadsOneWay(host, name, domain);
  }

  lemma UnderNoDomain(host: string)
    requires !EndsWith(host, DOMAINS[0]) && !EndsWith(host, DOMAINS[1])
    ensures !IsS3Host(host)
  {
    hide IsService;
    forall labels, domain | domain in DOMAINS && host == Join(labels) + domain
      ensures false
    {
      EndsWithIt(Join(labels), domain);
    }
  }

  lemma EndsWithIt(s: string, suffix: string)
    ensures EndsWith(s + suffix, suffix)
  {
  }

  // ---------- hosts of each form ----------

  lemma OneWordAndNumber()
    ensures IsWords("-east-1")
  {
    assert "-east-1"[1..5] == "east" && "-east-1"[5..] == "-1" && "-1"[1..] == "1";
    assert IsNumber("-east-1"[5..]);
  }

  lemma RegionExample()
    ensures IsRegion("us-east-1")
  {
    OneWordAndNumber();
    assert "us-east-1"[..2] == "us" && "us-east-1"[2..] == "-east-1";
    hide IsWords;
  }

  /** What has no number at its end is no region. */
  lemma {:induction false} NoNumberNoWords(s: string)
    requires forall c <- s :: !IsDigit(c)
    ensures !IsWords(s)
    decreases |s|
  {
    forall i | 1 < i < |s|
      ensures !IsNumber(s[i..]) && !IsWords(s[i..])
    {
      var t := s[i..];
      assert forall c <- t :: c in s;
      NoNumberNoWords(t);
      if |t| > 1 {
        assert t[1..][0] == t[1] && t[1] in t;
      }
    }
  }

  lemma LabelExamples()
    ensures IsS3Label("s3") && !IsS3Label("elb") && !IsS3Label("bucket") && !IsS3Label("dualstack")
    ensures !IsS3Label("us-east-1") && !IsRegion("elb") && !IsRegion("dualstack")
  {
  }

  /** A bucket's host, its dual-stack form, and a VPC endpoint's. */
  lemma ServiceExamples(bucket: string, endpoint: string)
    ensures IsService([bucket, "s3", "us-east-1"]) && IsService([bucket, "s3", "dualstack", "us-east-1"])
    ensures IsService([bucket, endpoint, "s3", "us-east-1", "vpce"])
  {
    RegionExample();
    LabelExamples();
    hide IsRegion, IsS3Label;
    ServiceOf([bucket], "s3", ["us-east-1"], false, true, false);
    assert [bucket] + ["s3"] + ["us-east-1"] == [bucket, "s3", "us-east-1"];
    ServiceOf([bucket], "s3", ["dualstack", "us-east-1"], true, true, false);
    assert [bucket] + ["s3"] + ["dualstack", "us-east-1"] == [bucket, "s3", "dualstack", "us-east-1"];
    ServiceOf([bucket, endpoint], "s3", ["us-east-1", "vpce"], false, true, true);
    assert [bucket, endpoint] + ["s3"] + ["us-east-1", "vpce"] == [bucket, endpoint, "s3", "us-east-1", "vpce"];
  }

  lemma ServiceOf(before: seq<string>, name: string, rest: seq<string>, dual: bool, region: bool, vpce: bool)
    requires IsS3Label(name) && IsTailOf(rest, dual, region, vpce)
    ensures IsService(before + [name] + rest)
  {
    hide IsS3Label, IsTailOf;
    var labels := before + [name] + rest;
    assert labels[|before|] == name && labels[|before| + 1..] == rest;
  }

  /** Another service's host, whose name starts alike, and a region before `dualstack`, are not S3's. */
  lemma OtherServices()
    ensures !IsService(["s3", "elb"]) && !IsService(["s3", "us-east-1", "dualstack"])
  {
    LabelExamples();
    hide IsRegion, IsS3Label;
    assert ["s3", "elb"][1..] == ["elb"];
    assert ["s3", "us-east-1", "dualstack"][1..] == ["us-east-1", "dualstack"];
  }

  /** Case and one dot at the end make no difference. */
  lemma NormalExamples()
    ensures Normal("S3.AmazonAWS.com.") == "s3.amazonaws.com" == Normal("s3.amazonaws.com")
  {
    assert Lower("S3.AmazonAWS.com.") == "s3.amazonaws.com.";
    assert Lower("s3.amazonaws.com") == "s3.amazonaws.com";
  }

  /** The two domains, and another. */
  lemma HostExamples()
    ensures IsS3Host("s3" + ".amazonaws.com") && IsS3Host("s3" + ".amazonaws.com.cn") && !IsS3Host("s3.example.com")
  {
    LabelExamples();
    ServiceOf([], "s3", [], false, false, false);
    assert [] + ["s3"] + [] == ["s3"];
    hide IsService, IsS3Label, IsRegion;
    assert Join(["s3"]) == "s3" && Dotless(["s3"]);
    assert DOMAINS[0] in DOMAINS && DOMAINS[1] in DOMAINS;
    EndsElsewhere();
    UnderNoDomain("s3.example.com");
  }

  lemma EndsElsewhere()
    ensures !EndsWith("s3.example.com", DOMAINS[0]) && !EndsWith("s3.example.com", DOMAINS[1])
  {
  }
}
