/**
 * The id of an Azure block: the base64 of `<nonce>-<index>`, the index padded with zeros to six digits. Azure pools the
 * uncommitted blocks of every writer of a name under their ids, and takes only ids of one length within a blob.
 */
module BlockIds {

  import Base64

  /** The index as `String(n)` writes it. */
  function Decimal(n: nat): (s: string)
    ensures |s| >= 1 && forall k :: 0 <= k < |s| ==> '0' <= s[k] <= '9'
  {
    if n < 10 then [(48 + n) as char] else Decimal(n / 10) + [(48 + n % 10) as char]
  }

  function PadStart(s: string, width: nat): (padded: string)
    ensures |padded| == if |s| < width then width else |s|
    decreases width - |s|
  {
    if |s| >= width then s else PadStart("0" + s, width)
  }

  predicate IsDigits(s: string) {
    forall k :: 0 <= k < |s| ==> '0' <= s[k] <= '9'
  }

  /** The number a row of digits spells. */
  function Parse(s: string): nat
    requires IsDigits(s)
  {
    if s == "" then 0 else Parse(s[..|s| - 1]) * 10 + (s[|s| - 1] as int - 48)
  }

  lemma {:induction false} ParseDecimal(n: nat)
    ensures Parse(Decimal(n)) == n
  {
    if n < 10 {
      assert Decimal(n)[..0] == "";
    } else {
      ParseDecimal(n / 10);
      assert Decimal(n)[..|Decimal(n)| - 1] == Decimal(n / 10);
    }
  }

  lemma {:induction false} ParseLeadingZero(s: string)
    requires IsDigits(s)
    ensures IsDigits("0" + s) && Parse("0" + s) == Parse(s)
  {
    var t := "0" + s;
    if s == "" {
      assert t[..0] == "";
    } else {
      assert t[..|t| - 1] == "0" + s[..|s| - 1];
      ParseLeadingZero(s[..|s| - 1]);
    }
  }

  lemma {:induction false} ParsePadded(s: string, width: nat)
    requires IsDigits(s)
    ensures IsDigits(PadStart(s, width)) && Parse(PadStart(s, width)) == Parse(s)
    decreases width - |s|
  {
    if |s| < width {
      ParseLeadingZero(s);
      ParsePadded("0" + s, width);
    }
  }

  lemma {:induction false} DecimalLength(n: nat, digits: nat, bound: nat)
    requires digits >= 1 && n < bound && bound == Power10(digits)
    ensures |Decimal(n)| <= digits
  {
    if n >= 10 {
      DecimalLength(n / 10, digits - 1, bound / 10);
    }
  }

  function Power10(k: nat): (p: nat)
    ensures p >= 1
  {
    if k == 0 then 1 else 10 * Power10(k - 1)
  }

  /** A nonce: six random bytes in hex, twelve ASCII characters. */
  predicate IsNonce(s: string) {
    |s| == 12 && forall k :: 0 <= k < |s| ==> s[k] as int < 128
  }

  function Plain(nonce: string, n: nat): string {
    nonce + "-" + PadStart(Decimal(n), 6)
  }

  predicate IsAscii(s: string) {
    forall k :: 0 <= k < |s| ==> s[k] as int < 128
  }

  function Octets(s: string): (r: seq<Base64.Octet>)
    requires IsAscii(s)
    ensures |r| == |s| && forall k :: 0 <= k < |s| ==> r[k] == s[k] as int
  {
    seq(|s|, k requires 0 <= k < |s| => s[k] as int)
  }

  lemma PlainIsAscii(nonce: string, n: nat)
    requires IsNonce(nonce)
    ensures IsAscii(Plain(nonce, n))
  {
    ParsePadded(Decimal(n), 6);
  }

  function BlockId(nonce: string, n: nat): string
    requires IsNonce(nonce)
  {
    PlainIsAscii(nonce, n);
    Base64.EncodeOctets(Octets(Plain(nonce, n)))
  }

  /** Every id of the first million is 28 characters long, far past Azure's 50,000 blocks. */
  lemma ConstantLength(nonce: string, n: nat)
    requires IsNonce(nonce) && n < 1_000_000
    ensures |BlockId(nonce, n)| == 28
  {
    assert Power10(6) == 1_000_000;
    DecimalLength(n, 6, 1_000_000);
    assert |Plain(nonce, n)| == 19;
  }

  /** Two ids are equal only for one writer's one block, whatever the indices. */
  lemma Injective(a: string, m: nat, b: string, n: nat)
    requires IsNonce(a) && IsNonce(b) && BlockId(a, m) == BlockId(b, n)
    ensures a == b && m == n
  {
    PlainIsAscii(a, m);
    PlainIsAscii(b, n);
    var (p, q) := (Plain(a, m), Plain(b, n));
    Base64.RoundTrip(Octets(p));
    Base64.RoundTrip(Octets(q));
    assert forall k :: 0 <= k < |p| ==> Octets(p)[k] == p[k] as int;
    assert forall k :: 0 <= k < |p| ==> p[k] == q[k];
    assert p == q;
    assert a == p[..12] == q[..12] == b;
    assert PadStart(Decimal(m), 6) == p[13..] == q[13..] == PadStart(Decimal(n), 6);
    ParsePadded(Decimal(m), 6);
    ParsePadded(Decimal(n), 6);
    ParseDecimal(m);
    ParseDecimal(n);
  }

  /** An id spells, in base64, the nonce, a dash, and the index in six digits or more. */
  lemma IdSpells(nonce: string, n: nat) returns (digits: string)
    requires IsNonce(nonce)
    ensures IsDigits(digits) && Parse(digits) == n && |digits| >= 6 && (n < 1_000_000 ==> |digits| == 6)
    ensures IsAscii(nonce + "-" + digits) && Base64.Decode(BlockId(nonce, n)) == Octets(nonce + "-" + digits)
  {
    digits := PadStart(Decimal(n), 6);
    PlainIsAscii(nonce, n);
    Base64.RoundTrip(Octets(Plain(nonce, n)));
    ParsePadded(Decimal(n), 6);
    ParseDecimal(n);
    if n < 1_000_000 {
      assert Power10(6) == 1_000_000;
      DecimalLength(n, 6, 1_000_000);
    }
  }
}
