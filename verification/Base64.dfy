/**
 * Base64 with padding (section 4 of RFC 4648), as `Buffer.toString('base64')` writes it, and the reader that shows it
 * loses nothing.
 */
module Base64 {

  import opened Bytes

  /** A byte as a number. */
  type Octet = n: int | 0 <= n < 256

  /** The character of a six-bit value. */
  function Symbol(v: int): (c: char)
    requires 0 <= v < 64
    ensures Value(c) == v && c != '='
  {
    if v < 26 then (65 + v) as char
    else if v < 52 then (97 + (v - 26)) as char
    else if v < 62 then (48 + (v - 52)) as char
    else if v == 62 then '+' else '/'
  }

  /** The six bits a character stands for; -1 for any other character. */
  function Value(c: char): int {
    if 'A' <= c <= 'Z' then c as int - 65
    else if 'a' <= c <= 'z' then c as int - 97 + 26
    else if '0' <= c <= '9' then c as int - 48 + 52
    else if c == '+' then 62 else if c == '/' then 63 else -1
  }

  /** The text of three octets: four characters of six bits each. */
  function Group(a: Octet, b: Octet, c: Octet): (text: string)
    ensures |text| == 4
  {
    [Symbol(a / 4), Symbol(a % 4 * 16 + b / 16), Symbol(b % 16 * 4 + c / 64), Symbol(c % 64)]
  }

  function EncodeOctets(octets: seq<Octet>): (text: string)
    ensures |text| == (|octets| + 2) / 3 * 4
  {
    if octets == [] then ""
    else if |octets| == 1 then Group(octets[0], 0, 0)[..2] + "=="
    else if |octets| == 2 then Group(octets[0], octets[1], 0)[..3] + "="
    else Group(octets[0], octets[1], octets[2]) + EncodeOctets(octets[3..])
  }

  /** The octets of one group of four characters. */
  function Ungroup(text: string): seq<int>
    requires |text| == 4
  {
    var (a, b, c, d) := (Value(text[0]), Value(text[1]), Value(text[2]), Value(text[3]));
    if text[2] == '=' then [a * 4 + b / 16]
    else if text[3] == '=' then [a * 4 + b / 16, b % 16 * 16 + c / 4]
    else [a * 4 + b / 16, b % 16 * 16 + c / 4, c % 4 * 64 + d]
  }

  function Decode(text: string): seq<int> {
    if |text| < 4 then [] else Ungroup(text[..4]) + Decode(text[4..])
  }

  lemma SameSextet(m: int, t: int, n: int, u: int)
    requires m * 64 + t == n * 64 + u && 0 <= t < 64 && 0 <= u < 64
    ensures m == n && t == u
  {
  }

  lemma Split(a: Octet, b: Octet, c: Octet)
    ensures (a * 256 + b) * 256 + c ==
            ((a / 4 * 64 + (a % 4 * 16 + b / 16)) * 64 + (b % 16 * 4 + c / 64)) * 64 + c % 64
    ensures 0 <= a % 4 * 16 + b / 16 < 64 && 0 <= b % 16 * 4 + c / 64 < 64
  {
    assert a == a / 4 * 4 + a % 4;
    assert b == b / 16 * 16 + b % 16;
    assert c == c / 64 * 64 + c % 64;
  }

  /** The four characters of three octets spell the same number of 24 bits. */
  lemma GroupOf(a: Octet, b: Octet, c: Octet, p: int, q: int, r: int, t: int)
    requires 0 <= p < 64 && 0 <= q < 64 && 0 <= r < 64 && 0 <= t < 64
    requires (a * 256 + b) * 256 + c == ((p * 64 + q) * 64 + r) * 64 + t
    ensures Group(a, b, c) == [Symbol(p), Symbol(q), Symbol(r), Symbol(t)]
  {
    hide Symbol;
    Split(a, b, c);
    var (q', r') := (a % 4 * 16 + b / 16, b % 16 * 4 + c / 64);
    SameSextet((a / 4 * 64 + q') * 64 + r', c % 64, (p * 64 + q) * 64 + r, t);
    SameSextet(a / 4 * 64 + q', r', p * 64 + q, r);
    SameSextet(a / 4, q', p, q);
  }

  lemma PartGroups()
    ensures Group(102, 0, 0) == "ZgAA" && Group(102, 111, 0) == "Zm8A"
  {
    hide Group;
    GroupOf(102, 0, 0, 25, 32, 0, 0);
    GroupOf(102, 111, 0, 25, 38, 60, 0);
  }

  lemma FirstExamples()
    ensures EncodeOctets([102]) == "Zg==" && EncodeOctets([102, 111]) == "Zm8="
  {
    hide Group, EncodeOctets;
    PartGroups();
    FewOctets(102, 0);
    FewOctets(102, 111);
    assert "ZgAA"[..2] == "Zg" && "Zm8A"[..3] == "Zm8";
  }

  lemma FewOctets(a: Octet, b: Octet)
    ensures EncodeOctets([a]) == Group(a, 0, 0)[..2] + "=="
    ensures EncodeOctets([a, b]) == Group(a, b, 0)[..3] + "="
  {
  }

  lemma WholeGroups()
    ensures Group(102, 111, 111) == "Zm9v" && Group(98, 97, 114) == "YmFy"
    ensures Group(251, 239, 190) == "++++" && Group(255, 255, 255) == "////"
  {
    hide Group;
    GroupOf(98, 97, 114, 24, 38, 5, 50);
    GroupOf(102, 111, 111, 25, 38, 61, 47);
    GroupOf(251, 239, 190, 62, 62, 62, 62);
    GroupOf(255, 255, 255, 63, 63, 63, 63);
  }

  /** The standard's own examples (section 10 of RFC 4648), "f", "fo" and "foobar", and its last two characters. */
  lemma StandardExamples()
    ensures EncodeOctets([102]) == "Zg==" && EncodeOctets([102, 111]) == "Zm8="
    ensures EncodeOctets([102, 111, 111, 98, 97, 114]) == "Zm9vYmFy"
    ensures EncodeOctets([251, 239, 190]) == "++++" && EncodeOctets([255, 255, 255]) == "////"
  {
    FirstExamples();
    WholeGroups();
    hide Group, EncodeOctets;
    ThreeOctets(98, 97, 114, []);
    ThreeOctets(102, 111, 111, [98, 97, 114]);
    ThreeOctets(251, 239, 190, []);
    ThreeOctets(255, 255, 255, []);
    assert [102, 111, 111, 98, 97, 114] == [102, 111, 111] + [98, 97, 114];
  }

  lemma ThreeOctets(a: Octet, b: Octet, c: Octet, rest: seq<Octet>)
    ensures EncodeOctets([a, b, c] + rest) == Group(a, b, c) + EncodeOctets(rest)
    ensures rest == [] ==> EncodeOctets([a, b, c]) == Group(a, b, c)
  {
    var all := [a, b, c] + rest;
    assert all[3..] == rest;
    if rest == [] {
      assert [a, b, c] == all;
    }
  }

  /** The arithmetic of a group: each octet is put back from the sextets its bits went to. */
  lemma Sextets(a: Octet, b: Octet, c: Octet)
    ensures var (p, q, r) := (a % 4 * 16 + b / 16, b % 16 * 4 + c / 64, c % 64);
            && a / 4 * 4 + p / 16 == a
            && p % 16 * 16 + q / 4 == b
            && q % 4 * 64 + r == c
  {
  }

  lemma GroupRoundTrips(a: Octet, b: Octet, c: Octet)
    ensures Ungroup(Group(a, b, c)) == [a, b, c]
  {
    Sextets(a, b, c);
  }

  lemma PairRoundTrips(a: Octet, b: Octet)
    ensures Ungroup(Group(a, b, 0)[..3] + "=") == [a, b]
  {
    Sextets(a, b, 0);
  }

  lemma SingleRoundTrips(a: Octet)
    ensures Ungroup(Group(a, 0, 0)[..2] + "==") == [a]
  {
    Sextets(a, 0, 0);
  }

  /** Reading back what was written gives the octets that were written. */
  lemma {:induction false} RoundTrip(octets: seq<Octet>)
    ensures Decode(EncodeOctets(octets)) == octets
  {
    var text := EncodeOctets(octets);
    if octets == [] {
    } else if |octets| == 1 {
      SingleRoundTrips(octets[0]);
      assert text[..4] == text && text[4..] == "";
    } else if |octets| == 2 {
      PairRoundTrips(octets[0], octets[1]);
      assert text[..4] == text && text[4..] == "";
    } else {
      GroupRoundTrips(octets[0], octets[1], octets[2]);
      RoundTrip(octets[3..]);
      assert text[..4] == Group(octets[0], octets[1], octets[2]);
      assert text[4..] == EncodeOctets(octets[3..]);
    }
  }

  function Octets(bytes: Bytes): (r: seq<Octet>)
    ensures |r| == |bytes| && forall k :: 0 <= k < |r| ==> r[k] == bytes[k] as int
  {
    seq(|bytes|, k requires 0 <= k < |bytes| => bytes[k] as int)
  }

  function Encode(bytes: Bytes): (text: string)
    ensures |text| == (|bytes| + 2) / 3 * 4
  {
    EncodeOctets(Octets(bytes))
  }

  lemma SameNumberSameByte(a: bv8, b: bv8)
    requires a as int == b as int
    ensures a == b
  {
    assert (a as int) as bv8 == a && (b as int) as bv8 == b;
  }

  /** Different bytes have different texts. */
  lemma Injective(x: Bytes, y: Bytes)
    requires Encode(x) == Encode(y)
    ensures x == y
  {
    RoundTrip(Octets(x));
    RoundTrip(Octets(y));
    assert Octets(x) == Octets(y);
    forall k | 0 <= k < |x| ensures x[k] == y[k] {
      assert Octets(x)[k] == Octets(y)[k];
      SameNumberSameByte(x[k], y[k]);
    }
  }
}
