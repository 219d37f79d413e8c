/**
 * What the S3 and Azure constructors make of `maxObjectBytes` and of the part or block size: the size a sink flushes
 * at, and the largest object it takes. An object of any accepted size fits the service's limit on the number of
 * parts.
 */
module Limits {

  import opened Bytes

  const MIB: nat := 1024 * 1024
  const GIB: nat := 1024 * MIB
  const TIB: nat := 1024 * GIB

  /** A service's limits, and its driver's default and smallest part. `maxObject` is the most the option may ask for. */
  datatype Service = Service(defaultPart: nat, minPart: nat, maxPart: nat, maxParts: nat, maxObject: nat)

  const S3 := Service(8 * MIB, 5 * MIB, 5 * GIB, 10_000, 5 * TIB)
  const AZURE := Service(8 * MIB, 1, 4_000 * MIB, 50_000, 4_000 * MIB * 50_000)

  datatype Sizes = Sizes(part: nat, ceiling: nat)

  function CeilDiv(a: nat, b: nat): (q: nat)
    requires b > 0
    ensures (q - 1) * b < a <= q * b
  {
    (a + b - 1) / b
  }

  function Max(a: nat, b: nat): nat {
    if a < b then b else a
  }

  predicate Refused(s: Service, maxObjectBytes: Option<int>, partBytes: Option<int>) {
    || (partBytes.Some? && (partBytes.value <= 0 || partBytes.value > s.maxPart))
    || (maxObjectBytes.Some? && (maxObjectBytes.value <= 0 || maxObjectBytes.value > s.maxObject))
  }

  /** The constructor: none when it throws. */
  function Resolve(s: Service, maxObjectBytes: Option<int>, partBytes: Option<int>): (r: Option<Sizes>)
    requires s.maxParts > 0
    ensures r.None? <==> Refused(s, maxObjectBytes, partBytes)
  {
    if Refused(s, maxObjectBytes, partBytes) then None
    else
      var requested := Max(if partBytes.Some? then partBytes.value else s.defaultPart, s.minPart);
      var ceiling := if maxObjectBytes.Some? then maxObjectBytes.value else requested * s.maxParts;
      Some(Sizes(Max(requested, CeilDiv(ceiling, s.maxParts)), ceiling))
  }

  predicate Fits(s: Service, sizes: Sizes) {
    0 < sizes.part && sizes.ceiling <= sizes.part * s.maxParts
  }

  /**
   * A part that is grown to cover the ceiling covers it, and is no larger than a service's own largest ceiling needs.
   */
  lemma Grows(requested: nat, ceiling: nat, maxParts: nat, maxPart: nat)
    requires maxParts > 0 && requested <= maxPart
    requires ceiling <= requested * maxParts || ceiling <= maxPart * maxParts
    ensures var part := Max(requested, CeilDiv(ceiling, maxParts));
            ceiling <= part * maxParts && part <= maxPart
  {
    var grown := CeilDiv(ceiling, maxParts);
    assert (grown - 1) * maxParts < ceiling <= grown * maxParts;
    Scales(maxParts, grown, requested);
    Scales(maxParts, maxPart, grown - 1);
    Scales(maxParts, requested, grown - 1);
  }

  /** Whatever the options, an accepted object fits the part limit, in parts that are themselves within their limits. */
  lemma EveryObjectFits(s: Service, maxObjectBytes: Option<int>, partBytes: Option<int>)
    requires s == S3 || s == AZURE
    requires Resolve(s, maxObjectBytes, partBytes).Some?
    ensures var sizes := Resolve(s, maxObjectBytes, partBytes).value;
            && Fits(s, sizes) && s.minPart <= sizes.part <= s.maxPart
            && (partBytes.Some? ==> sizes.part >= partBytes.value)
            && (maxObjectBytes.Some? ==> sizes.ceiling == maxObjectBytes.value)
  {
    var requested := Max(if partBytes.Some? then partBytes.value else s.defaultPart, s.minPart);
    var ceiling := if maxObjectBytes.Some? then maxObjectBytes.value else requested * s.maxParts;
    hide CeilDiv;
    Grows(requested, ceiling, s.maxParts, s.maxPart);
  }

  /** The least `q` for which `q * b` covers `a`. */
  lemma CoversLeast(a: nat, b: nat, q: nat)
    requires b > 0 && a <= q * b
    ensures CeilDiv(a, b) <= q
  {
    var least := CeilDiv(a, b);
    assert (least - 1) * b < a;
    hide CeilDiv;
    if least > q {
      Scales(b, q, least - 1);
    }
  }

  /**
   * The part is the smallest that is as large as was asked for, 8 MiB by default and 5 MiB at least on S3, and with
   * which the ceiling fits 10,000 parts, or 50,000 on Azure; a ceiling left out is as many times the part.
   */
  lemma SmallestPart(s: Service, maxObjectBytes: Option<int>, partBytes: Option<int>, q: nat)
    requires (s == S3 || s == AZURE) && Resolve(s, maxObjectBytes, partBytes).Some?
    ensures var sizes := Resolve(s, maxObjectBytes, partBytes).value;
            var parts := if s == S3 then 10_000 else 50_000;
            var asked := Max(if partBytes.Some? then partBytes.value else 8_388_608, if s == S3 then 5_242_880 else 1);
            && sizes.part >= asked && sizes.ceiling <= sizes.part * parts
            && (q >= asked && sizes.ceiling <= q * parts ==> sizes.part <= q)
            && (maxObjectBytes.None? ==> sizes.ceiling == asked * parts)
  {
    var requested := Max(if partBytes.Some? then partBytes.value else s.defaultPart, s.minPart);
    var ceiling := if maxObjectBytes.Some? then maxObjectBytes.value else requested * s.maxParts;
    assert ceiling <= CeilDiv(ceiling, s.maxParts) * s.maxParts;
    hide CeilDiv;
    Scales(s.maxParts, CeilDiv(ceiling, s.maxParts), Max(requested, CeilDiv(ceiling, s.maxParts)));
    if ceiling <= q * s.maxParts {
      CoversLeast(ceiling, s.maxParts, q);
    }
  }

  /**
   * Options are refused exactly when they are not positive, or past S3's 5 GiB and 5 TiB, or Azure's 4,000 MiB
   * blocks.
   */
  lemma RefusedExactly(maxObjectBytes: Option<int>, partBytes: Option<int>)
    ensures Refused(S3, maxObjectBytes, partBytes) <==>
            || (partBytes.Some? && !(0 < partBytes.value <= 5_368_709_120))
            || (maxObjectBytes.Some? && !(0 < maxObjectBytes.value <= 5_497_558_138_880))
    ensures Refused(AZURE, maxObjectBytes, partBytes) <==>
            || (partBytes.Some? && !(0 < partBytes.value <= 4_194_304_000))
            || (maxObjectBytes.Some? && !(0 < maxObjectBytes.value <= 209_715_200_000_000))
  {
  }

  /**
   * The S3 driver checks a `maxObjectBytes` it is given against the 5 TiB object limit, and not the one it derives: the
   * ceiling it advertises is past that limit exactly when it was left out beside a part of more than 549,755,813 bytes.
   */
  lemma AdvertisedPastTheObjectLimit(maxObjectBytes: Option<int>, partBytes: Option<int>)
    requires Resolve(S3, maxObjectBytes, partBytes).Some?
    ensures Resolve(S3, maxObjectBytes, partBytes).value.ceiling > 5 * TIB <==>
            maxObjectBytes.None? && partBytes.Some? && partBytes.value > 549_755_813
  {
  }

  predicate AtLeast(parts: seq<Bytes>, part: nat) {
    forall k :: 0 <= k < |parts| ==> |parts[k]| >= part
  }

  /** Parts of at least `part` bytes each are at most as many as fit. */
  lemma {:induction false} Counted(parts: seq<Bytes>, part: nat)
    requires AtLeast(parts, part)
    ensures |Concat(parts)| >= part * |parts|
  {
    if parts != [] {
      Counted(parts[1..], part);
      assert part * |parts| == part + part * |parts[1..]|;
    }
  }

  /** One more part, of any size but none, is still within the limit while the object is within its own. */
  lemma RoomForOneMore(parts: seq<Bytes>, sizes: Sizes, maxParts: nat, more: nat)
    requires AtLeast(parts, sizes.part)
    requires sizes.ceiling <= sizes.part * maxParts
    requires more > 0 && |Concat(parts)| + more <= sizes.ceiling
    ensures |parts| < maxParts
  {
    Counted(parts, sizes.part);
    Scales(sizes.part, maxParts, |parts|);
  }

  lemma WithinTheLimit(parts: seq<Bytes>, sizes: Sizes, maxParts: nat)
    requires AtLeast(parts, sizes.part)
    requires 0 < sizes.part && sizes.ceiling <= sizes.part * maxParts && |Concat(parts)| <= sizes.ceiling
    ensures |parts| <= maxParts
  {
    Counted(parts, sizes.part);
    if |parts| > maxParts {
      Scales(sizes.part, maxParts + 1, |parts|);
    }
  }

  lemma Scales(a: nat, m: int, n: int)
    ensures m <= n ==> a * m <= a * n
  {
  }
}
