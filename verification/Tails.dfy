/**
 * The tail reads: the last bytes of an object, its size and its version, from one answer or two. What an answer holds
 * is checked against what it says of itself, so that a tail that is returned is as long as its size allows; and when
 * the service tells the truth it is the tail of one object, whatever replaces that object meanwhile.
 */
module Tails {

  import opened Bytes

  /**
   * A tail that was read, with the version it was read at when the answer carried one; or an error: answers that do not
   * agree are refused, a second replacement is transient, and a failed request's own error is passed on.
   */
  datatype Tail = Tail(bytes: Bytes, size: nat, version: Option<nat>) | Refused | Transient | Failed

  function Min(a: int, b: int): int {
    if a < b then a else b
  }

  function Max(a: int, b: int): int {
    if a < b then b else a
  }

  /** How much of an object of a size a tail of at most `maxBytes` holds. */
  function Wanted(maxBytes: int, size: nat): nat {
    Min(Max(maxBytes, 0), size)
  }

  /** The tail of an object. */
  function Last(bytes: Bytes, maxBytes: int): Bytes {
    bytes[|bytes| - Wanted(maxBytes, |bytes|)..]
  }

  // ---------- Azure ----------

  datatype Properties = Properties(size: int, etag: Option<nat>) | PropertiesFail
  datatype Download = Downloaded(bytes: Bytes, etag: Option<nat>) | Replaced | DownloadFails

  datatype Attempt = Attempt(properties: Properties, download: Download)

  /**
   * The truth of an attempt: the properties are those of a blob, under its version if they carry one, and a download
   * conditional on that version is answered from that blob, in full or cut off.
   */
  ghost predicate Truthful(blobs: map<nat, Bytes>, a: Attempt, maxBytes: int) {
    && (a.properties.Properties? ==>
          exists v <- blobs ::
            |blobs[v]| == a.properties.size && (a.properties.etag.Some? ==> a.properties.etag.value == v))
    && (a.properties.Properties? && a.properties.etag.Some? && a.download.Downloaded? ==>
          var v := a.properties.etag.value;
          && v in blobs && a.download.bytes <= Last(blobs[v], maxBytes)
          && (a.download.etag.Some? ==> a.download.etag.value == v))
  }

  /** The tail is one blob's: its bytes, its size, and its version if it is given. */
  ghost predicate OfOneBlob(blobs: map<nat, Bytes>, maxBytes: int, tail: Tail) {
    tail.Tail? ==>
      exists v <- blobs ::
        && tail.bytes == Last(blobs[v], maxBytes) && tail.size == |blobs[v]|
        && (tail.version.Some? ==> tail.version.value == v)
  }

  /** Whether the attempt asks for bytes: there are some, and the properties name the version to ask of. */
  predicate Asks(a: Attempt, maxBytes: int) {
    a.properties.Properties? && a.properties.size > 0 && maxBytes > 0 && a.properties.etag.Some?
  }

  /** The blob was replaced between the attempt's two requests. */
  predicate WasReplaced(a: Attempt, maxBytes: int) {
    Asks(a, maxBytes) && a.download.Replaced?
  }

  predicate AzureFails(a: Attempt, maxBytes: int) {
    a.properties.PropertiesFail? || (Asks(a, maxBytes) && a.download.DownloadFails?)
  }

  /** The answers do not agree: an impossible size, no version to ask of, or not as many bytes as were asked for. */
  predicate AzureRefuses(a: Attempt, maxBytes: int) {
    && a.properties.Properties?
    && (|| a.properties.size < 0
        || (a.properties.size > 0 && maxBytes > 0 && a.properties.etag.None?)
        || (Asks(a, maxBytes) && a.download.Downloaded? && |a.download.bytes| != Wanted(maxBytes, a.properties.size)))
  }

  /**
   * Azure's tail read: the properties, then a download on the condition that the blob is still the same; both once more
   * when it is not. The second attempt is made exactly when the first saw the blob replaced, and the last one decides.
   */
  method AzureTail(maxBytes: int, script: seq<Attempt>) returns (tail: Tail, attempts: nat)
    requires |script| == 2
    ensures attempts == if WasReplaced(script[0], maxBytes) then 2 else 1
    ensures tail.Transient? <==> forall a :: 0 <= a < 2 ==> WasReplaced(script[a], maxBytes)
    ensures tail.Failed? <==> AzureFails(script[attempts - 1], maxBytes)
    ensures tail.Refused? <==> AzureRefuses(script[attempts - 1], maxBytes)
    ensures tail.Tail? ==> |tail.bytes| == Wanted(maxBytes, tail.size)
    ensures tail.Tail? ==>
      var a := script[attempts - 1];
      tail == if Asks(a, maxBytes) then Tail(a.download.bytes, a.properties.size, a.download.etag)
              else Tail([], a.properties.size, a.properties.etag)
    ensures forall blobs :: (forall a :: 0 <= a < 2 ==> Truthful(blobs, script[a], maxBytes)) ==>
              OfOneBlob(blobs, maxBytes, tail)
    ensures forall blob: Bytes, v: nat ::
              script[0] == Attempt(Properties(|blob|, Some(v)), Downloaded(Last(blob, maxBytes), Some(v))) ==>
                tail == Tail(Last(blob, maxBytes), |blob|, Some(v))
  {
    attempts := 0;
    while attempts < 2
      invariant attempts <= 2 && forall a :: 0 <= a < attempts ==> WasReplaced(script[a], maxBytes)
    {
      var Attempt(properties, download) := script[attempts];
      attempts := attempts + 1;
      if properties.PropertiesFail? {
        return Failed, attempts;
      }
      var size := properties.size;
      if size < 0 {
        return Refused, attempts;
      }
      if maxBytes <= 0 || size == 0 {
        tail := Tail([], size, properties.etag);
        EmptyTail(script[attempts - 1], maxBytes);
        return;
      }
      if properties.etag.None? {
        return Refused, attempts;
      }
      var take := Min(maxBytes, size);
      if download.DownloadFails? {
        return Failed, attempts;
      }
      if download.Downloaded? {
        if |download.bytes| != take {
          return Refused, attempts;
        }
        tail := Tail(download.bytes, size, download.etag);
        FullTail(script[attempts - 1], maxBytes);
        return;
      }
    }
    tail := Transient;
  }

  lemma EmptyTail(a: Attempt, maxBytes: int)
    requires a.properties.Properties? && a.properties.size >= 0 && (maxBytes <= 0 || a.properties.size == 0)
    ensures forall blobs :: Truthful(blobs, a, maxBytes) ==>
              OfOneBlob(blobs, maxBytes, Tail([], a.properties.size, a.properties.etag))
  {
  }

  lemma FullTail(a: Attempt, maxBytes: int)
    requires a.properties.Properties? && a.properties.size > 0 && a.properties.etag.Some? && maxBytes > 0
    requires a.download.Downloaded? && |a.download.bytes| == Min(maxBytes, a.properties.size)
    ensures forall blobs :: Truthful(blobs, a, maxBytes) ==>
              OfOneBlob(blobs, maxBytes, Tail(a.download.bytes, a.properties.size, a.download.etag))
  {
    forall blobs | Truthful(blobs, a, maxBytes)
      ensures OfOneBlob(blobs, maxBytes, Tail(a.download.bytes, a.properties.size, a.download.etag))
    {
      var v := a.properties.etag.value;
      assert v in blobs && |blobs[v]| == a.properties.size;
      assert |Last(blobs[v], maxBytes)| == |a.download.bytes|;
    }
  }

  // ---------- S3 ----------

  /** A `Content-Range` (section 14.4 of RFC 9110), as far as it parses: the first and last byte, and the total. */
  datatype Range = Range(span: Option<(nat, nat)>, total: Option<nat>)

  datatype Get = Got(bytes: Bytes, range: Option<Range>, etag: Option<nat>) | Unsatisfiable | GetFails
  datatype Head = Head(size: Option<nat>, etag: Option<nat>) | HeadFails

  /** The suffix asked for, and exactly the bytes that came. */
  predicate IsSuffix(range: Range, length: nat, maxBytes: nat) {
    && range.span.Some? && range.span.value.1 - range.span.value.0 + 1 == length
    && (range.total.Some? ==>
          range.span.value.1 == range.total.value - 1 && range.span.value.0 == Max(0, range.total.value - maxBytes))
  }

  /**
   * The one answer whose size is another object's: it names no total, and is as long as was asked for, and the object
   * the size is then read from is shorter.
   */
  predicate ReplacedByShorter(maxBytes: int, get: Get, head: Head) {
    && maxBytes > 0 && get.Got? && |get.bytes| == maxBytes && (get.range.None? || get.range.value.total.None?)
    && head.Head? && head.size.Some? && head.size.value < maxBytes
  }

  /**
   * The answer is one object's: the bytes its range names, of its total if that is named, or with no range all of
   * them.
   */
  ghost predicate TellsOf(blob: Bytes, get: Get) {
    get.Got? ==>
      match get.range
      case None => get.bytes == blob
      case Some(range) =>
        && (range.total.Some? ==> range.total.value == |blob|)
        && (range.span.Some? ==>
              var (first, last) := range.span.value;
              first <= last < |blob| && get.bytes == blob[first..last + 1])
        && (range.span.None? ==> get.bytes == [])
  }

  predicate NamesTotal(get: Get) {
    get.Got? && get.range.Some? && get.range.value.total.Some?
  }

  /** The answer for the suffix of an object, its range and total named; or all of a short one, with no range. */
  ghost predicate AnswersSuffix(blob: Bytes, get: Get, maxBytes: int) {
    && get.Got? && blob != [] && get.bytes == Last(blob, maxBytes)
    && if get.range.None? then |blob| < maxBytes
       else
         get.range.value == Range(Some((if |blob| <= maxBytes then 0 else |blob| - maxBytes, |blob| - 1)), Some(|blob|))
  }

  /** The answer is no tail: it is longer than was asked for, or its range is not the suffix or not its bytes. */
  predicate S3Disagrees(get: Get, maxBytes: nat) {
    && get.Got?
    && (|| |get.bytes| > maxBytes
        || (&& get.range.Some? && !IsSuffix(get.range.value, |get.bytes|, maxBytes)
            && !(get.range.value.total == Some(0) && get.bytes == [])))
  }

  /** The `HEAD` is sent: no bytes are wanted or none come, or the answer is full and names no total. */
  predicate Heads(maxBytes: int, get: Get) {
    || maxBytes <= 0
    || get.Unsatisfiable?
    || (get.Got? && !S3Disagrees(get, maxBytes) && !NamesTotal(get) && |get.bytes| == maxBytes)
  }

  /** What the tail's size is read from. */
  function S3Size(maxBytes: int, get: Get, head: Head): nat {
    if maxBytes > 0 && NamesTotal(get) then get.range.value.total.value
    else if Heads(maxBytes, get) && head.Head? && head.size.Some? then head.size.value
    else if maxBytes > 0 && get.Got? then |get.bytes|
    else 0
  }

  /** S3's tail read: one suffix range, and a `HEAD` for an empty object, or where the answer does not give the size. */
  method S3Tail(maxBytes: int, get: Get, head: Head) returns (tail: Tail)
    ensures tail.Failed? <==> (maxBytes > 0 && get.GetFails?) || (Heads(maxBytes, get) && head.HeadFails?)
    ensures tail.Refused? <==>
      maxBytes > 0 && (S3Disagrees(get, maxBytes) || (get.Unsatisfiable? && head.Head? && head.size != Some(0)))
    ensures !tail.Transient?
    ensures tail.Tail? ==>
      && tail.size == S3Size(maxBytes, get, head)
      && tail.bytes == (if maxBytes > 0 && get.Got? then get.bytes else [])
      && tail.version == (if maxBytes > 0 && get.Got? then get.etag else head.etag)
    ensures tail.Tail? ==> (|tail.bytes| == Wanted(maxBytes, tail.size) <==> !ReplacedByShorter(maxBytes, get, head))
    ensures maxBytes > 0 && tail.Tail? && NamesTotal(get) ==>
              forall blob :: TellsOf(blob, get) ==> tail.bytes == Last(blob, maxBytes) && tail.size == |blob|
    ensures forall blob: Bytes :: maxBytes > 0 && AnswersSuffix(blob, get, maxBytes) ==>
              tail == Tail(Last(blob, maxBytes), |blob|, get.etag)
  {
    if maxBytes <= 0 {
      return if head.HeadFails? then Failed
             else Tail([], if head.size.Some? then head.size.value else 0, head.etag);
    }
    if get.GetFails? {
      return Failed;
    }
    if get.Unsatisfiable? {
      if head.HeadFails? {
        return Failed;
      }
      if head.size != Some(0) {
        return Refused;
      }
      return Tail([], 0, head.etag);
    }
    var bytes := get.bytes;
    if |bytes| > maxBytes {
      return Refused;
    }
    var size := if get.range.Some? then get.range.value.total else None;
    if get.range.Some? && !(size == Some(0) && |bytes| == 0) && !IsSuffix(get.range.value, |bytes|, maxBytes) {
      return Refused;
    }
    if size.None? {
      if |bytes| == maxBytes {
        if head.HeadFails? {
          return Failed;
        }
        size := if head.size.Some? then head.size else Some(|bytes|);
      } else {
        size := Some(|bytes|);
      }
    }
    tail := Tail(bytes, size.value, get.etag);
  }

  /**
   * Such an answer does come: an object of one byte comes whole, with no range, and is replaced by an empty one
   * before the `HEAD`, though both answers are true. The tail is then longer than its size.
   */
  method LongerThanItsSize(byte: bv8) returns (tail: Tail)
    ensures TellsOf([byte], Got([byte], None, Some(1))) && tail == Tail([byte], 0, Some(1))
    ensures ReplacedByShorter(1, Got([byte], None, Some(1)), Head(Some(0), Some(2)))
  {
    tail := S3Tail(1, Got([byte], None, Some(1)), Head(Some(0), Some(2)));
  }

  // ---------- GCS ----------

  /** A response: its status, its bytes, `Content-Range` when it is well formed, and the generation it names. */
  datatype Response = Response(status: nat, bytes: Bytes, range: Option<(nat, nat, nat)>, generation: Option<nat>)

  datatype Read = Answered(response: Response) | RangeRefused | ReadFails
  datatype Metadata = Metadata(size: int, generation: Option<nat>) | MetadataFails

  /** The truth of a response: a whole object, or the bytes of one that its range names. */
  ghost predicate SpeaksOf(blob: Bytes, response: Response) {
    && (response.status == 200 ==> response.bytes == blob)
    && (response.status == 206 && response.range.Some? ==>
          var (first, last, total) := response.range.value;
          total == |blob| && first <= last < total && response.bytes == blob[first..last + 1])
  }

  /** The response is a proper answer for the tail of an object: all of it, or exactly the suffix asked for. */
  ghost predicate AnswersTail(blob: Bytes, response: Response, maxBytes: nat) {
    && response.bytes == Last(blob, maxBytes)
    && if response.status == 200 then |blob| <= maxBytes
       else
         && response.status == 206 && response.range.Some?
         && var (first, last, total) := response.range.value;
            total == |blob| && last == |blob| - 1 && first == |blob| - Wanted(maxBytes, |blob|)
  }

  /**
   * The size a tail response gives, which is accepted exactly when the response properly answers for an object of it.
   */
  function TailSize(response: Response, maxBytes: nat): (size: Option<nat>)
    ensures size.Some? ==> |response.bytes| == Wanted(maxBytes, size.value)
    ensures size.Some? ==> exists blob :: |blob| == size.value && AnswersTail(blob, response, maxBytes)
    ensures forall blob :: AnswersTail(blob, response, maxBytes) ==> size == Some(|blob|)
    ensures size.Some? && response.bytes != [] ==>
              forall blob :: SpeaksOf(blob, response) ==> response.bytes == Last(blob, maxBytes) && size.value == |blob|
  {
    var received := |response.bytes|;
    if response.status == 200 then
      assert response.bytes == Last(response.bytes, received);
      if received > maxBytes then None else Some(received)
    else if response.status != 206 || response.range.None? then None
    else
      var (first, last, total) := response.range.value;
      if last != total - 1 || first != Max(0, total - maxBytes) || last - first + 1 != received then None
      else
        EndsAnObject(response.bytes, total, maxBytes);
        Some(total)
  }

  /** Bytes as many as a tail holds are the tail of some object. */
  lemma EndsAnObject(bytes: Bytes, size: nat, maxBytes: nat)
    requires |bytes| == Wanted(maxBytes, size)
    ensures exists blob: Bytes :: |blob| == size && bytes == Last(blob, maxBytes)
  {
    var blob := seq(size - |bytes|, _ => 0 as bv8) + bytes;
    assert |blob| == size && bytes == Last(blob, maxBytes);
  }

  /** Whether a range response is exactly the bytes asked for. */
  predicate RangeAccepted(response: Response, offset: nat, length: nat) {
    var received := |response.bytes|;
    && (if response.status == 200 then offset == 0
        else
          && response.status == 206 && response.range.Some?
          && var (first, last, total) := response.range.value;
             first == offset && last - first + 1 == received && last < total)
    && received == length
  }

  /** An accepted range is those bytes of the object, all within it. */
  lemma RangeIsTheRange(response: Response, offset: nat, length: nat, blob: Bytes)
    requires RangeAccepted(response, offset, length) && SpeaksOf(blob, response)
    ensures offset + length <= |blob| && response.bytes == blob[offset..offset + length]
  {
    if response.status == 200 {
      assert blob == blob[0..|blob|];
    }
  }

  /**
   * The right bytes of an object, told as they are, are accepted: in a range response, or in a whole one from its
   * start.
   */
  lemma TheRangeIsAccepted(blob: Bytes, offset: nat, length: nat, generation: Option<nat>)
    requires 0 < length && offset + length <= |blob|
    ensures var bytes := blob[offset..offset + length];
            && RangeAccepted(Response(206, bytes, Some((offset, offset + length - 1, |blob|)), generation), offset,
                             length)
            && (length == |blob| ==> RangeAccepted(Response(200, bytes, None, generation), offset, length))
            && !RangeAccepted(Response(200, blob, None, generation), offset + 1, length)
  {
  }

  /** The metadata is read: no bytes are wanted, or none come. */
  predicate ReadsMetadata(maxBytes: int, read: Read) {
    maxBytes <= 0 || read.RangeRefused? || (read.Answered? && read.response.bytes == [])
  }

  /** GCS's tail read: one suffix range, and the metadata where no bytes come. */
  method GcsTail(maxBytes: int, read: Read, metadata: Metadata) returns (tail: Tail)
    ensures tail.Failed? <==>
      (maxBytes > 0 && read.ReadFails?) || (ReadsMetadata(maxBytes, read) && metadata.MetadataFails?)
    ensures tail.Refused? <==>
      || (&& ReadsMetadata(maxBytes, read) && metadata.Metadata?
          && (metadata.size < 0 || (maxBytes > 0 && metadata.size != 0)))
      || (&& !ReadsMetadata(maxBytes, read) && read.Answered?
          && !exists blob :: AnswersTail(blob, read.response, maxBytes))
    ensures !tail.Transient?
    ensures tail.Tail? ==> |tail.bytes| == Wanted(maxBytes, tail.size)
    ensures maxBytes > 0 && tail.Tail? && tail.bytes != [] ==>
              && read.Answered? && tail.bytes == read.response.bytes && tail.version == read.response.generation
              && forall blob :: SpeaksOf(blob, read.response) ==>
                   tail.bytes == Last(blob, maxBytes) && tail.size == |blob|
    ensures tail.Tail? && tail.bytes == [] ==> metadata == Metadata(tail.size, tail.version)
    ensures forall blob ::
              maxBytes > 0 && read.Answered? && blob != [] && AnswersTail(blob, read.response, maxBytes) ==>
              tail == Tail(Last(blob, maxBytes), |blob|, read.response.generation)
  {
    if maxBytes <= 0 {
      return OfMetadata(metadata);
    }
    if read.ReadFails? {
      return Failed;
    }
    if read.RangeRefused? || read.response.bytes == [] {
      tail := OfMetadata(metadata);
      if tail.Tail? && tail.size != 0 {
        tail := Refused;
      }
      return;
    }
    var size := TailSize(read.response, maxBytes);
    return if size.None? then Refused else Tail(read.response.bytes, size.value, read.response.generation);
  }

  /** An empty tail, of the size the metadata gives when it is one. */
  function OfMetadata(metadata: Metadata): (tail: Tail)
    ensures tail.Tail? <==> metadata.Metadata? && metadata.size >= 0
    ensures tail.Tail? ==> tail.bytes == [] && metadata == Metadata(tail.size, tail.version)
  {
    if metadata.MetadataFails? then Failed
    else if metadata.size < 0 then Refused
    else Tail([], metadata.size, metadata.generation)
  }
}
