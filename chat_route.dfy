/**
 * The `POST /api/chat` handler: before anything is forwarded to the model
 * provider, every `file` part of every message is checked, in order, for a
 * supported image type, a `data:` URL, a non-empty payload and a decoded size
 * of at most 5 MiB.  The first violation short-circuits into a 400 response.
 */
module ChatRoute {
  import opened Wrappers
  import opened JsString
  import opened NumberFormat
  import opened Seqs
  import opened UIMessage

  const MaxFileSizeMb: nat := 5
  const MaxFileSizeBytes: nat := MaxFileSizeMb * 1024 * 1024
  /** The allow-list, in the insertion order the `Set` iterates in. */
  const SupportedImageTypes: seq<string> := ["image/jpeg", "image/png", "image/gif", "image/webp"]
  /** The longest base64 payload whose `floor(len * 3 / 4)` stays within `MaxFileSizeBytes`. */
  const MaxPayloadLength: nat := 6990507

  // ---------------------------------------------------------------- responses

  datatype ErrorBody = ErrorBody(error: string, details: Option<string>)
  datatype Response = Response(status: int, contentType: string, body: ErrorBody)

  /** `createErrorResponse`: a JSON body that carries `details` only when it is a non-empty string. */
  function CreateErrorResponse(message: string, status: int, details: Option<string>): (r: Response)
    ensures r.status == status && r.contentType == "application/json" && r.body.error == message
    ensures r.body.details.Some? <==> details.Some? && details.value != ""
    ensures r.body.details.Some? ==> r.body.details == details
  {
    var kept := if details.Some? && details.value != "" then details else None;
    Response(status, "application/json", ErrorBody(message, kept))
  }

  /** `t.replace("image/", "").toUpperCase()`. */
  function FormatName(t: string): string {
    UpperAscii(ReplaceFirst(t, "image/", ""))
  }

  /** The formats listed in the unsupported-type message, built from the allow-list. */
  function SupportedFormats(): (r: string)
    ensures r == "JPEG, PNG, GIF, WEBP"
  {
    var names := seq(|SupportedImageTypes|, k requires 0 <= k < |SupportedImageTypes| => FormatName(SupportedImageTypes[k]));
    FormatNames();
    assert names == ["JPEG", "PNG", "GIF", "WEBP"];
    JoinFormats(names);
    Join(names, ", ")
  }

  lemma FormatNameOfImage(t: string, rest: string)
    requires t == "image/" + rest
    ensures FormatName(t) == UpperAscii(rest)
  {
    assert StartsWith(t, "image/");
    assert t[|"image/"|..] == rest;
  }

  lemma FormatNames()
    ensures FormatName("image/jpeg") == "JPEG" && FormatName("image/png") == "PNG"
    ensures FormatName("image/gif") == "GIF" && FormatName("image/webp") == "WEBP"
  {
    JpegName();
    PngName();
    GifName();
    WebpName();
  }

  lemma JpegName()
    ensures FormatName("image/jpeg") == "JPEG"
  {
    UpperName("image/jpeg", "jpeg", "JPEG");
  }

  lemma PngName()
    ensures FormatName("image/png") == "PNG"
  {
    UpperName("image/png", "png", "PNG");
  }

  lemma GifName()
    ensures FormatName("image/gif") == "GIF"
  {
    UpperName("image/gif", "gif", "GIF");
  }

  lemma WebpName()
    ensures FormatName("image/webp") == "WEBP"
  {
    UpperName("image/webp", "webp", "WEBP");
  }

  /** One allow-listed type's name: `rest` upper-cased letter by letter. */
  lemma UpperName(t: string, rest: string, upper: string)
    requires t == "image/" + rest
    requires |upper| == |rest| && forall k :: 0 <= k < |rest| ==> 'a' <= rest[k] <= 'z' && upper[k] as int == rest[k] as int - 32
    ensures FormatName(t) == upper
  {
    FormatNameOfImage(t, rest);
  }

  lemma JoinFormats(names: seq<string>)
    requires names == ["JPEG", "PNG", "GIF", "WEBP"]
    ensures Join(names, ", ") == "JPEG, PNG, GIF, WEBP"
  {
    assert names[1..][1..] == names[2..] && names[2..][1..] == names[3..];
    assert Join(names[3..], ", ") == "WEBP";
    assert Join(names[2..], ", ") == "GIF, WEBP";
    assert Join(names[1..], ", ") == "PNG, GIF, WEBP";
  }

  // ------------------------------------------------------------------- checks

  datatype Violation =
    | UnsupportedType(mediaType: Option<string>)
    | NotDataUrl
    | MissingContent
    | TooLarge(sizeInBytes: nat)

  predicate TypeSupported(mediaType: Option<string>) {
    mediaType.Some? && mediaType.value in SupportedImageTypes
  }

  predicate HasDataPrefix(url: Option<string>) {
    url.Some? && StartsWith(url.value, "data:")
  }

  /** `url.split(",", 2)[1]`: the payload after the first comma, up to a second one. */
  function Base64Of(url: string): Option<string> {
    SplitSecond(url, ',')
  }

  predicate HasContent(url: Option<string>) {
    url.Some? && Base64Of(url.value).Some? && Base64Of(url.value).value != ""
  }

  /** `Math.floor((base64.length * 3) / 4)`, with `length` counted in UTF-16 code units. */
  function SizeInBytes(base64: string): nat {
    CodeUnits(base64) * 3 / 4
  }

  /** The payload is no longer than `MaxPayloadLength` code units. */
  predicate WithinCeiling(url: Option<string>) {
    url.Some? && Base64Of(url.value).Some? && CodeUnits(Base64Of(url.value).value) <= MaxPayloadLength
  }

  /** The checks on one file part, in the order the handler runs them. */
  function CheckFile(mediaType: Option<string>, url: Option<string>): Option<Violation> {
    if !TypeSupported(mediaType) then Some(UnsupportedType(mediaType))
    else if !HasDataPrefix(url) then Some(NotDataUrl)
    else
      var base64 := Base64Of(url.value);
      if base64.None? || base64.value == "" then Some(MissingContent)
      else if SizeInBytes(base64.value) > MaxFileSizeBytes then Some(TooLarge(SizeInBytes(base64.value)))
      else None
  }

  /** Only file parts are checked. */
  function PartViolation(p: Part): Option<Violation> {
    match p
    case FilePart(mediaType, url) => CheckFile(mediaType, url)
    case _ => None
  }

  /** The first violation among `ps`, scanning from the front. */
  function FirstViolationIn(ps: seq<Part>): Option<Violation> {
    if ps == [] then None
    else if PartViolation(ps[0]).Some? then PartViolation(ps[0])
    else FirstViolationIn(ps[1..])
  }

  /** The first violation of the outer loop over messages, each scanned by the inner loop over its parts. */
  function FirstViolation(ms: seq<Message>): Option<Violation> {
    if ms == [] then None
    else if FirstViolationIn(PartsOf(ms[0])).Some? then FirstViolationIn(PartsOf(ms[0]))
    else FirstViolation(ms[1..])
  }

  // ------------------------------------------------------------ error bodies

  /** `(sizeInBytes / 1024 / 1024)` rounded to tenths as `toFixed(1)` rounds: nearest, ties up. */
  function TenthsOfMib(sizeInBytes: nat): (t: nat)
    ensures 2097152 * t <= 20 * sizeInBytes + 1048576 < 2097152 * (t + 1)
  {
    (20 * sizeInBytes + 1048576) / 2097152
  }

  const UnsupportedDetailsLead: string := "The provided file type ('"

  function UnsupportedDetails(mediaType: Option<string>): string {
    UnsupportedDetailsLead + mediaType.GetOr("unknown")
    + "') is not supported. Please upload one of the following formats: " + SupportedFormats() + "."
  }

  function TooLargeDetails(sizeInBytes: nat): string {
    TooLargeDetailsLead + FixedOne(TenthsOfMib(sizeInBytes)) + "MB) exceeds the maximum limit of "
    + Decimal(MaxFileSizeMb) + "MB."
  }

  /** The 400 response for a violation; every one of them carries details. */
  function Rejection(v: Violation): (r: Response)
    ensures r.status == 400 && r.body.details.Some?
    ensures v.UnsupportedType? ==> r.body.error == "Unsupported File Type"
    ensures v.NotDataUrl? || v.MissingContent? ==> r.body.error == "Invalid Image Data"
    ensures v.TooLarge? ==> r.body.error == "Image Too Large"
  {
    match v
    case UnsupportedType(mediaType) =>
      CreateErrorResponse("Unsupported File Type", 400, Some(UnsupportedDetails(mediaType)))
    case NotDataUrl =>
      CreateErrorResponse("Invalid Image Data", 400, Some("The image data URL is improperly formatted."))
    case MissingContent =>
      CreateErrorResponse("Invalid Image Data", 400, Some("The image data URL is missing its content."))
    case TooLarge(size) =>
      CreateErrorResponse("Image Too Large", 400, Some(TooLargeDetails(size)))
  }

  // ---------------------------------------------------------------- handler

  /** The decoded `messages` field of the request body. */
  datatype MessagesField = Missing | NotAnArray | Messages(list: seq<Message>)

  /** Either the list is forwarded to the model provider, or the request is answered with an error. */
  datatype Outcome = Forward(messages: seq<Message>) | Reject(response: Response)

  const MissingMessagesResponse: Response := CreateErrorResponse("Missing messages array.", 400, None)

  /** What the handler answers, as a function of the request. */
  function Verdict(body: MessagesField): (r: Outcome)
    ensures !body.Messages? ==> r == Reject(Response(400, "application/json", ErrorBody("Missing messages array.", None)))
    ensures r.Reject? ==> r.response.status == 400
    ensures r.Forward? ==> body.Messages? && r.messages == body.list
  {
    match body
    case Messages(ms) =>
      (match FirstViolation(ms)
       case Some(v) => Reject(Rejection(v))
       case None => Forward(ms))
    case _ => Reject(MissingMessagesResponse)
  }

  /** `POST`: the nested validation loops with an early return on the first violation. */
  method Post(body: MessagesField) returns (r: Outcome)
    ensures r == Verdict(body)
  {
    if !body.Messages? {
      return Reject(MissingMessagesResponse);
    }
    var ms := body.list;
    var i := 0;
    while i < |ms|
      invariant 0 <= i <= |ms|
      invariant FirstViolation(ms[..i]) == None
    {
      var parts := PartsOf(ms[i]);
      var j := 0;
      while j < |parts|
        invariant 0 <= j <= |parts|
        invariant FirstViolationIn(parts[..j]) == None
      {
        var part := parts[j];
        if part.FilePart? {
          if !TypeSupported(part.mediaType) {
            RejectedAt(body, i, j, UnsupportedType(part.mediaType));
            return Reject(Rejection(UnsupportedType(part.mediaType)));
          }
          if !HasDataPrefix(part.url) {
            RejectedAt(body, i, j, NotDataUrl);
            return Reject(Rejection(NotDataUrl));
          }
          var base64 := Base64Of(part.url.value);
          if base64.None? || base64.value == "" {
            RejectedAt(body, i, j, MissingContent);
            return Reject(Rejection(MissingContent));
          }
          var sizeInBytes := CodeUnits(base64.value) * 3 / 4;
          if sizeInBytes > MaxFileSizeBytes {
            RejectedAt(body, i, j, TooLarge(sizeInBytes));
            return Reject(Rejection(TooLarge(sizeInBytes)));
          }
        }
        PassedUpTo(parts, j);
        j := j + 1;
      }
      assert parts[..j] == parts;
      MessagePassedUpTo(ms, i);
      i := i + 1;
    }
    assert ms[..i] == ms;
    return Forward(ms);
  }

  // ------------------------------------------------------- loop bookkeeping

  lemma {:induction false} FirstViolationInAppend(ps: seq<Part>, qs: seq<Part>)
    ensures FirstViolationIn(ps + qs)
         == if FirstViolationIn(ps).Some? then FirstViolationIn(ps) else FirstViolationIn(qs)
  {
    if ps == [] {
      assert ps + qs == qs;
    } else {
      assert (ps + qs)[1..] == ps[1..] + qs;
      FirstViolationInAppend(ps[1..], qs);
    }
  }

  lemma {:induction false} FirstViolationAppend(ms: seq<Message>, ns: seq<Message>)
    ensures FirstViolation(ms + ns)
         == if FirstViolation(ms).Some? then FirstViolation(ms) else FirstViolation(ns)
  {
    if ms == [] {
      assert ms + ns == ns;
    } else {
      assert (ms + ns)[1..] == ms[1..] + ns;
      FirstViolationAppend(ms[1..], ns);
    }
  }

  lemma PassedUpTo(ps: seq<Part>, j: nat)
    requires j < |ps|
    requires FirstViolationIn(ps[..j]) == None
    requires PartViolation(ps[j]) == None
    ensures FirstViolationIn(ps[..j + 1]) == None
  {
    assert ps[..j + 1] == ps[..j] + [ps[j]];
    FirstViolationInAppend(ps[..j], [ps[j]]);
  }

  lemma MessagePassedUpTo(ms: seq<Message>, i: nat)
    requires i < |ms|
    requires FirstViolation(ms[..i]) == None
    requires FirstViolationIn(PartsOf(ms[i])) == None
    ensures FirstViolation(ms[..i + 1]) == None
  {
    assert ms[..i + 1] == ms[..i] + [ms[i]];
    FirstViolationAppend(ms[..i], [ms[i]]);
  }

  /** The verdict once the validation loops stop early at part `j` of message `i`. */
  lemma RejectedAt(body: MessagesField, i: nat, j: nat, v: Violation)
    requires body.Messages? && i < |body.list| && j < |PartsOf(body.list[i])|
    requires FirstViolation(body.list[..i]) == None
    requires FirstViolationIn(PartsOf(body.list[i])[..j]) == None
    requires PartViolation(PartsOf(body.list[i])[j]) == Some(v)
    ensures Verdict(body) == Reject(Rejection(v))
  {
    ViolationFoundAt(body.list, i, j);
  }

  /** A violating part after only passing parts decides its message. */
  lemma ViolationInMessage(ps: seq<Part>, j: nat)
    requires j < |ps| && FirstViolationIn(ps[..j]) == None && PartViolation(ps[j]).Some?
    ensures FirstViolationIn(ps) == PartViolation(ps[j])
  {
    assert ps == ps[..j] + ps[j..];
    FirstViolationInAppend(ps[..j], ps[j..]);
  }

  /** A violating part after only passing parts decides the whole verdict. */
  lemma ViolationFoundAt(ms: seq<Message>, i: nat, j: nat)
    requires i < |ms| && j < |PartsOf(ms[i])|
    requires FirstViolation(ms[..i]) == None
    requires FirstViolationIn(PartsOf(ms[i])[..j]) == None
    requires PartViolation(PartsOf(ms[i])[j]).Some?
    ensures FirstViolation(ms) == PartViolation(PartsOf(ms[i])[j])
  {
    ViolationInMessage(PartsOf(ms[i]), j);
    var tail := ms[i..];
    assert tail[0] == ms[i];
    assert FirstViolation(tail) == FirstViolationIn(PartsOf(ms[i]));
    assert ms == ms[..i] + tail;
    FirstViolationAppend(ms[..i], tail);
  }

  // -------------------------------------------------------------- properties

  /** The size rule in terms of the payload's length: 6990507 code units pass, 6990508 do not. */
  lemma SizeThreshold(base64: string)
    ensures SizeInBytes(base64) > MaxFileSizeBytes <==> CodeUnits(base64) > MaxPayloadLength
    ensures SizeInBytes(base64) == MaxFileSizeBytes <==> CodeUnits(base64) == MaxPayloadLength
  {
    var n := CodeUnits(base64);
    if n <= MaxPayloadLength {
      assert n * 3 <= 20971521;
    } else {
      assert n * 3 >= 20971524;
    }
  }

  /**
   * The checks of one file part run in a fixed order: type, then the `data:`
   * prefix, then a non-empty payload, then its size; the part passes exactly
   * when all four hold.
   */
  lemma CheckOrder(mediaType: Option<string>, url: Option<string>)
    ensures CheckFile(mediaType, url) == None
        <==> TypeSupported(mediaType) && HasDataPrefix(url) && HasContent(url) && WithinCeiling(url)
    ensures CheckFile(mediaType, url) == Some(UnsupportedType(mediaType)) <==> !TypeSupported(mediaType)
    ensures CheckFile(mediaType, url) == Some(NotDataUrl) <==> TypeSupported(mediaType) && !HasDataPrefix(url)
    ensures CheckFile(mediaType, url) == Some(MissingContent)
        <==> TypeSupported(mediaType) && HasDataPrefix(url) && !HasContent(url)
    ensures (CheckFile(mediaType, url).Some? && CheckFile(mediaType, url).value.TooLarge?)
        <==> TypeSupported(mediaType) && HasDataPrefix(url) && HasContent(url) && !WithinCeiling(url)
  {
    if url.Some? && Base64Of(url.value).Some? {
      SizeThreshold(Base64Of(url.value).value);
    }
  }

  /** A payload that decodes to exactly 5 MiB is accepted: the ceiling is inclusive. */
  lemma ExactCeilingAccepted(mediaType: Option<string>, url: Option<string>)
    requires TypeSupported(mediaType) && HasDataPrefix(url) && HasContent(url)
    requires SizeInBytes(Base64Of(url.value).value) == MaxFileSizeBytes
    ensures CheckFile(mediaType, url) == None
  {
  }

  /** Part lists: no violation iff every part passes; otherwise it is the first violating part's. */
  lemma {:induction false} FirstViolationInIsFirst(ps: seq<Part>)
    ensures FirstViolationIn(ps) == None <==> forall k :: 0 <= k < |ps| ==> PartViolation(ps[k]) == None
    ensures FirstViolationIn(ps).Some? ==>
      exists k :: 0 <= k < |ps| && PartViolation(ps[k]) == FirstViolationIn(ps)
               && forall j :: 0 <= j < k ==> PartViolation(ps[j]) == None
  {
    if ps != [] {
      FirstViolationInIsFirst(ps[1..]);
      assert forall k :: 1 <= k < |ps| ==> ps[k] == ps[1..][k - 1];
      if PartViolation(ps[0]).None? && FirstViolationIn(ps[1..]).Some? {
        var k :| 0 <= k < |ps[1..]| && PartViolation(ps[1..][k]) == FirstViolationIn(ps[1..])
                 && forall j :: 0 <= j < k ==> PartViolation(ps[1..][j]) == None;
        assert PartViolation(ps[k + 1]) == FirstViolationIn(ps);
      }
    }
  }

  /** Whatever follows the first violating part is never looked at. */
  lemma FirstViolatingPartDecides(ps: seq<Part>, k: nat, rest: seq<Part>)
    requires k < |ps| && PartViolation(ps[k]).Some?
    requires forall j :: 0 <= j < k ==> PartViolation(ps[j]) == None
    ensures FirstViolationIn(ps + rest) == PartViolation(ps[k])
  {
    assert ps == ps[..k] + ps[k..];
    FirstViolationInIsFirst(ps[..k]);
    FirstViolationInAppend(ps[..k], ps[k..]);
    FirstViolationInAppend(ps, rest);
  }

  /** The two nested loops scan the parts of all messages as one sequence. */
  lemma {:induction false} FirstViolationFlattens(ms: seq<Message>)
    ensures FirstViolation(ms) == FirstViolationIn(AllParts(ms))
  {
    if ms != [] {
      FirstViolationFlattens(ms[1..]);
      FirstViolationInAppend(PartsOf(ms[0]), AllParts(ms[1..]));
    }
  }

  /** Only file parts can make a request fail: dropping every other part changes nothing. */
  lemma {:induction false} NonFilePartsIgnored(ps: seq<Part>)
    ensures FirstViolationIn(ps) == FirstViolationIn(Filter(IsFile, ps))
  {
    if ps != [] {
      NonFilePartsIgnored(ps[1..]);
      var head := if IsFile(ps[0]) then [ps[0]] else [];
      FirstViolationInAppend(head, Filter(IsFile, ps[1..]));
    }
  }

  /** A message whose `parts` is undefined is skipped as if it had none. */
  lemma MessageWithoutPartsSkipped(m: Message, ms: seq<Message>)
    requires m.parts.None?
    ensures FirstViolation([m] + ms) == FirstViolation(ms)
  {
    assert ([m] + ms)[1..] == ms;
  }

  /**
   * The request reaches the model provider exactly when every file part of
   * every message passes all four checks, and then unchanged.
   */
  lemma ForwardIffAllFilesValid(ms: seq<Message>)
    ensures Verdict(Messages(ms)).Forward? <==>
      forall i, j :: 0 <= i < |ms| && 0 <= j < |PartsOf(ms[i])| && PartsOf(ms[i])[j].FilePart? ==>
        CheckFile(PartsOf(ms[i])[j].mediaType, PartsOf(ms[i])[j].url) == None
    ensures Verdict(Messages(ms)).Forward? ==> Verdict(Messages(ms)).messages == ms
  {
    FirstViolationFlattens(ms);
    FirstViolationInIsFirst(AllParts(ms));
    if Verdict(Messages(ms)).Forward? {
      forall i, j | 0 <= i < |ms| && 0 <= j < |PartsOf(ms[i])| && PartsOf(ms[i])[j].FilePart?
        ensures CheckFile(PartsOf(ms[i])[j].mediaType, PartsOf(ms[i])[j].url) == None
      {
        var k := PartIndex(ms, i, j);
        assert PartViolation(AllParts(ms)[k]) == None;
      }
    } else {
      var k :| 0 <= k < |AllParts(ms)| && PartViolation(AllParts(ms)[k]).Some?;
      var i, j := PartOrigin(ms, k);
      assert PartsOf(ms[i])[j].FilePart?;
    }
  }

  /** Where part `j` of message `i` sits in `AllParts(ms)`. */
  function PartIndex(ms: seq<Message>, i: nat, j: nat): (k: nat)
    requires i < |ms| && j < |PartsOf(ms[i])|
    ensures k < |AllParts(ms)| && AllParts(ms)[k] == PartsOf(ms[i])[j]
  {
    if i == 0 then j else |PartsOf(ms[0])| + PartIndex(ms[1..], i - 1, j)
  }

  /** Which message and which of its parts part `k` of `AllParts(ms)` is. */
  lemma {:induction false} PartOrigin(ms: seq<Message>, k: nat) returns (i: nat, j: nat)
    requires k < |AllParts(ms)|
    ensures i < |ms| && j < |PartsOf(ms[i])| && PartsOf(ms[i])[j] == AllParts(ms)[k]
  {
    if k < |PartsOf(ms[0])| {
      i, j := 0, k;
    } else {
      var i', j' := PartOrigin(ms[1..], k - |PartsOf(ms[0])|);
      i, j := i' + 1, j';
    }
  }

  /** The first violating file part, in iteration order, decides the response. */
  lemma FirstViolatingFileDecides(ms: seq<Message>, i: nat, j: nat)
    requires i < |ms| && j < |PartsOf(ms[i])|
    requires forall i', j' :: 0 <= i' < i && 0 <= j' < |PartsOf(ms[i'])| ==> PartViolation(PartsOf(ms[i'])[j']) == None
    requires forall j' :: 0 <= j' < j ==> PartViolation(PartsOf(ms[i])[j']) == None
    requires PartViolation(PartsOf(ms[i])[j]).Some?
    ensures Verdict(Messages(ms)) == Reject(Rejection(PartViolation(PartsOf(ms[i])[j]).value))
  {
    EarlierMessagesPass(ms, i);
    var ps := PartsOf(ms[i]);
    FirstViolationInIsFirst(ps[..j]);
    ViolationFoundAt(ms, i, j);
  }

  lemma {:induction false} EarlierMessagesPass(ms: seq<Message>, i: nat)
    requires i <= |ms|
    requires forall i', j' :: 0 <= i' < i && 0 <= j' < |PartsOf(ms[i'])| ==> PartViolation(PartsOf(ms[i'])[j']) == None
    ensures FirstViolation(ms[..i]) == None
  {
    if i > 0 {
      EarlierMessagesPass(ms, i - 1);
      FirstViolationInIsFirst(PartsOf(ms[i - 1]));
      MessagePassedUpTo(ms, i - 1);
    }
  }

  const TooLargeDetailsLead: string := "The image size ("

  /**
   * The too-large message shows the size to one decimal right after its
   * lead, and that figure reads back as the size in tenths of a MiB.
   */
  lemma TooLargeDetailsShowSize(sizeInBytes: nat)
    ensures var f := FixedOne(TenthsOfMib(sizeInBytes));
      var d := Rejection(TooLarge(sizeInBytes)).body.details.value;
      |TooLargeDetailsLead| + |f| <= |d| && d[|TooLargeDetailsLead|..|TooLargeDetailsLead| + |f|] == f
      && ParseDecimal(f[..|f| - 2]) * 10 + (f[|f| - 1] as int - '0' as int) == TenthsOfMib(sizeInBytes)
  {
    FixedOneReadsBack(TenthsOfMib(sizeInBytes));
  }

  /** The unsupported-type message names the offending type, or `unknown` when it is missing. */
  lemma UnsupportedDetailsNameType(mediaType: Option<string>)
    ensures var name := mediaType.GetOr("unknown");
      var d := Rejection(UnsupportedType(mediaType)).body.details.value;
      |UnsupportedDetailsLead| + |name| <= |d| && d[|UnsupportedDetailsLead|..|UnsupportedDetailsLead| + |name|] == name
  {
  }
}
