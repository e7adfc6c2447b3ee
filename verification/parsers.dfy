/** The five playlist-format sniffers and the resolver that tries them in
    priority order over the result of fetching the station URL. */
module Parsers {
  import opened Optional
  import opened JsString
  import opened Patterns
  import opened LineScan

  /** What the fetch left behind when it finished: the error text (set
      for a non-200 status or a transport failure), the response headers
      by name, and the body text. */
  datatype FetchResult = FetchResult(
    error: Option<string>,
    headers: map<string, string>,
    body: Option<string>)

  datatype Format = ASF | ASX | M3U | PLS | RAM

  /** The order in which the sniffers are tried. */
  const Priority: seq<Format> := [ASF, ASX, M3U, PLS, RAM]

  /** A header value JavaScript treats as true: present and non-empty. */
  predicate HasValue(headers: map<string, string>, name: string) {
    name in headers && headers[name] != ""
  }

  /** The content type: the first of `Content-Type`, `Content-type` and
      `content-type` that holds a non-empty value, cut at its first `;`.
      An empty `content-type` is passed on as it is; with none of the three
      present there is no content type. */
  function ContentType(headers: map<string, string>): (ct: Option<string>)
    ensures HasValue(headers, "Content-Type") ==>
      ct.Some? && IsFirstPiece(headers["Content-Type"], ct.value, ';')
    ensures !HasValue(headers, "Content-Type") && HasValue(headers, "Content-type") ==>
      ct.Some? && IsFirstPiece(headers["Content-type"], ct.value, ';')
    ensures !HasValue(headers, "Content-Type") && !HasValue(headers, "Content-type") && "content-type" in headers ==>
      ct.Some? && IsFirstPiece(headers["content-type"], ct.value, ';')
    ensures ct.None? <==>
      !HasValue(headers, "Content-Type") && !HasValue(headers, "Content-type") && "content-type" !in headers
  {
    if HasValue(headers, "Content-Type") then Some(Before(headers["Content-Type"], ';'))
    else if HasValue(headers, "Content-type") then Some(Before(headers["Content-type"], ';'))
    else if "content-type" in headers then Some(Before(headers["content-type"], ';'))
    else None
  }

  /** A media type followed by parameters (`audio/x-scpls; charset=utf-8`)
      or by nothing comes back as the media type alone. */
  lemma ContentTypeDropsParameters(headers: map<string, string>, media: string, params: string)
    requires "Content-Type" in headers && headers["Content-Type"] == media + params
    requires ';' !in media && (params == [] || params[0] == ';')
    requires media + params != []
    ensures ContentType(headers) == Some(media)
  {
    BeforeFirst(media, params, ';');
  }

  /** The content types each sniffer accepts. */
  function AllowedTypes(fmt: Format): seq<string> {
    match fmt
    case ASF => ["application/octet-stream", "video/x-ms-asf"]
    case ASX => ["application/octet-stream", "audio/x-ms-wax", "video/x-ms-wvx", "video/x-ms-wmv", "video/x-ms-asf"]
    case M3U => ["application/octet-stream", "audio/mpegurl", "audio/x-mpegurl"]
    case PLS => ["application/octet-stream", "audio/x-scpls", "application/pls+xml"]
    case RAM => ["application/octet-stream", "audio/x-pn-realaudio", "audio/vnd.rn-realaudio"]
  }

  /** The text the trimmed, lower-cased body of an ASF, ASX or PLS file
      starts with. */
  function Signature(fmt: Format): string {
    match fmt
    case ASF => "[reference]"
    case ASX => "<asx"
    case PLS => "[playlist]"
    case _ => ""
  }

  /** The body test of each sniffer. */
  predicate BodyMatches(fmt: Format, body: string) {
    match fmt
    case M3U => LinesItems(HttpLine, body) != []
    case RAM => LinesItems(RamUrl, body) != []
    case _ => StartsWith(Lower(Trim(body)), Signature(fmt))
  }

  /** The ASF, ASX and PLS body tests look at the start of the body only:
      after any leading white space it must spell the signature in any
      ASCII letter case, and what follows (trailing white space included)
      does not matter. */
  lemma SignatureTest(fmt: Format, body: string)
    requires fmt == ASF || fmt == ASX || fmt == PLS
    ensures BodyMatches(fmt, body) <==> StartsWithIgnoringCase(TrimStart(body), Signature(fmt))
  {
    var sig := Signature(fmt);
    assert forall i :: 0 <= i < |sig| ==> !IsSpace(sig[i]) && ToLower(sig[i]) == sig[i];
    SignatureIgnoresTrailingSpace(body, sig);
  }

  /** A transport error is recorded (an empty text would not count). */
  predicate HasError(f: FetchResult) {
    f.error.Some? && f.error.value != ""
  }

  /** A body is present and non-empty. */
  predicate HasBody(f: FetchResult) {
    f.body.Some? && f.body.value != ""
  }

  predicate TypeAllowed(fmt: Format, f: FetchResult) {
    var ct := ContentType(f.headers);
    ct.Some? && ct.value in AllowedTypes(fmt)
  }

  /** `validate` of the sniffer for `fmt`. */
  predicate Validate(fmt: Format, f: FetchResult) {
    && !HasError(f)
    && HasBody(f)
    && TypeAllowed(fmt, f)
    && BodyMatches(fmt, f.body.value)
  }

  /** The regular expression each sniffer extracts its entries with. */
  function PatternOf(fmt: Format): Pattern {
    match fmt
    case ASF => RefEntry
    case ASX => AsxHref
    case M3U => HttpLine
    case PLS => FileEntry
    case RAM => RamUrl
  }

  /** The entries the sniffer for `fmt` pulls out of a body, in document
      order. */
  function Extract(fmt: Format, body: string): seq<Uri> {
    if fmt == ASX then Scan(AsxHref, body) else LinesItems(PatternOf(fmt), body)
  }

  /** Extraction is the global search of the sniffer's regular expression,
      and every entry it keeps has that expression's shape. */
  lemma ExtractEntries(fmt: Format, body: string)
    ensures Extract(fmt, body) == Scan(PatternOf(fmt), body)
    ensures forall k :: 0 <= k < |Extract(fmt, body)| ==> EntryShape(PatternOf(fmt), Extract(fmt, body)[k])
  {
    if fmt == ASX {
      AsxEntries(body, true);
    } else {
      LinesItemsIsScan(PatternOf(fmt), body);
      LinesItemsShape(PatternOf(fmt), body);
    }
  }

  /** A RAM file line starting with `rtsp` yields those four letters as
      its first entry, not the URL they begin: the alternation divides the
      pattern into `^rtsp` and `https?:\/\/.*`. */
  lemma RtspEntryIsSchemeOnly(line: string, tail: string)
    requires NoLineTerminator(line) && StartsWithIgnoringCase(line, "rtsp")
    requires tail == [] || IsLineTerminator(tail[0])
    ensures Extract(RAM, line + tail) != []
    ensures Extract(RAM, line + tail)[0] == Some(line[..4])
  {
    LineLengthOfLine(line, tail);
  }

  /** `playlist` of the sniffer for `fmt`: nothing (`null`) unless the
      fetch result validates. */
  function Playlist(fmt: Format, f: FetchResult): (p: Option<seq<Uri>>)
    ensures p.Some? <==> Validate(fmt, f)
    ensures p.Some? ==> p.value == Extract(fmt, f.body.value)
  {
    if Validate(fmt, f) then Some(Extract(fmt, f.body.value)) else None
  }

  /** Position in `formats` of the first sniffer that validates. */
  function FirstValid(formats: seq<Format>, f: FetchResult): (k: Option<nat>)
    ensures k.Some? ==> k.value < |formats| && Validate(formats[k.value], f)
    ensures k.Some? ==> forall j :: 0 <= j < k.value ==> !Validate(formats[j], f)
    ensures k.None? ==> forall j :: 0 <= j < |formats| ==> !Validate(formats[j], f)
    decreases |formats|
  {
    if formats == [] then None
    else if Validate(formats[0], f) then Some(0)
    else
      match FirstValid(formats[1..], f)
      case Some(k) => Some(k + 1)
      case None => None
  }

  /** The playlist the player plays after fetching `url`: that of the first
      sniffer in priority order that validates, or else the URL itself,
      which may be a media stream rather than a playlist. */
  function Resolve(url: string, f: FetchResult): seq<Uri> {
    match FirstValid(Priority, f)
    case Some(k) => Playlist(Priority[k], f).value
    case None => [Some(url)]
  }

  /** The resolved playlist is the URL alone when no sniffer validates,
      and otherwise the extraction of the first sniffer in priority order
      that validates. */
  lemma ResolvePicksFirst(url: string, f: FetchResult)
    ensures (forall k :: 0 <= k < |Priority| ==> !Validate(Priority[k], f)) ==> Resolve(url, f) == [Some(url)]
    ensures forall k ::
      (0 <= k < |Priority| && Validate(Priority[k], f) && forall j :: 0 <= j < k ==> !Validate(Priority[j], f))
      ==> Resolve(url, f) == Extract(Priority[k], f.body.value)
  {
    var found := FirstValid(Priority, f);
    forall k | 0 <= k < |Priority| && Validate(Priority[k], f) && forall j :: 0 <= j < k ==> !Validate(Priority[j], f)
      ensures Resolve(url, f) == Extract(Priority[k], f.body.value)
    {
      assert found == Some(k);
    }
  }
}
