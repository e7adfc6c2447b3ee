/** Well-formed documents of the two keyed playlist formats, ASF reference
    files and PLS files, and of ASX files, and what the resolver makes of
    them. A keyed document is a header line, then `<key><number>=<uri>`
    entry lines among other lines; lines are ended by `\n` or by `\r\n`. */
module Documents {
  import opened Optional
  import opened JsString
  import opened Patterns
  import opened LineScan
  import opened Parsers

  /** Lines appended after a first line, each one preceded by `eol`. */
  function JoinLines(eol: string, lines: seq<string>): string
    decreases |lines|
  {
    if lines == [] then [] else eol + lines[0] + JoinLines(eol, lines[1..])
  }

  /** The entries of each line of `lines`, taken in order. */
  function ItemsOf(pat: Pattern, lines: seq<string>): seq<Uri>
    requires LineBased(pat)
    decreases |lines|
  {
    if lines == [] then [] else LineItems(pat, lines[0]) + ItemsOf(pat, lines[1..])
  }

  /** The first line of a body contributes its entries, and the body
      after its line terminator contributes the rest. */
  lemma FirstLine(pat: Pattern, first: string, rest: string)
    requires LineBased(pat) && NoLineTerminator(first)
    requires rest == [] || IsLineTerminator(rest[0])
    ensures LinesItems(pat, first + rest) ==
      LineItems(pat, first) + (if rest == [] then [] else LinesItems(pat, rest[1..]))
  {
    LineLengthOfLine(first, rest);
    if rest != [] {
      assert (first + rest)[|first| + 1..] == rest[1..];
    }
  }

  /** An empty line contributes nothing. */
  lemma EmptyLine(pat: Pattern, r: string)
    requires LineBased(pat) && r != [] && IsLineTerminator(r[0])
    ensures LinesItems(pat, r) == LinesItems(pat, r[1..])
  {
    assert LineLength(r) == 0;
    assert LineItems(pat, r[..0]) == [] by {
      assert r[..0] == [];
      assert !StartsHttp(r[..0]);
    }
  }

  /** Splitting a body into lines undoes joining them, with either line
      ending: the empty line that `\r\n` leaves between its two characters
      contributes nothing. */
  lemma {:induction false} LinesOfJoin(pat: Pattern, eol: string, first: string, lines: seq<string>)
    requires LineBased(pat) && (eol == "\n" || eol == "\r\n")
    requires NoLineTerminator(first)
    requires forall i :: 0 <= i < |lines| ==> NoLineTerminator(lines[i])
    ensures LinesItems(pat, first + JoinLines(eol, lines)) == LineItems(pat, first) + ItemsOf(pat, lines)
    decreases |lines|
  {
    if lines == [] {
      assert first + JoinLines(eol, lines) == first + [];
      FirstLine(pat, first, []);
    } else {
      var next := lines[0] + JoinLines(eol, lines[1..]);
      assert first + JoinLines(eol, lines) == first + (eol + next);
      LineThenNext(pat, eol, first, next);
      LinesOfJoin(pat, eol, lines[0], lines[1..]);
    }
  }

  /** A first line ended by `eol` contributes its entries, and the text
      after `eol` the rest. */
  lemma LineThenNext(pat: Pattern, eol: string, first: string, next: string)
    requires LineBased(pat) && (eol == "\n" || eol == "\r\n")
    requires NoLineTerminator(first)
    ensures LinesItems(pat, first + (eol + next)) == LineItems(pat, first) + LinesItems(pat, next)
  {
    var rest := eol + next;
    FirstLine(pat, first, rest);
    if eol == "\r\n" {
      assert rest[1..] == "\n" + next;
      EmptyLine(pat, "\n" + next);
      assert ("\n" + next)[1..] == next;
    } else {
      assert rest[1..] == next;
    }
  }

  /** One entry of a keyed playlist: its number and its URI. */
  datatype Entry = Entry(number: string, uri: string)

  /** A line of a keyed playlist after its header: an entry, or another
      line the format carries, such as `NumberOfEntries=2`, `Title1=…`,
      `Length1=-1`, `Version=2` or a blank line. A body that ends with a
      line terminator is one whose last line is blank. */
  datatype Line = Item(entry: Entry) | Other(text: string)

  /** The number is one or more digits and the URI stays on its line. */
  predicate WellFormed(e: Entry) {
    && e.number != []
    && (forall i :: 0 <= i < |e.number| ==> IsDigit(e.number[i]))
    && NoLineTerminator(e.uri)
  }

  /** An entry is well formed; any other line stays on its line and starts
      neither with the key nor with `http(s)://`, in any letter case. */
  predicate LineWellFormed(key: string, l: Line) {
    match l
    case Item(e) => WellFormed(e)
    case Other(text) => NoLineTerminator(text) && !StartsWithIgnoringCase(text, key) && !StartsHttp(text)
  }

  predicate AllWellFormed(key: string, lines: seq<Line>) {
    forall i :: 0 <= i < |lines| ==> LineWellFormed(key, lines[i])
  }

  /** The line `<key><number>=<uri>` of one entry. */
  function EntryLine(key: string, e: Entry): string {
    key + e.number + "=" + e.uri
  }

  /** The text of one line. */
  function LineText(key: string, l: Line): string {
    match l
    case Item(e) => EntryLine(key, e)
    case Other(text) => text
  }

  function Texts(key: string, lines: seq<Line>): seq<string>
    decreases |lines|
  {
    if lines == [] then [] else [LineText(key, lines[0])] + Texts(key, lines[1..])
  }

  /** The playlist a keyed document stands for: the URIs of its entries,
      in order. */
  function Uris(lines: seq<Line>): seq<Uri>
    decreases |lines|
  {
    if lines == [] then []
    else (if lines[0].Item? then [Some(lines[0].entry.uri)] else []) + Uris(lines[1..])
  }

  /** A keyed document: the header line, then its lines. */
  function KeyedDocument(header: string, key: string, eol: string, lines: seq<Line>): string {
    header + JoinLines(eol, Texts(key, lines))
  }

  /** `^Key\d+=(.*)` takes the URI of an entry line, whatever the letter
      case the key is written in. */
  lemma KeyedLineValue(key: string, lowerKey: string, e: Entry)
    requires WellFormed(e) && |key| == |lowerKey| && StartsWithIgnoringCase(key, lowerKey)
    ensures KeyedValue(lowerKey, EntryLine(key, e)) == Some(e.uri)
  {
    var line := EntryLine(key, e);
    assert line[..|key|] == key;
    assert line[|key|..] == e.number + "=" + e.uri;
    LeadingRunIs(line[|key|..], IsDigit, |e.number|);
    assert line[|key| + |e.number|] == '=';
    assert line[|key| + |e.number| + 1..] == e.uri;
  }

  /** An entry line stays on one line. */
  lemma EntryLineOneLine(key: string, e: Entry)
    requires NoLineTerminator(key) && WellFormed(e)
    ensures NoLineTerminator(EntryLine(key, e))
  {
    var line := EntryLine(key, e);
    forall i | 0 <= i < |line|
      ensures !IsLineTerminator(line[i])
    {
      if i < |key| {
        assert line[i] == key[i];
      } else if i < |key| + |e.number| {
        assert line[i] == e.number[i - |key|];
      } else if i > |key| + |e.number| {
        assert line[i] == e.uri[i - |key| - |e.number| - 1];
      }
    }
  }

  lemma {:induction false} TextsOneLine(key: string, lines: seq<Line>)
    requires NoLineTerminator(key) && AllWellFormed(key, lines)
    ensures forall i :: 0 <= i < |Texts(key, lines)| ==> NoLineTerminator(Texts(key, lines)[i])
    decreases |lines|
  {
    if lines != [] {
      TextsOneLine(key, lines[1..]);
      if lines[0].Item? {
        EntryLineOneLine(key, lines[0].entry);
      }
      assert Texts(key, lines) == [LineText(key, lines[0])] + Texts(key, lines[1..]);
    }
  }

  /** A line starts with a key in one letter case exactly when it starts
      with it in another. */
  lemma KeyCase(text: string, key: string, lowerKey: string)
    requires |key| == |lowerKey| && StartsWithIgnoringCase(key, lowerKey)
    ensures StartsWithIgnoringCase(text, key) <==> StartsWithIgnoringCase(text, lowerKey)
  {
  }

  /** What one line yields: its URI for an entry, nothing otherwise. */
  lemma KeyedLineItems(pat: Pattern, key: string, l: Line)
    requires (pat == RefEntry && key == "Ref") || (pat == FileEntry && key == "File")
    requires LineWellFormed(key, l)
    ensures LineItems(pat, LineText(key, l)) == if l.Item? then [Some(l.entry.uri)] else []
  {
    var lowerKey := if pat == RefEntry then "ref" else "file";
    match l
    case Item(e) =>
      KeyedLineValue(key, lowerKey, e);
    case Other(text) =>
      KeyCase(text, key, lowerKey);
  }

  /** Every line of a keyed document yields the URI of its entry, in
      order, and nothing when it is not an entry. */
  lemma {:induction false} KeyedItems(pat: Pattern, key: string, lines: seq<Line>)
    requires (pat == RefEntry && key == "Ref") || (pat == FileEntry && key == "File")
    requires AllWellFormed(key, lines)
    ensures ItemsOf(pat, Texts(key, lines)) == Uris(lines)
    decreases |lines|
  {
    if lines != [] {
      var texts := Texts(key, lines);
      assert texts[0] == LineText(key, lines[0]) && texts[1..] == Texts(key, lines[1..]);
      KeyedLineItems(pat, key, lines[0]);
      KeyedItems(pat, key, lines[1..]);
    }
  }

  /** No line of a keyed document starts with `http(s)://`. */
  lemma {:induction false} KeyedNoHttp(key: string, lines: seq<Line>)
    requires key == "Ref" || key == "File"
    requires AllWellFormed(key, lines)
    ensures ItemsOf(HttpLine, Texts(key, lines)) == []
    decreases |lines|
  {
    if lines != [] {
      var texts := Texts(key, lines);
      assert texts[0] == LineText(key, lines[0]) && texts[1..] == Texts(key, lines[1..]);
      if lines[0].Item? {
        assert texts[0][0] == key[0];
      }
      assert !StartsHttp(texts[0]);
      KeyedNoHttp(key, lines[1..]);
    }
  }

  /** The lines of a keyed document yield its URIs and nothing else; a
      header that is not a keyed line adds nothing. */
  lemma KeyedExtraction(pat: Pattern, header: string, key: string, eol: string, lines: seq<Line>)
    requires (pat == RefEntry && key == "Ref") || (pat == FileEntry && key == "File")
    requires eol == "\n" || eol == "\r\n"
    requires header != [] && header[0] == '[' && NoLineTerminator(header)
    requires AllWellFormed(key, lines)
    ensures LinesItems(pat, KeyedDocument(header, key, eol, lines)) == Uris(lines)
    ensures LinesItems(HttpLine, KeyedDocument(header, key, eol, lines)) == []
  {
    TextsOneLine(key, lines);
    var texts := Texts(key, lines);
    LinesOfJoin(pat, eol, header, texts);
    LinesOfJoin(HttpLine, eol, header, texts);
    KeyedItems(pat, key, lines);
    KeyedNoHttp(key, lines);
    assert !StartsWithIgnoringCase(header, "ref") && !StartsWithIgnoringCase(header, "file");
    assert !StartsHttp(header);
  }

  /** A body that does not start with white space passes a signature
      test exactly when it starts with the signature in any letter case. */
  lemma SignatureAtFront(fmt: Format, body: string)
    requires fmt == ASF || fmt == ASX || fmt == PLS
    requires body != [] && !IsSpace(body[0])
    ensures BodyMatches(fmt, body) <==> StartsWithIgnoringCase(body, Signature(fmt))
  {
    SignatureTest(fmt, body);
    LeadingRunIs(body, IsSpace, 0);
  }

  /** Whether a header line starts with a signature decides it for every
      text that starts with that header. */
  lemma HeaderDecides(header: string, rest: string, sig: string)
    requires |sig| <= |header|
    ensures StartsWithIgnoringCase(header + rest, sig) <==> StartsWithIgnoringCase(header, sig)
  {
    assert forall i :: 0 <= i < |header| ==> (header + rest)[i] == header[i];
  }

  /** A header that differs from a signature at some position keeps every
      text that starts with it from starting with the signature. */
  lemma HeaderDiffers(header: string, rest: string, sig: string, i: nat)
    requires i < |header| && i < |sig| && !SameIgnoringCase(header[i], sig[i])
    ensures !StartsWithIgnoringCase(header + rest, sig)
  {
    assert (header + rest)[i] == header[i];
  }

  /** Which signatures the two headers start with. */
  lemma HeaderSignatures()
    ensures StartsWithIgnoringCase("[Reference]", Signature(ASF))
    ensures StartsWithIgnoringCase("[playlist]", Signature(PLS))
    ensures !SameIgnoringCase("[playlist]"[1], Signature(ASF)[1])
    ensures !SameIgnoringCase("[playlist]"[0], Signature(ASX)[0])
    ensures NoLineTerminator("[Reference]") && NoLineTerminator("[playlist]")
  {
  }

  /** The body of an ASF reference file passes the ASF body test and
      yields its URIs. */
  lemma AsfBody(eol: string, lines: seq<Line>)
    requires eol == "\n" || eol == "\r\n"
    requires AllWellFormed("Ref", lines)
    ensures BodyMatches(ASF, KeyedDocument("[Reference]", "Ref", eol, lines))
    ensures Extract(ASF, KeyedDocument("[Reference]", "Ref", eol, lines)) == Uris(lines)
  {
    var header := "[Reference]";
    var rest := JoinLines(eol, Texts("Ref", lines));
    HeaderSignatures();
    assert (header + rest)[0] == header[0];
    SignatureAtFront(ASF, header + rest);
    HeaderDecides(header, rest, Signature(ASF));
    KeyedExtraction(RefEntry, header, "Ref", eol, lines);
  }

  /** The body of a PLS file passes the PLS body test and no earlier one,
      and yields its URIs. */
  lemma PlsBody(eol: string, lines: seq<Line>)
    requires eol == "\n" || eol == "\r\n"
    requires AllWellFormed("File", lines)
    ensures BodyMatches(PLS, KeyedDocument("[playlist]", "File", eol, lines))
    ensures !BodyMatches(ASF, KeyedDocument("[playlist]", "File", eol, lines))
    ensures !BodyMatches(ASX, KeyedDocument("[playlist]", "File", eol, lines))
    ensures !BodyMatches(M3U, KeyedDocument("[playlist]", "File", eol, lines))
    ensures Extract(PLS, KeyedDocument("[playlist]", "File", eol, lines)) == Uris(lines)
  {
    var header := "[playlist]";
    var rest := JoinLines(eol, Texts("File", lines));
    HeaderSignatures();
    assert (header + rest)[0] == header[0];
    SignatureAtFront(PLS, header + rest);
    SignatureAtFront(ASF, header + rest);
    SignatureAtFront(ASX, header + rest);
    HeaderDecides(header, rest, Signature(PLS));
    HeaderDiffers(header, rest, Signature(ASF), 1);
    HeaderDiffers(header, rest, Signature(ASX), 0);
    KeyedExtraction(FileEntry, header, "File", eol, lines);
  }

  /** An ASF reference file, `[Reference]` and then `Ref<n>=<uri>` entry
      lines among other lines, served with an ASF content type, validates as ASF, and the
      player's playlist is its URIs in order. */
  lemma AsfDocument(url: string, f: FetchResult, eol: string, lines: seq<Line>)
    requires eol == "\n" || eol == "\r\n"
    requires AllWellFormed("Ref", lines)
    requires !HasError(f) && f.body == Some(KeyedDocument("[Reference]", "Ref", eol, lines))
    requires TypeAllowed(ASF, f)
    ensures Validate(ASF, f)
    ensures Resolve(url, f) == Uris(lines)
  {
    AsfBody(eol, lines);
    assert Validate(Priority[0], f);
    assert FirstValid(Priority, f) == Some(0);
  }

  /** A PLS file, `[playlist]` and then `File<n>=<uri>` entry lines among
      other lines, served with a PLS content type, validates as PLS and as none of the
      sniffers tried before it, and the player's playlist is its URIs in
      order. */
  lemma PlsDocument(url: string, f: FetchResult, eol: string, lines: seq<Line>)
    requires eol == "\n" || eol == "\r\n"
    requires AllWellFormed("File", lines)
    requires !HasError(f) && f.body == Some(KeyedDocument("[playlist]", "File", eol, lines))
    requires TypeAllowed(PLS, f)
    ensures Validate(PLS, f)
    ensures forall k :: 0 <= k < 3 ==> !Validate(Priority[k], f)
    ensures Resolve(url, f) == Uris(lines)
  {
    PlsBody(eol, lines);
    PlsResolves(url, f);
  }

  /** When PLS accepts a body and no sniffer tried before it does, the
      playlist is what the PLS expression collects from it. */
  lemma PlsResolves(url: string, f: FetchResult)
    requires !Validate(ASF, f) && !Validate(ASX, f) && !Validate(M3U, f) && Validate(PLS, f)
    ensures forall k :: 0 <= k < 3 ==> !Validate(Priority[k], f)
    ensures Resolve(url, f) == Extract(PLS, f.body.value)
  {
    assert Priority[3..][0] == PLS;
    assert FirstValid(Priority[3..], f) == Some(0);
    assert Priority[2..][0] == M3U && Priority[2..][1..] == Priority[3..];
    assert FirstValid(Priority[2..], f) == Some(1);
    assert Priority[1..][0] == ASX && Priority[1..][1..] == Priority[2..];
    assert FirstValid(Priority[1..], f) == Some(2);
    assert FirstValid(Priority, f) == Some(3);
  }

  /** A line of an ASX file: one holding a reference (`before` it, then
      `<ref href="uri"`, then `close` such as `/>` or `/></entry>`), or
      markup holding none (`<asx version="3.0">`, `<entry>`, `</asx>`, a
      blank line). */
  datatype AsxLine = Ref(before: string, uri: string, close: string) | Markup(text: string)

  /** Every part stays on its line; only the reference itself can open a
      `<ref`; the URI is not empty; and no quote follows its closing quote
      on the line. */
  predicate AsxLineWellFormed(l: AsxLine) {
    match l
    case Ref(before, uri, close) =>
      && NoLineTerminator(before) && NoRefOpening(before)
      && uri != [] && NoLineTerminator(uri)
      && NoLineTerminator(close) && NoRefOpening(close)
      && forall k :: 0 <= k < |close| ==> !IsQuote(close[k])
    case Markup(text) => NoLineTerminator(text) && NoRefOpening(text)
  }

  predicate AsxAllWellFormed(lines: seq<AsxLine>) {
    forall i :: 0 <= i < |lines| ==> AsxLineWellFormed(lines[i])
  }

  function AsxText(l: AsxLine): string {
    match l
    case Ref(before, uri, close) => before + ("<ref href=\"" + uri + "\"" + close)
    case Markup(text) => text
  }

  function AsxTexts(lines: seq<AsxLine>): seq<string>
    decreases |lines|
  {
    if lines == [] then [] else [AsxText(lines[0])] + AsxTexts(lines[1..])
  }

  /** The URI a line holds, if any. */
  function AsxUrisOf(l: AsxLine): seq<Uri> {
    if l.Ref? then [Some(l.uri)] else []
  }

  /** The playlist an ASX file stands for: its references' URIs, in order. */
  function AsxUris(lines: seq<AsxLine>): seq<Uri>
    decreases |lines|
  {
    if lines == [] then [] else AsxUrisOf(lines[0]) + AsxUris(lines[1..])
  }

  /** An ASX file: its first line, then the others. */
  function AsxFile(eol: string, lines: seq<AsxLine>): string
    requires lines != []
  {
    AsxText(lines[0]) + JoinLines(eol, AsxTexts(lines[1..]))
  }

  /** A line followed by the end of the body or a line terminator yields
      its reference's URI, and the search goes on after it. */
  lemma AsxLineItems(l: AsxLine, tail: string)
    requires AsxLineWellFormed(l)
    requires tail == [] || IsLineTerminator(tail[0])
    ensures Scan(AsxHref, AsxText(l) + tail) == AsxUrisOf(l) + Scan(AsxHref, tail)
  {
    match l
    case Markup(text) =>
      AsxSkipsText(text, tail, true);
    case Ref(before, uri, close) =>
      AsxRefLineItems(before, uri, close, tail);
  }

  /** A line holding a reference yields its URI alone. */
  lemma AsxRefLineItems(before: string, uri: string, close: string, tail: string)
    requires AsxLineWellFormed(Ref(before, uri, close))
    requires tail == [] || IsLineTerminator(tail[0])
    ensures Scan(AsxHref, AsxText(Ref(before, uri, close)) + tail) == [Some(uri)] + Scan(AsxHref, tail)
  {
    var reference := "<ref href=\"" + uri + "\"" + close;
    assert AsxText(Ref(before, uri, close)) + tail == before + (reference + tail);
    AsxSkipsText(before, reference + tail, true);
    AsxReferenceItems(uri, close, tail);
  }

  /** From the reference on, a line yields the reference's URI alone. */
  lemma AsxReferenceItems(uri: string, close: string, tail: string)
    requires uri != [] && NoLineTerminator(uri)
    requires NoLineTerminator(close) && NoRefOpening(close)
    requires forall k :: 0 <= k < |close| ==> !IsQuote(close[k])
    requires tail == [] || IsLineTerminator(tail[0])
    ensures Scan(AsxHref, "<ref href=\"" + uri + "\"" + close + tail) == [Some(uri)] + Scan(AsxHref, tail)
  {
    assert "<ref href=\"" + uri + "\"" + close + tail == "<ref href=\"" + uri + "\"" + (close + tail);
    LineLengthOfLine(close, tail);
    AsxRefCollected(uri, close + tail);
    AsxSkipsText(close, tail, true);
  }

  /** A text of no characters but line terminators cannot open a `<ref`. */
  lemma EolNoRefOpening(eol: string)
    requires eol == "\n" || eol == "\r\n"
    ensures NoRefOpening(eol) && eol != [] && IsLineTerminator(eol[0])
  {
  }

  /** Lines after the first, each after its line terminator, yield their
      references' URIs in order. */
  lemma {:induction false} AsxJoin(eol: string, lines: seq<AsxLine>)
    requires eol == "\n" || eol == "\r\n"
    requires AsxAllWellFormed(lines)
    ensures Scan(AsxHref, JoinLines(eol, AsxTexts(lines))) == AsxUris(lines)
    decreases |lines|
  {
    if lines == [] {
      ScanEmpty(AsxHref, true);
    } else {
      var texts := AsxTexts(lines);
      assert texts[0] == AsxText(lines[0]) && texts[1..] == AsxTexts(lines[1..]);
      var next := JoinLines(eol, texts[1..]);
      assert JoinLines(eol, texts) == eol + (texts[0] + next);
      EolNoRefOpening(eol);
      AsxSkipsText(eol, texts[0] + next, true);
      assert next == [] || IsLineTerminator(next[0]);
      AsxLineItems(lines[0], next);
      AsxJoin(eol, lines[1..]);
    }
  }

  /** Every reference of an ASX file is collected, in order. */
  lemma AsxFileScan(eol: string, lines: seq<AsxLine>)
    requires eol == "\n" || eol == "\r\n"
    requires lines != [] && AsxAllWellFormed(lines)
    ensures Scan(AsxHref, AsxFile(eol, lines)) == AsxUris(lines)
  {
    var rest := JoinLines(eol, AsxTexts(lines[1..]));
    assert rest == [] || IsLineTerminator(rest[0]);
    AsxLineItems(lines[0], rest);
    AsxJoin(eol, lines[1..]);
  }

  /** A body whose first line opens with `<asx` is ASX, not ASF. */
  lemma AsxSniffed(f: FetchResult, first: string, rest: string)
    requires first != [] && StartsWithIgnoringCase(first, "<asx")
    requires !HasError(f) && f.body == Some(first + rest)
    requires TypeAllowed(ASX, f)
    ensures !Validate(ASF, f) && Validate(ASX, f)
  {
    var body := first + rest;
    assert Signature(ASX) == "<asx" && Signature(ASF)[0] == '[';
    assert body[0] == first[0] && !IsSpace(first[0]);
    SignatureAtFront(ASX, body);
    HeaderDecides(first, rest, Signature(ASX));
    HeaderDiffers(first, rest, Signature(ASF), 0);
  }

  /** When ASF rejects a body and ASX accepts it, the playlist is what the
      ASX expression collects from it. */
  lemma AsxResolves(url: string, f: FetchResult)
    requires !Validate(ASF, f) && Validate(ASX, f)
    ensures Resolve(url, f) == Scan(AsxHref, f.body.value)
  {
    assert Priority[0] == ASF && Priority[1..][0] == ASX;
    assert FirstValid(Priority[1..], f) == Some(0);
    assert FirstValid(Priority, f) == Some(1);
  }

  /** An ASX file, opening with `<asx`, served with an ASX content type:
      ASF rejects it (they share `video/x-ms-asf`), ASX validates, and the
      player's playlist is the URIs of its references, in order. */
  lemma AsxDocument(url: string, f: FetchResult, eol: string, lines: seq<AsxLine>)
    requires eol == "\n" || eol == "\r\n"
    requires lines != [] && AsxAllWellFormed(lines)
    requires StartsWithIgnoringCase(AsxText(lines[0]), "<asx")
    requires !HasError(f) && f.body == Some(AsxFile(eol, lines))
    requires TypeAllowed(ASX, f)
    ensures !Validate(ASF, f) && Validate(ASX, f)
    ensures Resolve(url, f) == AsxUris(lines)
  {
    AsxSniffed(f, AsxText(lines[0]), JoinLines(eol, AsxTexts(lines[1..])));
    AsxResolves(url, f);
    AsxFileScan(eol, lines);
  }

  /** A line other than an entry is well formed when its first character
      is neither the key's nor an `h`, in any letter case. */
  lemma OtherLine(key: string, text: string)
    requires key != [] && text != [] && NoLineTerminator(text)
    requires !SameIgnoringCase(text[0], key[0]) && !SameIgnoringCase(text[0], 'h')
    ensures LineWellFormed(key, Other(text))
  {
    assert "http://"[0] == 'h' && "https://"[0] == 'h';
  }
}
