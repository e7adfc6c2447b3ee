/** The five regular expressions of the playlist parsers, each given as a
    matcher that says what the expression matches when an attempt starts
    at one position, and the global search (`exec` in a loop, or `match`,
    with the `g` flag) that collects the leftmost non-overlapping matches
    from left to right.

    Every expression here is case-insensitive without the `u` flag, so a
    letter matches its ASCII upper- or lower-case form and nothing else.
    Apart from the ASX one, none of them can cross a line terminator
    (`.` stops at one and there is no `\s`), so their matchers look only at
    the rest of the current line. */
module Patterns {
  import opened Optional
  import opened JsString

  /** One entry of a playlist: a string, or JavaScript's `undefined` (an
      optional capture group that took no part in the match). */
  type Uri = Option<string>

  datatype Pattern =
    | RefEntry   // /^Ref\d+=(.*)/gmi, capture 1
    | AsxHref    // /<ref\s+?href\s*=\s*["'](.*)?["']/gi, capture 1
    | HttpLine   // /^https?:\/\/.*/gmi, whole match
    | FileEntry  // /^File\d+=(.*)/gmi, capture 1
    | RamUrl     // /^rtsp|https?:\/\/.*/gmi, whole match

  /** The patterns whose matches never leave the line they start on. */
  predicate LineBased(pat: Pattern) {
    !pat.AsxHref?
  }

  /** What an entry of each pattern looks like: a URL from `http(s)://`
      to the end of its line for the M3U pattern; that, or the four
      letters `rtsp`, for the RAM pattern; the rest of a line for the
      keyed patterns; `undefined` or a non-empty part of a line for ASX. */
  predicate EntryShape(pat: Pattern, item: Uri) {
    match pat
    case AsxHref => item.Some? ==> item.value != [] && NoLineTerminator(item.value)
    case RefEntry => item.Some? && NoLineTerminator(item.value)
    case FileEntry => item.Some? && NoLineTerminator(item.value)
    case HttpLine => item.Some? && NoLineTerminator(item.value) && StartsHttp(item.value)
    case RamUrl =>
      && item.Some? && NoLineTerminator(item.value)
      && (StartsHttp(item.value) || (|item.value| == 4 && StartsWithIgnoringCase(item.value, "rtsp")))
  }

  /** A successful attempt: how many characters it consumed and the entry
      the parser keeps from it. */
  datatype Hit = Hit(len: nat, item: Uri)

  /** `^Key\d+=(.*)` on one line: the text after the `=` that follows the
      key and at least one digit. */
  function KeyedValue(key: string, line: string): (v: Option<string>)
    ensures v.Some? ==> |v.value| < |line| && v.value == line[|line| - |v.value|..]
  {
    if !StartsWithIgnoringCase(line, key) then None
    else
      var digits := LeadingRun(line[|key|..], IsDigit);
      var eq := |key| + digits;
      if digits > 0 && eq < |line| && line[eq] == '=' then Some(line[eq + 1..])
      else None
  }

  /** `https?:\/\/` at the start of `s`. */
  predicate StartsHttp(s: string) {
    StartsWithIgnoringCase(s, "http://") || StartsWithIgnoringCase(s, "https://")
  }

  /** An attempt of a line-based pattern where `line` is what remains of
      the current line and `atLineStart` says whether multiline `^` holds
      here. */
  function LineMatch(pat: Pattern, line: string, atLineStart: bool): (h: Option<Hit>)
    requires LineBased(pat)
    ensures h.Some? ==> 0 < h.value.len <= |line|
  {
    match pat
    case RefEntry =>
      var v := if atLineStart then KeyedValue("ref", line) else None;
      if v.Some? then Some(Hit(|line|, v)) else None
    case FileEntry =>
      var v := if atLineStart then KeyedValue("file", line) else None;
      if v.Some? then Some(Hit(|line|, v)) else None
    case HttpLine =>
      if atLineStart && StartsHttp(line) then Some(Hit(|line|, Some(line))) else None
    case RamUrl =>
      if atLineStart && StartsWithIgnoringCase(line, "rtsp") then Some(Hit(4, Some(line[..4])))
      else if StartsHttp(line) then Some(Hit(|line|, Some(line)))
      else None
  }

  /** Index of the last quote of `line` other than its first character:
      where the greedy `(.*)` of the ASX pattern gives back to. */
  function LastQuote(line: string): (j: Option<nat>)
    ensures j.Some? ==> 1 <= j.value < |line| && IsQuote(line[j.value])
    ensures j.Some? ==> forall k :: j.value < k < |line| ==> !IsQuote(line[k])
    ensures j.None? ==> forall k :: 1 <= k < |line| ==> !IsQuote(line[k])
  {
    if |line| <= 1 then None
    else if IsQuote(line[|line| - 1]) then Some(|line| - 1)
    else LastQuote(line[..|line| - 1])
  }

  /** `(.*)?["']` right after the opening quote of an ASX `href`. The
      group is greedy, so the value runs to the last quote of the line;
      when the only quote is the next character, the group cannot take an
      empty iteration and is skipped, leaving the capture `undefined`. */
  function QuotedValue(rest: string): (h: Option<Hit>)
    ensures h.Some? ==> 0 < h.value.len <= |rest|
    ensures h.Some? ==> IsQuote(rest[h.value.len - 1])
    ensures h.Some? && h.value.item.Some? ==>
      var v := h.value.item.value;
      && v != []
      && h.value.len == |v| + 1
      && v == rest[..|v|]
      && NoLineTerminator(v)
      && forall k :: |v| < k < LineLength(rest) ==> !IsQuote(rest[k])
    ensures h.Some? && h.value.item.None? ==> h.value.len == 1
    ensures h.None? <==> forall k :: 0 <= k < LineLength(rest) ==> !IsQuote(rest[k])
    ensures h.Some? && h.value.item.None? <==>
      && 0 < LineLength(rest) && IsQuote(rest[0])
      && forall k :: 1 <= k < LineLength(rest) ==> !IsQuote(rest[k])
  {
    var line := rest[..LineLength(rest)];
    match LastQuote(line)
    case Some(j) => Some(Hit(j + 1, Some(line[..j])))
    case None => if |line| > 0 && IsQuote(line[0]) then Some(Hit(1, None)) else None
  }

  /** An attempt of `<ref\s+?href\s*=\s*["'](.*)?["']` at the start of `r`.
      The white-space runs cannot give characters back usefully (none of
      `h`, `=` or a quote is white space), so each is taken whole. */
  function AsxMatch(r: string): (h: Option<Hit>)
    ensures h.Some? ==> 0 < h.value.len <= |r|
    ensures h.Some? && h.value.item.Some? ==> h.value.item.value != [] && NoLineTerminator(h.value.item.value)
  {
    if !StartsWithIgnoringCase(r, "<ref") then None
    else
      var a := 4 + LeadingRun(r[4..], IsSpace);
      if a == 4 || !StartsWithIgnoringCase(r[a..], "href") then None
      else
        var b := a + 4 + LeadingRun(r[a + 4..], IsSpace);
        if b == |r| || r[b] != '=' then None
        else
          var open := b + 1 + LeadingRun(r[b + 1..], IsSpace);
          if open == |r| || !IsQuote(r[open]) then None
          else QuotedFrom(r, open + 1)
  }

  /** The quoted value of an ASX `href` whose opening quote ends at
      `start`, as a match of `r` from its beginning. */
  function QuotedFrom(r: string, start: nat): (h: Option<Hit>)
    requires start <= |r|
    ensures h.Some? ==> start < h.value.len <= |r|
    ensures h.Some? && h.value.item.Some? ==> h.value.item.value != [] && NoLineTerminator(h.value.item.value)
  {
    match QuotedValue(r[start..])
    case Some(h) => Some(Hit(start + h.len, h.item))
    case None => None
  }

  /** An attempt of `pat` at the start of `r`, the rest of the body. */
  function Matcher(pat: Pattern, r: string, atLineStart: bool): (h: Option<Hit>)
    ensures h.Some? ==> 0 < h.value.len <= |r|
  {
    if pat.AsxHref? then AsxMatch(r)
    else
      var line := r[..LineLength(r)];
      LineMatch(pat, line, atLineStart)
  }

  /** The entries of all matches found by a global search that starts at
      the beginning of `r`. After a match the search resumes where the
      match ended; after a failed attempt it moves one character on. */
  function ScanFrom(pat: Pattern, r: string, atLineStart: bool): seq<Uri>
    decreases |r|
  {
    match Matcher(pat, r, atLineStart)
    case Some(h) => [h.item] + ScanFrom(pat, r[h.len..], IsLineTerminator(r[h.len - 1]))
    case None => if r == [] then [] else ScanFrom(pat, r[1..], IsLineTerminator(r[0]))
  }

  /** A successful attempt contributes its entry, and the search resumes
      where the match ended. */
  lemma ScanHit(pat: Pattern, r: string, atLineStart: bool, h: Hit)
    requires Matcher(pat, r, atLineStart) == Some(h)
    ensures 0 < h.len <= |r|
    ensures ScanFrom(pat, r, atLineStart) == [h.item] + ScanFrom(pat, r[h.len..], IsLineTerminator(r[h.len - 1]))
  {
  }

  /** A failed attempt moves the search one character on. */
  lemma ScanMiss(pat: Pattern, r: string, atLineStart: bool)
    requires Matcher(pat, r, atLineStart).None? && r != []
    ensures ScanFrom(pat, r, atLineStart) == ScanFrom(pat, r[1..], IsLineTerminator(r[0]))
  {
  }

  /** The entries a global search of `pat` over the whole body collects. */
  function Scan(pat: Pattern, body: string): seq<Uri> {
    ScanFrom(pat, body, true)
  }

  /** No pattern can start on a line terminator, so a search standing on
      one steps over it onto a fresh line. */
  lemma ScanOverTerminator(pat: Pattern, r: string, atLineStart: bool)
    requires r != [] && IsLineTerminator(r[0])
    ensures ScanFrom(pat, r, atLineStart) == ScanFrom(pat, r[1..], true)
  {
    assert Matcher(pat, r, atLineStart).None?;
  }

  /** Every entry an ASX search keeps is `undefined` (an empty `href`)
      or a non-empty piece of one line. */
  lemma {:induction false} AsxEntries(r: string, atLineStart: bool)
    ensures forall k :: 0 <= k < |ScanFrom(AsxHref, r, atLineStart)| ==>
      EntryShape(AsxHref, ScanFrom(AsxHref, r, atLineStart)[k])
    decreases |r|
  {
    var items := ScanFrom(AsxHref, r, atLineStart);
    match AsxMatch(r)
    case Some(h) =>
      var rest := ScanFrom(AsxHref, r[h.len..], IsLineTerminator(r[h.len - 1]));
      AsxEntries(r[h.len..], IsLineTerminator(r[h.len - 1]));
      assert items == [h.item] + rest;
    case None =>
      if r != [] {
        AsxEntries(r[1..], IsLineTerminator(r[0]));
      }
  }

  /** The ASX pattern has no `^`, so whether a line starts here makes no
      difference to its search. */
  lemma AsxIgnoresLineStart(r: string, atLineStart: bool)
    ensures ScanFrom(AsxHref, r, atLineStart) == Scan(AsxHref, r)
  {
  }

  /** Every `<` of `x` is followed, within `x`, by something other than
      an `r` in either case: markup such as `<asx>`, `<entry>` or `</entry>`
      that cannot open a `<ref`. */
  predicate NoRefOpening(x: string) {
    forall k :: 0 <= k < |x| && x[k] == '<' ==> k + 1 < |x| && !SameIgnoringCase(x[k + 1], 'r')
  }

  /** Text that cannot open a `<ref` holds no ASX reference: the search
      passes over it. */
  lemma {:induction false} AsxSkipsText(x: string, tail: string, atLineStart: bool)
    requires NoRefOpening(x)
    ensures ScanFrom(AsxHref, x + tail, atLineStart) == Scan(AsxHref, tail)
    decreases |x|
  {
    if x == [] {
      assert x + tail == tail;
      AsxIgnoresLineStart(tail, atLineStart);
    } else {
      var r := x + tail;
      DropFromFirst(x, tail, 1);
      assert x[0] == '<' ==> r[1] == x[1];
      assert AsxMatch(r).None?;
      ScanMiss(AsxHref, r, atLineStart);
      assert NoRefOpening(x[1..]) by {
        assert forall k :: 0 <= k < |x| - 1 ==> x[1..][k] == x[k + 1];
      }
      AsxSkipsText(x[1..], tail, IsLineTerminator(r[0]));
    }
  }

  /** The value of a quoted `href` whose closing quote is the last on its
      line runs up to that quote. */
  lemma QuotedValueUpToLastQuote(u: string, close: string, tail: string)
    requires u != [] && NoLineTerminator(u)
    requires forall k :: 0 <= k < |close| ==> !IsQuote(close[k]) && !IsLineTerminator(close[k])
    requires tail == [] || IsLineTerminator(tail[0])
    ensures QuotedValue(u + "\"" + (close + tail)) == Some(Hit(|u| + 1, Some(u)))
  {
    var line := u + "\"" + close;
    assert u + "\"" + (close + tail) == line + tail;
    LineLengthOfLine(line, tail);
    assert line[|u|] == '"';
    assert forall k :: |u| < k < |line| ==> line[k] == close[k - |u| - 1];
    assert LastQuote(line) == Some(|u|);
    assert line[..|u|] == u;
  }

  /** A reference `<ref href="u"` whose closing quote is the last quote
      on its line contributes exactly `u`, and the search carries on right
      after that quote. Quotes inside `u` are kept: the value runs to the
      line's last quote. */
  lemma AsxRefCollected(u: string, rest: string)
    requires u != [] && NoLineTerminator(u)
    requires forall k :: 0 <= k < LineLength(rest) ==> !IsQuote(rest[k])
    ensures Scan(AsxHref, "<ref href=\"" + u + "\"" + rest) == [Some(u)] + Scan(AsxHref, rest)
  {
    var n := LineLength(rest);
    var close, tail := rest[..n], rest[n..];
    assert close + tail == rest;
    QuotedValueUpToLastQuote(u, close, tail);
    AsxMatchOfRef(u, rest);
    var r := "<ref href=\"" + u + "\"" + rest;
    ScanHit(AsxHref, r, true, Hit(12 + |u|, Some(u)));
    assert r[12 + |u|..] == rest;
    AsxIgnoresLineStart(rest, false);
  }

  /** The ASX attempt at `<ref href="` takes the quoted value and stops on
      its closing quote. */
  lemma AsxMatchOfRef(u: string, after: string)
    requires QuotedValue(u + "\"" + after) == Some(Hit(|u| + 1, Some(u)))
    ensures AsxMatch("<ref href=\"" + u + "\"" + after) == Some(Hit(12 + |u|, Some(u)))
  {
    var head, v := "<ref href=\"", u + "\"" + after;
    assert head + u + "\"" + after == head + v;
    SplitConcat(head, v);
    AsxOpening(head + v, Hit(|u| + 1, Some(u)));
  }

  /** An ASX attempt on text that opens with `<ref href="` ends where the
      quoted value that follows ends. */
  lemma AsxOpening(r: string, h: Hit)
    requires 11 <= |r| && r[..11] == "<ref href=\""
    requires QuotedValue(r[11..]) == Some(h)
    ensures AsxMatch(r) == Some(Hit(11 + h.len, h.item))
  {
    AsxHead(r);
    AsxStages(r, h);
  }

  /** The stages of the ASX pattern, each given what it finds. */
  lemma AsxStages(r: string, h: Hit)
    requires 11 <= |r| && StartsWithIgnoringCase(r, "<ref") && LeadingRun(r[4..], IsSpace) == 1
    requires StartsWithIgnoringCase(r[5..], "href") && LeadingRun(r[9..], IsSpace) == 0 && r[9] == '='
    requires LeadingRun(r[10..], IsSpace) == 0 && IsQuote(r[10])
    requires QuotedValue(r[11..]) == Some(h)
    ensures AsxMatch(r) == Some(Hit(11 + h.len, h.item))
  {
    var a := 4 + LeadingRun(r[4..], IsSpace);
    assert a == 5;
    var b := a + 4 + LeadingRun(r[a + 4..], IsSpace);
    assert b == 9;
    var open := b + 1 + LeadingRun(r[b + 1..], IsSpace);
    assert open == 10;
    assert AsxMatch(r) == QuotedFrom(r, 11);
  }

  /** What the stages of the ASX pattern see in `<ref href="`. */
  lemma AsxHead(r: string)
    requires 11 <= |r| && r[..11] == "<ref href=\""
    ensures StartsWithIgnoringCase(r, "<ref") && LeadingRun(r[4..], IsSpace) == 1
    ensures StartsWithIgnoringCase(r[5..], "href") && LeadingRun(r[9..], IsSpace) == 0 && r[9] == '='
    ensures LeadingRun(r[10..], IsSpace) == 0 && IsQuote(r[10])
  {
    assert forall i :: 0 <= i < 11 ==> r[i] == "<ref href=\""[i];
    assert r[4..][1..] == r[5..];
  }

  /** A search over the empty remainder finds nothing. */
  lemma ScanEmpty(pat: Pattern, atLineStart: bool)
    ensures ScanFrom(pat, [], atLineStart) == []
  {
    assert Matcher(pat, [], atLineStart).None?;
  }
}
