/** Line-by-line extraction for the four line-based playlist patterns,
    and the proof that it collects exactly what the global regular
    expression search collects. */
module LineScan {
  import opened Optional
  import opened JsString
  import opened Patterns

  /** The first `https?://` on a line, with everything after it. */
  function HttpTail(line: string): (t: Option<string>)
    ensures t.Some? ==> StartsHttp(t.value) && |t.value| <= |line| && t.value == line[|line| - |t.value|..]
    decreases |line|
  {
    if StartsHttp(line) then Some(line)
    else if line == [] then None
    else
      var t := HttpTail(line[1..]);
      assert t.Some? ==> line[1..][|line| - 1 - |t.value|..] == line[|line| - |t.value|..];
      t
  }

  /** The entry a line yields when something was found on it. */
  function Found(v: Option<string>): seq<Uri> {
    if v.Some? then [v] else []
  }

  /** What a RAM file line yields: its leading `rtsp` (in the line's own
      letter case) if it starts with one, then the first HTTP(S) URL on the
      line up to the end of the line, wherever on the line it starts. */
  function RamLine(line: string): seq<Uri> {
    if StartsWithIgnoringCase(line, "rtsp") then [Some(line[..4])] + Found(HttpTail(line[4..]))
    else Found(HttpTail(line))
  }

  /** The entries one line of the body contributes. */
  function LineItems(pat: Pattern, line: string): seq<Uri>
    requires LineBased(pat)
  {
    match pat
    case RefEntry => Found(KeyedValue("ref", line))
    case FileEntry => Found(KeyedValue("file", line))
    case HttpLine => if StartsHttp(line) then [Some(line)] else []
    case RamUrl => RamLine(line)
  }

  /** The entries of every line of `body`, lines taken in order; lines are
      separated by single line terminators, so "\r\n" leaves an empty line
      between its two characters. */
  function LinesItems(pat: Pattern, body: string): seq<Uri>
    requires LineBased(pat)
    decreases |body|
  {
    var n := LineLength(body);
    LineItems(pat, body[..n]) + (if n == |body| then [] else LinesItems(pat, body[n + 1..]))
  }

  /** Every entry a line yields has its pattern's shape. */
  lemma LineItemsShape(pat: Pattern, line: string)
    requires LineBased(pat) && NoLineTerminator(line)
    ensures forall k :: 0 <= k < |LineItems(pat, line)| ==> EntryShape(pat, LineItems(pat, line)[k])
  {
    match pat
    case RefEntry => KeyedShape("ref", line);
    case FileEntry => KeyedShape("file", line);
    case HttpLine =>
    case RamUrl => RamLineShape(line);
  }

  lemma KeyedShape(key: string, line: string)
    requires NoLineTerminator(line)
    ensures KeyedValue(key, line).Some? ==> NoLineTerminator(KeyedValue(key, line).value)
  {
    var v := KeyedValue(key, line);
    if v.Some? {
      SuffixOneLine(line, v.value);
    }
  }

  lemma HttpTailShape(line: string)
    requires NoLineTerminator(line)
    ensures HttpTail(line).Some? ==> NoLineTerminator(HttpTail(line).value)
  {
    var t := HttpTail(line);
    if t.Some? {
      SuffixOneLine(line, t.value);
    }
  }

  /** The end of a line lies on that line. */
  lemma SuffixOneLine(line: string, v: string)
    requires NoLineTerminator(line)
    requires |v| <= |line| && v == line[|line| - |v|..]
    ensures NoLineTerminator(v)
  {
    forall i | 0 <= i < |v|
      ensures !IsLineTerminator(v[i])
    {
      assert v[i] == line[|line| - |v| + i];
    }
  }

  lemma RamLineShape(line: string)
    requires NoLineTerminator(line)
    ensures forall k :: 0 <= k < |RamLine(line)| ==> EntryShape(RamUrl, RamLine(line)[k])
  {
    if StartsWithIgnoringCase(line, "rtsp") {
      var first := Some(line[..4]);
      assert EntryShape(RamUrl, first) by {
        assert StartsWithIgnoringCase(line[..4], "rtsp");
        SuffixOneLine(line[..4], line[..4]);
      }
      assert NoLineTerminator(line[4..]) by {
        SuffixOneLine(line, line[4..]);
      }
      HttpTailShape(line[4..]);
      assert RamLine(line) == [first] + Found(HttpTail(line[4..]));
    } else {
      HttpTailShape(line);
    }
  }

  /** Every entry of a line-based playlist has its pattern's shape. */
  lemma {:induction false} LinesItemsShape(pat: Pattern, body: string)
    requires LineBased(pat)
    ensures forall k :: 0 <= k < |LinesItems(pat, body)| ==> EntryShape(pat, LinesItems(pat, body)[k])
    decreases |body|
  {
    var n := LineLength(body);
    var first := LineItems(pat, body[..n]);
    LineItemsShape(pat, body[..n]);
    if n < |body| {
      var rest := LinesItems(pat, body[n + 1..]);
      LinesItemsShape(pat, body[n + 1..]);
      assert LinesItems(pat, body) == first + rest;
    } else {
      assert LinesItems(pat, body) == first + [];
    }
  }

  /** Away from the start of a line an anchored pattern finds nothing until
      the next line. */
  lemma {:induction false} AnchoredSkipsLine(pat: Pattern, x: string, tail: string)
    requires LineBased(pat) && !pat.RamUrl?
    requires NoLineTerminator(x)
    requires tail == [] || IsLineTerminator(tail[0])
    ensures ScanFrom(pat, x + tail, false) == ScanFrom(pat, tail, true)
    decreases |x|
  {
    if x == [] {
      assert x + tail == tail;
      AtLineEnd(pat, tail, false);
    } else {
      var r := x + tail;
      assert Matcher(pat, r, false).None?;
      assert r[1..] == x[1..] + tail;
      AnchoredSkipsLine(pat, x[1..], tail);
    }
  }

  /** Away from the start of a line the RAM pattern can only find the
      first HTTP(S) URL of the line. */
  lemma {:induction false} RamRestOfLine(x: string, tail: string)
    requires NoLineTerminator(x)
    requires tail == [] || IsLineTerminator(tail[0])
    ensures ScanFrom(RamUrl, x + tail, false) == Found(HttpTail(x)) + ScanFrom(RamUrl, tail, true)
    decreases |x|
  {
    var r := x + tail;
    AtLineEnd(RamUrl, tail, false);
    LineLengthOfLine(x, tail);
    if x == [] {
      assert r == tail;
      assert !StartsHttp(x);
    } else if StartsHttp(x) {
      assert Matcher(RamUrl, r, false) == Some(Hit(|x|, Some(x)));
      assert r[|x|..] == tail;
    } else {
      assert Matcher(RamUrl, r, false).None?;
      assert r[1..] == x[1..] + tail;
      assert ScanFrom(RamUrl, r, false) == ScanFrom(RamUrl, x[1..] + tail, false) by {
        assert !IsLineTerminator(r[0]);
      }
      assert HttpTail(x) == HttpTail(x[1..]);
      RamRestOfLine(x[1..], tail);
    }
  }

  /** The search moves from the end of line `x` to the start of the next
      line whatever it knew about the position it stopped at. */
  lemma AtLineEnd(pat: Pattern, tail: string, atLineStart: bool)
    requires tail == [] || IsLineTerminator(tail[0])
    ensures ScanFrom(pat, tail, atLineStart) == ScanFrom(pat, tail, true)
  {
    if tail == [] {
      ScanEmpty(pat, atLineStart);
      ScanEmpty(pat, true);
    } else {
      ScanOverTerminator(pat, tail, atLineStart);
      ScanOverTerminator(pat, tail, true);
    }
  }

  /** An anchored pattern matching at a line start takes the whole line
      and keeps the entry `LineItems` reports for it. */
  lemma AnchoredMatchIsLineItem(pat: Pattern, x: string)
    requires LineBased(pat) && !pat.RamUrl?
    ensures LineMatch(pat, x, true).Some? ==>
      LineMatch(pat, x, true).value.len == |x| && LineItems(pat, x) == [LineMatch(pat, x, true).value.item]
    ensures LineMatch(pat, x, true).None? ==> LineItems(pat, x) == []
  {
  }

  /** The first step of an anchored search at the start of a non-empty
      line: take the whole line on a match, else move one character on. */
  lemma AnchoredFirstStep(pat: Pattern, x: string, tail: string)
    requires LineBased(pat) && !pat.RamUrl?
    requires NoLineTerminator(x) && x != []
    requires tail == [] || IsLineTerminator(tail[0])
    ensures LineMatch(pat, x, true).Some? ==>
      ScanFrom(pat, x + tail, true) == [LineMatch(pat, x, true).value.item] + ScanFrom(pat, tail, false)
    ensures LineMatch(pat, x, true).None? ==>
      ScanFrom(pat, x + tail, true) == ScanFrom(pat, x[1..] + tail, false)
  {
    var r := x + tail;
    var m := LineMatch(pat, x, true);
    assert Matcher(pat, r, true) == m by {
      LineLengthOfLine(x, tail);
    }
    if m.Some? {
      assert m.value.len == |x| by { AnchoredMatchIsLineItem(pat, x); }
      ScanHit(pat, r, true, m.value);
      DropFromFirst(x, tail, |x|);
      assert x[|x|..] + tail == tail;
    } else {
      ScanMiss(pat, r, true);
      DropFromFirst(x, tail, 1);
    }
  }

  lemma AnchoredLineThenRest(pat: Pattern, x: string, tail: string)
    requires LineBased(pat) && !pat.RamUrl?
    requires NoLineTerminator(x)
    requires tail == [] || IsLineTerminator(tail[0])
    ensures ScanFrom(pat, x + tail, true) == LineItems(pat, x) + ScanFrom(pat, tail, true)
  {
    var whole := ScanFrom(pat, x + tail, true);
    var rest := ScanFrom(pat, tail, true);
    AnchoredMatchIsLineItem(pat, x);
    if x == [] {
      assert x + tail == tail;
      assert LineMatch(pat, x, true).None? by {
        assert !StartsHttp(x);
      }
    } else {
      var m := LineMatch(pat, x, true);
      assert ScanFrom(pat, tail, false) == rest by { AtLineEnd(pat, tail, false); }
      if m.Some? {
        assert whole == [m.value.item] + rest by { AnchoredFirstStep(pat, x, tail); }
      } else {
        assert whole == ScanFrom(pat, x[1..] + tail, false) by { AnchoredFirstStep(pat, x, tail); }
        AnchoredSkipsLine(pat, x[1..], tail);
      }
    }
  }

  /** The first step of a RAM search at the start of a non-empty line. */
  lemma RamFirstStep(x: string, tail: string)
    requires NoLineTerminator(x) && x != []
    requires tail == [] || IsLineTerminator(tail[0])
    ensures StartsWithIgnoringCase(x, "rtsp") ==>
      ScanFrom(RamUrl, x + tail, true) == [Some(x[..4])] + ScanFrom(RamUrl, x[4..] + tail, false)
    ensures !StartsWithIgnoringCase(x, "rtsp") && StartsHttp(x) ==>
      ScanFrom(RamUrl, x + tail, true) == [Some(x)] + ScanFrom(RamUrl, tail, false)
    ensures !StartsWithIgnoringCase(x, "rtsp") && !StartsHttp(x) ==>
      ScanFrom(RamUrl, x + tail, true) == ScanFrom(RamUrl, x[1..] + tail, false)
  {
    var r := x + tail;
    assert Matcher(RamUrl, r, true) == LineMatch(RamUrl, x, true) by {
      LineLengthOfLine(x, tail);
    }
    if StartsWithIgnoringCase(x, "rtsp") {
      ScanHit(RamUrl, r, true, Hit(4, Some(x[..4])));
      DropFromFirst(x, tail, 4);
    } else if StartsHttp(x) {
      ScanHit(RamUrl, r, true, Hit(|x|, Some(x)));
      DropFromFirst(x, tail, |x|);
      assert x[|x|..] + tail == tail;
    } else {
      ScanMiss(RamUrl, r, true);
      DropFromFirst(x, tail, 1);
    }
  }


  /** Regrouping of the pieces a search assembles (kept apart so that the
      solver reasons about the pieces, not about their definitions). */
  lemma Regroup<T>(whole: seq<T>, after: seq<T>, rest: seq<T>, found: seq<T>, line: seq<T>, first: seq<T>)
    requires whole == first + after && after == found + rest && line == first + found
    ensures whole == line + rest
  {
  }

  lemma RamLineOfRtsp(x: string)
    requires StartsWithIgnoringCase(x, "rtsp")
    ensures RamLine(x) == [Some(x[..4])] + Found(HttpTail(x[4..]))
  {
  }

  lemma RamLineOfHttp(x: string)
    requires !StartsWithIgnoringCase(x, "rtsp") && StartsHttp(x)
    ensures RamLine(x) == [Some(x)]
  {
  }

  lemma RamLineOfPlain(x: string)
    requires x != [] && !StartsWithIgnoringCase(x, "rtsp") && !StartsHttp(x)
    ensures RamLine(x) == Found(HttpTail(x[1..]))
  {
  }

  lemma RamRtspLineThenRest(x: string, tail: string)
    requires NoLineTerminator(x) && StartsWithIgnoringCase(x, "rtsp")
    requires tail == [] || IsLineTerminator(tail[0])
    ensures ScanFrom(RamUrl, x + tail, true) == RamLine(x) + ScanFrom(RamUrl, tail, true)
  {
    RamFirstStep(x, tail);
    RamRestOfLine(x[4..], tail);
    RamLineOfRtsp(x);
    Regroup(ScanFrom(RamUrl, x + tail, true), ScanFrom(RamUrl, x[4..] + tail, false),
      ScanFrom(RamUrl, tail, true), Found(HttpTail(x[4..])), RamLine(x), [Some(x[..4])]);
  }

  lemma RamHttpLineThenRest(x: string, tail: string)
    requires NoLineTerminator(x) && x != [] && !StartsWithIgnoringCase(x, "rtsp") && StartsHttp(x)
    requires tail == [] || IsLineTerminator(tail[0])
    ensures ScanFrom(RamUrl, x + tail, true) == RamLine(x) + ScanFrom(RamUrl, tail, true)
  {
    var whole := ScanFrom(RamUrl, x + tail, true);
    var after := ScanFrom(RamUrl, tail, false);
    var rest := ScanFrom(RamUrl, tail, true);
    assert whole == [Some(x)] + after by { RamFirstStep(x, tail); }
    assert after == [] + rest by { AtLineEnd(RamUrl, tail, false); }
    assert RamLine(x) == [Some(x)] + [] by { RamLineOfHttp(x); }
    Regroup(whole, after, rest, [], RamLine(x), [Some(x)]);
  }

  lemma RamPlainLineThenRest(x: string, tail: string)
    requires NoLineTerminator(x) && x != [] && !StartsWithIgnoringCase(x, "rtsp") && !StartsHttp(x)
    requires tail == [] || IsLineTerminator(tail[0])
    ensures ScanFrom(RamUrl, x + tail, true) == RamLine(x) + ScanFrom(RamUrl, tail, true)
  {
    var whole := ScanFrom(RamUrl, x + tail, true);
    var after := ScanFrom(RamUrl, x[1..] + tail, false);
    var rest := ScanFrom(RamUrl, tail, true);
    var found := Found(HttpTail(x[1..]));
    assert whole == after by { RamFirstStep(x, tail); }
    assert after == found + rest by { RamRestOfLine(x[1..], tail); }
    assert RamLine(x) == found by { RamLineOfPlain(x); }
    Regroup(whole, after, rest, found, RamLine(x), []);
  }

  lemma RamLineThenRest(x: string, tail: string)
    requires NoLineTerminator(x)
    requires tail == [] || IsLineTerminator(tail[0])
    ensures ScanFrom(RamUrl, x + tail, true) == RamLine(x) + ScanFrom(RamUrl, tail, true)
  {
    if x == [] {
      assert x + tail == tail;
      assert !StartsHttp(x);
    } else if StartsWithIgnoringCase(x, "rtsp") {
      RamRtspLineThenRest(x, tail);
    } else if StartsHttp(x) {
      RamHttpLineThenRest(x, tail);
    } else {
      RamPlainLineThenRest(x, tail);
    }
  }

  /** A search standing at the start of a line collects that line's
      entries and then carries on at the next line. */
  lemma LineThenRest(pat: Pattern, x: string, tail: string)
    requires LineBased(pat)
    requires NoLineTerminator(x)
    requires tail == [] || IsLineTerminator(tail[0])
    ensures ScanFrom(pat, x + tail, true) == LineItems(pat, x) + ScanFrom(pat, tail, true)
  {
    if pat.RamUrl? {
      RamLineThenRest(x, tail);
    } else {
      AnchoredLineThenRest(pat, x, tail);
    }
  }

  /** Line-by-line extraction is exactly the global search of the
      pattern over the whole body. */
  lemma {:induction false} LinesItemsIsScan(pat: Pattern, body: string)
    requires LineBased(pat)
    ensures LinesItems(pat, body) == Scan(pat, body)
    decreases |body|
  {
    var n := LineLength(body);
    var x, tail := body[..n], body[n..];
    assert body == x + tail;
    LineThenRest(pat, x, tail);
    if n == |body| {
      ScanEmpty(pat, true);
    } else {
      ScanOverTerminator(pat, tail, true);
      assert tail[1..] == body[n + 1..];
      LinesItemsIsScan(pat, body[n + 1..]);
    }
  }
}
