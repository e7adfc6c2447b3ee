/** The handful of JavaScript string operations the player relies on:
    line terminators and white space as JavaScript defines them,
    `trim`, ASCII case folding, prefix tests and `split(sep)[0]`. */
module JsString {

  /** The characters `.` refuses and multiline `^` anchors after. */
  predicate IsLineTerminator(c: char) {
    c == '\n' || c == '\r' || c == '\U{2028}' || c == '\U{2029}'
  }

  /** The characters `\s` matches and `trim` removes: white space and
      line terminators. */
  predicate IsSpace(c: char) {
    || IsLineTerminator(c)
    || c == '\t' || c == '\U{000B}' || c == '\U{000C}' || c == ' '
    || c == '\U{00A0}' || c == '\U{FEFF}' || c == '\U{1680}'
    || ('\U{2000}' <= c <= '\U{200A}')
    || c == '\U{202F}' || c == '\U{205F}' || c == '\U{3000}'
  }

  predicate IsDigit(c: char) {
    '0' <= c <= '9'
  }

  predicate IsQuote(c: char) {
    c == '"' || c == '\''
  }

  /** ASCII lower-casing of one character. */
  function ToLower(c: char): char {
    if 'A' <= c <= 'Z' then (c as int - 'A' as int + 'a' as int) as char else c
  }

  /** `toLowerCase`, restricted to ASCII letters. */
  function Lower(s: string): (t: string)
    ensures |t| == |s|
    ensures forall i :: 0 <= i < |s| ==> t[i] == ToLower(s[i])
  {
    seq(|s|, i requires 0 <= i < |s| => ToLower(s[i]))
  }

  predicate SameIgnoringCase(a: char, b: char) {
    ToLower(a) == ToLower(b)
  }

  predicate StartsWith(s: string, prefix: string) {
    |prefix| <= |s| && s[..|prefix|] == prefix
  }

  /** The prefix test a case-insensitive regular expression performs. */
  predicate StartsWithIgnoringCase(s: string, prefix: string) {
    |prefix| <= |s| && forall i :: 0 <= i < |prefix| ==> SameIgnoringCase(s[i], prefix[i])
  }

  /** Length of the longest prefix of `s` whose characters all satisfy `p`. */
  function LeadingRun(s: string, p: char -> bool): (n: nat)
    ensures n <= |s|
    ensures forall i :: 0 <= i < n ==> p(s[i])
    ensures n < |s| ==> !p(s[n])
  {
    if |s| == 0 || !p(s[0]) then 0 else 1 + LeadingRun(s[1..], p)
  }

  /** A prefix of `s` whose characters all satisfy `p`, followed by the
      end of `s` or by a character that does not, is the leading run. */
  lemma LeadingRunIs(s: string, p: char -> bool, n: nat)
    requires n <= |s|
    requires forall i :: 0 <= i < n ==> p(s[i])
    requires n < |s| ==> !p(s[n])
    ensures LeadingRun(s, p) == n
  {
  }

  /** Length of the longest suffix of `s` whose characters all satisfy `p`. */
  function TrailingRun(s: string, p: char -> bool): (n: nat)
    ensures n <= |s|
    ensures forall i :: |s| - n <= i < |s| ==> p(s[i])
    ensures n < |s| ==> !p(s[|s| - n - 1])
  {
    if |s| == 0 || !p(s[|s| - 1]) then 0 else 1 + TrailingRun(s[..|s| - 1], p)
  }

  /** Number of characters before the first line terminator. */
  function LineLength(s: string): (n: nat)
    ensures n <= |s|
    ensures forall i :: 0 <= i < n ==> !IsLineTerminator(s[i])
    ensures n < |s| ==> IsLineTerminator(s[n])
  {
    LeadingRun(s, c => !IsLineTerminator(c))
  }

  predicate NoLineTerminator(s: string) {
    forall i :: 0 <= i < |s| ==> !IsLineTerminator(s[i])
  }

  /** Dropping part of the first piece of a concatenation. */
  lemma DropFromFirst(x: string, tail: string, k: nat)
    requires k <= |x|
    ensures (x + tail)[k..] == x[k..] + tail
    ensures forall i :: 0 <= i < |x| ==> (x + tail)[i] == x[i]
  {
  }

  /** A concatenation splits back into its two pieces. */
  lemma SplitConcat(x: string, y: string)
    ensures (x + y)[..|x|] == x && (x + y)[|x|..] == y
  {
  }

  /** The line that starts `s` ends exactly where the first line
      terminator of `s` stands. */
  lemma LineLengthOfLine(line: string, tail: string)
    requires NoLineTerminator(line)
    requires tail == [] || IsLineTerminator(tail[0])
    ensures LineLength(line + tail) == |line|
    ensures (line + tail)[..|line|] == line
  {
    var s := line + tail;
    assert forall i :: 0 <= i < |line| ==> s[i] == line[i];
    assert |line| < |s| ==> s[|line|] == tail[0];
    assert s[..|line|] == line;
  }

  function TrimStart(s: string): (t: string)
    ensures |t| <= |s| && t == s[|s| - |t|..]
    ensures forall i :: 0 <= i < |s| - |t| ==> IsSpace(s[i])
    ensures t != [] ==> !IsSpace(t[0])
  {
    s[LeadingRun(s, IsSpace)..]
  }

  function TrimEnd(s: string): (t: string)
    ensures |t| <= |s| && t == s[..|t|]
    ensures forall i :: |t| <= i < |s| ==> IsSpace(s[i])
    ensures t != [] ==> !IsSpace(t[|t| - 1])
  {
    s[..|s| - TrailingRun(s, IsSpace)]
  }

  /** `trim`. */
  function Trim(s: string): string {
    TrimEnd(TrimStart(s))
  }

  /** `t` is what comes before the first `sep` of `s`: all of `s` when
      there is none. */
  predicate IsFirstPiece(s: string, t: string, sep: char) {
    StartsWith(s, t) && sep !in t && (|t| == |s| || s[|t|] == sep)
  }

  /** `s.split(sep)[0]`: everything before the first `sep`. */
  function Before(s: string, sep: char): (t: string)
    ensures IsFirstPiece(s, t, sep)
  {
    var n := LeadingRun(s, c => c != sep);
    assert forall i :: 0 <= i < n ==> s[..n][i] != sep;
    s[..n]
  }

  /** Cutting at the first `sep` undoes appending a piece that starts with
      `sep` (or nothing) to a text free of `sep`. */
  lemma BeforeFirst(t: string, rest: string, sep: char)
    requires sep !in t
    requires rest == [] || rest[0] == sep
    ensures Before(t + rest, sep) == t
  {
    var s := t + rest;
    assert forall i :: 0 <= i < |t| ==> s[i] == t[i];
    LeadingRunIs(s, c => c != sep, |t|);
  }

  /** A signature free of white space, written in lower case, is the
      prefix of the lower-cased, trimmed text exactly when the text, once
      its leading white space is skipped, starts with the signature in any
      ASCII case: trimming the end never matters. */
  lemma {:induction false} SignatureIgnoresTrailingSpace(s: string, sig: string)
    requires forall i :: 0 <= i < |sig| ==> !IsSpace(sig[i]) && ToLower(sig[i]) == sig[i]
    ensures StartsWith(Lower(Trim(s)), sig) <==> StartsWithIgnoringCase(TrimStart(s), sig)
  {
    var t := TrimStart(s);
    var u := TrimEnd(t);
    if StartsWithIgnoringCase(t, sig) && |sig| > 0 {
      var last := |sig| - 1;
      assert SameIgnoringCase(t[last], sig[last]);
      assert |sig| <= |u|;
      assert Lower(u)[..|sig|] == sig;
    }
    if StartsWith(Lower(u), sig) {
      forall i | 0 <= i < |sig|
        ensures SameIgnoringCase(t[i], sig[i])
      {
        assert Lower(u)[i] == ToLower(u[i]);
      }
    }
  }
}
