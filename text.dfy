/** Character-level string helpers used by the monitor: trimming, ASCII lower-casing,
    substring search, first line, and the 180-character text cap. */
module Text {

  /** Whitespace as recognised by `str::trim` and `split_whitespace` (ASCII subset). */
  predicate IsWhitespace(c: char) {
    c == ' ' || c == '\t' || c == '\n' || c == '\r' || c == '\U{0B}' || c == '\U{0C}'
  }

  /** `str::trim_start`. */
  function TrimStart(s: string): (r: string)
    ensures |r| <= |s| && r == s[|s| - |r|..]
    ensures r != [] ==> !IsWhitespace(r[0])
    ensures forall i :: 0 <= i < |s| - |r| ==> IsWhitespace(s[i])
  {
    if s != [] && IsWhitespace(s[0]) then
      var r := TrimStart(s[1..]);
      assert s[1..][|s| - 1 - |r|..] == s[|s| - |r|..];
      assert forall i :: 1 <= i < |s| - |r| ==> s[i] == s[1..][i - 1];
      r
    else s
  }

  /** `str::trim_end`. */
  function TrimEnd(s: string): (r: string)
    ensures |r| <= |s| && r == s[..|r|]
    ensures r != [] ==> !IsWhitespace(r[|r| - 1])
    ensures forall i :: |r| <= i < |s| ==> IsWhitespace(s[i])
  {
    if s != [] && IsWhitespace(s[|s| - 1]) then TrimEnd(s[..|s| - 1]) else s
  }

  /** Every character is whitespace. */
  predicate Blank(s: string) {
    forall i :: 0 <= i < |s| ==> IsWhitespace(s[i])
  }

  /** `r` is `s` with some whitespace removed from its front and its back, and nothing else. */
  ghost predicate Stripped(s: string, r: string) {
    exists i :: StrippedAt(s, r, i)
  }

  /** `r` sits at offset `i` of `s`, with only whitespace before and after it. */
  predicate StrippedAt(s: string, r: string, i: int) {
    && 0 <= i <= |s| - |r|
    && r == s[i..i + |r|]
    && (forall k :: 0 <= k < i ==> IsWhitespace(s[k]))
    && (forall k :: i + |r| <= k < |s| ==> IsWhitespace(s[k]))
  }

  /** `str::trim`: both ends stripped of whitespace. */
  function Trim(s: string): (r: string)
    ensures r != [] ==> !IsWhitespace(r[0]) && !IsWhitespace(r[|r| - 1])
    ensures r == [] <==> Blank(s)
  {
    var t := TrimStart(s);
    assert t != [] ==> !IsWhitespace(t[0]);
    var r := TrimEnd(t);
    assert r != [] ==> r[0] == t[0];
    assert r == [] ==> t == [];
    r
  }

  /** Trimming removes whitespace from the two ends of a text and nothing else. */
  lemma TrimStripped(s: string)
    ensures Stripped(s, Trim(s))
  {
    var t := TrimStart(s);
    var r := TrimEnd(t);
    var i := |s| - |t|;
    assert r == s[i..i + |r|];
    assert forall k :: i + |r| <= k < |s| ==> s[k] == t[k - i];
    assert StrippedAt(s, r, i);
  }

  /** Trimming only removes characters. */
  lemma TrimWithin(s: string)
    ensures forall c :: c in Trim(s) ==> c in s
  {
    var t := TrimStart(s);
    assert forall c :: c in TrimEnd(t) ==> c in t;
    assert forall c :: c in t ==> c in s;
  }

  /** A text with no whitespace at either end is its own trim. */
  lemma TrimOfTrimmed(s: string)
    requires s != [] ==> !IsWhitespace(s[0]) && !IsWhitespace(s[|s| - 1])
    ensures Trim(s) == s
  {
    assert TrimStart(s) == s;
    assert TrimEnd(s) == s;
  }

  /** Lower-casing of one character (ASCII letters only). */
  function LowerChar(c: char): char {
    if 'A' <= c <= 'Z' then (c as int + 32) as char else c
  }

  /** `str::to_lowercase`, restricted to ASCII letters. */
  function Lower(s: string): string {
    seq(|s|, i requires 0 <= i < |s| => LowerChar(s[i]))
  }

  /** The canonical source names are already lower case. */
  lemma LowerCanonicalNames()
    ensures Lower("claude") == "claude" && Lower("opencode") == "opencode" && Lower("codex") == "codex"
  {
    forall x | x in {"claude", "opencode", "codex"}, i | 0 <= i < |x| ensures LowerChar(x[i]) == x[i] {
      assert 'a' <= x[i] <= 'z';
    }
  }

  /** `str::contains` for a string pattern. */
  predicate Contains(s: string, pattern: string) {
    exists i | 0 <= i <= |s| - |pattern| :: pattern <= s[i..]
  }

  /** The text before the first line feed: the first item of `str::lines`
      (a carriage return before the feed is left in place; every caller trims it). */
  function FirstLine(s: string): (r: string)
    ensures r <= s && '\n' !in r
    ensures |r| < |s| ==> s[|r|] == '\n'
  {
    if s == [] || s[0] == '\n' then [] else [s[0]] + FirstLine(s[1..])
  }

  /** Longest text the monitor keeps before cutting (lib.rs `MAX_MONITOR_TEXT_CHARS`). */
  const MaxMonitorTextChars: nat := 180

  /** `truncate_text`: text longer than the cap keeps its first 180 characters and gains "...". */
  function Truncated(text: string): string {
    if |text| <= MaxMonitorTextChars then text else text[..MaxMonitorTextChars] + "..."
  }

  /** The character-pushing loop of `truncate_text`. */
  method TruncateText(text: string) returns (r: string)
    ensures r == Truncated(text)
    ensures |r| <= MaxMonitorTextChars + 3
    ensures |text| <= MaxMonitorTextChars ==> r == text
    ensures |text| > MaxMonitorTextChars ==> |r| == MaxMonitorTextChars + 3 && r[..MaxMonitorTextChars] == text[..MaxMonitorTextChars] && r[MaxMonitorTextChars..] == "..."
  {
    if |text| <= MaxMonitorTextChars {
      return text;
    }
    var out: string := [];
    var idx := 0;
    while idx < |text|
      invariant 0 <= idx <= MaxMonitorTextChars && idx <= |text|
      invariant out == text[..idx]
    {
      if idx >= MaxMonitorTextChars {
        break;
      }
      out := out + [text[idx]];
      idx := idx + 1;
    }
    r := out + "...";
  }

  /** Cutting is idempotent: a cut text is left as it is by a second cut. */
  lemma TruncatedIdempotent(text: string)
    ensures Truncated(Truncated(text)) == Truncated(text)
  {
    if |text| > MaxMonitorTextChars {
      var t := Truncated(text);
      assert t[..MaxMonitorTextChars] == text[..MaxMonitorTextChars];
    }
  }
}
