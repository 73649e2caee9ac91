/** Display names: the source alias table, whitespace-collapsed agent names capped at 56
    characters, repository labels taken from a path's last component, and the
    `"<source>: <name>"` label built from them. */
module Names {
  import opened Wrappers
  import opened Text

  predicate NoWhitespace(w: string) {
    forall i :: 0 <= i < |w| ==> !IsWhitespace(w[i])
  }

  /** Length of the leading run of non-whitespace characters. */
  function WordEnd(s: string): (n: nat)
    ensures n <= |s| && NoWhitespace(s[..n])
    ensures n < |s| ==> IsWhitespace(s[n])
  {
    if s == [] || IsWhitespace(s[0]) then 0 else 1 + WordEnd(s[1..])
  }

  /** Every entry is a non-empty run of non-whitespace characters. */
  predicate AllWords(ws: seq<string>) {
    forall j :: 0 <= j < |ws| ==> ws[j] != [] && NoWhitespace(ws[j])
  }

  lemma AllWordsCons(w: string, ws: seq<string>)
    requires w != [] && NoWhitespace(w) && AllWords(ws)
    ensures AllWords([w] + ws)
  {
    forall j | 0 <= j < |[w] + ws| ensures ([w] + ws)[j] != [] && NoWhitespace(([w] + ws)[j]) {
      if j > 0 {
        assert ([w] + ws)[j] == ws[j - 1];
      }
    }
  }

  /** A text that starts with a non-whitespace character starts with a word. */
  lemma FirstWord(t: string)
    requires t != [] && !IsWhitespace(t[0])
    ensures 1 <= WordEnd(t) && t[..WordEnd(t)] != [] && NoWhitespace(t[..WordEnd(t)])
  {
  }

  /** `str::split_whitespace`: the maximal runs of non-whitespace characters, in order. */
  function Words(s: string): (ws: seq<string>)
    ensures AllWords(ws)
    decreases |s|
  {
    var t := TrimStart(s);
    if t == [] then []
    else
      FirstWord(t);
      var n := WordEnd(t);
      var rest := Words(t[n..]);
      AllWordsCons(t[..n], rest);
      [t[..n]] + rest
  }

  /** The whitespace runs around the words of `s`: before the first word, between words,
      and after the last. */
  function Gaps(s: string): (gs: seq<string>)
    ensures |gs| == |Words(s)| + 1
    decreases |s|
  {
    var t := TrimStart(s);
    if t == [] then [s]
    else [s[..|s| - |t|]] + Gaps(t[WordEnd(t)..])
  }

  /** `gaps[0] + ws[0] + gaps[1] + ... + ws[n - 1] + gaps[n]`. */
  function Interleave(gaps: seq<string>, ws: seq<string>): string
    requires |gaps| == |ws| + 1
  {
    if ws == [] then gaps[0] else gaps[0] + ws[0] + Interleave(gaps[1..], ws[1..])
  }

  /** Gaps of whitespace only, every one between two words non-empty. */
  predicate Spacing(gaps: seq<string>) {
    && (forall j :: 0 <= j < |gaps| ==> Blank(gaps[j]))
    && (forall j :: 0 < j < |gaps| - 1 ==> gaps[j] != [])
  }

  lemma InterleaveCons(g: string, gaps: seq<string>, w: string, ws: seq<string>)
    requires |gaps| == |ws| + 1
    ensures Interleave([g] + gaps, [w] + ws) == g + w + Interleave(gaps, ws)
  {
    assert ([g] + gaps)[1..] == gaps && ([w] + ws)[1..] == ws;
  }

  /** A text that is words and gaps and starts with whitespace starts with a gap. */
  lemma FirstGapNonEmpty(gaps: seq<string>, ws: seq<string>)
    requires |gaps| == |ws| + 1 && |ws| > 0 && AllWords(ws)
    requires Interleave(gaps, ws) != [] && IsWhitespace(Interleave(gaps, ws)[0])
    ensures gaps[0] != []
  {
    assert Interleave(gaps, ws) == gaps[0] + ws[0] + Interleave(gaps[1..], ws[1..]);
  }

  /** A text is its untrimmed front, then a cut of the rest into two pieces. */
  lemma Glue(s: string, t: string, n: int)
    requires |t| <= |s| && t == s[|s| - |t|..] && 0 <= n <= |t|
    ensures s == s[..|s| - |t|] + t[..n] + t[n..]
  {
    assert t[..n] + t[n..] == t;
    assert s[..|s| - |t|] + t == s;
    assert s[..|s| - |t|] + t[..n] + t[n..] == s[..|s| - |t|] + (t[..n] + t[n..]);
  }

  lemma SpacingCons(g: string, gaps: seq<string>)
    requires Blank(g) && Spacing(gaps) && (|gaps| > 1 ==> gaps[0] != [])
    ensures Spacing([g] + gaps)
  {
    forall j | 0 < j < |gaps| + 1 ensures ([g] + gaps)[j] == gaps[j - 1] {
    }
  }

  /** One step of `Words` and `Gaps` together: the leading gap, the first word, and the rest. */
  lemma WordsGapsStep(s: string)
    requires TrimStart(s) != []
    ensures var t := TrimStart(s); var n := WordEnd(t);
      && Gaps(s) == [s[..|s| - |t|]] + Gaps(t[n..])
      && Words(s) == [t[..n]] + Words(t[n..])
  {
    GapsStep(s);
    WordsStep(s);
  }

  lemma GapsStep(s: string)
    requires TrimStart(s) != []
    ensures var t := TrimStart(s); Gaps(s) == [s[..|s| - |t|]] + Gaps(t[WordEnd(t)..])
  {
  }

  lemma WordsStep(s: string)
    requires TrimStart(s) != []
    ensures var t := TrimStart(s); var n := WordEnd(t); Words(s) == [t[..n]] + Words(t[n..])
  {
  }

  /** `split_whitespace` loses nothing but whitespace: `s` is its words interleaved with
      the gaps between them. */
  lemma {:induction false} WordsInterleave(s: string)
    ensures s == Interleave(Gaps(s), Words(s))
    decreases |s|
  {
    var t := TrimStart(s);
    if t == [] {
      assert Gaps(s) == [s] && Words(s) == [];
      return;
    }
    var n := WordEnd(t);
    WordsInterleave(t[n..]);
    WordsGapsStep(s);
    InterleaveCons(s[..|s| - |t|], Gaps(t[n..]), t[..n], Words(t[n..]));
    Glue(s, t, n);
  }

  /** The gaps are whitespace, and two words are always separated by some. With
      `WordsInterleave` and `AllWords` this fixes `Words(s)` completely: the maximal runs of
      non-whitespace characters, in order. */
  lemma {:induction false} GapsSpacing(s: string)
    ensures Spacing(Gaps(s))
    decreases |s|
  {
    var t := TrimStart(s);
    if t == [] {
      assert Gaps(s) == [s];
      return;
    }
    var n := WordEnd(t);
    var rest := t[n..];
    GapsSpacing(rest);
    WordsGapsStep(s);
    if |Words(rest)| > 0 {
      WordsInterleave(rest);
      FirstGapNonEmpty(Gaps(rest), Words(rest));
    }
    SpacingCons(s[..|s| - |t|], Gaps(rest));
  }

  /** `join(" ")`. */
  function Join(ws: seq<string>): string {
    if |ws| == 0 then [] else if |ws| == 1 then ws[0] else ws[0] + " " + Join(ws[1..])
  }

  /** A collapsed text: no whitespace at either end, and every whitespace character inside
      is a single space followed by a non-whitespace character. */
  predicate Compact(r: string) {
    && (r != [] ==> !IsWhitespace(r[0]) && !IsWhitespace(r[|r| - 1]))
    && forall i :: 0 <= i < |r| && IsWhitespace(r[i]) ==> r[i] == ' ' && i + 1 < |r| && !IsWhitespace(r[i + 1])
  }

  lemma {:induction false} JoinCompact(ws: seq<string>)
    requires AllWords(ws)
    ensures Compact(Join(ws))
    ensures |ws| > 0 ==> Join(ws) != [] && Join(ws)[0] == ws[0][0]
  {
    if |ws| > 1 {
      JoinCompact(ws[1..]);
      var w, rest := ws[0], Join(ws[1..]);
      var r := w + " " + rest;
      assert r == Join(ws);
      forall i | 0 <= i < |r| && IsWhitespace(r[i])
        ensures r[i] == ' ' && i + 1 < |r| && !IsWhitespace(r[i + 1])
      {
        if i == |w| {
          assert r[i + 1] == rest[0];
        } else if i > |w| {
          assert r[i] == rest[i - |w| - 1];
          assert i + 1 < |r| ==> r[i + 1] == rest[i - |w|];
        }
      }
      assert r[|r| - 1] == rest[|rest| - 1];
    }
  }

  lemma {:induction false} WordsEmpty(s: string)
    ensures Words(s) == [] <==> forall i :: 0 <= i < |s| ==> IsWhitespace(s[i])
  {
    var t := TrimStart(s);
    if t != [] {
      assert !IsWhitespace(s[|s| - |t|]);
    }
  }

  /** The whitespace-collapsed text: `split_whitespace().join(" ")` (the `trim()` the source
      applies afterwards changes nothing, see `CollapseTrimmed`). */
  function Collapse(s: string): (r: string)
    ensures Compact(r)
    ensures r == [] <==> forall i :: 0 <= i < |s| ==> IsWhitespace(s[i])
  {
    JoinCompact(Words(s));
    WordsEmpty(s);
    Join(Words(s))
  }

  /** The source trims the joined words once more; that trim never removes anything. */
  lemma CollapseTrimmed(s: string)
    ensures Trim(Collapse(s)) == Collapse(s)
  {
    var j := Collapse(s);
    assert TrimStart(j) == j;
    assert TrimEnd(j) == j;
  }

  lemma {:induction false} WordEndOfWord(w: string, rest: string)
    requires NoWhitespace(w)
    requires rest == [] || IsWhitespace(rest[0])
    ensures WordEnd(w + rest) == |w|
  {
    if w != [] {
      assert (w + rest)[1..] == w[1..] + rest;
      WordEndOfWord(w[1..], rest);
    }
  }

  /** Splitting a single word gives it back. */
  lemma WordsOfWord(w: string)
    requires w != [] && NoWhitespace(w)
    ensures Words(w) == [w]
  {
    assert TrimStart(w) == w;
    WordEndOfWord(w, []);
    assert w + [] == w;
    assert WordEnd(w) == |w|;
    assert w[|w|..] == [] && w[..|w|] == w;
    assert TrimStart([]) == [];
    assert Words([]) == [];
  }

  /** A word followed by a space and more text splits into that word and the words of the rest. */
  lemma WordsOfConcat(w: string, rest: string)
    requires w != [] && NoWhitespace(w)
    ensures Words(w + " " + rest) == [w] + Words(rest)
  {
    var r := w + " " + rest;
    assert r == w + (" " + rest);
    assert TrimStart(r) == r;
    WordEndOfWord(w, " " + rest);
    assert r[..|w|] == w;
    assert r[|w|..] == " " + rest;
    assert (" " + rest)[1..] == rest;
    assert TrimStart(" " + rest) == TrimStart(rest);
  }

  lemma WordsOfJoinStep(ws: seq<string>)
    requires |ws| > 1 && ws[0] != [] && NoWhitespace(ws[0])
    requires Words(Join(ws[1..])) == ws[1..]
    ensures Words(Join(ws)) == ws
  {
    var rest := Join(ws[1..]);
    assert Join(ws) == ws[0] + " " + rest;
    WordsOfConcat(ws[0], rest);
    assert ws == [ws[0]] + ws[1..];
  }

  /** Splitting a joined list of words gives the words back. */
  lemma {:induction false} WordsOfJoin(ws: seq<string>)
    requires AllWords(ws)
    ensures Words(Join(ws)) == ws
  {
    if |ws| == 0 {
      assert Join(ws) == [];
    } else if |ws| == 1 {
      assert Join(ws) == ws[0];
      WordsOfWord(ws[0]);
    } else {
      WordsOfJoin(ws[1..]);
      WordsOfJoinStep(ws);
    }
  }

  /** The collapsed text has exactly the words of the original, in order. */
  lemma CollapseKeepsWords(s: string)
    ensures Words(Collapse(s)) == Words(s)
  {
    WordsOfJoin(Words(s));
  }

  /** Collapsing whitespace twice is the same as collapsing it once. */
  lemma CollapseIdempotent(s: string)
    ensures Collapse(Collapse(s)) == Collapse(s)
  {
    WordsOfJoin(Words(s));
  }

  /** Longest agent name shown before it is cut (lib.rs `normalize_agent_name`). */
  const MaxAgentNameChars: nat := 56

  /** `normalize_agent_name`: the collapsed name, cut to 56 characters plus "...", or
      nothing when the name is blank. */
  function NormalizedAgentName(name: string): (r: Option<string>)
    ensures r.None? <==> forall i :: 0 <= i < |name| ==> IsWhitespace(name[i])
    ensures r.Some? ==> r.value != [] && |r.value| <= MaxAgentNameChars + 3
  {
    var compact := Collapse(name);
    if compact == [] then None else Some(CappedName(compact))
  }

  /** A collapsed name cut to 56 characters, marked with "..." when it was longer. */
  function CappedName(compact: string): string {
    if |compact| > MaxAgentNameChars then compact[..MaxAgentNameChars] + "..." else compact
  }

  /** A short name is the collapsed name itself; a long one keeps its first 56 characters
      and is marked with "...". */
  lemma NormalizedAgentNameShape(name: string)
    ensures var r := NormalizedAgentName(name);
      && (r.Some? && |Collapse(name)| <= MaxAgentNameChars ==> r.value == Collapse(name))
      && (r.Some? && |Collapse(name)| > MaxAgentNameChars ==>
            |r.value| == MaxAgentNameChars + 3
            && r.value[..MaxAgentNameChars] == Collapse(name)[..MaxAgentNameChars]
            && r.value[MaxAgentNameChars..] == "...")
  {
    var compact := Collapse(name);
    if |compact| > MaxAgentNameChars {
      var out := compact[..MaxAgentNameChars] + "...";
      assert out[..MaxAgentNameChars] == compact[..MaxAgentNameChars];
      assert out[MaxAgentNameChars..] == "...";
    }
  }

  /** The character-pushing loop of `normalize_agent_name`, over the collapsed name. */
  method CapName(compact: string) returns (out: string)
    ensures out == CappedName(compact)
  {
    out := [];
    var idx := 0;
    while idx < |compact|
      invariant 0 <= idx <= |compact| && idx <= MaxAgentNameChars
      invariant out == compact[..idx]
    {
      if idx >= MaxAgentNameChars {
        break;
      }
      out := out + [compact[idx]];
      idx := idx + 1;
    }
    if |compact| > MaxAgentNameChars {
      out := out + "...";
    } else {
      assert out == compact[..|compact|] == compact;
    }
  }

  /** `normalize_agent_name`. */
  method NormalizeAgentName(name: string) returns (r: Option<string>)
    ensures r == NormalizedAgentName(name)
  {
    var compact := Collapse(name);
    if compact == [] {
      return None;
    }
    var out := CapName(compact);
    r := Some(out);
  }

  /** `short_session`: the first eight characters of a session id. */
  function ShortSession(session: string): (r: string)
    ensures r <= session && |r| == if |session| < 8 then |session| else 8
  {
    if |session| < 8 then session else session[..8]
  }

  /** The text after the last '/'. */
  function LastSegment(s: string): (r: string)
    ensures |r| <= |s| && r == s[|s| - |r|..] && '/' !in r
    ensures |r| < |s| ==> s[|s| - |r| - 1] == '/'
  {
    if s == [] || s[|s| - 1] == '/' then [] else LastSegment(s[..|s| - 1]) + [s[|s| - 1]]
  }

  /** `Path::file_name` for '/'-separated paths: the last component, skipping empty and "."
      components; nothing when there is none or it is "..". */
  function FileName(path: string): (r: Option<string>)
    ensures r.Some? ==> r.value != [] && '/' !in r.value && r.value != "." && r.value != ".."
    decreases |path|
  {
    if path == [] then None
    else
      var seg := LastSegment(path);
      if seg == [] || seg == "." then
        var rest := path[..|path| - |seg|];
        if rest == [] then None else FileName(rest[..|rest| - 1])
      else if seg == ".." then None
      else Some(seg)
  }

  /** `c` is a whole '/'-separated component of `path`, starting at offset `i`. */
  predicate ComponentAt(path: string, i: int, c: string) {
    && 0 <= i && i + |c| <= |path| && path[i..i + |c|] == c
    && (i == 0 || path[i - 1] == '/')
    && (i + |c| == |path| || path[i + |c|] == '/')
  }

  /** Every component of `t` is empty or ".": the components `Path::components` skips. */
  predicate OnlyCurDirs(t: string) {
    forall k :: 0 <= k < |t| && t[k] != '/' ==>
      t[k] == '.' && (k == 0 || t[k - 1] == '/') && (k + 1 == |t| || t[k + 1] == '/')
  }

  lemma OnlyCurDirsAppend(t: string, seg: string)
    requires OnlyCurDirs(t) && (seg == [] || seg == ".")
    ensures OnlyCurDirs(t + "/" + seg)
  {
    var u := t + "/" + seg;
    forall k | 0 <= k < |u| && u[k] != '/'
      ensures u[k] == '.' && (k == 0 || u[k - 1] == '/') && (k + 1 == |u| || u[k + 1] == '/')
    {
      if k < |t| {
        assert u[k] == t[k];
        assert k > 0 ==> u[k - 1] == t[k - 1];
        assert k + 1 < |t| ==> u[k + 1] == t[k + 1];
      }
    }
  }

  /** `v` is a component of `path` followed only by empty and "." components. */
  ghost predicate EndsWithComponent(path: string, v: string) {
    exists i :: ComponentAt(path, i, v) && OnlyCurDirs(path[i + |v|..])
  }

  /** Appending an empty or "." component keeps the last proper component. */
  lemma LastComponentExtends(q: string, seg: string, v: string)
    requires EndsWithComponent(q, v) && (seg == [] || seg == ".")
    ensures EndsWithComponent(q + "/" + seg, v)
  {
    var i :| ComponentAt(q, i, v) && OnlyCurDirs(q[i + |v|..]);
    var path := q + "/" + seg;
    assert path[i + |v|..] == q[i + |v|..] + "/" + seg;
    OnlyCurDirsAppend(q[i + |v|..], seg);
    assert path[i..i + |v|] == q[i..i + |v|];
    assert ComponentAt(path, i, v);
  }

  /** A trailing empty or "." segment is skipped: `FileName` looks at the text before its '/'. */
  lemma FileNameSkips(path: string)
    requires path != [] && (LastSegment(path) == [] || LastSegment(path) == ".")
    requires |LastSegment(path)| < |path|
    ensures var seg := LastSegment(path);
      && path == path[..|path| - |seg| - 1] + "/" + seg
      && FileName(path) == FileName(path[..|path| - |seg| - 1])
  {
    var seg := LastSegment(path);
    var rest := path[..|path| - |seg|];
    assert rest[..|rest| - 1] == path[..|path| - |seg| - 1];
  }

  /** A path whose last segment is a proper name ends with that component. */
  lemma LastSegmentIsComponent(path: string)
    ensures EndsWithComponent(path, LastSegment(path))
  {
    var seg := LastSegment(path);
    var j := |path| - |seg|;
    assert path[j..j + |seg|] == seg && path[j + |seg|..] == [];
    assert ComponentAt(path, j, seg);
  }

  lemma SkipKeepsLastComponent(q: string, seg: string)
    requires seg == [] || seg == "."
    requires FileName(q).Some? ==> EndsWithComponent(q, FileName(q).value)
    requires FileName(q).None? ==> OnlyCurDirs(q) || EndsWithComponent(q, "..")
    ensures FileName(q).Some? ==> EndsWithComponent(q + "/" + seg, FileName(q).value)
    ensures FileName(q).None? ==> OnlyCurDirs(q + "/" + seg) || EndsWithComponent(q + "/" + seg, "..")
  {
    if FileName(q).Some? {
      LastComponentExtends(q, seg, FileName(q).value);
    } else if OnlyCurDirs(q) {
      OnlyCurDirsAppend(q, seg);
    } else {
      LastComponentExtends(q, seg, "..");
    }
  }

  /** `FileName` finds the last component that is not empty or ".": when there is one and it
      is not "..", that is the result; otherwise the result is nothing. */
  lemma {:induction false} FileNameIsLastComponent(path: string)
    ensures FileName(path).Some? ==> EndsWithComponent(path, FileName(path).value)
    ensures FileName(path).None? ==> OnlyCurDirs(path) || EndsWithComponent(path, "..")
    decreases |path|
  {
    if path == [] {
      return;
    }
    var seg := LastSegment(path);
    if seg == [] || seg == "." {
      if |seg| == |path| {
        assert path == seg && path[..|path| - |seg|] == [];
        assert FileName(path).None?;
        assert OnlyCurDirs(path);
        return;
      }
      FileNameSkips(path);
      var q := path[..|path| - |seg| - 1];
      FileNameIsLastComponent(q);
      SkipKeepsLastComponent(q, seg);
      assert path == q + "/" + seg;
    } else if seg == ".." {
      assert FileName(path).None?;
      LastSegmentIsComponent(path);
      assert EndsWithComponent(path, "..");
    } else {
      assert FileName(path) == Some(seg);
      LastSegmentIsComponent(path);
      assert EndsWithComponent(path, seg);
    }
  }

  /** `repo_label`: the trimmed last path component, or the trimmed path itself when it has
      none; nothing for a blank path or a blank component. */
  function RepoLabel(repoPath: string): (r: Option<string>)
    ensures r.Some? ==> r.value != [] && !IsWhitespace(r.value[0]) && !IsWhitespace(r.value[|r.value| - 1])
    ensures Blank(repoPath) ==> r.None?
  {
    var trimmed := Trim(repoPath);
    if trimmed == [] then None
    else
      var name := Trim(FileName(trimmed).GetOr(trimmed));
      if name == [] then None else Some(name)
  }

  /** A path with a last component is labelled by that component with its outer whitespace
      removed (nothing when it is blank); a path without one by the whole trimmed path. */
  lemma RepoLabelIsComponent(repoPath: string)
    ensures FileName(Trim(repoPath)).Some? ==>
      var c := FileName(Trim(repoPath)).value;
      && (RepoLabel(repoPath).None? <==> Blank(c))
      && (RepoLabel(repoPath).Some? ==> '/' !in RepoLabel(repoPath).value && Stripped(c, RepoLabel(repoPath).value))
    ensures !Blank(repoPath) && FileName(Trim(repoPath)).None? ==> RepoLabel(repoPath) == Some(Trim(repoPath))
  {
    var trimmed := Trim(repoPath);
    if FileName(trimmed).Some? {
      TrimWithin(FileName(trimmed).value);
      TrimStripped(FileName(trimmed).value);
    } else if trimmed != [] {
      TrimOfTrimmed(trimmed);
    }
  }

  /** `normalize_source_name`: known aliases of the three sources map to their canonical
      names; anything else is returned as given. */
  function NormalizeSourceName(source: string): (r: string)
    ensures r == "claude" || r == "opencode" || r == "codex" || r == source
    ensures IsClaudeAlias(Lower(Trim(source))) ==> r == "claude"
    ensures IsOpencodeAlias(Lower(Trim(source))) ==> r == "opencode"
    ensures Lower(Trim(source)) == "codex" ==> r == "codex"
    // a name outside the alias table comes back exactly as given
    ensures var n := Lower(Trim(source));
      !IsClaudeAlias(n) && !IsOpencodeAlias(n) && n != "codex" ==> r == source
  {
    var normalized := Lower(Trim(source));
    AliasLengths(normalized);
    if IsClaudeAlias(normalized) then "claude"
    else if IsOpencodeAlias(normalized) then "opencode"
    else if normalized == "codex" then "codex"
    else source
  }

  predicate IsClaudeAlias(n: string) {
    n == "claude" || n == "claude code" || n == "claude-code" || n == "claudecode"
  }

  predicate IsOpencodeAlias(n: string) {
    n == "opencode" || n == "open" || n == "open-code" || n == "open_code"
  }

  /** The two alias lists and "codex" have no length in common, so no name is in two. */
  lemma AliasLengths(n: string)
    ensures IsClaudeAlias(n) ==> |n| == 6 || |n| == 10 || |n| == 11
    ensures IsOpencodeAlias(n) ==> |n| == 4 || |n| == 8 || |n| == 9
  {
  }

  /** Canonical names are fixed points of the alias table. */
  lemma NormalizeSourceNameIdempotent(source: string)
    ensures NormalizeSourceName(NormalizeSourceName(source)) == NormalizeSourceName(source)
  {
    var r := NormalizeSourceName(source);
    if r != source {
      CanonicalSourceFixed(r);
    }
  }

  lemma CanonicalSourceFixed(x: string)
    requires x == "claude" || x == "opencode" || x == "codex"
    ensures Lower(Trim(x)) == x
  {
    TrimOfTrimmed(x);
    LowerCanonicalNames();
  }

  /** `format_agent_display_name`: `"<source>: "` followed by the normalised agent name, else
      the normalised repository label, else the short session id. */
  function FormatAgentDisplayName(source: string, sessionId: string, agentName: Option<string>, repoPath: Option<string>): (r: string)
    ensures var prefix := NormalizeSourceName(source) + ": ";
      && |prefix| <= |r| <= |prefix| + MaxAgentNameChars + 3
      && r[..|prefix|] == prefix
    ensures agentName.Some? && NormalizedAgentName(agentName.value).Some? ==>
      r == NormalizeSourceName(source) + ": " + NormalizedAgentName(agentName.value).value
    // without a usable agent name, a repository label always gives a name
    ensures (agentName.None? || NormalizedAgentName(agentName.value).None?) &&
            repoPath.Some? && RepoLabel(repoPath.value).Some? ==>
      && NormalizedAgentName(RepoLabel(repoPath.value).value).Some?
      && r == NormalizeSourceName(source) + ": " + NormalizedAgentName(RepoLabel(repoPath.value).value).value
    ensures (agentName.None? || NormalizedAgentName(agentName.value).None?) &&
            (repoPath.None? || RepoLabel(repoPath.value).None?) ==>
      r == NormalizeSourceName(source) + ": " + ShortSession(sessionId)
  {
    var prefix := NormalizeSourceName(source) + ": ";
    var byName := if agentName.Some? then NormalizedAgentName(agentName.value) else None;
    var repoName := if repoPath.Some? then RepoLabel(repoPath.value) else None;
    var byRepo := if repoName.Some? then NormalizedAgentName(repoName.value) else None;
    if byName.Some? then prefix + byName.value
    else if byRepo.Some? then prefix + byRepo.value
    else prefix + ShortSession(sessionId)
  }
}
