/** The pure parts of lib/gemini.ts: the prompt-injection filter applied to a transcript, the
    code-fence stripping of the model's reply, the structural check of the parsed reply, and the
    translation of failures into the errors `analyzeTranscript` throws. */
module Gemini {
  import opened Wrappers
  import opened Strings
  import opened Json
  import opened Schemas

  // ---------------------------------------------------------------------------------------------
  // The regular expressions of `dangerousPatterns`

  /** `c` folded to lower case the way a non-Unicode case-insensitive JavaScript regular expression
      compares it with an ASCII pattern character: only `A`-`Z` change. */
  function AsciiLower(c: char): char {
    if 'A' <= c <= 'Z' then (c as int + 32) as char else c
  }

  predicate EqualsIgnoringCase(a: string, b: string) {
    |a| == |b| && forall i :: 0 <= i < |a| ==> AsciiLower(a[i]) == AsciiLower(b[i])
  }

  predicate SameText(a: string, b: string, ignoreCase: bool) {
    if ignoreCase then EqualsIgnoringCase(a, b) else a == b
  }

  /** The characters `.` does not match. */
  predicate IsLineTerminator(c: char) {
    c == '\n' || c == '\r' || c == '\U{2028}' || c == '\U{2029}'
  }

  /** A filter pattern. A regular expression built from literals, optional parts and alternations
      is the finite list of strings it matches, in the order backtracking tries them (an optional
      part is tried present first, alternatives left to right): at a position it matches the
      first of them found there. The two remaining expressions get constructors of their own. */
  datatype Pattern =
    | Literals(alts: seq<string>, ignoreCase: bool)
    | FenceJson     // /~~~\s*json/gi
    | SpecialToken  // /<\|.*?\|>/g

  /** The index of the first alternative, from `k` on, that `s` begins with. */
  function FirstLiteral(s: string, alts: seq<string>, ignoreCase: bool, k: nat): (r: Option<nat>)
    requires k <= |alts|
    ensures r.Some? ==>
      && k <= r.value < |alts| && |alts[r.value]| <= |s|
      && SameText(s[..|alts[r.value]|], alts[r.value], ignoreCase)
    ensures r.Some? ==> forall j :: k <= j < r.value ==>
      !(|alts[j]| <= |s| && SameText(s[..|alts[j]|], alts[j], ignoreCase))
    ensures r.None? ==> forall j :: k <= j < |alts| ==>
      !(|alts[j]| <= |s| && SameText(s[..|alts[j]|], alts[j], ignoreCase))
    decreases |alts| - k
  {
    if k == |alts| then None
    else if |alts[k]| <= |s| && SameText(s[..|alts[k]|], alts[k], ignoreCase) then Some(k)
    else FirstLiteral(s, alts, ignoreCase, k + 1)
  }

  /** The lazy `.*?\|>` after `<|`: the end of the first `|>` at or after `j`, provided no line
      terminator comes before it. */
  function CloseFrom(s: string, j: nat): (r: Option<nat>)
    requires j <= |s|
    ensures r.Some? ==> j + 2 <= r.value <= |s| && s[r.value - 2..r.value] == "|>"
    ensures r.Some? ==> forall m :: j <= m < r.value - 2 ==> !IsLineTerminator(s[m]) && s[m..m + 2] != "|>"
    decreases |s| - j
  {
    if j + 2 > |s| then None
    else if s[j..j + 2] == "|>" then Some(j + 2)
    else if IsLineTerminator(s[j]) then None
    else CloseFrom(s, j + 1)
  }

  /** The length of the match of `p` at the start of `s`, if there is one. */
  function MatchLength(s: string, p: Pattern): (r: Option<nat>)
    ensures r.Some? ==> r.value <= |s|
  {
    match p
    case Literals(alts, ignoreCase) =>
      (match FirstLiteral(s, alts, ignoreCase, 0)
       case Some(k) => Some(|alts[k]|)
       case None => None)
    case FenceJson =>
      if |s| >= 3 && s[..3] == "~~~" then
        var w := LeadingSpace(s[3..]);
        if 3 + w + 4 <= |s| && EqualsIgnoringCase(s[3 + w..3 + w + 4], "json") then Some(3 + w + 4) else None
      else None
    case SpecialToken =>
      if |s| >= 2 && s[..2] == "<|" then CloseFrom(s, 2) else None
  }

  /** `~~~`, whitespace and `json` (in any case) match, however much whitespace there is: the
      greedy `\s*` takes exactly the whitespace run. */
  lemma FenceJsonMatches(s: string, j: nat)
    requires 3 <= j && j + 4 <= |s| && s[..3] == "~~~"
    requires IsBlank(s[3..j]) && EqualsIgnoringCase(s[j..j + 4], "json")
    ensures MatchLength(s, FenceJson) == Some(j + 4)
  {
    var t := s[3..];
    assert t[..j - 3] == s[3..j];
    assert AsciiLower(s[j..j + 4][0]) == 'j';
    LeadingSpaceIs(t, j - 3);
  }

  /** A whitespace run of length `m` followed by something else is the leading space. */
  lemma {:induction false} LeadingSpaceIs(t: string, m: nat)
    requires m <= |t| && IsBlank(t[..m]) && (m < |t| ==> !IsJsWhitespace(t[m]))
    ensures LeadingSpace(t) == m
  {
    if m > 0 {
      assert t[0] == t[..m][0];
      assert t[1..][..m - 1] == t[1..m];
      LeadingSpaceIs(t[1..], m - 1);
    }
  }

  const Redacted := "[REDACTED]"

  /** `s.replace(p, '[REDACTED]')` for a global `p`: the scan goes left to right, every match is
      replaced and the scan resumes after it; an empty match is replaced too and the scan then
      moves past one character. */
  function ReplaceAll(s: string, p: Pattern): string
    decreases |s|
  {
    match MatchLength(s, p)
    case Some(n) =>
      if n > 0 then Redacted + ReplaceAll(s[n..], p)
      else if s == [] then Redacted
      else Redacted + ([s[0]] + ReplaceAll(s[1..], p))
    case None =>
      if s == [] then [] else [s[0]] + ReplaceAll(s[1..], p)
  }

  /** The loop over `dangerousPatterns`: each pattern in list order, on the previous one's output. */
  function ApplyAll(s: string, patterns: seq<Pattern>): string
    decreases |patterns|
  {
    if patterns == [] then s else ApplyAll(ReplaceAll(s, patterns[0]), patterns[1..])
  }

  /** `prefix + y` for every `y` of `ys`, in order. */
  function Prefixed(prefix: string, ys: seq<string>): (r: seq<string>)
    ensures |r| == |ys| && forall i :: 0 <= i < |ys| ==> r[i] == prefix + ys[i]
  {
    if ys == [] then [] else [prefix + ys[0]] + Prefixed(prefix, ys[1..])
  }

  /** `(x1|x2|...)(y1|y2|...)` as a list of literals, in backtracking order. */
  function Then(xs: seq<string>, ys: seq<string>): (r: seq<string>)
    ensures |r| == |xs| * |ys|
  {
    if xs == [] then [] else Prefixed(xs[0], ys) + Then(xs[1..], ys)
  }

  const Earlier := ["previous", "above", "earlier"]
  const AllOpt := ["all ", ""]

  /** The thirteen patterns of `dangerousPatterns`, in order. */
  const DangerousPatterns: seq<Pattern> := [
    Literals(Then(Then(Then(["ignore "], AllOpt), Earlier), [" instructions", " prompts", " rules"]), true),
    Literals(Then(Then(["disregard "], AllOpt), Earlier), true),
    Literals(Then(Then(["forget "], AllOpt), Earlier), true),
    Literals(["you are now", "you are no"], true),
    Literals(["new instructions:", "new instruction:"], true),
    Literals(["system:", "system"], true),
    Literals(["assistant:", "assistant"], true),
    Literals(["[system]"], true),
    Literals(["[assistant]"], true),
    Literals(["[user]"], true),
    BacktickFence,
    FenceJson,
    SpecialToken
  ]

  /** The list has the source's thirteen expressions in order. The first ten and `~~~\s*json` carry
      the `i` flag; the fence and the special-token expression do not. */
  lemma DangerousPatternsShape()
    ensures |DangerousPatterns| == 13
    ensures forall k :: 0 <= k < 10 ==> DangerousPatterns[k].Literals? && DangerousPatterns[k].ignoreCase
    ensures DangerousPatterns[10] == BacktickFence && !BacktickFence.ignoreCase
    ensures DangerousPatterns[11] == FenceJson && DangerousPatterns[12] == SpecialToken
  {
  }

  /** The first expression expands to eighteen strings, and backtracking tries `all ` before its
      absence, so the first string it tries is `ignore all previous instructions`. */
  lemma IgnorePatternExpansion()
    ensures |DangerousPatterns[0].alts| == 18
    ensures DangerousPatterns[0].alts[0] == "ignore " + "all " + "previous" + " instructions"
  {
    var q := Then(["ignore "], AllOpt);
    var p := Then(q, Earlier);
    var suffixes := [" instructions", " prompts", " rules"];
    ThenHead(["ignore "], AllOpt);
    ThenHead(q, Earlier);
    ThenHead(p, suffixes);
  }

  /** The first string of `(x1|...)(y1|...)` is `x1` followed by `y1`. */
  lemma ThenHead(xs: seq<string>, ys: seq<string>)
    requires |xs| > 0 && |ys| > 0
    ensures Then(xs, ys)[0] == xs[0] + ys[0]
  {
    assert Then(xs, ys) == Prefixed(xs[0], ys) + Then(xs[1..], ys);
  }

  /** /```/g */
  const BacktickFence := Literals(["```"], false)

  const MaxLength := 60000

  /** The length limit: longer text keeps its first 60000 characters and gets `...`. */
  function Truncate(s: string): (r: string)
    ensures |r| <= MaxLength + 3
    ensures |s| <= MaxLength ==> r == s
    ensures |s| > MaxLength ==> |r| == MaxLength + 3 && r[..MaxLength] == s[..MaxLength] && r[MaxLength..] == "..."
  {
    if |s| > MaxLength then s[..MaxLength] + "..." else s
  }

  /** Truncating twice is truncating once. */
  lemma TruncateIdempotent(s: string)
    ensures Truncate(Truncate(s)) == Truncate(s)
  {
    if |s| > MaxLength {
      var r := Truncate(s);
      assert r[..MaxLength] + "..." == r;
    }
  }

  /** What `sanitizeTranscript` returns. */
  function Sanitized(transcript: string): string {
    Truncate(ApplyAll(transcript, DangerousPatterns))
  }

  // ---------------------------------------------------------------------------------------------
  // No code fence survives

  /** A code fence ```` ``` ```` starts at `i`. */
  predicate FenceAt(s: string, i: int) {
    0 <= i && i + 3 <= |s| && s[i] == '`' && s[i + 1] == '`' && s[i + 2] == '`'
  }

  predicate NoFence(s: string) {
    forall i :: 0 <= i < |s| ==> !FenceAt(s, i)
  }

  /** A replacement output that begins with a backtick kept the first character of its input. */
  lemma KeptHead(t: string, p: Pattern)
    requires |ReplaceAll(t, p)| > 0 && ReplaceAll(t, p)[0] == '`'
    ensures t != [] && t[0] == '`' && MatchLength(t, p).None?
    ensures ReplaceAll(t, p) == [t[0]] + ReplaceAll(t[1..], p)
  {
    assert Redacted[0] == '[';
  }

  /** Keeping a first character that does not begin a fence, in front of fence-free output,
      creates no fence. */
  lemma KeptNoFence(s: string, p: Pattern)
    requires s != [] && !FenceAt(s, 0) && NoFence(ReplaceAll(s[1..], p))
    ensures NoFence([s[0]] + ReplaceAll(s[1..], p))
  {
    var r1 := ReplaceAll(s[1..], p);
    var r := [s[0]] + r1;
    forall i ensures !FenceAt(r, i) {
      if i == 0 && FenceAt(r, 0) {
        KeptHead(s[1..], p);
        assert s[1..][1..] == s[2..];
        var r2 := ReplaceAll(s[2..], p);
        assert r1 == [s[1]] + r2;
        KeptHead(s[2..], p);
        assert FenceAt(s, 0);
      } else if i > 0 && FenceAt(r, i) {
        assert FenceAt(r1, i - 1);
      }
    }
  }

  /** `[REDACTED]` contains no backtick, so it neither holds nor completes a fence. */
  lemma RedactedNoFence(x: string)
    requires NoFence(x)
    ensures NoFence(Redacted + x)
  {
    var r := Redacted + x;
    forall i | 0 <= i < |r| ensures !FenceAt(r, i) {
      if i >= |Redacted| {
        assert FenceAt(r, i) ==> FenceAt(x, i - |Redacted|);
      }
    }
  }

  lemma SuffixNoFence(s: string, n: nat)
    requires n <= |s| && NoFence(s)
    ensures NoFence(s[n..])
  {
    forall i | 0 <= i < |s[n..]| ensures !FenceAt(s[n..], i) {
      assert FenceAt(s[n..], i) ==> FenceAt(s, n + i);
    }
  }

  /** A fence at the start is matched by the backtick pattern. */
  lemma BacktickMatchesFence(s: string)
    requires FenceAt(s, 0)
    ensures MatchLength(s, BacktickFence) == Some(3)
  {
    assert s[..3] == "```";
  }

  /** Replacement never creates a fence, and the backtick pattern removes every fence. */
  lemma {:induction false} ReplaceAllNoFence(s: string, p: Pattern)
    requires NoFence(s) || p == BacktickFence
    ensures NoFence(ReplaceAll(s, p))
    decreases |s|
  {
    if FenceAt(s, 0) {
      BacktickMatchesFence(s);
    }
    match MatchLength(s, p)
    case Some(n) =>
      if n > 0 {
        if NoFence(s) { SuffixNoFence(s, n); }
        ReplaceAllNoFence(s[n..], p);
        RedactedNoFence(ReplaceAll(s[n..], p));
      } else if s == [] {
        RedactedNoFence([]);
      } else {
        if NoFence(s) { SuffixNoFence(s, 1); }
        ReplaceAllNoFence(s[1..], p);
        KeptNoFence(s, p);
        RedactedNoFence([s[0]] + ReplaceAll(s[1..], p));
      }
    case None =>
      if s != [] {
        if NoFence(s) { SuffixNoFence(s, 1); }
        ReplaceAllNoFence(s[1..], p);
        KeptNoFence(s, p);
      }
  }

  /** After a list of patterns containing the backtick pattern, no fence is left. */
  lemma {:induction false} ApplyAllNoFence(s: string, patterns: seq<Pattern>)
    requires NoFence(s) || BacktickFence in patterns
    ensures NoFence(ApplyAll(s, patterns))
    decreases |patterns|
  {
    if patterns != [] {
      var r := ReplaceAll(s, patterns[0]);
      if NoFence(s) || patterns[0] == BacktickFence {
        ReplaceAllNoFence(s, patterns[0]);
      } else {
        assert BacktickFence in patterns[1..];
      }
      ApplyAllNoFence(r, patterns[1..]);
    }
  }

  lemma TruncateNoFence(s: string)
    requires NoFence(s)
    ensures NoFence(Truncate(s))
  {
    if |s| > MaxLength {
      var r := Truncate(s);
      forall i | 0 <= i < |r| ensures !FenceAt(r, i) {
        if i + 3 <= MaxLength {
          assert FenceAt(r, i) ==> FenceAt(s, i);
        }
      }
    }
  }

  /** `sanitizeTranscript` output contains no code fence. */
  lemma SanitizedNoFence(transcript: string)
    ensures NoFence(Sanitized(transcript))
  {
    assert DangerousPatterns[10] == BacktickFence;
    ApplyAllNoFence(transcript, DangerousPatterns);
    TruncateNoFence(ApplyAll(transcript, DangerousPatterns));
  }

  // ---------------------------------------------------------------------------------------------
  // Text without a match passes through

  /** No match of `p` starts anywhere in `s`. */
  predicate Clean(s: string, p: Pattern) {
    forall i :: 0 <= i <= |s| ==> MatchLength(s[i..], p).None?
  }

  lemma {:induction false} ReplaceAllClean(s: string, p: Pattern)
    requires Clean(s, p)
    ensures ReplaceAll(s, p) == s
    decreases |s|
  {
    assert s[0..] == s;
    if s != [] {
      forall i | 0 <= i <= |s[1..]| ensures MatchLength(s[1..][i..], p).None? {
        assert s[1..][i..] == s[i + 1..];
      }
      ReplaceAllClean(s[1..], p);
    }
  }

  lemma {:induction false} ApplyAllClean(s: string, patterns: seq<Pattern>)
    requires forall k :: 0 <= k < |patterns| ==> Clean(s, patterns[k])
    ensures ApplyAll(s, patterns) == s
    decreases |patterns|
  {
    if patterns != [] {
      ReplaceAllClean(s, patterns[0]);
      ApplyAllClean(s, patterns[1..]);
    }
  }

  /** One step of the scan, at a match and at a position without one. */
  lemma ReplaceAllHit(s: string, p: Pattern, n: nat)
    requires MatchLength(s, p) == Some(n) && n > 0
    ensures ReplaceAll(s, p) == Redacted + ReplaceAll(s[n..], p)
  {
  }

  lemma ReplaceAllMiss(s: string, p: Pattern)
    requires MatchLength(s, p).None? && s != []
    ensures ReplaceAll(s, p) == [s[0]] + ReplaceAll(s[1..], p)
  {
  }

  /** No match of `p` starts before position `i` of `s`. */
  predicate NoMatchBefore(s: string, p: Pattern, i: nat)
    requires i <= |s|
  {
    forall k {:trigger MatchLength(s[k..], p)} :: 0 <= k < i ==> MatchLength(s[k..], p).None?
  }

  /** Text before the first match is kept as it is. */
  lemma {:induction false} ReplaceAllKeepsPrefix(s: string, p: Pattern, i: nat)
    requires i <= |s| && NoMatchBefore(s, p, i)
    ensures ReplaceAll(s, p) == s[..i] + ReplaceAll(s[i..], p)
    decreases i
  {
    if i == 0 {
      assert s[..0] + ReplaceAll(s[0..], p) == ReplaceAll(s, p) by {
        assert s[0..] == s;
      }
    } else {
      var t := s[1..];
      assert MatchLength(s[0..], p).None?;
      assert s[0..] == s;
      NoMatchBeforeTail(s, p, i);
      calc {
        ReplaceAll(s, p);
        { ReplaceAllMiss(s, p); }
        [s[0]] + ReplaceAll(t, p);
        { ReplaceAllKeepsPrefix(t, p, i - 1); }
        [s[0]] + (t[..i - 1] + ReplaceAll(t[i - 1..], p));
        { assert t[i - 1..] == s[i..]; }
        [s[0]] + (t[..i - 1] + ReplaceAll(s[i..], p));
        { assert [s[0]] + t[..i - 1] == s[..i]; }
        s[..i] + ReplaceAll(s[i..], p);
      }
    }
  }

  /** The leftmost match is the first one replaced: the text before it is kept as it is, the
      match becomes `[REDACTED]`, and the scan resumes right after it. */
  lemma ReplaceAllLeftmost(s: string, p: Pattern, i: nat, n: nat)
    requires i <= |s| && n > 0
    requires NoMatchBefore(s, p, i) && MatchLength(s[i..], p) == Some(n)
    ensures i + n <= |s|
    ensures ReplaceAll(s, p) == s[..i] + Redacted + ReplaceAll(s[i + n..], p)
  {
    ReplaceAllKeepsPrefix(s, p, i);
    ReplaceAllHit(s[i..], p, n);
    assert s[i..][n..] == s[i + n..];
  }

  lemma NoMatchBeforeTail(s: string, p: Pattern, i: nat)
    requires 0 < i <= |s| && NoMatchBefore(s, p, i)
    ensures NoMatchBefore(s[1..], p, i - 1)
  {
    forall k | 0 <= k < i - 1 ensures MatchLength(s[1..][k..], p).None? {
      assert s[1..][k..] == s[k + 1..];
    }
  }

  /** A transcript of at most 60000 characters in which no pattern matches is sent as it is. */
  lemma CleanTranscriptUnchanged(transcript: string)
    requires |transcript| <= MaxLength
    requires forall k :: 0 <= k < |DangerousPatterns| ==> Clean(transcript, DangerousPatterns[k])
    ensures Sanitized(transcript) == transcript
  {
    ApplyAllClean(transcript, DangerousPatterns);
  }

  /** `sanitizeTranscript`: the patterns applied one after another to the running text, then the
      length limit. */
  method SanitizeTranscript(transcript: string) returns (sanitized: string)
    ensures sanitized == Sanitized(transcript)
    ensures |sanitized| <= MaxLength + 3
    ensures NoFence(sanitized)
  {
    sanitized := transcript;
    var i := 0;
    while i < |DangerousPatterns|
      invariant 0 <= i <= |DangerousPatterns|
      invariant ApplyAll(sanitized, DangerousPatterns[i..]) == ApplyAll(transcript, DangerousPatterns)
    {
      assert DangerousPatterns[i..][1..] == DangerousPatterns[i + 1..];
      sanitized := ReplaceAll(sanitized, DangerousPatterns[i]);
      i := i + 1;
    }
    assert DangerousPatterns[i..] == [];
    if |sanitized| > MaxLength {
      sanitized := sanitized[..MaxLength] + "...";
    }
    SanitizedNoFence(transcript);
  }

  // ---------------------------------------------------------------------------------------------
  // Fence stripping of the reply

  /** `s.slice(start, -dropLast)`: from `start` to `dropLast` characters before the end, empty when
      those cross. */
  function SliceDropLast(s: string, start: nat, dropLast: nat): (r: string)
    ensures start + dropLast <= |s| ==> r == s[start..|s| - dropLast]
    ensures start + dropLast >= |s| ==> r == []
  {
    var e := if |s| >= dropLast then |s| - dropLast else 0;
    if start >= e then [] else s[start..e]
  }

  /** The clean-up of the reply before `JSON.parse`. */
  function StripFences(responseText: string): (r: string)
    ensures IsTrimmed(r)
  {
    var clean := Trim(responseText);
    if StartsWith(clean, "```json") then Trim(SliceDropLast(clean, 7, 3))
    else if StartsWith(clean, "```") then Trim(SliceDropLast(clean, 3, 3))
    else clean
  }

  /** A reply wrapped in a ```` ```json ```` fence yields the trimmed text inside it. */
  lemma JsonFenceStripped(body: string)
    ensures StripFences("```json" + body + "```") == Trim(body)
  {
    var s := "```json" + body + "```";
    assert s[0] == '`' && s[|s| - 1] == '`';
    TrimTrimmed(s);
    assert s[..7] == "```json";
    assert s[7..|s| - 3] == body;
  }

  /** A reply that opens with ```` ```json ```` but has no closing fence still loses its last
      three characters, so what is parsed is never the body the model wrote. */
  lemma UnclosedJsonFence(body: string)
    requires body != [] && IsTrimmed(body)
    ensures |body| >= 3 ==> StripFences("```json" + body) == Trim(body[..|body| - 3])
    ensures |body| < 3 ==> StripFences("```json" + body) == ""
    ensures |StripFences("```json" + body)| + 3 <= |body| || StripFences("```json" + body) == ""
    ensures StripFences("```json" + body) != body
  {
    var s := "```json" + body;
    assert s[0] == '`' && s[|s| - 1] == body[|body| - 1];
    TrimTrimmed(s);
    assert s[..7] == "```json";
    if |body| >= 3 {
      assert s[7..|s| - 3] == body[..|body| - 3];
    }
  }

  /** A reply that begins with ```` ```json ```` begins with ```` ``` ````. */
  lemma JsonFenceIsFence(s: string)
    ensures StartsWith(s, "```json") ==> StartsWith(s, "```")
  {
    if StartsWith(s, "```json") {
      assert s[..3] == s[..7][..3];
    }
  }

  /** A body wrapped in a bare fence begins with ```` ```json ```` only when the body begins with
      `json`. */
  lemma BareFenceNotJson(body: string)
    requires !StartsWith(body, "json")
    ensures !StartsWith("```" + body + "```", "```json")
  {
    var s := "```" + body + "```";
    if |body| >= 4 {
      assert body[..4] != "json";
      var d :| 0 <= d < 4 && body[d] != "json"[d];
      assert s[3 + d] == body[d];
    } else if |body| > 0 {
      assert s[3 + |body|] == '`';
    }
  }

  /** A reply wrapped in a bare fence yields the trimmed text inside it, unless that text begins
      with `json`. */
  lemma BareFenceStripped(body: string)
    requires !StartsWith(body, "json")
    ensures StripFences("```" + body + "```") == Trim(body)
  {
    var s := "```" + body + "```";
    assert s[0] == '`' && s[|s| - 1] == '`';
    TrimTrimmed(s);
    assert s[..3] == "```";
    BareFenceNotJson(body);
    assert s[3..|s| - 3] == body;
  }

  /** A reply without a fence is only trimmed. */
  lemma UnfencedReplyTrimmed(responseText: string)
    requires !StartsWith(Trim(responseText), "```")
    ensures StripFences(responseText) == Trim(responseText)
  {
    JsonFenceIsFence(Trim(responseText));
  }

  // ---------------------------------------------------------------------------------------------
  // isValidAnalysisResult

  /** A summary item as `isValidAnalysisResult` accepts it. */
  predicate IsShapedItem(v: Value) {
    !Falsy(v) && IsObjectLike(v) && Field(v, "emoji").Str? && Field(v, "text").Str?
  }

  /** What `isValidAnalysisResult` checks: an object with a known verdict, string label and
      description, and an array summary of objects with string `emoji` and `text`; empty strings
      and any summary length pass. */
  predicate ValidAnalysisShape(data: Value) {
    var summary := Field(data, "summary");
    && !Falsy(data) && IsObjectLike(data)
    && Field(data, "verdict").Str? && ParseVerdict(Field(data, "verdict").s).Some?
    && Field(data, "verdictLabel").Str?
    && Field(data, "verdictDescription").Str?
    && summary.Arr?
    && forall i :: 0 <= i < |summary.items| ==> IsShapedItem(summary.items[i])
  }

  /** `isValidAnalysisResult`, check by check with early returns. */
  method IsValidAnalysisResult(data: Value) returns (ok: bool)
    ensures ok == ValidAnalysisShape(data)
  {
    if Falsy(data) || !IsObjectLike(data) {
      return false;
    }
    var verdict := Field(data, "verdict");
    if !verdict.Str? || verdict.s !in VerdictNames {
      VerdictNameRoundTrip(MustWatch, if verdict.Str? then verdict.s else "");
      return false;
    }
    VerdictNameRoundTrip(MustWatch, verdict.s);
    if !Field(data, "verdictLabel").Str? {
      return false;
    }
    if !Field(data, "verdictDescription").Str? {
      return false;
    }
    var summary := Field(data, "summary");
    if !summary.Arr? {
      return false;
    }
    var i := 0;
    while i < |summary.items|
      invariant 0 <= i <= |summary.items|
      invariant forall j :: 0 <= j < i ==> IsShapedItem(summary.items[j])
    {
      var item := summary.items[i];
      if Falsy(item) || !IsObjectLike(item) {
        return false;
      }
      if !Field(item, "emoji").Str? || !Field(item, "text").Str? {
        return false;
      }
      i := i + 1;
    }
    return true;
  }

  /** What the response schema accepts passes the structural check; the converse fails, since
      the structural check lets empty strings and summaries of any length through. */
  lemma SchemaImpliesShape(data: Value)
    ensures AcceptsAiResponse(data) ==> ValidAnalysisShape(data)
  {
  }

  lemma ShapeWeakerThanSchema(data: Value)
    requires ValidAnalysisShape(data) && data.Obj?
    requires Field(data, "verdictLabel") == Str("") || Field(data, "summary") == Arr([])
    ensures !AcceptsAiResponse(data)
  {
  }

  /** The typed result of a checked reply. */
  function Decode(data: Value): (r: AiResponse)
    requires ValidAnalysisShape(data)
    ensures Str(VerdictName(r.verdict)) == Field(data, "verdict")
    ensures Str(r.verdictLabel) == Field(data, "verdictLabel")
    ensures Str(r.verdictDescription) == Field(data, "verdictDescription")
    ensures |r.summary| == |Field(data, "summary").items|
    ensures forall i :: 0 <= i < |r.summary| ==>
      Str(r.summary[i].emoji) == Field(Field(data, "summary").items[i], "emoji")
      && Str(r.summary[i].text) == Field(Field(data, "summary").items[i], "text")
  {
    var verdict := ParseVerdict(Field(data, "verdict").s).value;
    VerdictNameRoundTrip(verdict, Field(data, "verdict").s);
    AiResponse(verdict, Field(data, "verdictLabel").s, Field(data, "verdictDescription").s,
               DecodeShapedItems(Field(data, "summary").items))
  }

  function DecodeShapedItems(items: seq<Value>): (r: seq<SummaryItem>)
    requires forall i :: 0 <= i < |items| ==> IsShapedItem(items[i])
    ensures |r| == |items|
    ensures forall i :: 0 <= i < |items| ==>
      Str(r[i].emoji) == Field(items[i], "emoji") && Str(r[i].text) == Field(items[i], "text")
  {
    if items == [] then [] else [DecodeShapedItem(items[0])] + DecodeShapedItems(items[1..])
  }

  function DecodeShapedItem(v: Value): (item: SummaryItem)
    requires IsShapedItem(v)
    ensures Str(item.emoji) == Field(v, "emoji") && Str(item.text) == Field(v, "text")
  {
    SummaryItem(Field(v, "emoji").s, Field(v, "text").s)
  }

  // ---------------------------------------------------------------------------------------------
  // analyzeTranscript

  const MissingApiKey := "GOOGLE_GENERATIVE_AI_API_KEY" + " is not configured"
  const ParseError := "AI_RESPONSE_PARSE_ERROR"
  const InvalidStructure := "Invalid AI response structure"

  /** `analyzeTranscript` over the model call's outcome: `apiKey` is the environment variable,
      `generate` answers the prompt built from the sanitised transcript (or fails with a message),
      `parse` is `JSON.parse` (`None` for a syntax error). */
  function AnalyzeTranscript(transcript: string, apiKey: Option<string>,
                             generate: string -> Result<string>, parse: string -> Option<Value>): (r: Result<AiResponse>)
    ensures apiKey.None? || apiKey == Some("") ==> r == Err(MissingApiKey)
    ensures r.Ok? <==>
      && apiKey.Some? && apiKey.value != ""
      && generate(Sanitized(transcript)).Ok?
      && parse(StripFences(generate(Sanitized(transcript)).value)).Some?
      && ValidAnalysisShape(parse(StripFences(generate(Sanitized(transcript)).value)).value)
    ensures r.Ok? ==> r.value == Decode(parse(StripFences(generate(Sanitized(transcript)).value)).value)
    ensures r.Err? && apiKey.Some? && apiKey.value != "" ==>
      if generate(Sanitized(transcript)).Err? then r.message == generate(Sanitized(transcript)).message
      else if parse(StripFences(generate(Sanitized(transcript)).value)).None? then r.message == ParseError
      else r.message == InvalidStructure
  {
    if apiKey.None? || apiKey.value == "" then Err(MissingApiKey)
    else
      match generate(Sanitized(transcript))
      case Err(m) => Err(m)
      case Ok(responseText) =>
        match parse(StripFences(responseText))
        case None => Err(ParseError)
        case Some(parsed) =>
          if !ValidAnalysisShape(parsed) then Err(InvalidStructure) else Ok(Decode(parsed))
  }
}
