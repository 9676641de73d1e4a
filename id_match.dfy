/** The JavaScript regular expressions of the video-id extractors, all of the shape
    `(?:p1|p2|...)([a-zA-Z0-9_-]{11})`, unanchored and case-sensitive, as `String.prototype.match`
    evaluates them: the leftmost start position wins, and at that position the first alternative
    (in the order written) that is followed by eleven id characters. */
module IdMatch {
  import opened Wrappers

  const IdLength := 11

  /** `[a-zA-Z0-9_-]` */
  predicate IsIdChar(c: char) {
    ('a' <= c <= 'z') || ('A' <= c <= 'Z') || ('0' <= c <= '9') || c == '_' || c == '-'
  }

  /** Exactly eleven id characters. */
  predicate IsVideoId(s: string) {
    |s| == IdLength && forall i :: 0 <= i < |s| ==> IsIdChar(s[i])
  }

  /** Alternative `p` matches at position `i` of `s`: `p` literally, then eleven id characters. */
  predicate MatchesAt(s: string, i: int, p: string) {
    0 <= i && i + |p| + IdLength <= |s| && s[i..i + |p|] == p && IsVideoId(s[i + |p|..i + |p| + IdLength])
  }

  /** The capture group of a match of `p` at `i`. */
  function Capture(s: string, i: int, p: string): (id: string)
    requires MatchesAt(s, i, p)
    ensures IsVideoId(id)
  {
    s[i + |p|..i + |p| + IdLength]
  }

  /** The index of the first alternative, from `k` on, that matches at `i`. */
  function FirstAltAt(s: string, i: int, alts: seq<string>, k: nat): (r: Option<nat>)
    requires k <= |alts|
    ensures r.Some? ==> k <= r.value < |alts| && MatchesAt(s, i, alts[r.value])
    ensures r.Some? ==> forall j :: k <= j < r.value ==> !MatchesAt(s, i, alts[j])
    ensures r.None? ==> forall j :: k <= j < |alts| ==> !MatchesAt(s, i, alts[j])
    decreases |alts| - k
  {
    if k == |alts| then None
    else if MatchesAt(s, i, alts[k]) then Some(k)
    else FirstAltAt(s, i, alts, k + 1)
  }

  /** No alternative matches at position `i`. */
  ghost predicate NoMatchAt(s: string, alts: seq<string>, i: int) {
    forall k :: 0 <= k < |alts| ==> !MatchesAt(s, i, alts[k])
  }

  /** No alternative matches at any position from `i` on. */
  ghost predicate NoMatchFrom(s: string, alts: seq<string>, i: int) {
    forall j :: i <= j <= |s| ==> NoMatchAt(s, alts, j)
  }

  /** The scan of `s.match(regex)` from position `i` on. */
  function SearchFrom(s: string, alts: seq<string>, i: nat): (r: Option<string>)
    requires i <= |s|
    ensures r.Some? ==> IsVideoId(r.value)
    decreases |s| - i
  {
    match FirstAltAt(s, i, alts, 0)
    case Some(k) => Some(Capture(s, i, alts[k]))
    case None => if i == |s| then None else SearchFrom(s, alts, i + 1)
  }

  /** The capture group of `s.match(regex)`, or `None` when there is no match. */
  function Search(s: string, alts: seq<string>): (r: Option<string>)
    ensures r.Some? ==> IsVideoId(r.value)
  {
    SearchFrom(s, alts, 0)
  }

  /** Where nothing matches at `i`, the scan moves on to `i + 1`. */
  lemma SearchFromNext(s: string, alts: seq<string>, i: nat)
    requires i < |s| && NoMatchAt(s, alts, i)
    ensures SearchFrom(s, alts, i) == SearchFrom(s, alts, i + 1)
  {
    assert FirstAltAt(s, i, alts, 0).None?;
  }

  /** The scan finds nothing exactly when no alternative matches anywhere from `i` on. */
  lemma {:induction false} SearchFromNone(s: string, alts: seq<string>, i: nat)
    requires i <= |s|
    ensures SearchFrom(s, alts, i).None? <==> NoMatchFrom(s, alts, i)
    decreases |s| - i
  {
    var first := FirstAltAt(s, i, alts, 0);
    if first.Some? {
      assert !NoMatchAt(s, alts, i);
    } else {
      assert NoMatchAt(s, alts, i);
      if i < |s| {
        SearchFromNone(s, alts, i + 1);
        assert NoMatchFrom(s, alts, i) <==> NoMatchFrom(s, alts, i + 1);
      }
    }
  }

  /** `Search` finds nothing exactly when no alternative matches anywhere in `s`. */
  lemma SearchNone(s: string, alts: seq<string>)
    ensures Search(s, alts).None? <==> NoMatchFrom(s, alts, 0)
  {
    SearchFromNone(s, alts, 0);
  }

  /** The match the regular-expression engine reports: alternative `k` at position `i`, where no
      alternative matches further left and no earlier alternative matches at `i`. */
  ghost predicate IsLeftmostMatch(s: string, alts: seq<string>, i: int, k: int) {
    && 0 <= i <= |s| && 0 <= k < |alts|
    && MatchesAt(s, i, alts[k])
    && (forall j :: 0 <= j < k ==> !MatchesAt(s, i, alts[j]))
    && (forall i' :: 0 <= i' < i ==> NoMatchAt(s, alts, i'))
  }

  lemma {:induction false} SearchFromFinds(s: string, alts: seq<string>, from: nat, i: int, k: int)
    requires from <= i
    requires IsLeftmostMatch(s, alts, i, k)
    ensures SearchFrom(s, alts, from) == Some(Capture(s, i, alts[k]))
    decreases i - from
  {
    if from < i {
      SearchFromNext(s, alts, from);
      SearchFromFinds(s, alts, from + 1, i, k);
    } else {
      var r := FirstAltAt(s, i, alts, 0);
      assert r == Some(k) by {
        if r.Some? {
          if r.value < k { assert false; }
          if r.value > k { assert false; }
        }
      }
    }
  }

  lemma {:induction false} SearchFromLeftmost(s: string, alts: seq<string>, from: nat) returns (i: int, k: int)
    requires from <= |s|
    requires SearchFrom(s, alts, from).Some?
    requires forall i' :: 0 <= i' < from ==> NoMatchAt(s, alts, i')
    ensures IsLeftmostMatch(s, alts, i, k) && SearchFrom(s, alts, from) == Some(Capture(s, i, alts[k]))
    decreases |s| - from
  {
    var first := FirstAltAt(s, from, alts, 0);
    if first.Some? {
      i, k := from, first.value;
    } else {
      assert from < |s|;
      assert NoMatchAt(s, alts, from);
      SearchFromNext(s, alts, from);
      i, k := SearchFromLeftmost(s, alts, from + 1);
    }
  }

  /** `Search` is the regular-expression engine's answer: it returns `id` exactly when some
      leftmost match (in the engine's sense) captures `id`. */
  lemma SearchIsLeftmostMatch(s: string, alts: seq<string>, id: string)
    ensures Search(s, alts) == Some(id) <==>
      exists i, k :: IsLeftmostMatch(s, alts, i, k) && id == Capture(s, i, alts[k])
  {
    if Search(s, alts) == Some(id) {
      var i, k := SearchFromLeftmost(s, alts, 0);
    }
    if exists i, k :: IsLeftmostMatch(s, alts, i, k) && id == Capture(s, i, alts[k]) {
      var i, k :| IsLeftmostMatch(s, alts, i, k) && id == Capture(s, i, alts[k]);
      SearchFromFinds(s, alts, 0, i, k);
    }
  }

  /** Alternative `k` matching at `i`, no earlier one matching there: the scan from `i` reports
      alternative `k`'s capture. */
  lemma FoundAt(s: string, alts: seq<string>, i: nat, k: nat)
    requires i <= |s| && k < |alts| && MatchesAt(s, i, alts[k])
    requires forall j :: 0 <= j < k ==> !MatchesAt(s, i, alts[j])
    ensures SearchFrom(s, alts, i) == Some(Capture(s, i, alts[k]))
  {
    var r := FirstAltAt(s, i, alts, 0);
    assert r == Some(k) by {
      if r.Some? {
        if r.value < k { assert false; }
        if r.value > k { assert false; }
      }
    }
  }

  /** Positions where no alternative can even begin (their character is not the first character
      of any alternative) can be skipped by the scan. */
  lemma {:induction false} SkipNonStarts(s: string, alts: seq<string>, i: nat, j: nat)
    requires i <= j <= |s|
    requires forall k :: 0 <= k < |alts| ==> |alts[k]| > 0
    requires forall p, k :: i <= p < j && 0 <= k < |alts| ==> s[p] != alts[k][0]
    ensures SearchFrom(s, alts, i) == SearchFrom(s, alts, j)
    decreases j - i
  {
    if i < j {
      forall k | 0 <= k < |alts| ensures !MatchesAt(s, i, alts[k]) {
        if i + |alts[k]| <= |s| {
          assert s[i..i + |alts[k]|][0] == s[i];
        }
      }
      SearchFromNext(s, alts, i);
      SkipNonStarts(s, alts, i + 1, j);
    }
  }

  /** The index of the first pattern of a cascade, from `k` on, that matches. */
  function FirstHit(s: string, patterns: seq<seq<string>>, k: nat): (m: Option<nat>)
    requires k <= |patterns|
    ensures m.Some? ==> k <= m.value < |patterns| && Search(s, patterns[m.value]).Some?
    ensures m.Some? ==> forall j :: k <= j < m.value ==> Search(s, patterns[j]).None?
    ensures m.None? ==> forall j :: k <= j < |patterns| ==> Search(s, patterns[j]).None?
    decreases |patterns| - k
  {
    if k == |patterns| then None
    else if Search(s, patterns[k]).Some? then Some(k)
    else FirstHit(s, patterns, k + 1)
  }

  /** The capture of the first matching pattern of a cascade: the `for ... of` loop with an early
      return over a list of regular expressions. */
  function FirstPattern(s: string, patterns: seq<seq<string>>): (r: Option<string>)
    ensures r.Some? ==> IsVideoId(r.value)
    ensures r.Some? <==> exists m :: 0 <= m < |patterns| && Search(s, patterns[m]).Some?
  {
    match FirstHit(s, patterns, 0)
    case Some(m) => Search(s, patterns[m])
    case None => None
  }

  /** The cascade answers with pattern `m` when it is the first that finds something. */
  lemma CascadePicks(s: string, patterns: seq<seq<string>>, m: nat)
    requires m < |patterns| && Search(s, patterns[m]).Some?
    requires forall j :: 0 <= j < m ==> Search(s, patterns[j]).None?
    ensures FirstPattern(s, patterns) == Search(s, patterns[m])
  {
    var h := FirstHit(s, patterns, 0);
    assert h == Some(m) by {
      if h.Some? {
        if h.value < m { assert false; }
        if h.value > m { assert false; }
      }
    }
  }
}
