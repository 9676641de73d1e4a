/** YouTube URL utilities of lib/validators.ts. */
module Validators {
  import opened Wrappers
  import opened Json
  import opened IdMatch

  const WatchPrefix := "youtube.com/watch?v="
  const ShortLinkPrefix := "youtu.be/"
  const EmbedPrefix := "youtube.com/embed/"
  const ShortsPrefix := "youtube.com/shorts/"
  const LivePrefix := "youtube.com/live/"

  /** `YOUTUBE_REGEX_PATTERNS`, in order: watch / short link / embed, then shorts, then live. */
  const YouTubePatterns: seq<seq<string>> := [[WatchPrefix, ShortLinkPrefix, EmbedPrefix], [ShortsPrefix], [LivePrefix]]

  /** The five link shapes the patterns recognise, in no particular order. */
  const AllPrefixes: seq<string> := [WatchPrefix, ShortLinkPrefix, EmbedPrefix, ShortsPrefix, LivePrefix]

  /** `isValidVideoId`: `/^[a-zA-Z0-9_-]{11}$/.test(videoId)`. */
  predicate IsValidVideoId(videoId: string) {
    IsVideoId(videoId)
  }

  /** `extractVideoId` on a string: `null` for the empty string, otherwise the capture of the first
      pattern that matches. */
  function ExtractVideoId(url: string): (r: Option<string>)
    ensures r.Some? ==> IsValidVideoId(r.value)
    ensures url == "" ==> r == None
  {
    if url == "" then None else FirstPattern(url, YouTubePatterns)
  }

  /** `extractVideoId` applied to an arbitrary JavaScript value: anything but a string gives `null`. */
  function ExtractVideoIdOf(v: Value): (r: Option<string>)
    ensures !v.Str? ==> r == None
    ensures v.Str? ==> r == ExtractVideoId(v.s)
  {
    if v.Str? then ExtractVideoId(v.s) else None
  }

  /** `isValidYouTubeUrl`. */
  predicate IsValidYouTubeUrl(url: string) {
    ExtractVideoId(url).Some?
  }

  const WatchHost := "https://www."

  /** `buildYouTubeUrl`: `https://www.youtube.com/watch?v=` followed by the id. */
  function BuildYouTubeUrl(videoId: string): string {
    WatchHost + WatchPrefix + videoId
  }

  datatype ParsedUrl = ParsedUrl(videoId: Option<string>, originalUrl: string, isValid: bool)

  /** `parseYouTubeUrl`: the url is returned as given, and it is valid exactly when an id was
      extracted. */
  function ParseYouTubeUrl(url: string): (p: ParsedUrl)
    ensures p.originalUrl == url
    ensures p.videoId == ExtractVideoId(url)
    ensures p.isValid <==> p.videoId.Some?
    ensures p.isValid <==> IsValidYouTubeUrl(url)
  {
    var videoId := ExtractVideoId(url);
    ParsedUrl(videoId, url, videoId.Some?)
  }

  /** `s` contains one of `prefixes` followed by eleven id characters, somewhere. */
  ghost predicate HasIdLink(s: string, prefixes: seq<string>) {
    exists i, k :: 0 <= i <= |s| && 0 <= k < |prefixes| && MatchesAt(s, i, prefixes[k])
  }

  /** A single-regex search finds something exactly when one of its alternatives matches. */
  lemma SearchSomeIff(s: string, alts: seq<string>)
    ensures Search(s, alts).Some? <==> HasIdLink(s, alts)
  {
    SearchNone(s, alts);
    if Search(s, alts).Some? {
      var j :| 0 <= j <= |s| && !NoMatchAt(s, alts, j);
      var k :| 0 <= k < |alts| && MatchesAt(s, j, alts[k]);
    }
    if HasIdLink(s, alts) {
      var i, k :| 0 <= i <= |s| && 0 <= k < |alts| && MatchesAt(s, i, alts[k]);
      assert !NoMatchAt(s, alts, i);
    }
  }

  /** A url is a valid YouTube url exactly when it contains one of the five link shapes followed by
      eleven id characters: the cascade order matters for which id is returned, never for whether
      one is. */
  lemma ValidYouTubeUrlIff(url: string)
    ensures IsValidYouTubeUrl(url) <==> HasIdLink(url, AllPrefixes)
  {
    SearchSomeIff(url, YouTubePatterns[0]);
    SearchSomeIff(url, YouTubePatterns[1]);
    SearchSomeIff(url, YouTubePatterns[2]);
    if url != "" {
      assert ExtractVideoId(url).Some? <==>
        (HasIdLink(url, YouTubePatterns[0]) || HasIdLink(url, YouTubePatterns[1]) || HasIdLink(url, YouTubePatterns[2]));
      if HasIdLink(url, AllPrefixes) {
        var i, k :| 0 <= i <= |url| && 0 <= k < |AllPrefixes| && MatchesAt(url, i, AllPrefixes[k]);
        if k < 3 {
          assert MatchesAt(url, i, YouTubePatterns[0][k]);
        } else if k == 3 {
          assert MatchesAt(url, i, YouTubePatterns[1][0]);
        } else {
          assert MatchesAt(url, i, YouTubePatterns[2][0]);
        }
      }
      if HasIdLink(url, YouTubePatterns[0]) {
        var i, k :| 0 <= i <= |url| && 0 <= k < 3 && MatchesAt(url, i, YouTubePatterns[0][k]);
        assert MatchesAt(url, i, AllPrefixes[k]);
      }
      if HasIdLink(url, YouTubePatterns[1]) {
        var i, k :| 0 <= i <= |url| && 0 <= k < 1 && MatchesAt(url, i, YouTubePatterns[1][k]);
        assert MatchesAt(url, i, AllPrefixes[3]);
      }
      if HasIdLink(url, YouTubePatterns[2]) {
        var i, k :| 0 <= i <= |url| && 0 <= k < 1 && MatchesAt(url, i, YouTubePatterns[2][k]);
        assert MatchesAt(url, i, AllPrefixes[4]);
      }
    } else {
      assert !HasIdLink(url, AllPrefixes);
    }
  }

  /** No `y` occurs in `s` from `from` on. */
  predicate NoYFrom(s: string, from: nat) {
    forall p :: from <= p < |s| ==> s[p] != 'y'
  }

  /** Every alternative of `alts` is non-empty and starts with `y`. */
  predicate StartWithY(alts: seq<string>) {
    forall k :: 0 <= k < |alts| ==> |alts[k]| > 0 && alts[k][0] == 'y'
  }

  lemma PatternsStartWithY()
    ensures StartWithY(YouTubePatterns[0]) && StartWithY(YouTubePatterns[1]) && StartWithY(YouTubePatterns[2])
  {
  }

  /** Positions without a `y` are skipped by the search. */
  lemma NoYSkip(s: string, alts: seq<string>, i: nat, j: nat)
    requires i <= j <= |s| && StartWithY(alts)
    requires forall p :: i <= p < j ==> s[p] != 'y'
    ensures SearchFrom(s, alts, i) == SearchFrom(s, alts, j)
  {
    SkipNonStarts(s, alts, i, j);
  }

  /** A text without a `y` matches no pattern. */
  lemma NoYNoMatch(s: string, alts: seq<string>)
    requires NoYFrom(s, 0) && StartWithY(alts)
    ensures Search(s, alts) == None
  {
    NoYSkip(s, alts, 0, |s|);
    assert FirstAltAt(s, |s|, alts, 0) == None;
  }

  /** When nothing matches at `i` and no `y` follows it, nothing matches from `i` on. */
  lemma NoMatchFromHere(s: string, alts: seq<string>, i: nat)
    requires i < |s| && StartWithY(alts)
    requires NoMatchAt(s, alts, i) && NoYFrom(s, i + 1)
    ensures SearchFrom(s, alts, i) == None
  {
    SearchFromNext(s, alts, i);
    NoYSkip(s, alts, i + 1, |s|);
    assert FirstAltAt(s, |s|, alts, 0) == None;
  }

  /** Where the text at `i` begins with `prefix` and `prefix` differs from `alt` at offset `d`,
      `alt` does not match at `i`. */
  lemma PrefixDiffers(s: string, i: nat, prefix: string, alt: string, d: nat)
    requires i + |prefix| <= |s| && s[i..i + |prefix|] == prefix
    requires d < |prefix| && d < |alt| && prefix[d] != alt[d]
    ensures !MatchesAt(s, i, alt)
  {
    assert s[i + d] == prefix[d];
    if i + |alt| <= |s| {
      assert s[i..i + |alt|][d] == s[i + d];
    }
  }

  /** The layout of `pre + prefix + id + post`: `prefix` followed by `id` sits at `|pre|`, no `y`
      comes before it, and none after its first character when `prefix`, `id` and `post` have
      none there. */
  lemma LinkLayout(pre: string, prefix: string, id: string, post: string)
    requires IsValidVideoId(id) && NoYFrom(pre, 0)
    ensures var s := pre + prefix + id + post;
      && s[|pre|..|pre| + |prefix|] == prefix
      && MatchesAt(s, |pre|, prefix) && Capture(s, |pre|, prefix) == id
      && (forall p :: 0 <= p < |pre| ==> s[p] != 'y')
    ensures NoYFrom(prefix, 1) && NoYFrom(id, 0) && NoYFrom(post, 0) ==>
      NoYFrom(pre + prefix + id + post, |pre| + 1)
  {
    var s := pre + prefix + id + post;
    var i := |pre|;
    assert s[i..i + |prefix|] == prefix;
    assert s[i + |prefix|..i + |prefix| + IdLength] == id;
    forall p | 0 <= p < i ensures s[p] != 'y' {
      assert s[p] == pre[p];
    }
    if NoYFrom(prefix, 1) && NoYFrom(id, 0) && NoYFrom(post, 0) {
      forall p | i + 1 <= p < |s| ensures s[p] != 'y' {
        if p < i + |prefix| {
          assert s[p] == prefix[p - i];
        } else if p < i + |prefix| + |id| {
          assert s[p] == id[p - i - |prefix|];
        } else {
          assert s[p] == post[p - i - |prefix| - |id|];
        }
      }
    }
  }

  /** Matching is unanchored: a watch link with a valid id, after any text in which no pattern can
      begin (no `y`) and before any text at all, yields that id. */
  lemma WatchLink(pre: string, id: string, post: string)
    requires IsValidVideoId(id) && NoYFrom(pre, 0)
    ensures ExtractVideoId(pre + WatchPrefix + id + post) == Some(id)
  {
    var s := pre + WatchPrefix + id + post;
    LinkLayout(pre, WatchPrefix, id, post);
    PatternsStartWithY();
    NoYSkip(s, YouTubePatterns[0], 0, |pre|);
    FoundAt(s, YouTubePatterns[0], |pre|, 0);
    CascadePicks(s, YouTubePatterns, 0);
  }

  /** A `youtu.be/` link yields its id, whatever follows it. */
  lemma ShortLinkLink(pre: string, id: string, post: string)
    requires IsValidVideoId(id) && NoYFrom(pre, 0)
    ensures ExtractVideoId(pre + ShortLinkPrefix + id + post) == Some(id)
  {
    var s := pre + ShortLinkPrefix + id + post;
    LinkLayout(pre, ShortLinkPrefix, id, post);
    PatternsStartWithY();
    NoYSkip(s, YouTubePatterns[0], 0, |pre|);
    PrefixDiffers(s, |pre|, ShortLinkPrefix, WatchPrefix, 5);
    FoundAt(s, YouTubePatterns[0], |pre|, 1);
    CascadePicks(s, YouTubePatterns, 0);
  }

  /** An embed link yields its id, whatever follows it. */
  lemma EmbedLink(pre: string, id: string, post: string)
    requires IsValidVideoId(id) && NoYFrom(pre, 0)
    ensures ExtractVideoId(pre + EmbedPrefix + id + post) == Some(id)
  {
    var s := pre + EmbedPrefix + id + post;
    LinkLayout(pre, EmbedPrefix, id, post);
    PatternsStartWithY();
    NoYSkip(s, YouTubePatterns[0], 0, |pre|);
    PrefixDiffers(s, |pre|, EmbedPrefix, WatchPrefix, 12);
    PrefixDiffers(s, |pre|, EmbedPrefix, ShortLinkPrefix, 5);
    FoundAt(s, YouTubePatterns[0], |pre|, 2);
    CascadePicks(s, YouTubePatterns, 0);
  }

  /** The first pattern finds nothing in a link whose prefix differs from all three of its
      alternatives and has no `y` after its first letter, when nothing after it has one. */
  lemma FirstPatternMisses(pre: string, prefix: string, id: string, post: string)
    requires |prefix| > 12 && NoYFrom(prefix, 1)
    requires prefix[12] != WatchPrefix[12] && prefix[5] != ShortLinkPrefix[5] && prefix[12] != EmbedPrefix[12]
    requires IsValidVideoId(id) && NoYFrom(pre, 0) && NoYFrom(id, 0) && NoYFrom(post, 0)
    ensures Search(pre + prefix + id + post, YouTubePatterns[0]) == None
  {
    var s := pre + prefix + id + post;
    var a0 := YouTubePatterns[0];
    LinkLayout(pre, prefix, id, post);
    PatternsStartWithY();
    NoYSkip(s, a0, 0, |pre|);
    PrefixDiffers(s, |pre|, prefix, WatchPrefix, 12);
    PrefixDiffers(s, |pre|, prefix, ShortLinkPrefix, 5);
    PrefixDiffers(s, |pre|, prefix, EmbedPrefix, 12);
    NoMatchFromHere(s, a0, |pre|);
  }

  /** A shorts link yields its id when no `y` follows the prefix's first letter. */
  lemma ShortsLink(pre: string, id: string, post: string)
    requires IsValidVideoId(id) && NoYFrom(pre, 0) && NoYFrom(id, 0) && NoYFrom(post, 0)
    ensures ExtractVideoId(pre + ShortsPrefix + id + post) == Some(id)
  {
    var s := pre + ShortsPrefix + id + post;
    assert NoYFrom(ShortsPrefix, 1);
    FirstPatternMisses(pre, ShortsPrefix, id, post);
    LinkLayout(pre, ShortsPrefix, id, post);
    PatternsStartWithY();
    NoYSkip(s, YouTubePatterns[1], 0, |pre|);
    FoundAt(s, YouTubePatterns[1], |pre|, 0);
    CascadePicks(s, YouTubePatterns, 1);
  }

  /** A live link yields its id when no `y` follows the prefix's first letter. */
  lemma LiveLink(pre: string, id: string, post: string)
    requires IsValidVideoId(id) && NoYFrom(pre, 0) && NoYFrom(id, 0) && NoYFrom(post, 0)
    ensures ExtractVideoId(pre + LivePrefix + id + post) == Some(id)
  {
    var s := pre + LivePrefix + id + post;
    var a1 := YouTubePatterns[1];
    assert NoYFrom(LivePrefix, 1);
    FirstPatternMisses(pre, LivePrefix, id, post);
    LinkLayout(pre, LivePrefix, id, post);
    PatternsStartWithY();
    NoYSkip(s, a1, 0, |pre|);
    PrefixDiffers(s, |pre|, LivePrefix, ShortsPrefix, 12);
    NoMatchFromHere(s, a1, |pre|);
    NoYSkip(s, YouTubePatterns[2], 0, |pre|);
    FoundAt(s, YouTubePatterns[2], |pre|, 0);
    CascadePicks(s, YouTubePatterns, 2);
  }

  /** Round trip: the url built from a valid id yields that id again. */
  lemma BuildThenExtract(id: string)
    requires IsValidVideoId(id)
    ensures ExtractVideoId(BuildYouTubeUrl(id)) == Some(id)
    ensures IsValidYouTubeUrl(BuildYouTubeUrl(id))
  {
    WatchLink(WatchHost, id, "");
    assert BuildYouTubeUrl(id) == WatchHost + WatchPrefix + id + "";
  }

  const SampleId := "dQw4w9WgXcQ"

  lemma SampleFacts()
    ensures IsValidVideoId(SampleId) && NoYFrom(SampleId, 0)
    ensures NoYFrom(WatchHost, 0) && NoYFrom("https://", 0) && NoYFrom("", 0)
  {
  }

  /** The five link forms of `dQw4w9WgXcQ` all yield that id. */
  lemma SampleLinks()
    ensures ExtractVideoId(BuildYouTubeUrl(SampleId)) == Some(SampleId)
    ensures ExtractVideoId("https://" + ShortLinkPrefix + SampleId) == Some(SampleId)
    ensures ExtractVideoId(WatchHost + EmbedPrefix + SampleId) == Some(SampleId)
    ensures ExtractVideoId(WatchHost + ShortsPrefix + SampleId) == Some(SampleId)
    ensures ExtractVideoId(WatchHost + LivePrefix + SampleId) == Some(SampleId)
  {
    SampleFacts();
    BuildThenExtract(SampleId);
    ShortLinkLink("https://", SampleId, "");
    assert "https://" + ShortLinkPrefix + SampleId + "" == "https://" + ShortLinkPrefix + SampleId;
    EmbedLink(WatchHost, SampleId, "");
    assert WatchHost + EmbedPrefix + SampleId + "" == WatchHost + EmbedPrefix + SampleId;
    ShortsLink(WatchHost, SampleId, "");
    assert WatchHost + ShortsPrefix + SampleId + "" == WatchHost + ShortsPrefix + SampleId;
    LiveLink(WatchHost, SampleId, "");
    assert WatchHost + LivePrefix + SampleId + "" == WatchHost + LivePrefix + SampleId;
  }

  /** A url of another site yields no id. */
  lemma OtherSiteHasNoId()
    ensures ExtractVideoId("https://example.com/video") == None
  {
    var s := "https://example.com/video";
    assert NoYFrom(s, 0);
    PatternsStartWithY();
    NoYNoMatch(s, YouTubePatterns[0]);
    NoYNoMatch(s, YouTubePatterns[1]);
    NoYNoMatch(s, YouTubePatterns[2]);
  }
}
