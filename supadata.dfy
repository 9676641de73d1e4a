/** The pure parts of the Supadata client of lib/supadata.ts: its own video-id extractor, the
    mapping of an HTTP status to an error, the transcript check and join, and the record that
    `getVideoData` returns. The HTTP request itself is replaced by its outcome. */
module Supadata {
  import opened Wrappers
  import opened Strings
  import opened Json
  import opened IdMatch
  import opened Validators

  /** The two expressions of `extractVideoIdFromUrl`, in order: watch / short link / embed /
      shorts, then live. */
  const SupadataPatterns: seq<seq<string>> := [[WatchPrefix, ShortLinkPrefix, EmbedPrefix, ShortsPrefix], [LivePrefix]]

  /** `extractVideoIdFromUrl`: the capture of the first expression that matches, or `null`. */
  function ExtractVideoIdFromUrl(url: string): (r: Option<string>)
    ensures r.Some? ==> IsValidVideoId(r.value)
  {
    FirstPattern(url, SupadataPatterns)
  }

  /** The Supadata extractor finds an id exactly when the url contains one of the five link shapes
      followed by eleven id characters. */
  lemma SupadataIdIff(url: string)
    ensures ExtractVideoIdFromUrl(url).Some? <==> HasIdLink(url, AllPrefixes)
  {
    SearchSomeIff(url, SupadataPatterns[0]);
    SearchSomeIff(url, SupadataPatterns[1]);
    assert ExtractVideoIdFromUrl(url).Some? <==>
      (HasIdLink(url, SupadataPatterns[0]) || HasIdLink(url, SupadataPatterns[1]));
    if HasIdLink(url, AllPrefixes) {
      var i, k :| 0 <= i <= |url| && 0 <= k < |AllPrefixes| && MatchesAt(url, i, AllPrefixes[k]);
      if k < 4 {
        assert MatchesAt(url, i, SupadataPatterns[0][k]);
      } else {
        assert MatchesAt(url, i, SupadataPatterns[1][0]);
      }
    }
    if HasIdLink(url, SupadataPatterns[0]) {
      var i, k :| 0 <= i <= |url| && 0 <= k < 4 && MatchesAt(url, i, SupadataPatterns[0][k]);
      assert MatchesAt(url, i, AllPrefixes[k]);
    }
    if HasIdLink(url, SupadataPatterns[1]) {
      var i, k :| 0 <= i <= |url| && 0 <= k < 1 && MatchesAt(url, i, SupadataPatterns[1][k]);
      assert MatchesAt(url, i, AllPrefixes[4]);
    }
  }

  /** The two extractors succeed on the same strings. */
  lemma ExtractorsAgreeOnPresence(url: string)
    ensures ExtractVideoIdFromUrl(url).Some? <==> ExtractVideoId(url).Some?
  {
    SupadataIdIff(url);
    ValidYouTubeUrlIff(url);
  }

  /** Where the two links of `pre + ShortsPrefix + a + mid + ShortLinkPrefix + b` sit, and that no
      `y` occurs before the first or between the start of the first and the start of the second. */
  lemma TwoLinkLayout(pre: string, a: string, mid: string, b: string)
    requires IsValidVideoId(a) && IsValidVideoId(b) && NoYFrom(pre, 0) && NoYFrom(a, 0) && NoYFrom(mid, 0)
    ensures var s := pre + ShortsPrefix + a + mid + ShortLinkPrefix + b;
      var i := |pre|;
      var at := |pre| + |ShortsPrefix| + IdLength + |mid|;
      && s[i..i + |ShortsPrefix|] == ShortsPrefix
      && MatchesAt(s, i, ShortsPrefix) && Capture(s, i, ShortsPrefix) == a
      && s[at..at + |ShortLinkPrefix|] == ShortLinkPrefix
      && MatchesAt(s, at, ShortLinkPrefix) && Capture(s, at, ShortLinkPrefix) == b
      && (forall p :: 0 <= p < i ==> s[p] != 'y')
      && (forall p :: i + 1 <= p < at ==> s[p] != 'y')
  {
    var s := pre + ShortsPrefix + a + mid + ShortLinkPrefix + b;
    var i := |pre|;
    var j := i + |ShortsPrefix|;
    var k := j + IdLength;
    var at := k + |mid|;
    assert s[i..j] == ShortsPrefix;
    assert s[j..k] == a;
    assert s[at..at + |ShortLinkPrefix|] == ShortLinkPrefix;
    assert s[at + |ShortLinkPrefix|..at + |ShortLinkPrefix| + IdLength] == b;
    assert NoYFrom(ShortsPrefix, 1);
    forall p | 0 <= p < i ensures s[p] != 'y' {
      assert s[p] == pre[p];
    }
    forall p | i + 1 <= p < at ensures s[p] != 'y' {
      if p < j {
        assert s[p] == ShortsPrefix[p - i];
      } else if p < k {
        assert s[p] == a[p - j];
      } else {
        assert s[p] == mid[p - k];
      }
    }
  }

  /** At the start of a shorts link, none of the other alternatives matches. */
  lemma OnlyShortsAt(s: string, i: nat)
    requires i + |ShortsPrefix| <= |s| && s[i..i + |ShortsPrefix|] == ShortsPrefix
    ensures !MatchesAt(s, i, WatchPrefix) && !MatchesAt(s, i, ShortLinkPrefix) && !MatchesAt(s, i, EmbedPrefix)
  {
    PrefixDiffers(s, i, ShortsPrefix, WatchPrefix, 12);
    PrefixDiffers(s, i, ShortsPrefix, ShortLinkPrefix, 5);
    PrefixDiffers(s, i, ShortsPrefix, EmbedPrefix, 12);
  }

  /** At the start of a short link, the watch alternative does not match. */
  lemma ShortLinkNotWatch(s: string, at: nat)
    requires at + |ShortLinkPrefix| <= |s| && s[at..at + |ShortLinkPrefix|] == ShortLinkPrefix
    ensures !MatchesAt(s, at, WatchPrefix)
  {
    PrefixDiffers(s, at, ShortLinkPrefix, WatchPrefix, 5);
  }

  /** ... but not always on the id: a shorts link followed by a short link is read as the shorts
      id here (shorts sits in the first expression) and as the short-link id by `extractVideoId`
      (whose first expression has no shorts alternative). */
  lemma ShortsBeforeShortLink(pre: string, a: string, mid: string, b: string)
    requires IsValidVideoId(a) && IsValidVideoId(b) && NoYFrom(pre, 0) && NoYFrom(a, 0) && NoYFrom(mid, 0)
    ensures ExtractVideoIdFromUrl(pre + ShortsPrefix + a + mid + ShortLinkPrefix + b) == Some(a)
    ensures ExtractVideoId(pre + ShortsPrefix + a + mid + ShortLinkPrefix + b) == Some(b)
  {
    SupadataReadsShorts(pre, a, mid, b);
    ValidatorsReadShortLink(pre, a, mid, b);
  }

  lemma SupadataReadsShorts(pre: string, a: string, mid: string, b: string)
    requires IsValidVideoId(a) && IsValidVideoId(b) && NoYFrom(pre, 0) && NoYFrom(a, 0) && NoYFrom(mid, 0)
    ensures ExtractVideoIdFromUrl(pre + ShortsPrefix + a + mid + ShortLinkPrefix + b) == Some(a)
  {
    var s := pre + ShortsPrefix + a + mid + ShortLinkPrefix + b;
    TwoLinkLayout(pre, a, mid, b);
    OnlyShortsAt(s, |pre|);
    assert StartWithY(SupadataPatterns[0]);
    NoYSkip(s, SupadataPatterns[0], 0, |pre|);
    FoundAt(s, SupadataPatterns[0], |pre|, 3);
    CascadePicks(s, SupadataPatterns, 0);
  }

  lemma ValidatorsReadShortLink(pre: string, a: string, mid: string, b: string)
    requires IsValidVideoId(a) && IsValidVideoId(b) && NoYFrom(pre, 0) && NoYFrom(a, 0) && NoYFrom(mid, 0)
    ensures ExtractVideoId(pre + ShortsPrefix + a + mid + ShortLinkPrefix + b) == Some(b)
  {
    TwoLinkLayout(pre, a, mid, b);
    ShortLinkAfterShorts(pre + ShortsPrefix + a + mid + ShortLinkPrefix + b, |pre|,
                         |pre| + |ShortsPrefix| + IdLength + |mid|, b);
  }

  /** The scan of `extractVideoId`'s first expression passes over a shorts link at `i` and stops
      at the short link at `at` when no `y` lies between them. */
  lemma ShortLinkAfterShorts(s: string, i: nat, at: nat, b: string)
    requires i < at && at + |ShortLinkPrefix| <= |s| && i + |ShortsPrefix| <= |s|
    requires s[i..i + |ShortsPrefix|] == ShortsPrefix
    requires s[at..at + |ShortLinkPrefix|] == ShortLinkPrefix
    requires MatchesAt(s, at, ShortLinkPrefix) && Capture(s, at, ShortLinkPrefix) == b
    requires forall p :: 0 <= p < i ==> s[p] != 'y'
    requires forall p :: i + 1 <= p < at ==> s[p] != 'y'
    ensures ExtractVideoId(s) == Some(b)
  {
    var alts := YouTubePatterns[0];
    assert alts == [WatchPrefix, ShortLinkPrefix, EmbedPrefix];
    OnlyShortsAt(s, i);
    PatternsStartWithY();
    NoYSkip(s, alts, 0, i);
    assert NoMatchAt(s, alts, i);
    SearchFromNext(s, alts, i);
    NoYSkip(s, alts, i + 1, at);
    ShortLinkNotWatch(s, at);
    FoundAt(s, alts, at, 1);
    assert Search(s, alts) == Some(b);
    CascadePicks(s, YouTubePatterns, 0);
  }

  const OtherId := "AAAAAAAAAAA"
  const ShareParameter := "?ref="

  /** A url carrying a shorts link and, in a query parameter, a short link to another video. */
  const MixedUrl := WatchHost + ShortsPrefix + OtherId + ShareParameter + ShortLinkPrefix + SampleId

  /** On `MixedUrl` the two extractors name different videos. */
  lemma ExtractorsDisagree()
    ensures ExtractVideoIdFromUrl(MixedUrl) == Some(OtherId)
    ensures ExtractVideoId(MixedUrl) == Some(SampleId)
    ensures OtherId != SampleId
  {
    SampleFacts();
    assert IsValidVideoId(OtherId) && NoYFrom(OtherId, 0) && NoYFrom(ShareParameter, 0);
    ShortsBeforeShortLink(WatchHost, OtherId, ShareParameter, SampleId);
    assert OtherId[0] != SampleId[0];
  }

  /** `response.ok`: a status in the range 200-299. */
  predicate IsOk(status: nat) {
    200 <= status <= 299
  }

  const VideoNotFound := "VIDEO_NOT_FOUND"
  const ApiKeyInvalid := "API_KEY_INVALID"
  const RateLimitExceeded := "RATE_LIMIT_EXCEEDED"
  const TranscriptNotFound := "TRANSCRIPT_NOT_FOUND"
  const OtherStatusPrefix := "Supadata API error: "
  const MissingApiKey := "SUPADATA_API_KEY is not configured"

  /** The error thrown for a response that is not ok. */
  function StatusError(status: nat): (e: string)
    ensures status == 404 ==> e == VideoNotFound
    ensures status == 403 ==> e == ApiKeyInvalid
    ensures status == 429 ==> e == RateLimitExceeded
    ensures status !in {403, 404, 429} ==>
      && StartsWith(e, OtherStatusPrefix)
      && IsDigits(e[|OtherStatusPrefix|..])
      && DecimalValue(e[|OtherStatusPrefix|..]) == status
  {
    if status == 404 then VideoNotFound
    else if status == 403 then ApiKeyInvalid
    else if status == 429 then RateLimitExceeded
    else
      var e := OtherStatusPrefix + NatToString(status);
      assert e[..|OtherStatusPrefix|] == OtherStatusPrefix;
      assert e[|OtherStatusPrefix|..] == NatToString(status);
      NatToStringRoundTrip(status);
      e
  }

  /** Distinct statuses give distinct errors: the error alone tells which status came back. */
  lemma StatusErrorInjective(a: nat, b: nat)
    requires StatusError(a) == StatusError(b)
    ensures a == b
  {
    var known: set<nat> := {403, 404, 429};
    if a !in known && b !in known {
      assert StatusError(a)[|OtherStatusPrefix|..] == StatusError(b)[|OtherStatusPrefix|..];
    } else if a !in known || b !in known {
      var x := if a in known then b else a;
      var e := StatusError(x);
      assert e[0] == 'S' && e[0] == OtherStatusPrefix[0];
    }
  }

  /** The V8 message of the `TypeError` thrown by reading property `key` of `null` or `undefined`. */
  function PropertyOfNullish(v: Value, key: string): string {
    "Cannot read properties of " + (if v == Null then "null" else "undefined") + " (reading '" + key + "')"
  }

  predicate IsNullish(v: Value) {
    v == Null || v == Undefined
  }

  /** How the `fetch` call ended: a response with its status and its body read as JSON (an error
      message when the body is not JSON), or a rejected promise with its message. */
  datatype FetchOutcome =
    | Response(status: nat, json: Result<Value>)
    | NetworkError(message: string)

  /** `item.text || ''` for one element of `content`, for an element that is neither `null` nor
      `undefined`. A text that is a string is kept; a truthy text of another type is rendered by
      `show`, JavaScript's string conversion. */
  function TextOf(item: Value, show: Value -> string): string
    requires !IsNullish(item)
  {
    var t := Field(item, "text");
    if Falsy(t) then "" else if t.Str? then t.s else show(t)
  }

  /** `content.map((item) => item.text || '')`. */
  function Texts(items: seq<Value>, show: Value -> string): (ts: seq<string>)
    requires forall i :: 0 <= i < |items| ==> !IsNullish(items[i])
  {
    seq(|items|, i requires 0 <= i < |items| => TextOf(items[i], show))
  }

  /** Whether `data.content` holds transcript segments: a non-empty array. */
  predicate HasContent(data: Value) {
    var content := Field(data, "content");
    !Falsy(content) && content.Arr? && |content.items| > 0
  }

  /** The index of the first element that is `null` or `undefined`, from `k` on. */
  function FirstNullish(items: seq<Value>, k: nat): (r: Option<nat>)
    requires k <= |items|
    ensures r.Some? ==> k <= r.value < |items| && IsNullish(items[r.value])
    ensures r.None? ==> forall i :: k <= i < |items| ==> !IsNullish(items[i])
    decreases |items| - k
  {
    if k == |items| then None
    else if IsNullish(items[k]) then Some(k)
    else FirstNullish(items, k + 1)
  }

  datatype VideoData = VideoData(videoId: string, title: string, channelName: string,
                                 thumbnailUrl: string, transcript: string)

  const UnknownId := "unknown"

  /** The thumbnail url template. */
  function ThumbnailUrl(videoId: string): string {
    "https://img.youtube.com/vi/" + videoId + "/maxresdefault.jpg"
  }

  /** `getVideoData(url)`: `apiKey` is the `SUPADATA_API_KEY` setting, `fetch` the outcome of the
      transcript request for `url`. */
  function GetVideoData(url: string, apiKey: Option<string>, fetch: FetchOutcome, show: Value -> string): Result<VideoData> {
    if apiKey.None? || apiKey.value == "" then Err(MissingApiKey)
    else match fetch
      case NetworkError(m) => Err(m)
      case Response(status, json) =>
        if !IsOk(status) then Err(StatusError(status))
        else match json
          case Err(m) => Err(m)
          case Ok(data) =>
            if IsNullish(data) then Err(PropertyOfNullish(data, "content"))
            else if !HasContent(data) then Err(TranscriptNotFound)
            else
              var items := Field(data, "content").items;
              match FirstNullish(items, 0)
              case Some(i) => Err(PropertyOfNullish(items[i], "text"))
              case None =>
                var videoId := ExtractVideoIdFromUrl(url).GetOr(UnknownId);
                Ok(VideoData(videoId, "", "", ThumbnailUrl(videoId), Join(Texts(items, show), " ")))
  }

  /** A configured key and an ok JSON response whose `content` is a non-empty array free of
      `null`s: the only way to obtain video data. */
  predicate Delivers(apiKey: Option<string>, fetch: FetchOutcome) {
    && apiKey.Some? && apiKey.value != ""
    && fetch.Response? && IsOk(fetch.status) && fetch.json.Ok?
    && !IsNullish(fetch.json.value) && HasContent(fetch.json.value)
    && forall i :: 0 <= i < |Field(fetch.json.value, "content").items| ==>
         !IsNullish(Field(fetch.json.value, "content").items[i])
  }

  /** The failures, in order: a missing key, a failed request, a status that is not ok (mapped by
      `StatusError`), a body that is not JSON, and absent or empty content. */
  lemma GetVideoDataFailures(url: string, apiKey: Option<string>, fetch: FetchOutcome, show: Value -> string)
    ensures apiKey.None? || apiKey == Some("") ==> GetVideoData(url, apiKey, fetch, show) == Err(MissingApiKey)
    ensures apiKey.Some? && apiKey.value != "" && fetch.NetworkError? ==>
      GetVideoData(url, apiKey, fetch, show) == Err(fetch.message)
    ensures apiKey.Some? && apiKey.value != "" && fetch.Response? && !IsOk(fetch.status) ==>
      GetVideoData(url, apiKey, fetch, show) == Err(StatusError(fetch.status))
    ensures apiKey.Some? && apiKey.value != "" && fetch.Response? && IsOk(fetch.status) && fetch.json.Err? ==>
      GetVideoData(url, apiKey, fetch, show) == Err(fetch.json.message)
    ensures (&& apiKey.Some? && apiKey.value != "" && fetch.Response? && IsOk(fetch.status) && fetch.json.Ok?
             && !IsNullish(fetch.json.value) && !HasContent(fetch.json.value)) ==>
      GetVideoData(url, apiKey, fetch, show) == Err(TranscriptNotFound)
    ensures GetVideoData(url, apiKey, fetch, show).Ok? <==> Delivers(apiKey, fetch)
  {
    if Delivers(apiKey, fetch) {
      assert FirstNullish(Field(fetch.json.value, "content").items, 0).None?;
    }
  }

  /** The record built from a delivered transcript: the Supadata id of the url or `unknown`, empty
      title and channel, the thumbnail of that id, and the segment texts joined by one space. */
  lemma GetVideoDataRecord(url: string, apiKey: Option<string>, fetch: FetchOutcome, show: Value -> string)
    requires Delivers(apiKey, fetch)
    ensures var items := Field(fetch.json.value, "content").items;
      var d := GetVideoData(url, apiKey, fetch, show).value;
      && d.videoId == ExtractVideoIdFromUrl(url).GetOr(UnknownId)
      && (d.videoId == UnknownId || IsValidVideoId(d.videoId))
      && d.title == "" && d.channelName == ""
      && d.thumbnailUrl == ThumbnailUrl(d.videoId)
      && d.transcript == Join(Texts(items, show), " ")
      && |d.transcript| == TotalLength(Texts(items, show)) + |items| - 1
  {
    var items := Field(fetch.json.value, "content").items;
    assert FirstNullish(items, 0).None?;
    JoinLength(Texts(items, show), " ");
  }

  /** The fallback id is used exactly for the urls that `isValidYouTubeUrl` rejects; it is never
      itself a valid id. */
  lemma UnknownIdIff(url: string, apiKey: Option<string>, fetch: FetchOutcome, show: Value -> string)
    requires Delivers(apiKey, fetch)
    ensures GetVideoData(url, apiKey, fetch, show).value.videoId == UnknownId <==> !IsValidYouTubeUrl(url)
  {
    GetVideoDataRecord(url, apiKey, fetch, show);
    ExtractorsAgreeOnPresence(url);
    assert !IsValidVideoId(UnknownId);
  }

  /** One segment gives its text alone; two give their texts around a single space. */
  lemma TranscriptOfSegments(a: string, b: string, show: Value -> string)
    ensures Join(Texts([Obj(map["text" := Str(a)])], show), " ") == a
    ensures Join(Texts([Obj(map["text" := Str(a)]), Obj(map["text" := Str(b)])], show), " ") == a + " " + b
    ensures Join(Texts([Obj(map[]), Obj(map["text" := Str(b)])], show), " ") == " " + b
  {
    var one := Texts([Obj(map["text" := Str(a)])], show);
    assert one == [a];
    var two := Texts([Obj(map["text" := Str(a)]), Obj(map["text" := Str(b)])], show);
    assert two == [a, b];
    var gap := Texts([Obj(map[]), Obj(map["text" := Str(b)])], show);
    assert gap == ["", b];
    JoinSmall(a, b, " ");
    JoinSmall("", b, " ");
  }
}
