# Verdict AI summarize endpoint, modelled in Dafny

Verdict AI takes a YouTube link from a signed-in user who has credits. It fetches the video's
transcript from Supadata, asks Gemini whether the video is worth watching, and answers with a
verdict and a bulleted summary. It then deducts one credit and records the analysis in the
user's history. This project models the logic behind that one endpoint and proves properties
of it:

- the in-memory fixed-window rate limiter (`RateLimit`, a class over the store map);
- the two video-id extractors, each a cascade of unanchored regular expressions
  (`IdMatch`, `Validators`, `Supadata.ExtractVideoIdFromUrl`);
- the request and AI-response schemas with their zod error messages, and the verdict table
  (`Schemas`);
- the transcript sanitiser, the code-fence stripping, the structural check of the model's reply
  and the error translation of `analyzeTranscript` (`Gemini`);
- the mapping of the transcript service's answer: the status errors, the content check, the
  join and the result record (`Supadata.GetVideoData`);
- the `POST /api/summarize` handler (`Route`).

The handler is a pure function `Route.Handle` over the outcomes of its collaborators. A method
`Route.Post` runs the same gates step by step against a real `RateLimiter` object and is proved
equal to `Handle`. The handler returns a response and the trace of collaborator calls it made,
in order, so gate order, "no call before this gate" and "bookkeeping failures are swallowed"
become equalities about that trace.

Helper modules: `Wrappers` (Option, Result), `Strings` (JavaScript whitespace, `trim`, `join`,
`String(n)`) and `Json` (the JavaScript values the core reads).

Two extractors read the id, and they can disagree. The response's `videoId` and thumbnail come
from Supadata's extractor (lib/supadata.ts). The credit-deduction description and the history
row use lib/validators.ts's extractor. Both succeed on exactly the same strings
(`Supadata.ExtractorsAgreeOnPresence`). They can pick different ids: for a `youtube.com/shorts/`
link followed by a `youtu.be/` link with a different id, Supadata reads the shorts link and the
validators read the `youtu.be/` link (`Supadata.ShortsBeforeShortLink`, proved where no `y`
occurs before the `youtu.be/` link except inside `youtube.com/shorts/`). Supadata's first
expression includes shorts; the validators' first expression does not, so the validators skip
the shorts link. `Route.MixedUrlNamesTwoVideos` proves that on such a url the 200 response names
one video while the deduction and the history row name another.

Where the code and its tests disagree, the model follows the code:

- A `null` body is rejected with zod's `Expected object, received null`, not `URL is required`
  (`Schemas.NullBodyRejected`).
- An object without `url` gives zod's `Required`, with a capital R (`Schemas.MissingUrlRejected`).
- The health endpoint reports version 2.0.0, not 1.0.0; it is not modelled (see below).

## Model

| member | source | states |
|---|---|---|
| RateLimit.CheckRateLimit | lib/rate-limit.ts:46-86 | an absent or expired entry (strictly `now > resetTime`) becomes count 1 with reset `now + windowMs`, answering success and `limit - 1`; a live entry at or over the limit answers failure, 0 and its own reset time and leaves the store unchanged; a live entry below it is counted up by one, reset time kept, answering `limit - count`; every key other than `id` keeps its entry |
| RateLimit.CheckKeepsWithinLimit | lib/rate-limit.ts:51-85 | with `limit >= 1`, the invariant that every stored count is between 1 and `limit` is preserved, and every answer has `0 <= remaining <= limit - 1` and carries the config's limit |
| RateLimit.Replay | lib/rate-limit.ts:46-86 | consecutive calls for one identity give one answer per call |
| RateLimit.ReplayLiveWindow | lib/rate-limit.ts:66-85 | in a live window that has counted `n`, the i-th further call succeeds exactly while `n + i < limit`, with `remaining = limit - n - i - 1` (0 once refused) and the window's reset time |
| RateLimit.WindowExhaustion | lib/rate-limit.ts:46-86 | from no live entry, the calls inside the window the first call opens: the first `limit` succeed with remaining `limit - 1`, ..., 0, every later one fails, all with the same reset time |
| RateLimit.SummarizeWindow | lib/rate-limit.ts:112-117 | with the summarize settings, from a fresh start, the calls within one minute of the first: the first ten succeed, every later one is refused, and all carry the reset one minute after the first |
| RateLimit.Live | lib/rate-limit.ts:16-22 | the sweep keeps exactly the entries that are not expired, unchanged |
| RateLimit.SweepIsUnobservable | lib/rate-limit.ts:16-22 | after a sweep at an earlier instant, a check answers as it would have without the sweep, and leaves the same live entries |
| RateLimit.SweepKeepsWithinLimit | lib/rate-limit.ts:16-22 | the sweep preserves the count invariant |
| RateLimit.RateLimiter.constructor | lib/rate-limit.ts:12 | the store starts empty |
| RateLimit.RateLimiter.Check | lib/rate-limit.ts:46-86 | the answer and the new store are those of `CheckRateLimit` on the old store |
| RateLimit.RateLimiter.Sweep | lib/rate-limit.ts:16-22 | the loop deleting expired entries leaves exactly `Live` of the old store |
| RateLimit.FirstSegment | lib/rate-limit.ts:97 | the text before the first comma: a prefix of the input without commas, followed by a comma or the end |
| RateLimit.ClientIp | lib/rate-limit.ts:92-107 | a non-empty `x-forwarded-for` gives its trimmed first segment; else a non-empty `x-real-ip` gives it trimmed; else `unknown` |
| RateLimit.ForwardedIdentityShape | lib/rate-limit.ts:94-98 | the identity taken from `x-forwarded-for` is a slice of the header preceded only by whitespace, is itself trimmed and has no comma |
| RateLimit.InnerSlice | lib/rate-limit.ts:97 | a slice of a comma-free prefix of the header is a comma-free slice of the header, preceded by the same characters |
| Strings.Trim | lib/rate-limit.ts:97 | `trim` removes exactly the leading and trailing ECMAScript whitespace: the result is a trimmed slice surrounded by blanks |
| Strings.TrimEmptyIffBlank | app/api/summarize/route.ts:174 | a string trims to empty exactly when it is whitespace only |
| Strings.TrimTrimmed | lib/gemini.ts:140-145 | trimming a trimmed string changes nothing |
| Strings.JoinLength | lib/supadata.ts:106-108 | joining n parts adds exactly n - 1 separators |
| Strings.JoinSmall | lib/schemas.ts:96-98 | a join of one part is that part; of two, the parts around one separator |
| Strings.NatToString | app/api/summarize/route.ts:108-110 | `String(n)` is non-empty decimal digits without a leading zero |
| Strings.NatToStringRoundTrip | app/api/summarize/route.ts:108-110 | reading the digits back gives `n` |
| Strings.IntToString | app/api/summarize/route.ts:108-110 | `String(n)` of a negative number is `-` and the digits of its magnitude |
| IdMatch.Capture | lib/validators.ts:7-11 | the capture group is eleven id characters |
| IdMatch.FirstAltAt | lib/validators.ts:7 | the alternatives of one expression are tried in order at a position |
| IdMatch.SearchFrom | lib/validators.ts:25 | the left-to-right scan returns an eleven-character id |
| IdMatch.Search | lib/validators.ts:25-27 | `url.match(pattern)[1]` is an eleven-character id when present |
| IdMatch.SearchFromNext | lib/validators.ts:25 | where nothing matches at a position, the scan moves on one character |
| IdMatch.SearchFromNone | lib/validators.ts:25 | the scan finds nothing exactly when no alternative matches anywhere from `i` on |
| IdMatch.SearchNone | lib/validators.ts:25 | no match exactly when no alternative matches anywhere |
| IdMatch.SearchFromFinds | lib/validators.ts:25-27 | the scan reports the leftmost match's capture |
| IdMatch.SearchFromLeftmost | lib/validators.ts:25-27 | whatever the scan reports is the capture of a leftmost match |
| IdMatch.SearchIsLeftmostMatch | lib/validators.ts:7-11 | `Search` returns `id` exactly when the leftmost match, earliest alternative first, captures `id` |
| IdMatch.FoundAt | lib/validators.ts:7 | the first alternative matching at a position is the one reported there |
| IdMatch.SkipNonStarts | lib/validators.ts:7-11 | positions no alternative can start at are skipped |
| IdMatch.FirstHit | lib/validators.ts:24-29 | the index of the first expression of a cascade that matches |
| IdMatch.FirstPattern | lib/validators.ts:24-31 | the cascade returns an id exactly when some expression matches, and it is eleven id characters |
| IdMatch.CascadePicks | lib/validators.ts:24-29 | the first expression that matches decides the answer |
| Validators.ExtractVideoId | lib/validators.ts:19-32 | the empty string gives null; any result is a valid video id |
| Validators.ExtractVideoIdOf | lib/validators.ts:20-22 | a value that is not a string gives null |
| Validators.IsValidVideoId | lib/validators.ts:48-50 | exactly eleven characters, each a letter, a digit, `_` or `-` |
| Validators.IsValidYouTubeUrl | lib/validators.ts:39-41 | `extractVideoId(url)` is not null |
| Validators.BuildYouTubeUrl | lib/validators.ts:57-59 | the watch url template around the id |
| Validators.ParseYouTubeUrl | lib/validators.ts:66-77 | the original url is kept, the id is `extractVideoId`'s, and it is valid exactly when an id was found, i.e. exactly when `isValidYouTubeUrl` holds |
| Validators.SearchSomeIff | lib/validators.ts:25 | one expression finds an id exactly when one of its prefixes is followed by eleven id characters somewhere |
| Validators.ValidYouTubeUrlIff | lib/validators.ts:39-41 | a url is valid exactly when it contains one of the five link prefixes followed by eleven id characters |
| Validators.PatternsStartWithY | lib/validators.ts:5-12 | every prefix of the three expressions begins with `y` |
| Validators.NoYSkip | lib/validators.ts:25 | the scan passes over positions without a `y` |
| Validators.NoYNoMatch | lib/validators.ts:25 | a text without a `y` matches no expression |
| Validators.NoMatchFromHere | lib/validators.ts:25 | nothing matching at `i` and no `y` after it means no match from `i` on |
| Validators.PrefixDiffers | lib/validators.ts:7-11 | a text that starts with one prefix does not match an alternative that differs from it within its length |
| Validators.LinkLayout | lib/validators.ts:7-11 | where the prefix and id of `pre + prefix + id + post` sit, and where no `y` is |
| Validators.WatchLink | lib/validators.ts:7 | matching is unanchored: a watch link after text with no `y` yields its id, whatever follows |
| Validators.ShortLinkLink | lib/validators.ts:7 | a `youtu.be/` link yields its id, whatever follows |
| Validators.EmbedLink | lib/validators.ts:7 | an embed link yields its id, whatever follows |
| Validators.FirstPatternMisses | lib/validators.ts:7 | the first expression misses a link whose prefix is none of its three |
| Validators.ShortsLink | lib/validators.ts:9 | a shorts link yields its id after the first expression misses |
| Validators.LiveLink | lib/validators.ts:11 | a live link yields its id after the first two expressions miss |
| Validators.BuildThenExtract | lib/validators.ts:48-59 | round trip: the url built from a valid id yields that id, so it is a valid YouTube url |
| Validators.SampleFacts | lib/validators.ts:48-50 | `dQw4w9WgXcQ` is a valid id |
| Validators.SampleLinks | __tests__/api/summarize.test.ts:20-42 | the watch, `youtu.be`, embed, shorts and live forms of `dQw4w9WgXcQ` all yield it |
| Validators.OtherSiteHasNoId | __tests__/api/summarize.test.ts:20-42 | `https://example.com/video` yields null |
| Schemas.NonEmptyStringIssues | lib/schemas.ts:42-43 | `z.string().min(1)` raises no issue exactly on a non-empty string |
| Schemas.UrlIssues | lib/schemas.ts:16-22 | a non-string `url` gives zod's type issue alone; a string gets the length, URL and YouTube checks in that order, all three run |
| Schemas.RequestIssues | lib/schemas.ts:15-23 | a body that is not an object gives the object type issue; an object gets the issues of its `url` field |
| Schemas.RequestIssuesEmptyIff | lib/schemas.ts:15-23 | the request schema raises no issue exactly when the body is an object whose `url` is a non-empty string that is a URL and a YouTube link |
| Schemas.ValidateSummarizeRequest | lib/schemas.ts:87-101 | success exactly when the schema accepts; the url is returned unchanged; otherwise the error is the issue messages joined by `; ` in order |
| Schemas.JoinNonEmpty | lib/schemas.ts:96-98 | a join of non-empty messages is non-empty |
| Schemas.TotalLengthPositive | lib/schemas.ts:96-98 | non-empty messages add up to a positive length |
| Schemas.RequestErrorNonEmpty | lib/schemas.ts:96-100 | a rejected request always carries a non-empty error |
| Schemas.NullBodyRejected | lib/schemas.ts:15 | a `null` body fails with `Expected object, received null` |
| Schemas.MissingUrlRejected | lib/schemas.ts:16-17 | an object without `url` fails with `Required` |
| Schemas.NoYNotYouTube | lib/schemas.ts:20-22 | a url without a `y` fails the YouTube refinement |
| Schemas.VimeoRejected | lib/schemas.ts:20-22 | `https://vimeo.com/123456` fails with exactly `URL must be a valid YouTube link` |
| Schemas.NotAUrlRejected | lib/schemas.ts:19-22 | `not-a-valid-url` fails the URL check and then the refinement, in that order |
| Schemas.EmptyUrlRejected | lib/schemas.ts:18-22 | the empty url fails all three checks in schema order |
| Schemas.BuiltUrlAccepted | lib/schemas.ts:15-23 | a built watch url is accepted and returned unchanged |
| Schemas.VerdictName | lib/schemas.ts:34 | every verdict has one of the three enum names |
| Schemas.VerdictNameRoundTrip | lib/schemas.ts:34 | names and verdicts correspond one to one |
| Schemas.VerdictIssues | lib/schemas.ts:34 | the enum raises no issue exactly on one of its three names |
| Schemas.VerdictConfig | lib/schemas.ts:138-154 | each verdict's label, UI verdict and colour from the table |
| Schemas.VerdictConfigInvertible | lib/schemas.ts:138-154 | the verdict table is total and its UI verdict gives back the verdict |
| Schemas.VerdictConfigDistinct | lib/schemas.ts:138-154 | distinct verdicts get distinct labels, UI verdicts and colours |
| Schemas.ItemsIssuesEmptyIff | lib/schemas.ts:41-44 | an array of items raises no element issue exactly when every item has a non-empty emoji and text |
| Schemas.SummaryIssues | lib/schemas.ts:115 | a non-array gives the array type issue; an array gets the too-few issue, then the too-many issue, then each element's issues |
| Schemas.AiResponseIssues | lib/schemas.ts:111-118 | a non-object gives the object type issue; an object gets the issues of `verdict`, `verdictLabel`, `verdictDescription` and `summary`, in that order |
| Schemas.AiResponseIssuesEmptyIff | lib/schemas.ts:111-118 | the response schema raises no issue exactly when the verdict is known, label and description are non-empty and the summary has 1 to 10 valid items |
| Schemas.DecodeItem | lib/schemas.ts:41-44 | a parsed item carries the input's emoji and text |
| Schemas.DecodeItems | lib/schemas.ts:115 | the parsed summary has the input's items, in order |
| Schemas.ValidateAiResponse | lib/schemas.ts:108-129 | success exactly when the schema accepts, carrying the input's fields; otherwise the issues joined by `; ` |
| Schemas.SummaryLengthBounds | lib/schemas.ts:115 | an empty summary and one of more than ten items are rejected, with the matching length message |
| Gemini.FirstLiteral | lib/gemini.ts:34-43 | at a position, the first of a pattern's literal alternatives that matches (case-insensitively for `i` patterns) |
| Gemini.CloseFrom | lib/gemini.ts:47 | the lazy part of the special-token pattern ends at the first closing bar-and-angle, with no line terminator before it |
| Gemini.MatchLength | lib/gemini.ts:32-48 | a match at the start of a text is no longer than the text |
| Gemini.FenceJsonMatches | lib/gemini.ts:46 | `~~~`, whitespace and `json` in any case match as a whole |
| Gemini.LeadingSpaceIs | lib/gemini.ts:46 | the greedy `\s*` takes exactly the whitespace run |
| Gemini.Prefixed | lib/gemini.ts:34-36 | a literal followed by a group of alternatives expands to the literal before each alternative, in order |
| Gemini.Then | lib/gemini.ts:34-36 | a product of alternations has the product of their counts |
| Gemini.ThenHead | lib/gemini.ts:34-36 | the first string of two alternations in sequence is their first strings joined |
| Gemini.DangerousPatternsShape | lib/gemini.ts:32-48 | the filter list holds the thirteen expressions in source order: the first ten are literal alternations with the `i` flag, then the backtick fence without it, then `~~~\s*json` and the special-token expression |
| Gemini.IgnorePatternExpansion | lib/gemini.ts:34 | the first expression is eighteen strings tried in backtracking order, `all ` before its absence, so the first is `ignore all previous instructions` |
| Gemini.Truncate | lib/gemini.ts:54-58 | at most 60003 characters; text of at most 60000 is kept; longer text becomes its first 60000 characters and `...` |
| Gemini.TruncateIdempotent | lib/gemini.ts:54-58 | truncating twice is truncating once |
| Gemini.ReplaceAll | lib/gemini.ts:51 | `replace(pattern, '[REDACTED]')` for a global expression: a left-to-right scan that replaces each match and resumes after it; an empty match is replaced and the scan steps past one character |
| Gemini.ApplyAll | lib/gemini.ts:50-52 | the for-of loop: each pattern in list order applied to the previous one's output |
| Gemini.Sanitized | lib/gemini.ts:28-61 | what `sanitizeTranscript` returns: every filter pattern applied in order, then the 60000-character truncation |
| Gemini.KeptHead | lib/gemini.ts:51 | a backtick at the head of the output was kept from the input, unmatched |
| Gemini.KeptNoFence | lib/gemini.ts:51 | keeping a character that starts no fence in front of fence-free output creates no fence |
| Gemini.RedactedNoFence | lib/gemini.ts:51 | `[REDACTED]` in front of fence-free text creates no fence |
| Gemini.SuffixNoFence | lib/gemini.ts:51 | a suffix of fence-free text is fence-free |
| Gemini.BacktickMatchesFence | lib/gemini.ts:45 | the ```` ``` ```` pattern matches every fence |
| Gemini.ReplaceAllNoFence | lib/gemini.ts:45-51 | replacing every ```` ``` ```` leaves no fence, and no replacement creates one |
| Gemini.ApplyAllNoFence | lib/gemini.ts:50-52 | after the pattern loop no fence remains |
| Gemini.TruncateNoFence | lib/gemini.ts:55-58 | truncation creates no fence |
| Gemini.SanitizedNoFence | lib/gemini.ts:28-61 | no ```` ``` ```` survives sanitisation |
| Gemini.ReplaceAllClean | lib/gemini.ts:51 | a text a pattern matches nowhere is left unchanged |
| Gemini.ApplyAllClean | lib/gemini.ts:50-52 | a text no pattern matches passes the loop unchanged |
| Gemini.ReplaceAllHit | lib/gemini.ts:51 | a match at the head is replaced by `[REDACTED]` and the scan resumes after it |
| Gemini.ReplaceAllMiss | lib/gemini.ts:51 | with no match at the head, the head character is kept |
| Gemini.ReplaceAllKeepsPrefix | lib/gemini.ts:51 | the text before the leftmost match is kept |
| Gemini.ReplaceAllLeftmost | lib/gemini.ts:51 | the leftmost match is replaced by `[REDACTED]` and the rest is processed after it |
| Gemini.NoMatchBeforeTail | lib/gemini.ts:51 | no match before `i` carries over to the tail |
| Gemini.CleanTranscriptUnchanged | lib/gemini.ts:28-61 | a transcript of at most 60000 characters that no pattern matches is sent as is |
| Gemini.SanitizeTranscript | lib/gemini.ts:28-61 | the loop and the truncation return `Sanitized(transcript)`, at most 60003 characters, with no fence |
| Gemini.SliceDropLast | lib/gemini.ts:142-144 | `slice(start, -n)`: the middle part, or empty when start and end overlap |
| Gemini.StripFences | lib/gemini.ts:140-145 | the cleaned reply is always trimmed |
| Gemini.JsonFenceStripped | lib/gemini.ts:141-142 | a reply fenced with ```` ```json ```` is its body, trimmed |
| Gemini.JsonFenceIsFence | lib/gemini.ts:141-143 | a ```` ```json ```` opening is also a ```` ``` ```` opening, so the first test must come first |
| Gemini.BareFenceNotJson | lib/gemini.ts:143 | a bare fence whose body does not start with `json` takes the second branch |
| Gemini.BareFenceStripped | lib/gemini.ts:143-144 | a reply fenced with bare ```` ``` ```` is its body, trimmed |
| Gemini.UnfencedReplyTrimmed | lib/gemini.ts:140 | an unfenced reply is only trimmed |
| Gemini.UnclosedJsonFence | lib/gemini.ts:140-142 | a trimmed reply that opens with ```` ```json ```` and has no closing fence still loses its last three characters, so the text parsed is never the body the model wrote |
| Gemini.IsValidAnalysisResult | lib/gemini.ts:170-209 | the early-return checks and the item loop answer exactly `ValidAnalysisShape`: an object with a known verdict, string label and description, and an array summary of objects with string emoji and text |
| Gemini.SchemaImpliesShape | lib/gemini.ts:170-209 | whatever `validateAiResponse` accepts passes the structural check |
| Gemini.ShapeWeakerThanSchema | lib/gemini.ts:183-195 | the structural check lets through an empty label or an empty summary that the schema rejects |
| Gemini.Decode | lib/gemini.ts:156 | the accepted reply carries the parsed value's verdict, label, description and items |
| Gemini.DecodeShapedItems | lib/gemini.ts:197-206 | the decoded items are the parsed ones, in order |
| Gemini.DecodeShapedItem | lib/gemini.ts:202-203 | a decoded item carries the parsed emoji and text |
| Gemini.AnalyzeTranscript | lib/gemini.ts:101-165 | a missing key fails first; success exactly when the model answers for the sanitised transcript, the stripped reply parses and passes the structural check; a model error is passed on, a syntax error becomes `AI_RESPONSE_PARSE_ERROR`, a bad shape `Invalid AI response structure` |
| Supadata.ExtractVideoIdFromUrl | lib/supadata.ts:36-50 | two expressions, watch/short link/embed/shorts then live; any result is a valid id |
| Supadata.SupadataIdIff | lib/supadata.ts:36-50 | an id is found exactly when one of the five prefixes is followed by eleven id characters |
| Supadata.ExtractorsAgreeOnPresence | lib/supadata.ts:36-50 | this extractor and `extractVideoId` succeed on the same strings |
| Supadata.TwoLinkLayout | lib/supadata.ts:38 | where the shorts link and the short link of a two-link url sit |
| Supadata.OnlyShortsAt | lib/supadata.ts:38 | at a shorts prefix, no other alternative of the first expression matches |
| Supadata.ShortLinkNotWatch | lib/supadata.ts:38 | at a `youtu.be/` prefix, the watch alternative does not match |
| Supadata.ShortLinkAfterShorts | lib/validators.ts:7 | the validators' first expression passes over a shorts link and reads a later `youtu.be/` link when no `y` lies between them |
| Supadata.SupadataReadsShorts | lib/supadata.ts:38 | this extractor returns the id of a shorts link that precedes a short link |
| Supadata.ValidatorsReadShortLink | lib/validators.ts:7-9 | `extractVideoId` returns the id of the later short link instead |
| Supadata.ShortsBeforeShortLink | lib/supadata.ts:37-40 | on a shorts link before a short link, the two extractors return the two different ids |
| Supadata.ExtractorsDisagree | lib/supadata.ts:37-40 | a concrete url for which the two extractors give `AAAAAAAAAAA` and `dQw4w9WgXcQ` |
| Supadata.StatusError | lib/supadata.ts:81-93 | 404, 403 and 429 give their codes; any other status gives `Supadata API error: ` followed by its decimal digits |
| Supadata.StatusErrorInjective | lib/supadata.ts:81-93 | distinct statuses give distinct errors |
| Supadata.FirstNullish | lib/supadata.ts:107 | the first element whose `text` cannot be read |
| Supadata.Texts | lib/supadata.ts:106-107 | each segment's `text`, or the empty string when it is falsy, in order, with JavaScript's string conversion `show` for a text that is not a string |
| Supadata.GetVideoData | lib/supadata.ts:58-125 | `getVideoData` over the key setting and the outcome of the request: each failure in source order, else the video record |
| Supadata.GetVideoDataFailures | lib/supadata.ts:58-103 | the failures in order: missing key, network error, not-ok status, unreadable JSON, missing `content`, empty or non-array content as `TRANSCRIPT_NOT_FOUND`, a null element; success exactly when none applies |
| Supadata.GetVideoDataRecord | lib/supadata.ts:105-124 | the id is this extractor's or `unknown`, so it is valid or `unknown`; title and channel are empty; the thumbnail uses the template; the transcript is the texts joined by a space, n items adding n - 1 spaces |
| Supadata.UnknownIdIff | lib/supadata.ts:113 | the id is `unknown` exactly when the url is not a valid YouTube url |
| Supadata.TranscriptOfSegments | lib/supadata.ts:106-108 | one segment gives its text; two give the texts around one space; a missing text counts as empty |
| Route.Post | app/api/summarize/route.ts:59-248 | the step-by-step handler, with the module-level limiter, gives the response, call trace and new store of `Handle` |
| Route.Serve | app/api/summarize/route.ts:116-151 | from the body-size check on, it answers as `Admitted` |
| Route.Run | app/api/summarize/route.ts:153-248 | from the transcript request on, it answers as `Analyzed` |
| Route.Record | app/api/summarize/route.ts:201-235 | the bookkeeping calls, in order, are `Bookkeeping`'s |
| Route.Handle | app/api/summarize/route.ts:59-248 | `POST` as a function of the collaborators' outcomes, the limiter's store and the time: the response, the call trace and the new store |
| Route.Admitted | app/api/summarize/route.ts:116-151 | the handler from the body-size check to the id extraction, then the rest of the handler |
| Route.Analyzed | app/api/summarize/route.ts:153-248 | the handler from the transcript request to the 200 response |
| Route.RateLimited | app/api/summarize/route.ts:102-113 | 429 with the three `X-RateLimit-` headers written by `String` |
| Route.MapError | app/api/summarize/route.ts:158-170 | the table's entry when the message is one of its keys, else 500 with the fallback message |
| Route.Bookkeeping | app/api/summarize/route.ts:201-235 | deduct, log a deduction failure, insert the history row, log an insert failure, read the credits back |
| Route.Success | app/api/summarize/route.ts:238-248 | the 200 body from the video record and the analysis, with the refreshed credits or the old balance minus one |
| Route.AccountGates | app/api/summarize/route.ts:67-96 | no user gives 401, then no profile 404, then too few credits 402 with the balance; each comes after only the user and profile lookups, and nothing is stored in the limiter |
| Route.RateLimitRefusal | app/api/summarize/route.ts:98-114 | once the account gates pass, a refusal gives 429 at once, with the limit, remaining count and reset time as headers and no change to the store |
| Route.RateLimitPass | app/api/summarize/route.ts:98-114 | an admission keeps the limiter's new store and hands over to the rest of the handler |
| Route.TableStatuses | app/api/summarize/route.ts:25-36 | every status in the error table is 400, 401, 402, 404, 422, 429, 500 or 504 |
| Route.MapErrorStatus | app/api/summarize/route.ts:158-170 | a mapped collaborator error is an error body and never a 200 or a 413 |
| Route.BodySizeGate | app/api/summarize/route.ts:116-123 | a content length over 1024 gives 413 before the body is read; 413 happens only then |
| Route.AnalyzedStatus | app/api/summarize/route.ts:153-248 | after the body checks, the handler never answers 413 |
| Route.BodyGates | app/api/summarize/route.ts:125-140 | a falsy or unparsable body gives 400 `Invalid JSON`; a rejected body gives 400 with the validator's error verbatim |
| Route.ValidatedUrlIsFetched | app/api/summarize/route.ts:142-156 | a body the schema accepts always has an id, so the handler's own `Invalid YouTube URL` branch never fires and the url goes to the transcript service |
| Route.FetchFailure | app/api/summarize/route.ts:157-171 | a transcript-service error is answered from the table or with a 500, and the analyzer is not called |
| Route.BlankTranscript | app/api/summarize/route.ts:173-179 | an empty or whitespace-only transcript gives 422 and the analyzer is not called |
| Route.AnalysisFailure | app/api/summarize/route.ts:181-199 | an analyzer error is answered from the table or with a 500, and nothing is deducted or recorded |
| Route.Completed | app/api/summarize/route.ts:201-248 | a completed analysis gives 200 with the video's and the analysis' fields and the credits read back, or the balance less one; the calls are the transcript request, the analysis, then the bookkeeping |
| Route.BookkeepingOrder | app/api/summarize/route.ts:201-235 | deduct one credit naming the video, then insert the history row (verdict name, texts one per line), then read the credits back; a failed write adds only its log entry after it |
| Route.BookkeepingSwallowed | app/api/summarize/route.ts:208-228 | whatever the deduction and the history insert report, the response and the limiter's store are the same |
| Route.AdmittedSwallowed | app/api/summarize/route.ts:208-228 | the same from the body checks on |
| Route.AnalyzedSwallowed | app/api/summarize/route.ts:208-228 | the same from the transcript request on |
| Route.SupadataErrorsAtRoute | app/api/summarize/route.ts:157-171 | a Supadata 404 reaches the client as 404, 403 as a 401 configuration error, 429 as 429, any other failing status as the generic 500 |
| Route.SupadataFixedErrorsAtRoute | app/api/summarize/route.ts:157-171 | missing transcript content reaches the client as 422, a missing Supadata key as the generic 500 |
| Route.UnlistedMessage | app/api/summarize/route.ts:160-170 | a message starting with `S` or `G` is no key of the table and becomes 500 with the fallback |
| Route.GeminiErrorsAtRoute | app/api/summarize/route.ts:185-198 | an unparsable reply becomes the table's 500 `AI analysis failed`; a bad shape and a missing key are not keys of the table and become the generic 500 |
| Route.AnsweredVideoId | app/api/summarize/route.ts:238-242 | with the transcript service answering as `getVideoData`, the 200 response carries Supadata's id (or `unknown`) and its thumbnail, while the bookkeeping uses the handler's own id |
| Route.MixedUrlNamesTwoVideos | app/api/summarize/route.ts:201-242 | on a url with a shorts link before a short link, the response names one video while the deduction and the history row name another |

## Left out

- Network and storage I/O are not modelled. The Supadata request, the Gemini model call, all
  Supabase calls, and the health checks `checkSupadataHealth` and `checkGeminiHealth` appear only
  by their outcomes: `Route.Services`, `Supadata.FetchOutcome`, and the `generate` and `parse`
  parameters of `Gemini.AnalyzeTranscript`.
- The clock and the 60-second timer are parameters. `now` is passed in, and the sweep is the
  method `RateLimiter.Sweep`. Nothing models when the timer fires or concurrent handlers.
- The `GET /api/summarize` health endpoint, a constant JSON body, is not modelled.
- zod's `.url()` and the WHATWG URL parser are the parameter `isUrl`. zod's machinery is modelled
  only through the messages it reports for these schemas.
- `parseInt` of `content-length` is modelled as `Option<int>`.
- `req.json()` is modelled as the body value it yields, `null` when the body is not JSON.
- JavaScript's `String()` of a non-string item text is the parameter `show`.
- String lengths count code points; JavaScript counts UTF-16 units. The 60000-character
  truncation can differ on text outside the Basic Multilingual Plane.
- Numbers are reals. NaN, infinities and a non-integer `credits` are not modelled.
- Strings.IntToString, RateLimit.CheckRateLimit: the limiter's counts and times are unbounded
  integers. JavaScript's `String(n)` switches to exponent notation from 1e21, and `now + windowMs`
  loses precision above 2^53. Neither happens with millisecond clock values.
- The prompt text, the model name and the generation settings are not modelled; they are data
  sent to the model.
- Console logging is not modelled, except the two bookkeeping failure logs, which are in the
  call trace. Truncating the Supadata error body to 500 characters is not modelled.
- Gemini.AnalyzeTranscript: a `SyntaxError` thrown by the model call itself, rather than by
  `JSON.parse`, is not modelled.
- The outer `catch` of `POST` is not modelled. It turns an exception thrown by a collaborator
  outside the modelled error paths into a 500.
- Supadata.GetVideoData: a failure of `response.text()` on a failing status is not modelled.
- Route.MapError: only the table's own keys are looked up. In the source an inherited property
  name such as `toString` would also be truthy. The collaborators modelled here never produce one.
- Route.Analyzed, Route.Success: the handler answers with the summary items exactly as
  `isValidAnalysisResult` let them through, extra fields included (lib/gemini.ts:150-156,
  app/api/summarize/route.ts:238-248). The model keeps only emoji and text.
- `summaryResponseSchema` and `apiErrorSchema` are not modelled. No modelled operation uses them.
- `RATE_LIMIT_CONFIGS.health` is declared as `HealthConfig`. Nothing in the core uses it.
