/** The zod schemas of lib/schemas.ts and the two validators built on them. Each schema is modelled
    by the list of issue messages zod (version 3) reports for a value, in the order zod reports
    them; a value is accepted exactly when that list is empty. */
module Schemas {
  import opened Wrappers
  import opened Strings
  import opened Json
  import opened Validators

  /** zod's name for the type of a parsed value, as used in `Expected X, received Y`. */
  function TypeName(v: Value): string {
    match v
    case Undefined => "undefined"
    case Null => "null"
    case Bool(_) => "boolean"
    case Num(_) => "number"
    case Str(_) => "string"
    case Arr(_) => "array"
    case Obj(_) => "object"
  }

  /** zod's `invalid_type` message: a missing value is `Required`. */
  function TypeIssue(expected: string, v: Value): string {
    if v.Undefined? then "Required" else "Expected " + expected + ", received " + TypeName(v)
  }

  const TooShortString := "String must contain at least 1 character(s)"
  const TooFewItems := "Array must contain at least 1 element(s)"
  const TooManyItems := "Array must contain at most 10 element(s)"
  const MaxSummaryItems := 10

  /** The outcome of `safeParse`, with the issue messages joined by `"; "` on failure. */
  datatype Validation<T> = Valid(data: T) | Invalid(error: string)

  /** The issues of `z.string().min(1)`. */
  function NonEmptyStringIssues(v: Value): (issues: seq<string>)
    ensures issues == [] <==> v.Str? && |v.s| >= 1
  {
    if !v.Str? then [TypeIssue("string", v)]
    else if |v.s| < 1 then [TooShortString]
    else []
  }

  // ---------------------------------------------------------------------------------------------
  // summarizeRequestSchema

  const UrlRequired := "URL is required"
  const UrlMalformed := "Invalid URL format"
  const UrlNotYouTube := "URL must be a valid YouTube link"

  /** The issues of the `url` field: a type error stops there; on a string all three checks run,
      the refinement included, since zod runs a refinement on a value whose earlier checks only
      marked it dirty. */
  function UrlIssues(v: Value, isUrl: string -> bool): seq<string> {
    if !v.Str? then [TypeIssue("string", v)]
    else
      (if |v.s| < 1 then [UrlRequired] else [])
      + (if !isUrl(v.s) then [UrlMalformed] else [])
      + (if !IsValidYouTubeUrl(v.s) then [UrlNotYouTube] else [])
  }

  /** The issues of `summarizeRequestSchema`. */
  function RequestIssues(data: Value, isUrl: string -> bool): seq<string> {
    if !data.Obj? then [TypeIssue("object", data)]
    else UrlIssues(Field(data, "url"), isUrl)
  }

  datatype SummarizeRequest = SummarizeRequest(url: string)

  /** A request zod accepts: an object whose `url` is a non-empty string that parses as a URL and
      is a YouTube link. */
  predicate AcceptsRequest(data: Value, isUrl: string -> bool) {
    var url := Field(data, "url");
    data.Obj? && url.Str? && |url.s| >= 1 && isUrl(url.s) && IsValidYouTubeUrl(url.s)
  }

  lemma RequestIssuesEmptyIff(data: Value, isUrl: string -> bool)
    ensures RequestIssues(data, isUrl) == [] <==> AcceptsRequest(data, isUrl)
  {
  }

  /** `validateSummarizeRequest`. */
  function ValidateSummarizeRequest(data: Value, isUrl: string -> bool): (r: Validation<SummarizeRequest>)
    ensures r.Valid? <==> AcceptsRequest(data, isUrl)
    ensures r.Valid? ==> Str(r.data.url) == Field(data, "url")
    ensures r.Invalid? ==> r.error == Join(RequestIssues(data, isUrl), "; ")
  {
    RequestIssuesEmptyIff(data, isUrl);
    if RequestIssues(data, isUrl) == [] then Valid(SummarizeRequest(Field(data, "url").s))
    else Invalid(Join(RequestIssues(data, isUrl), "; "))
  }

  /** A failed validation always says something. */
  lemma {:induction false} JoinNonEmpty(xs: seq<string>, sep: string)
    requires |xs| > 0 && forall i :: 0 <= i < |xs| ==> xs[i] != ""
    ensures Join(xs, sep) != ""
  {
    JoinLength(xs, sep);
    TotalLengthPositive(xs);
  }

  lemma {:induction false} TotalLengthPositive(xs: seq<string>)
    requires |xs| > 0 && forall i :: 0 <= i < |xs| ==> xs[i] != ""
    ensures TotalLength(xs) > 0
  {
    assert |xs[0]| > 0;
  }

  lemma RequestErrorNonEmpty(data: Value, isUrl: string -> bool)
    requires ValidateSummarizeRequest(data, isUrl).Invalid?
    ensures ValidateSummarizeRequest(data, isUrl).error != ""
  {
    var issues := RequestIssues(data, isUrl);
    assert forall i :: 0 <= i < |issues| ==> issues[i] != "";
    JoinNonEmpty(issues, "; ");
  }

  /** A body that is not an object fails with zod's type error; `null` is reported as such and
      not as a missing url. */
  lemma NullBodyRejected(isUrl: string -> bool)
    ensures ValidateSummarizeRequest(Null, isUrl) == Invalid("Expected object, received null")
  {
    var m := TypeIssue("object", Null);
    assert m == "Expected object, received null";
    assert RequestIssues(Null, isUrl) == [m];
    JoinSmall(m, "", "; ");
  }

  /** An object without `url` fails with `Required`. */
  lemma MissingUrlRejected(isUrl: string -> bool)
    ensures ValidateSummarizeRequest(Obj(map[]), isUrl) == Invalid("Required")
  {
    JoinSmall("Required", "", "; ");
  }

  /** Every string without a `y` is rejected as not being a YouTube link. */
  lemma NoYNotYouTube(url: string)
    requires NoYFrom(url, 0)
    ensures !IsValidYouTubeUrl(url)
  {
    if url != "" {
      PatternsStartWithY();
      NoYNoMatch(url, YouTubePatterns[0]);
      NoYNoMatch(url, YouTubePatterns[1]);
      NoYNoMatch(url, YouTubePatterns[2]);
    }
  }

  /** A well-formed url of another site fails only the YouTube refinement. */
  lemma VimeoRejected(isUrl: string -> bool)
    requires isUrl("https://vimeo.com/123456")
    ensures ValidateSummarizeRequest(Obj(map["url" := Str("https://vimeo.com/123456")]), isUrl)
      == Invalid(UrlNotYouTube)
  {
    NoYNotYouTube("https://vimeo.com/123456");
    JoinSmall(UrlNotYouTube, "", "; ");
  }

  /** Text that is not a url fails the url check, and then the refinement as well. */
  lemma NotAUrlRejected(isUrl: string -> bool)
    requires !isUrl("not-a-valid-url")
    ensures ValidateSummarizeRequest(Obj(map["url" := Str("not-a-valid-url")]), isUrl)
      == Invalid(UrlMalformed + "; " + UrlNotYouTube)
  {
    NoYNotYouTube("not-a-valid-url");
    JoinSmall(UrlMalformed, UrlNotYouTube, "; ");
  }

  /** The empty url fails all three checks, in schema order. */
  lemma EmptyUrlRejected(isUrl: string -> bool)
    requires !isUrl("")
    ensures ValidateSummarizeRequest(Obj(map["url" := Str("")]), isUrl)
      == Invalid(UrlRequired + "; " + UrlMalformed + "; " + UrlNotYouTube)
  {
    var issues := [UrlRequired, UrlMalformed, UrlNotYouTube];
    assert RequestIssues(Obj(map["url" := Str("")]), isUrl) == issues;
    assert issues[1..] == [UrlMalformed, UrlNotYouTube];
    JoinSmall(UrlMalformed, UrlNotYouTube, "; ");
  }

  /** A built watch url is accepted, and the request carries it unchanged. */
  lemma BuiltUrlAccepted(id: string, isUrl: string -> bool)
    requires IsValidVideoId(id) && isUrl(BuildYouTubeUrl(id))
    ensures ValidateSummarizeRequest(Obj(map["url" := Str(BuildYouTubeUrl(id))]), isUrl)
      == Valid(SummarizeRequest(BuildYouTubeUrl(id)))
  {
    BuildThenExtract(id);
  }

  // ---------------------------------------------------------------------------------------------
  // verdictEnum and verdictConfig

  datatype Verdict = MustWatch | Skip | RecapOnly

  const VerdictNames := ["MUST_WATCH", "SKIP", "RECAP_ONLY"]

  /** The enum value of a verdict. */
  function VerdictName(v: Verdict): (s: string)
    ensures s in VerdictNames
  {
    match v
    case MustWatch => "MUST_WATCH"
    case Skip => "SKIP"
    case RecapOnly => "RECAP_ONLY"
  }

  /** The verdict an enum value names, if any. */
  function ParseVerdict(s: string): Option<Verdict> {
    if s == "MUST_WATCH" then Some(MustWatch)
    else if s == "SKIP" then Some(Skip)
    else if s == "RECAP_ONLY" then Some(RecapOnly)
    else None
  }

  /** Names and verdicts are in one-to-one correspondence. */
  lemma VerdictNameRoundTrip(v: Verdict, s: string)
    ensures ParseVerdict(VerdictName(v)) == Some(v)
    ensures ParseVerdict(s) == Some(v) <==> s == VerdictName(v)
    ensures ParseVerdict(s).Some? <==> s in VerdictNames
  {
  }

  /** `z.enum([...])` on a value: a non-string is a type error naming the options, an unknown
      string an `invalid_enum_value`. */
  const EnumOptions := "'MUST_WATCH' | 'SKIP' | 'RECAP_ONLY'"

  function VerdictIssues(v: Value): (issues: seq<string>)
    ensures issues == [] <==> v.Str? && ParseVerdict(v.s).Some?
  {
    if !v.Str? then [TypeIssue(EnumOptions, v)]
    else if ParseVerdict(v.s).None? then ["Invalid enum value. Expected " + EnumOptions + ", received '" + v.s + "'"]
    else []
  }

  /** The badge a verdict is shown with. */
  datatype VerdictDisplay = VerdictDisplay(labelText: string, uiVerdict: string, color: string)

  /** `verdictConfig`. */
  function VerdictConfig(v: Verdict): VerdictDisplay {
    match v
    case MustWatch => VerdictDisplay("MUST WATCH", "must_watch", "hsl(142, 76%, 46%)")
    case Skip => VerdictDisplay("SKIP", "skip", "hsl(0, 80%, 55%)")
    case RecapOnly => VerdictDisplay("MEH", "meh", "hsl(38, 92%, 50%)")
  }

  /** The verdict a UI verdict stands for: `VerdictConfig` is inverted through its `uiVerdict`. */
  function VerdictOfUi(ui: string): Option<Verdict> {
    if ui == "must_watch" then Some(MustWatch)
    else if ui == "skip" then Some(Skip)
    else if ui == "meh" then Some(RecapOnly)
    else None
  }

  lemma VerdictConfigInvertible(v: Verdict)
    ensures VerdictOfUi(VerdictConfig(v).uiVerdict) == Some(v)
  {
  }

  /** Every verdict gets a badge of its own: distinct verdicts differ in label, UI verdict and
      colour. */
  lemma VerdictConfigDistinct(v: Verdict, w: Verdict)
    requires v != w
    ensures VerdictConfig(v).labelText != VerdictConfig(w).labelText
    ensures VerdictConfig(v).uiVerdict != VerdictConfig(w).uiVerdict
    ensures VerdictConfig(v).color != VerdictConfig(w).color
  {
  }

  // ---------------------------------------------------------------------------------------------
  // The AI response: verdict, label, description and summary

  datatype SummaryItem = SummaryItem(emoji: string, text: string)

  datatype AiResponse = AiResponse(verdict: Verdict, verdictLabel: string, verdictDescription: string,
                                   summary: seq<SummaryItem>)

  /** The issues of `summaryItemSchema`. */
  function ItemIssues(v: Value): seq<string> {
    if !v.Obj? then [TypeIssue("object", v)]
    else NonEmptyStringIssues(Field(v, "emoji")) + NonEmptyStringIssues(Field(v, "text"))
  }

  /** The element issues of an array, element by element. */
  function ItemsIssues(items: seq<Value>): (issues: seq<string>)
  {
    if items == [] then [] else ItemIssues(items[0]) + ItemsIssues(items[1..])
  }

  predicate IsSummaryItem(v: Value) {
    v.Obj? && Field(v, "emoji").Str? && |Field(v, "emoji").s| >= 1
    && Field(v, "text").Str? && |Field(v, "text").s| >= 1
  }

  lemma {:induction false} ItemsIssuesEmptyIff(items: seq<Value>)
    ensures ItemsIssues(items) == [] <==> forall i :: 0 <= i < |items| ==> IsSummaryItem(items[i])
  {
    if items != [] {
      ItemsIssuesEmptyIff(items[1..]);
      assert ItemIssues(items[0]) == [] <==> IsSummaryItem(items[0]);
      if forall i :: 1 <= i < |items| ==> IsSummaryItem(items[i]) {
        assert forall i :: 0 <= i < |items| - 1 ==> IsSummaryItem(items[1..][i]);
      }
      if forall i :: 0 <= i < |items| - 1 ==> IsSummaryItem(items[1..][i]) {
        forall i | 1 <= i < |items| ensures IsSummaryItem(items[i]) {
          assert items[i] == items[1..][i - 1];
        }
      }
    }
  }

  /** The issues of `z.array(summaryItemSchema).min(1).max(10)`: the length checks come first,
      then the issues of every element. */
  function SummaryIssues(v: Value): seq<string> {
    if !v.Arr? then [TypeIssue("array", v)]
    else
      (if |v.items| < 1 then [TooFewItems] else [])
      + (if |v.items| > MaxSummaryItems then [TooManyItems] else [])
      + ItemsIssues(v.items)
  }

  /** The issues of the partial response schema, field by field in schema order. */
  function AiResponseIssues(data: Value): seq<string> {
    if !data.Obj? then [TypeIssue("object", data)]
    else
      VerdictIssues(Field(data, "verdict"))
      + NonEmptyStringIssues(Field(data, "verdictLabel"))
      + NonEmptyStringIssues(Field(data, "verdictDescription"))
      + SummaryIssues(Field(data, "summary"))
  }

  /** What the partial response schema demands. */
  predicate AcceptsAiResponse(data: Value) {
    var verdict := Field(data, "verdict");
    var verdictLabel := Field(data, "verdictLabel");
    var description := Field(data, "verdictDescription");
    var summary := Field(data, "summary");
    && data.Obj?
    && verdict.Str? && ParseVerdict(verdict.s).Some?
    && verdictLabel.Str? && |verdictLabel.s| >= 1
    && description.Str? && |description.s| >= 1
    && summary.Arr? && 1 <= |summary.items| <= MaxSummaryItems
    && forall i :: 0 <= i < |summary.items| ==> IsSummaryItem(summary.items[i])
  }

  lemma AiResponseIssuesEmptyIff(data: Value)
    ensures AiResponseIssues(data) == [] <==> AcceptsAiResponse(data)
  {
    if data.Obj? && Field(data, "summary").Arr? {
      ItemsIssuesEmptyIff(Field(data, "summary").items);
    }
  }

  /** The parsed item: its two strings, any other field dropped. */
  function DecodeItem(v: Value): (item: SummaryItem)
    requires IsSummaryItem(v)
    ensures Field(v, "emoji") == Str(item.emoji) && Field(v, "text") == Str(item.text)
  {
    SummaryItem(Field(v, "emoji").s, Field(v, "text").s)
  }

  function DecodeItems(items: seq<Value>): (r: seq<SummaryItem>)
    requires forall i :: 0 <= i < |items| ==> IsSummaryItem(items[i])
    ensures |r| == |items|
    ensures forall i :: 0 <= i < |items| ==> r[i] == DecodeItem(items[i])
  {
    if items == [] then [] else [DecodeItem(items[0])] + DecodeItems(items[1..])
  }

  /** `validateAiResponse`: accepted exactly when the schema's conditions hold, and then the data
      carries the input's fields (zod drops any other); otherwise the issues joined by `"; "`. */
  function ValidateAiResponse(data: Value): (r: Validation<AiResponse>)
    ensures r.Valid? <==> AcceptsAiResponse(data)
    ensures r.Valid? ==>
      && Field(data, "verdict") == Str(VerdictName(r.data.verdict))
      && Field(data, "verdictLabel") == Str(r.data.verdictLabel)
      && Field(data, "verdictDescription") == Str(r.data.verdictDescription)
      && |r.data.summary| == |Field(data, "summary").items|
      && forall i :: 0 <= i < |r.data.summary| ==>
        && Field(Field(data, "summary").items[i], "emoji") == Str(r.data.summary[i].emoji)
        && Field(Field(data, "summary").items[i], "text") == Str(r.data.summary[i].text)
    ensures r.Invalid? ==> r.error == Join(AiResponseIssues(data), "; ")
  {
    AiResponseIssuesEmptyIff(data);
    if AiResponseIssues(data) == [] then
      var verdict := ParseVerdict(Field(data, "verdict").s).value;
      VerdictNameRoundTrip(verdict, Field(data, "verdict").s);
      Valid(AiResponse(verdict, Field(data, "verdictLabel").s, Field(data, "verdictDescription").s,
                       DecodeItems(Field(data, "summary").items)))
    else
      Invalid(Join(AiResponseIssues(data), "; "))
  }

  /** The summary length bounds: an empty summary and one of eleven items are both rejected, with
      the matching length message first. */
  lemma SummaryLengthBounds(data: Value)
    requires data.Obj? && Field(data, "summary").Arr?
    ensures |Field(data, "summary").items| == 0 ==>
      ValidateAiResponse(data).Invalid? && TooFewItems in SummaryIssues(Field(data, "summary"))
    ensures |Field(data, "summary").items| > MaxSummaryItems ==>
      ValidateAiResponse(data).Invalid? && TooManyItems in SummaryIssues(Field(data, "summary"))
  {
  }
}
