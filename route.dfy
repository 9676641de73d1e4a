/** The `POST /api/summarize` handler of app/api/summarize/route.ts as a decision procedure over
    the outcomes of its collaborators (the signed-in user, the profile row, the transcript
    service, the analyzer and the bookkeeping writes), returning the response and the trace of
    collaborator calls it made. The rate limiter is the real one: the handler's only state. */
module Route {
  import opened Wrappers
  import opened Strings
  import opened Json
  import opened RateLimit
  import opened Validators
  import opened Schemas
  import Supadata
  import Gemini

  /** `MAX_BODY_SIZE`: the largest accepted `content-length`, in bytes. */
  const MaxBodySize := 1024
  /** `ANALYSIS_COST`: credits one analysis costs. */
  const AnalysisCost := 1

  datatype ErrorEntry = ErrorEntry(status: nat, message: string)

  /** `ERROR_MESSAGES`: collaborator error codes and the responses they are turned into. */
  const ErrorMessages: map<string, ErrorEntry> := map[
    "INVALID_URL" := ErrorEntry(400, "Invalid YouTube URL"),
    "VIDEO_NOT_FOUND" := ErrorEntry(404, "Video not found or unavailable"),
    "TRANSCRIPT_NOT_FOUND" := ErrorEntry(422, "Transcript not available for this video"),
    "API_KEY_INVALID" := ErrorEntry(401, "API configuration error"),
    "RATE_LIMIT_EXCEEDED" := ErrorEntry(429, "Too many requests. Please try again later"),
    "AI_RESPONSE_PARSE_ERROR" := ErrorEntry(500, "AI analysis failed. Please try again"),
    "VIDEO_TOO_LONG" := ErrorEntry(400, "Video is too long for analysis"),
    "REQUEST_TIMEOUT" := ErrorEntry(504, "Request timed out. Please try again"),
    "UNAUTHORIZED" := ErrorEntry(401, "Authentication required"),
    "INSUFFICIENT_CREDITS" := ErrorEntry(402, "Insufficient credits. Please purchase more credits to continue.")
  ]

  const AuthRequired := "Authentication required. Please sign in to analyze videos."
  const ProfileNotFound := "Profile not found. Please try signing out and back in."
  const NotEnoughCredits := "Insufficient credits. You need at least 1 credit to analyze a video."
  const TooManyRequests := "Too many requests. Please try again later."
  const BodyTooLarge := "Request body too large"
  const InvalidJson := "Invalid JSON"
  const InvalidUrl := "Invalid YouTube URL"
  const FetchFailed := "Failed to fetch video data"
  const NoTranscript := "Transcript not available for this video"
  const AnalysisFailed := "Failed to analyze video"

  /** What the handler reads from the request: the two proxy headers, `content-length` as
      `parseInt` reads it (`None` when absent, empty or not a number) and the body as
      `req.json().catch(() => null)` yields it (`Null` when it is not JSON). */
  datatype Request = Request(forwardedFor: Option<string>, realIp: Option<string>,
                             contentLength: Option<int>, body: Value)

  /** The collaborators, by their outcomes: the signed-in user's id, the profile's credits
      (`None` for a query error or a missing row), zod's url check, `getVideoData` and
      `analyzeTranscript` as functions of their argument, the errors of the credit deduction and
      of the history insert, and the credits read back at the end. */
  datatype Services = Services(
    user: Option<string>,
    credits: Option<int>,
    isUrl: string -> bool,
    fetchVideo: string -> Result<Supadata.VideoData>,
    analyze: string -> Result<AiResponse>,
    deductError: Option<string>,
    historyError: Option<string>,
    refreshedCredits: Option<int>)

  datatype Body =
    | ErrorBody(error: string, shownCredits: Option<int>)
    | Analysis(videoId: string, title: string, channelName: string, thumbnailUrl: string,
               verdict: Verdict, verdictLabel: string, verdictDescription: string,
               summary: seq<SummaryItem>, creditsRemaining: int)

  datatype Response = Response(status: nat, body: Body, headers: map<string, string>)

  /** The row written to `analysis_history`. */
  datatype HistoryRow = HistoryRow(userId: string, videoUrl: string, videoId: string,
                                   verdict: string, summary: string)

  /** One call to a collaborator, or one logged bookkeeping failure. */
  datatype Call =
    | GetUser
    | LoadProfile(userId: string)
    | CheckRate(ip: string)
    | ReadBody
    | FetchVideo(url: string)
    | Analyze(transcript: string)
    | DeductCredits(userId: string, amount: int, description: string)
    | LogDeductFailure(error: string)
    | InsertHistory(row: HistoryRow)
    | LogHistoryFailure(error: string)
    | RefreshProfile(userId: string)

  /** The response, the calls in the order made, and the rate limiter's store afterwards. */
  datatype Outcome = Outcome(response: Response, calls: seq<Call>, store: map<string, Entry>)

  /** The response and the calls of the part of the handler after the rate limiter. */
  datatype Reply = Reply(response: Response, calls: seq<Call>)

  function Fail(status: nat, message: string): Response {
    Response(status, ErrorBody(message, None), map[])
  }

  /** The 429 response, carrying the limiter's answer in its headers. */
  function RateLimited(r: RateLimitResult): Response {
    Response(429, ErrorBody(TooManyRequests, None),
             map["X-RateLimit-Limit" := IntToString(r.limit),
                 "X-RateLimit-Remaining" := IntToString(r.remaining),
                 "X-RateLimit-Reset" := IntToString(r.resetTime)])
  }

  /** A collaborator's error: its table entry when its message is a key, else 500 with `fallback`. */
  function MapError(message: string, fallback: string): Response {
    if message in ErrorMessages then Fail(ErrorMessages[message].status, ErrorMessages[message].message)
    else Fail(500, fallback)
  }

  /** `analysis.summary.map(s => s.text)`. */
  function SummaryTexts(items: seq<SummaryItem>): (ts: seq<string>) {
    seq(|items|, i requires 0 <= i < |items| => items[i].text)
  }

  /** Deduct, then insert the history row, then read the credits back; a failure of either write
      is only logged. */
  function Bookkeeping(userId: string, url: string, videoId: string, analysis: AiResponse, env: Services): seq<Call> {
    [DeductCredits(userId, AnalysisCost, "Analysis of video: " + videoId)]
    + (if env.deductError.Some? then [LogDeductFailure(env.deductError.value)] else [])
    + [InsertHistory(HistoryRow(userId, url, videoId, VerdictName(analysis.verdict), Join(SummaryTexts(analysis.summary), "\n")))]
    + (if env.historyError.Some? then [LogHistoryFailure(env.historyError.value)] else [])
    + [RefreshProfile(userId)]
  }

  /** The 200 response: the video fields, the analysis fields and the credits left. */
  function Success(video: Supadata.VideoData, analysis: AiResponse, credits: int, refreshed: Option<int>): Response {
    Response(200, Analysis(video.videoId, video.title, video.channelName, video.thumbnailUrl,
                           analysis.verdict, analysis.verdictLabel, analysis.verdictDescription,
                           analysis.summary, refreshed.GetOr(credits - AnalysisCost)), map[])
  }

  /** The handler from the body-size check on, for an admitted user with `credits` credits. */
  function Admitted(req: Request, env: Services, userId: string, credits: int): Reply {
    if req.contentLength.Some? && req.contentLength.value > MaxBodySize then Reply(Fail(413, BodyTooLarge), [])
    else if Falsy(req.body) then Reply(Fail(400, InvalidJson), [ReadBody])
    else match ValidateSummarizeRequest(req.body, env.isUrl)
      case Invalid(e) => Reply(Fail(400, e), [ReadBody])
      case Valid(request) =>
        match ExtractVideoId(request.url)
        case None => Reply(Fail(400, InvalidUrl), [ReadBody])
        case Some(videoId) =>
          var rest := Analyzed(env, userId, credits, request.url, videoId);
          Reply(rest.response, [ReadBody] + rest.calls)
  }

  /** The handler from the transcript request on, for the validated `url` and its `videoId`. */
  function Analyzed(env: Services, userId: string, credits: int, url: string, videoId: string): Reply {
    match env.fetchVideo(url)
    case Err(m) => Reply(MapError(m, FetchFailed), [FetchVideo(url)])
    case Ok(video) =>
      if Trim(video.transcript) == "" then Reply(Fail(422, NoTranscript), [FetchVideo(url)])
      else
        var analyzed := [FetchVideo(url), Analyze(video.transcript)];
        match env.analyze(video.transcript)
        case Err(m) => Reply(MapError(m, AnalysisFailed), analyzed)
        case Ok(analysis) =>
          Reply(Success(video, analysis, credits, env.refreshedCredits),
                analyzed + Bookkeeping(userId, url, videoId, analysis, env))
  }

  /** `POST(req)` with the limiter's store `store` at time `now`. */
  function Handle(req: Request, env: Services, store: map<string, Entry>, now: int): Outcome {
    if env.user.None? then Outcome(Fail(401, AuthRequired), [GetUser], store)
    else
      var userId := env.user.value;
      var loaded := [GetUser, LoadProfile(userId)];
      if env.credits.None? then Outcome(Fail(404, ProfileNotFound), loaded, store)
      else if env.credits.value < AnalysisCost then
        Outcome(Response(402, ErrorBody(NotEnoughCredits, Some(env.credits.value)), map[]), loaded, store)
      else
        var ip := ClientIp(req.forwardedFor, req.realIp);
        var step := CheckRateLimit(store, ip, SummarizeConfig, now);
        var limited := [GetUser, LoadProfile(userId), CheckRate(ip)];
        if !step.result.success then Outcome(RateLimited(step.result), limited, step.store)
        else
          var reply := Admitted(req, env, userId, env.credits.value);
          Outcome(reply.response, limited + reply.calls, step.store)
  }

  /** The handler against the module-level limiter: the gates in order, each returning early. */
  method Post(limiter: RateLimiter, req: Request, env: Services, now: int) returns (response: Response, calls: seq<Call>)
    modifies limiter
    ensures Outcome(response, calls, limiter.store) == Handle(req, env, old(limiter.store), now)
  {
    calls := [GetUser];
    if env.user.None? {
      return Fail(401, AuthRequired), calls;
    }
    var userId := env.user.value;
    calls := calls + [LoadProfile(userId)];
    assert calls == [GetUser, LoadProfile(userId)];
    if env.credits.None? {
      return Fail(404, ProfileNotFound), calls;
    }
    var credits := env.credits.value;
    if credits < AnalysisCost {
      return Response(402, ErrorBody(NotEnoughCredits, Some(credits)), map[]), calls;
    }
    var ip := ClientIp(req.forwardedFor, req.realIp);
    calls := calls + [CheckRate(ip)];
    assert calls == [GetUser, LoadProfile(userId), CheckRate(ip)];
    var rate := limiter.Check(ip, SummarizeConfig, now);
    if !rate.success {
      return RateLimited(rate), calls;
    }
    var served, more := Serve(req, env, userId, credits);
    return served, calls + more;
  }

  /** The handler from the body-size check on. */
  method Serve(req: Request, env: Services, userId: string, credits: int) returns (response: Response, calls: seq<Call>)
    ensures Reply(response, calls) == Admitted(req, env, userId, credits)
  {
    if req.contentLength.Some? && req.contentLength.value > MaxBodySize {
      return Fail(413, BodyTooLarge), [];
    }
    calls := [ReadBody];
    if Falsy(req.body) {
      return Fail(400, InvalidJson), calls;
    }
    var validation := ValidateSummarizeRequest(req.body, env.isUrl);
    if validation.Invalid? {
      return Fail(400, validation.error), calls;
    }
    var url := validation.data.url;
    var videoId := ExtractVideoId(url);
    if videoId.None? {
      return Fail(400, InvalidUrl), calls;
    }
    var answered, more := Run(env, userId, credits, url, videoId.value);
    return answered, calls + more;
  }

  /** The transcript request, the transcript check, the analysis and the bookkeeping. */
  method Run(env: Services, userId: string, credits: int, url: string, videoId: string) returns (response: Response, calls: seq<Call>)
    ensures Reply(response, calls) == Analyzed(env, userId, credits, url, videoId)
  {
    calls := [FetchVideo(url)];
    var fetched := env.fetchVideo(url);
    if fetched.Err? {
      return MapError(fetched.message, FetchFailed), calls;
    }
    var video := fetched.value;
    if Trim(video.transcript) == "" {
      return Fail(422, NoTranscript), calls;
    }
    calls := calls + [Analyze(video.transcript)];
    assert calls == [FetchVideo(url), Analyze(video.transcript)];
    var analysis := env.analyze(video.transcript);
    if analysis.Err? {
      return MapError(analysis.message, AnalysisFailed), calls;
    }
    var recorded := Record(userId, url, videoId, analysis.value, env);
    calls := calls + recorded;
    response := Success(video, analysis.value, credits, env.refreshedCredits);
  }

  /** The bookkeeping after a successful analysis, one call after the other. */
  method Record(userId: string, url: string, videoId: string, analysis: AiResponse, env: Services) returns (calls: seq<Call>)
    ensures calls == Bookkeeping(userId, url, videoId, analysis, env)
  {
    calls := [DeductCredits(userId, AnalysisCost, "Analysis of video: " + videoId)];
    if env.deductError.Some? {
      calls := calls + [LogDeductFailure(env.deductError.value)];
    }
    var row := HistoryRow(userId, url, videoId, VerdictName(analysis.verdict),
                          Join(SummaryTexts(analysis.summary), "\n"));
    calls := calls + [InsertHistory(row)];
    if env.historyError.Some? {
      calls := calls + [LogHistoryFailure(env.historyError.value)];
    }
    calls := calls + [RefreshProfile(userId)];
  }

  /** The user has signed in and has a profile with at least one credit. */
  predicate PassesAccountGates(env: Services) {
    env.user.Some? && env.credits.Some? && env.credits.value >= AnalysisCost
  }

  /** The account gates come first and in order: no user gives 401, then no profile 404, then too
      few credits 402 with the balance. Each answers after at most the user and profile lookups,
      before the rate limiter, so a rejected request consumes no rate-limit budget. */
  lemma AccountGates(req: Request, env: Services, store: map<string, Entry>, now: int)
    ensures var o := Handle(req, env, store, now);
      && (env.user.None? ==> o.response == Fail(401, AuthRequired) && o.calls == [GetUser])
      && (env.user.Some? && env.credits.None? ==>
            o.response == Fail(404, ProfileNotFound) && o.calls == [GetUser, LoadProfile(env.user.value)])
      && (env.user.Some? && env.credits.Some? && env.credits.value < AnalysisCost ==>
            && o.response.status == 402
            && o.response.body == ErrorBody(NotEnoughCredits, Some(env.credits.value))
            && o.calls == [GetUser, LoadProfile(env.user.value)])
      && (!PassesAccountGates(env) ==> o.store == store)
  {
  }

  /** A refusal by the limiter, once the account gates pass, answers 429 at once with the answer's
      limit, remaining count and reset time in the headers; the refusal stores nothing. */
  lemma RateLimitRefusal(req: Request, env: Services, store: map<string, Entry>, now: int)
    requires PassesAccountGates(env)
    requires !CheckRateLimit(store, ClientIp(req.forwardedFor, req.realIp), SummarizeConfig, now).result.success
    ensures var o := Handle(req, env, store, now);
      var r := CheckRateLimit(store, ClientIp(req.forwardedFor, req.realIp), SummarizeConfig, now).result;
      && o.store == store
      && o.calls == [GetUser, LoadProfile(env.user.value), CheckRate(ClientIp(req.forwardedFor, req.realIp))]
      && o.response.status == 429
      && o.response.headers == map["X-RateLimit-Limit" := IntToString(r.limit),
                                   "X-RateLimit-Remaining" := IntToString(r.remaining),
                                   "X-RateLimit-Reset" := IntToString(r.resetTime)]
  {
  }

  /** An admission by the limiter, once the account gates pass, keeps the limiter's new store and
      hands the request to the rest of the handler. */
  lemma RateLimitPass(req: Request, env: Services, store: map<string, Entry>, now: int)
    requires PassesAccountGates(env)
    requires CheckRateLimit(store, ClientIp(req.forwardedFor, req.realIp), SummarizeConfig, now).result.success
    ensures var o := Handle(req, env, store, now);
      var rest := Admitted(req, env, env.user.value, env.credits.value);
      && o.store == CheckRateLimit(store, ClientIp(req.forwardedFor, req.realIp), SummarizeConfig, now).store
      && o.response == rest.response
      && o.calls == [GetUser, LoadProfile(env.user.value), CheckRate(ClientIp(req.forwardedFor, req.realIp))] + rest.calls
  {
  }

  /** Every status in the error table is one of 400, 401, 402, 404, 422, 429, 500 and 504. */
  lemma TableStatuses(message: string)
    requires message in ErrorMessages
    ensures ErrorMessages[message].status in {400, 401, 402, 404, 422, 429, 500, 504}
  {
  }

  /** A mapped collaborator error is never a 200 or a 413. */
  lemma MapErrorStatus(message: string, fallback: string)
    ensures MapError(message, fallback).status !in {200, 413}
    ensures MapError(message, fallback).body.ErrorBody?
  {
    if message in ErrorMessages {
      TableStatuses(message);
    }
  }

  /** The body-size gate: a `content-length` read as more than 1024 answers 413 before the body is
      read; an absent, unreadable or smaller one never leads to 413. */
  lemma BodySizeGate(req: Request, env: Services, userId: string, credits: int)
    ensures var r := Admitted(req, env, userId, credits);
      && (req.contentLength.Some? && req.contentLength.value > MaxBodySize ==>
            r.response == Fail(413, BodyTooLarge) && r.calls == [])
      && (r.response.status == 413 <==> req.contentLength.Some? && req.contentLength.value > MaxBodySize)
  {
    var v := ValidateSummarizeRequest(req.body, env.isUrl);
    if !(req.contentLength.Some? && req.contentLength.value > MaxBodySize) && !Falsy(req.body) && v.Valid?
       && ExtractVideoId(v.data.url).Some? {
      AnalyzedStatus(env, userId, credits, v.data.url, ExtractVideoId(v.data.url).value);
    }
  }

  /** The rest of the handler never answers 413. */
  lemma AnalyzedStatus(env: Services, userId: string, credits: int, url: string, videoId: string)
    ensures Analyzed(env, userId, credits, url, videoId).response.status != 413
  {
    var f := env.fetchVideo(url);
    if f.Err? {
      MapErrorStatus(f.message, FetchFailed);
    } else if Trim(f.value.transcript) != "" {
      var a := env.analyze(f.value.transcript);
      if a.Err? {
        MapErrorStatus(a.message, AnalysisFailed);
      }
    }
  }

  /** Past the size gate: a falsy body (including one that is not JSON) answers 400 `Invalid JSON`,
      and a body the request schema rejects answers 400 with the validator's error verbatim. */
  lemma BodyGates(req: Request, env: Services, userId: string, credits: int)
    requires !(req.contentLength.Some? && req.contentLength.value > MaxBodySize)
    ensures var r := Admitted(req, env, userId, credits);
      && (Falsy(req.body) ==> r == Reply(Fail(400, InvalidJson), [ReadBody]))
      && (!Falsy(req.body) && !AcceptsRequest(req.body, env.isUrl) ==>
            r == Reply(Fail(400, Join(RequestIssues(req.body, env.isUrl), "; ")), [ReadBody]))
  {
  }

  /** A body the schema accepts always has an id, so the handler's own "Invalid YouTube URL" branch
      never fires: the validated url goes to the transcript service. */
  lemma ValidatedUrlIsFetched(req: Request, env: Services, userId: string, credits: int)
    requires !(req.contentLength.Some? && req.contentLength.value > MaxBodySize)
    requires !Falsy(req.body) && AcceptsRequest(req.body, env.isUrl)
    ensures var url := Field(req.body, "url").s;
      && ExtractVideoId(url).Some?
      && var rest := Analyzed(env, userId, credits, url, ExtractVideoId(url).value);
         Admitted(req, env, userId, credits) == Reply(rest.response, [ReadBody] + rest.calls)
  {
  }

  /** A transcript-service error is answered from the table when its message is a key and with a
      500 `Failed to fetch video data` otherwise; the analyzer is not called. */
  lemma FetchFailure(env: Services, userId: string, credits: int, url: string, videoId: string)
    requires env.fetchVideo(url).Err?
    ensures Analyzed(env, userId, credits, url, videoId) ==
      Reply(MapError(env.fetchVideo(url).message, FetchFailed), [FetchVideo(url)])
  {
  }

  /** An empty or whitespace-only transcript answers 422 and the analyzer is not called. */
  lemma BlankTranscript(env: Services, userId: string, credits: int, url: string, videoId: string)
    requires env.fetchVideo(url).Ok? && IsBlank(env.fetchVideo(url).value.transcript)
    ensures Analyzed(env, userId, credits, url, videoId) == Reply(Fail(422, NoTranscript), [FetchVideo(url)])
  {
    TrimEmptyIffBlank(env.fetchVideo(url).value.transcript);
  }

  /** An analyzer error is answered from the table when its message is a key and with a 500
      `Failed to analyze video` otherwise; nothing is deducted or recorded. */
  lemma AnalysisFailure(env: Services, userId: string, credits: int, url: string, videoId: string)
    requires env.fetchVideo(url).Ok? && !IsBlank(env.fetchVideo(url).value.transcript)
    requires env.analyze(env.fetchVideo(url).value.transcript).Err?
    ensures var t := env.fetchVideo(url).value.transcript;
      Analyzed(env, userId, credits, url, videoId) ==
        Reply(MapError(env.analyze(t).message, AnalysisFailed), [FetchVideo(url), Analyze(t)])
  {
    TrimEmptyIffBlank(env.fetchVideo(url).value.transcript);
  }

  /** A completed analysis answers 200 with the video's and the analysis' fields, and the credits
      read back, or one less than before when they cannot be read; the calls are the transcript
      request, the analysis and then the bookkeeping. */
  lemma Completed(env: Services, userId: string, credits: int, url: string, videoId: string)
    requires env.fetchVideo(url).Ok? && !IsBlank(env.fetchVideo(url).value.transcript)
    requires env.analyze(env.fetchVideo(url).value.transcript).Ok?
    ensures var video := env.fetchVideo(url).value;
      var analysis := env.analyze(video.transcript).value;
      var r := Analyzed(env, userId, credits, url, videoId);
      && r.response.status == 200 && r.response.headers == map[]
      && r.response.body == Analysis(video.videoId, video.title, video.channelName, video.thumbnailUrl,
                                     analysis.verdict, analysis.verdictLabel, analysis.verdictDescription,
                                     analysis.summary,
                                     if env.refreshedCredits.Some? then env.refreshedCredits.value else credits - 1)
      && r.calls == [FetchVideo(url), Analyze(video.transcript)] + Bookkeeping(userId, url, videoId, analysis, env)
  {
    TrimEmptyIffBlank(env.fetchVideo(url).value.transcript);
  }

  /** The bookkeeping deducts one credit with a description naming the video, then inserts the
      history row (the verdict's name and the summary texts one per line), then reads the credits
      back; a failed write adds only its log entry right after it. */
  lemma BookkeepingOrder(userId: string, url: string, videoId: string, analysis: AiResponse, env: Services)
    ensures var calls := Bookkeeping(userId, url, videoId, analysis, env);
      var h := if env.deductError.Some? then 2 else 1;
      && |calls| == 3 + (if env.deductError.Some? then 1 else 0) + (if env.historyError.Some? then 1 else 0)
      && calls[0] == DeductCredits(userId, AnalysisCost, "Analysis of video: " + videoId)
      && (env.deductError.Some? ==> calls[1] == LogDeductFailure(env.deductError.value))
      && calls[h] == InsertHistory(HistoryRow(userId, url, videoId, VerdictName(analysis.verdict),
                                              Join(SummaryTexts(analysis.summary), "\n")))
      && (env.historyError.Some? ==> calls[h + 1] == LogHistoryFailure(env.historyError.value))
      && calls[|calls| - 1] == RefreshProfile(userId)
  {
  }

  /** Bookkeeping failures are swallowed: whatever the deduction and the history insert report,
      the response and the limiter's store are the same. */
  lemma BookkeepingSwallowed(req: Request, env: Services, store: map<string, Entry>, now: int,
                             deductError: Option<string>, historyError: Option<string>)
    ensures var other := env.(deductError := deductError, historyError := historyError);
      && Handle(req, other, store, now).response == Handle(req, env, store, now).response
      && Handle(req, other, store, now).store == Handle(req, env, store, now).store
  {
    var other := env.(deductError := deductError, historyError := historyError);
    if PassesAccountGates(env) {
      AdmittedSwallowed(req, env, other, env.user.value, env.credits.value);
    }
  }

  lemma AdmittedSwallowed(req: Request, env: Services, other: Services, userId: string, credits: int)
    requires other == env.(deductError := other.deductError, historyError := other.historyError)
    ensures Admitted(req, other, userId, credits).response == Admitted(req, env, userId, credits).response
  {
    var v := ValidateSummarizeRequest(req.body, env.isUrl);
    if v.Valid? && ExtractVideoId(v.data.url).Some? {
      AnalyzedSwallowed(env, other, userId, credits, v.data.url, ExtractVideoId(v.data.url).value);
    }
  }

  lemma AnalyzedSwallowed(env: Services, other: Services, userId: string, credits: int, url: string, videoId: string)
    requires other == env.(deductError := other.deductError, historyError := other.historyError)
    ensures Analyzed(other, userId, credits, url, videoId).response == Analyzed(env, userId, credits, url, videoId).response
  {
  }

  /** How the transcript service's errors reach the client: a 404 from Supadata is a 404, a 403 is
      a 401 configuration error, a 429 is a 429, and any other failing status is a generic 500. */
  lemma SupadataErrorsAtRoute(status: nat)
    ensures status == 404 ==> MapError(Supadata.StatusError(status), FetchFailed) == Fail(404, "Video not found or unavailable")
    ensures status == 403 ==> MapError(Supadata.StatusError(status), FetchFailed) == Fail(401, "API configuration error")
    ensures status == 429 ==> MapError(Supadata.StatusError(status), FetchFailed) == Fail(429, "Too many requests. Please try again later")
    ensures status !in {403, 404, 429} ==> MapError(Supadata.StatusError(status), FetchFailed) == Fail(500, FetchFailed)
  {
    var e := Supadata.StatusError(status);
    if status == 404 {
      assert e == "VIDEO_NOT_FOUND";
    } else if status == 403 {
      assert e == "API_KEY_INVALID";
    } else if status == 429 {
      assert e == "RATE_LIMIT_EXCEEDED";
    } else {
      assert e[0] == 'S';
      UnlistedMessage(e, FetchFailed);
    }
  }

  /** No key of the table starts with `S` or `G`, so such a message becomes the generic 500. */
  lemma UnlistedMessage(e: string, fallback: string)
    requires e != [] && (e[0] == 'S' || e[0] == 'G')
    ensures MapError(e, fallback) == Fail(500, fallback)
  {
    assert e !in ErrorMessages;
  }

  /** A transcript the provider does not have is the table's 422; a missing provider key is not a
      key of the table and becomes the generic 500. */
  lemma SupadataFixedErrorsAtRoute()
    ensures MapError(Supadata.TranscriptNotFound, FetchFailed) == Fail(422, NoTranscript)
    ensures MapError(Supadata.MissingApiKey, FetchFailed) == Fail(500, FetchFailed)
  {
    assert Supadata.MissingApiKey[0] == 'S';
    UnlistedMessage(Supadata.MissingApiKey, FetchFailed);
  }

  /** How the analyzer's errors reach the client: an unparsable reply is the table's 500 "AI
      analysis failed", while a reply of the wrong shape and a missing key are not keys of the
      table and become the generic 500. */
  lemma GeminiErrorsAtRoute()
    ensures MapError(Gemini.ParseError, AnalysisFailed) == Fail(500, "AI analysis failed. Please try again")
    ensures MapError(Gemini.InvalidStructure, AnalysisFailed) == Fail(500, AnalysisFailed)
    ensures MapError(Gemini.MissingApiKey, AnalysisFailed) == Fail(500, AnalysisFailed)
  {
    assert Gemini.InvalidStructure[1] == 'n';
    assert Gemini.InvalidStructure !in ErrorMessages;
    assert Gemini.MissingApiKey[0] == 'G';
    UnlistedMessage(Gemini.MissingApiKey, AnalysisFailed);
  }

  /** With the transcript service answering as `getVideoData` does, the 200 response carries the
      id that service's own extractor reads from the url (or `unknown`) and its thumbnail, while the
      deduction and the history row carry the id the handler extracted itself. */
  lemma AnsweredVideoId(env: Services, userId: string, credits: int, url: string, videoId: string,
                        apiKey: Option<string>, fetch: Supadata.FetchOutcome, show: Value -> string)
    requires Supadata.Delivers(apiKey, fetch)
    requires env.fetchVideo(url) == Supadata.GetVideoData(url, apiKey, fetch, show)
    requires !IsBlank(env.fetchVideo(url).value.transcript)
    requires env.analyze(env.fetchVideo(url).value.transcript).Ok?
    ensures var r := Analyzed(env, userId, credits, url, videoId);
      && r.response.body.Analysis?
      && r.response.body.videoId == Supadata.ExtractVideoIdFromUrl(url).GetOr(Supadata.UnknownId)
      && r.response.body.thumbnailUrl == Supadata.ThumbnailUrl(r.response.body.videoId)
      && r.calls[2..] == Bookkeeping(userId, url, videoId, env.analyze(env.fetchVideo(url).value.transcript).value, env)
  {
    Supadata.GetVideoDataRecord(url, apiKey, fetch, show);
    Completed(env, userId, credits, url, videoId);
  }

  /** On a url holding a shorts link before a short link, the two extractors pick different videos:
      the response names the shorts video while the deduction and the history row name the other. */
  lemma MixedUrlNamesTwoVideos(env: Services, userId: string, credits: int,
                               apiKey: Option<string>, fetch: Supadata.FetchOutcome, show: Value -> string)
    requires Supadata.Delivers(apiKey, fetch)
    requires env.fetchVideo(Supadata.MixedUrl) == Supadata.GetVideoData(Supadata.MixedUrl, apiKey, fetch, show)
    requires !IsBlank(env.fetchVideo(Supadata.MixedUrl).value.transcript)
    requires env.analyze(env.fetchVideo(Supadata.MixedUrl).value.transcript).Ok?
    ensures ExtractVideoId(Supadata.MixedUrl) == Some(SampleId) && SampleId != Supadata.OtherId
    ensures var a := env.analyze(env.fetchVideo(Supadata.MixedUrl).value.transcript).value;
      var r := Analyzed(env, userId, credits, Supadata.MixedUrl, SampleId);
      && r.response.body.Analysis? && r.response.body.videoId == Supadata.OtherId
      && DeductCredits(userId, AnalysisCost, "Analysis of video: " + SampleId) in r.calls
      && InsertHistory(HistoryRow(userId, Supadata.MixedUrl, SampleId, VerdictName(a.verdict),
                                  Join(SummaryTexts(a.summary), "\n"))) in r.calls
  {
    Supadata.ExtractorsDisagree();
    var a := env.analyze(env.fetchVideo(Supadata.MixedUrl).value.transcript).value;
    AnsweredVideoId(env, userId, credits, Supadata.MixedUrl, SampleId, apiKey, fetch, show);
    BookkeepingOrder(userId, Supadata.MixedUrl, SampleId, a, env);
  }
}
