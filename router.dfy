/**
 * `POST /summarize`: the request's URL is validated, split into owner and repository, and
 * the service's outcome becomes the HTTP response; each kind of failure has its status.
 */
module Router {
  import opened Wrappers
  import opened PyStr
  import opened Schemas
  import opened Errors
  import opened Summarizer

  /** The HTTP answer: the summary, or an error status with its `detail`. */
  datatype HttpResponse =
    | Ok(body: SummarizeResponse)
    | HttpError(status: int, detail: string)

  const InternalErrorDetail := "Internal server error"
  const LlmErrorPrefix := "LLM service error: "

  /** `exc.status_code or 502`: an absent or zero status counts as 502. */
  function EffectiveStatus(statusCode: Option<int>): (s: int)
    ensures s != 0
    ensures statusCode.Some? && statusCode.value != 0 ==> s == statusCode.value
    ensures statusCode.None? || statusCode.value == 0 ==> s == 502
  {
    if statusCode.None? || statusCode.value == 0 then 502 else statusCode.value
  }

  /**
   * The `except` clauses of `summarize_repo`: a missing repository stays 404, GitHub's 403
   * (the rate limit) becomes 429 and other GitHub failures 502, all with the error's message;
   * a language-model failure is 502 with the message behind a prefix; anything else is a 500
   * that reveals nothing.
   */
  function ErrorResponse(e: ServiceError): (r: HttpResponse)
    ensures r.HttpError? && (r.status == 404 || r.status == 429 || r.status == 502 || r.status == 500)
    ensures r.status == 404 <==> e.GitHubClientError? && e.statusCode == Some(404)
    ensures r.status == 429 <==> e.GitHubClientError? && e.statusCode == Some(403)
    ensures r.status == 500 <==> e.UnexpectedError?
    ensures e.GitHubClientError? ==> r.detail == e.message
    ensures e.LLMClientError? ==> r.status == 502 && r.detail == LlmErrorPrefix + e.message
    ensures e.UnexpectedError? ==> r.detail == InternalErrorDetail
  {
    match e
    case GitHubClientError(message, statusCode) =>
      var status := EffectiveStatus(statusCode);
      if status == 404 then HttpError(404, message)
      else if status == 403 then HttpError(429, message)
      else HttpError(502, message)
    case LLMClientError(message, _) => HttpError(502, LlmErrorPrefix + message)
    case UnexpectedError(_) => HttpError(500, InternalErrorDetail)
  }

  /** The service's outcome as the HTTP answer. */
  function Respond(r: Result<SummarizeResponse, ServiceError>): (h: HttpResponse)
    ensures h.Ok? <==> r.Success?
    ensures h.Ok? ==> h.body == r.value
  {
    match r
    case Success(response) => Ok(response)
    case Failure(e) => ErrorResponse(e)
  }

  /** The framework's answer to a request body whose URL fails validation. */
  const UnprocessableStatus := 422

  /**
   * The owner and repository of a request, or the answer to give instead: a URL that fails
   * validation is rejected with 422. Every URL that passes has an owner and a repository,
   * neither holding `/`, so the framework's 500 for a URL without `/` is never reached.
   */
  function RequestTarget(url: string): (r: Result<(string, string), HttpResponse>)
    ensures ValidateGithubUrl(url).Failure? ==> r == Failure(HttpError(UnprocessableStatus, InvalidUrlMessage))
    ensures ValidateGithubUrl(url).Success? ==> r.Success? && '/' !in r.value.0 && '/' !in r.value.1
  {
    match ValidateGithubUrl(url)
    case Failure(e) => Failure(HttpError(UnprocessableStatus, e.message))
    case Success(u) =>
      PrefixedUrlHasSlash(u);
      RStripCharUnchanged(u, '/');
      match ParseOwnerRepo(u)
      case None => Failure(HttpError(500, InternalErrorDetail))
      case Some(target) => Success(target)
  }

  lemma PrefixedUrlHasSlash(u: string)
    requires MatchesRepoUrl(u)
    ensures '/' in u
  {
    if StartsWith(u, HttpsPrefix) {
      assert u[6] == HttpsPrefix[6];
    } else {
      assert u[5] == HttpPrefix[5];
    }
  }

  /** A repository's URL, over either scheme and with any trailing slashes, targets that repository. */
  lemma RepositoryUrlTarget(scheme: string, owner: string, repo: string, k: nat)
    requires scheme == "https:" || scheme == "http:"
    requires IsSegment(owner) && IsSegment(repo)
    ensures RequestTarget(scheme + "//github.com/" + owner + "/" + repo + Repeat('/', k)) == Success((owner, repo))
  {
    ValidateThenParse(scheme, owner, repo, k);
  }

  /**
   * `summarize_repo` as one function of the cache state before the request: the answer, and
   * the cache afterwards.
   */
  function Route(s: Config.Settings, llm: LlmClient.LLMClient, entries: map<string, SummarizeResponse>, order: seq<string>,
                 url: string, w: World)
    : (HttpResponse, map<string, SummarizeResponse>, seq<string>)
  {
    match RequestTarget(url)
    case Failure(answer) => (answer, entries, order)
    case Success((owner, repo)) =>
      var (outcome, e, o) := Serve(entries, order, s.cacheMaxSize, CacheKey(owner, repo), Pipeline(s, llm, owner, repo, w));
      (Respond(outcome), e, o)
  }

  /** `summarize_repo(body, service)`, with the service's world passed in. */
  method SummarizeRepo(service: SummarizerService, url: string, w: World) returns (answer: HttpResponse)
    requires service.cache.Valid()
    modifies service.cache
    ensures service.cache.Valid()
    ensures var (expected, e, o) := Route(service.settings, service.llm, old(service.cache.entries),
                                          old(service.cache.order), url, w);
      answer == expected && service.cache.entries == e && service.cache.order == o
  {
    var target := RequestTarget(url);
    if target.Failure? {
      return target.error;
    }
    var (owner, repo) := target.value;
    var outcome := service.Summarize(owner, repo, w);
    return Respond(outcome);
  }
}
