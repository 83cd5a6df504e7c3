/**
 * The language-model client. The provider is chosen from the API base URL (Anthropic's
 * Messages API when it names `anthropic.com`, an OpenAI-compatible chat endpoint otherwise);
 * the request is built from the settings, and the reply is turned into the decoded JSON
 * object or into an error.
 */
module LlmClient {
  import opened Wrappers
  import opened PyStr
  import opened Errors
  import opened Config

  /** `_is_anthropic`: the API base mentions `anthropic.com`. */
  predicate IsAnthropic(apiBase: string) {
    Contains(apiBase, "anthropic.com")
  }

  /** The client's configuration, taken from the settings once, at construction. */
  datatype LLMClient = LLMClient(
    apiBase: string,
    apiKey: string,
    model: string,
    timeout: int,
    maxTokens: int,
    isAnthropic: bool)

  /**
   * `LLMClient.__init__`: the API base loses its trailing slashes, and the provider decision
   * on the stripped base is the same as on the configured one.
   */
  function NewLLMClient(s: Settings): (c: LLMClient)
    ensures c.apiBase == RStripChar(s.llmApiBase, '/') && !EndsWith(c.apiBase, "/")
    ensures c.isAnthropic == IsAnthropic(s.llmApiBase)
    ensures c.apiKey == s.llmApiKey && c.model == s.llmModel
    ensures c.timeout == s.llmTimeout && c.maxTokens == s.llmMaxTokens
  {
    var base := RStripChar(s.llmApiBase, '/');
    ProviderSurvivesRStrip(s.llmApiBase);
    LLMClient(base, s.llmApiKey, s.llmModel, s.llmTimeout, s.llmMaxTokens, IsAnthropic(base))
  }

  /**
   * `anthropic.com` ends in a letter, so an occurrence of it is never cut by removing
   * trailing slashes, and none is created by it.
   */
  lemma ProviderSurvivesRStrip(base: string)
    ensures IsAnthropic(RStripChar(base, '/')) == IsAnthropic(base)
  {
    var pat := "anthropic.com";
    var u := RStripChar(base, '/');
    assert u == base[..|u|];
    if IsAnthropic(base) {
      var i :| 0 <= i <= |base| - |pat| && OccursAt(base, pat, i);
      assert base[i + |pat| - 1] == 'm';
      assert i + |pat| <= |u|;
      assert u[i..i + |pat|] == base[i..i + |pat|];
      assert OccursAt(u, pat, i);
    }
    if IsAnthropic(u) {
      var i :| 0 <= i <= |u| - |pat| && OccursAt(u, pat, i);
      assert base[i..i + |pat|] == u[i..i + |pat|];
      assert OccursAt(base, pat, i);
    }
  }

  // ---------------------------------------------------------------------------
  // Requests
  // ---------------------------------------------------------------------------

  const UserPromptHead := "Analyze the following repository files and return the JSON summary.\n\n"
  const UserPromptTail := "\n\nRespond with ONLY a valid JSON object. Do not wrap it in markdown code fences."

  /** `USER_PROMPT_TEMPLATE.format(context=...)`: the context, framed by the instructions. */
  function UserPrompt(context: string): (m: string)
    ensures |m| == |UserPromptHead| + |context| + |UserPromptTail|
    ensures OccursAt(m, context, |UserPromptHead|) && Contains(m, context)
  {
    var m := UserPromptHead + context + UserPromptTail;
    assert m[|UserPromptHead|..|UserPromptHead| + |context|] == context;
    assert OccursAt(m, context, |UserPromptHead|);
    m
  }

  /** The `Authorization` header of an OpenAI-compatible request: sent only for a key that is not blank. */
  function BearerHeader(apiKey: string): (h: Option<string>)
    ensures h.Some? <==> Strip(apiKey) != []
    ensures h.Some? ==> h.value == "Bearer " + Strip(apiKey)
  {
    if apiKey != [] && Strip(apiKey) != [] then Some("Bearer " + Strip(apiKey)) else None
  }

  /** The HTTP request a call makes: where it goes, its headers, and the parts of its JSON payload. */
  datatype Request = Request(
    url: string,
    headers: map<string, string>,
    model: string,
    maxTokens: int,
    userMessage: string)

  /**
   * `_call_anthropic` / `_call_openai`, up to the POST: the endpoint below the API base,
   * the key in `x-api-key` (Anthropic) or as a bearer token (OpenAI, and only when it is not
   * blank), and the context inside the user message.
   */
  function BuildRequest(c: LLMClient, context: string): (q: Request)
    ensures c.isAnthropic ==> q.url == c.apiBase + "/v1/messages"
    ensures !c.isAnthropic ==> q.url == c.apiBase + "/chat/completions"
    ensures c.isAnthropic ==> "x-api-key" in q.headers && q.headers["x-api-key"] == Strip(c.apiKey)
    ensures !c.isAnthropic ==>
      ("Authorization" in q.headers <==> Strip(c.apiKey) != [])
      && ("Authorization" in q.headers ==> q.headers["Authorization"] == "Bearer " + Strip(c.apiKey))
    ensures q.model == c.model && q.maxTokens == c.maxTokens
    ensures Contains(q.userMessage, context)
  {
    var user := UserPrompt(context);
    if c.isAnthropic then
      var key := if c.apiKey != [] then Strip(c.apiKey) else "";
      Request(c.apiBase + "/v1/messages",
        map["x-api-key" := key, "anthropic-version" := "2023-06-01", "content-type" := "application/json"],
        c.model, c.maxTokens, user)
    else
      var auth := BearerHeader(c.apiKey);
      var headers: map<string, string> := if auth.Some? then map["Authorization" := auth.value] else map[];
      Request(c.apiBase + "/chat/completions", headers, c.model, c.maxTokens, user)
  }

  /** The endpoint path is joined to the API base with exactly one slash. */
  lemma EndpointJoin(s: Settings, context: string)
    requires RStripChar(s.llmApiBase, '/') != []
    ensures var c := NewLLMClient(s);
      var url := BuildRequest(c, context).url;
      url[|c.apiBase|] == '/' && url[|c.apiBase| - 1] != '/'
  {
  }

  // ---------------------------------------------------------------------------
  // Replies
  // ---------------------------------------------------------------------------

  /**
   * `_parse_json`'s fence removal. A reply starting with three backticks loses its first
   * line (or just the backticks, when it has a single line); then, if it ends with three
   * backticks, those go too and the rest is stripped. Any other reply is left as it is.
   */
  function StripFence(raw: string): (r: string)
    ensures !StartsWith(raw, "```") ==> r == raw
    ensures |r| <= |raw|
  {
    if !StartsWith(raw, "```") then raw
    else
      var body := if '\n' in raw then raw[IndexOf(raw, '\n') + 1..] else raw[3..];
      if EndsWith(body, "```") then StripShorter(body[..|body| - 3]); Strip(body[..|body| - 3])
      else body
  }

  lemma StripShorter(s: string)
    ensures |Strip(s)| <= |s|
  {
  }

  /** A reply fenced as a code block with an optional language tag gives back its stripped body. */
  lemma FencedReply(lang: string, body: string)
    requires '\n' !in lang
    ensures StripFence("```" + lang + "\n" + body + "```") == Strip(body)
  {
    var opening := "```" + lang;
    var raw := opening + "\n" + (body + "```");
    assert raw == "```" + lang + "\n" + body + "```";
    assert raw[..3] == "```";
    assert '\n' !in opening;
    IndexOfSplitPoint(opening, '\n', body + "```");
    assert raw[IndexOf(raw, '\n') + 1..] == body + "```";
    assert (body + "```")[|body|..] == "```";
    assert (body + "```")[..|body|] == body;
  }

  /** A code block that is never closed keeps the rest of the reply, unstripped. */
  lemma UnclosedFence(lang: string, body: string)
    requires '\n' !in lang && !EndsWith(body, "```")
    ensures StripFence("```" + lang + "\n" + body) == body
  {
    var opening := "```" + lang;
    var raw := opening + "\n" + body;
    assert raw[..3] == "```";
    assert '\n' !in opening;
    IndexOfSplitPoint(opening, '\n', body);
    assert raw[IndexOf(raw, '\n') + 1..] == body;
  }

  /**
   * What `json.loads` gives the summarizer: an object, whose `summary`, `technologies` and
   * `structure` entries may each be missing, or some other JSON value.
   */
  datatype Decoded =
    | NotAnObject
    | JsonObject(summary: Option<string>, technologies: Option<seq<string>>, structure: Option<string>)

  const InvalidJsonPrefix := "LLM returned invalid JSON: "

  /**
   * `_parse_json`: the reply without its fence, decoded by `decode` (standing for `json.loads`,
   * whose failure carries the decoder's message). A decoding failure is an `LLMClientError`
   * without a status code.
   */
  function ParseJson(raw: string, decode: string -> Result<Decoded, string>): (r: Result<Decoded, ServiceError>)
    ensures r.Success? <==> decode(StripFence(raw)).Success?
    ensures r.Success? ==> r.value == decode(StripFence(raw)).value
    ensures r.Failure? ==> r.error == LLMClientError(InvalidJsonPrefix + decode(StripFence(raw)).error, None)
  {
    match decode(StripFence(raw))
    case Success(d) => Success(d)
    case Failure(msg) => Failure(LLMClientError(InvalidJsonPrefix + msg, None))
  }

  /** A fenced reply is decoded exactly like its bare body, however the decoder behaves. */
  lemma FencedJsonLikeBare(lang: string, body: string, decode: string -> Result<Decoded, string>)
    requires '\n' !in lang && !StartsWith(Strip(body), "```")
    ensures ParseJson("```" + lang + "\n" + body + "```", decode) == ParseJson(Strip(body), decode)
  {
    FencedReply(lang, body);
  }

  /**
   * What the HTTP exchange returned: the status, the response text, and the reply's message
   * text at the provider's JSON path (`choices[0].message.content` or `content[0].text`),
   * absent when the response has no such entry.
   */
  datatype Reply = Reply(status: int, text: string, message: Option<string>)

  /** The provider's name at the head of an error message. */
  function ProviderLabel(c: LLMClient): string {
    if c.isAnthropic then "Anthropic API returned " else "LLM API returned "
  }

  const MissingMessage := "reply without message text"

  /**
   * `summarize`, after the POST: a status other than 200 becomes an `LLMClientError` carrying
   * the status and at most 500 characters of the response text; a response without message
   * text fails as an unexpected error; otherwise the stripped message text is parsed.
   */
  function HandleReply(c: LLMClient, reply: Reply, decode: string -> Result<Decoded, string>): (r: Result<Decoded, ServiceError>)
    ensures (r.Failure? && r.error.LLMClientError? && r.error.statusCode.Some?) <==> reply.status != 200
    ensures reply.status != 200 ==>
      r.error.statusCode == Some(reply.status)
      && StartsWith(r.error.message, ProviderLabel(c))
      && EndsWith(r.error.message, Take(reply.text, 500))
      && |Take(reply.text, 500)| <= 500
    ensures reply.status == 200 && reply.message.None? ==> r == Failure(UnexpectedError(MissingMessage))
    ensures reply.status == 200 && reply.message.Some? ==> r == ParseJson(Strip(reply.message.value), decode)
  {
    if reply.status != 200 then
      var head := ProviderLabel(c) + IntToString(reply.status) + ": ";
      var msg := head + Take(reply.text, 500);
      assert msg[..|ProviderLabel(c)|] == ProviderLabel(c);
      assert msg[|msg| - |Take(reply.text, 500)|..] == Take(reply.text, 500);
      Failure(LLMClientError(msg, Some(reply.status)))
    else if reply.message.None? then
      Failure(UnexpectedError(MissingMessage))
    else
      ParseJson(Strip(reply.message.value), decode)
  }
}
