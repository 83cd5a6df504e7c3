/**
 * The summarization service: the result cache, kept in insertion order and bounded by
 * evicting its oldest entry, and the pipeline it guards (fetch the tree, download the
 * chosen files, build the context, ask the language model, assemble the response).
 */
module Summarizer {
  import opened Wrappers
  import opened PyStr
  import opened Schemas
  import opened Errors
  import opened Config
  import opened GitHubClient
  import opened ContextBuilder
  import opened LlmClient

  // ---------------------------------------------------------------------------
  // The result cache
  // ---------------------------------------------------------------------------

  /** No key occurs twice. */
  predicate Distinct(order: seq<string>) {
    forall i, j :: 0 <= i < j < |order| ==> order[i] != order[j]
  }

  /** The stored responses and the order their keys were stored in describe the same keys. */
  predicate CacheInvariant(entries: map<string, SummarizeResponse>, order: seq<string>) {
    |entries| == |order| && Distinct(order)
    && (forall k :: k in entries ==> k in order) && (forall i :: 0 <= i < |order| ==> order[i] in entries)
  }

  const PopFromEmpty := "IndexError: pop from empty list"

  /**
   * `_cache_set`: nothing happens for a key already stored; when the cache holds `maxSize`
   * entries or more the oldest key is evicted first, which fails (an `IndexError`) when there
   * is no oldest key; then the key is stored and becomes the newest.
   */
  function SetEffect(entries: map<string, SummarizeResponse>, order: seq<string>, key: string,
                     value: SummarizeResponse, maxSize: int): Result<(map<string, SummarizeResponse>, seq<string>), ServiceError>
  {
    if key in entries then Success((entries, order))
    else if |entries| >= maxSize then
      if order == [] then Failure(UnexpectedError(PopFromEmpty))
      else Success(((entries - {order[0]})[key := value], order[1..] + [key]))
    else Success((entries[key := value], order + [key]))
  }

  /**
   * Two stores of one key, as two overlapping requests for the same repository make them: the
   * second changes nothing, so the first response stays cached and the later one is dropped.
   */
  lemma SecondStoreDropped(entries: map<string, SummarizeResponse>, order: seq<string>, key: string,
                           first: SummarizeResponse, second: SummarizeResponse, maxSize: int)
    requires CacheInvariant(entries, order)
    requires SetEffect(entries, order, key, first, maxSize).Success?
    ensures var (e, o) := SetEffect(entries, order, key, first, maxSize).value;
      && SetEffect(e, o, key, second, maxSize) == Success((e, o))
      && key in e && e[key] == (if key in entries then entries[key] else first)
  {
    SetKeepsInvariant(entries, order, key, first, maxSize);
  }

  /** Storing keeps the invariant, and afterwards the key is stored with the first value given for it. */
  lemma SetKeepsInvariant(entries: map<string, SummarizeResponse>, order: seq<string>, key: string,
                          value: SummarizeResponse, maxSize: int)
    requires CacheInvariant(entries, order)
    requires SetEffect(entries, order, key, value, maxSize).Success?
    ensures var (e, o) := SetEffect(entries, order, key, value, maxSize).value;
      CacheInvariant(e, o) && key in e && e[key] == (if key in entries then entries[key] else value)
      && o[|o| - 1] == (if key in entries then order[|order| - 1] else key)
  {
    if key !in entries {
      if |entries| >= maxSize {
        EvictKeepsInvariant(entries, order);
        AppendKeepsInvariant(entries - {order[0]}, order[1..], key, value);
      } else {
        AppendKeepsInvariant(entries, order, key, value);
      }
    }
  }

  lemma EvictKeepsInvariant(entries: map<string, SummarizeResponse>, order: seq<string>)
    requires CacheInvariant(entries, order) && order != []
    ensures CacheInvariant(entries - {order[0]}, order[1..])
  {
    var e := entries - {order[0]};
    var o := order[1..];
    assert order[0] in entries;
    assert |e| == |entries| - 1;
    forall k | k in e
      ensures k in o
    {
      var i :| 0 <= i < |order| && order[i] == k;
      assert o[i - 1] == k;
    }
  }

  lemma AppendKeepsInvariant(entries: map<string, SummarizeResponse>, order: seq<string>, key: string, value: SummarizeResponse)
    requires CacheInvariant(entries, order) && key !in entries
    ensures CacheInvariant(entries[key := value], order + [key])
  {
    var o := order + [key];
    forall i, j | 0 <= i < j < |o|
      ensures o[i] != o[j]
    {
      if j == |order| {
        assert o[i] in entries;
      }
    }
  }

  /**
   * Storing fails exactly when the cache is empty and its bound is zero or less: then the
   * first store has no oldest entry to evict.
   */
  lemma SetFailsOnlyWhenDisabled(entries: map<string, SummarizeResponse>, order: seq<string>, key: string,
                                 value: SummarizeResponse, maxSize: int)
    requires CacheInvariant(entries, order)
    ensures SetEffect(entries, order, key, value, maxSize).Failure? <==> entries == map[] && maxSize <= 0
  {
    if entries == map[] {
      assert order == [];
    } else {
      var k :| k in entries;
      assert k in order;
    }
  }

  /** A cache that holds at most `maxSize` entries, with `maxSize` positive, still does after a store. */
  lemma SetBounded(entries: map<string, SummarizeResponse>, order: seq<string>, key: string,
                   value: SummarizeResponse, maxSize: int)
    requires CacheInvariant(entries, order) && 1 <= maxSize && |entries| <= maxSize
    ensures SetEffect(entries, order, key, value, maxSize).Success?
    ensures |SetEffect(entries, order, key, value, maxSize).value.0| <= maxSize
  {
    SetFailsOnlyWhenDisabled(entries, order, key, value, maxSize);
    if key !in entries && |entries| >= maxSize {
      assert order[0] in entries;
      assert |entries - {order[0]}| == |entries| - 1;
    }
  }

  /** Eviction removes the oldest key only: every other stored key keeps its response. */
  lemma EvictionIsOldestFirst(entries: map<string, SummarizeResponse>, order: seq<string>, key: string,
                              value: SummarizeResponse, maxSize: int, k: string)
    requires CacheInvariant(entries, order) && key !in entries && |entries| >= maxSize && order != []
    requires k in entries && k != order[0]
    ensures SetEffect(entries, order, key, value, maxSize).Success?
    ensures var e := SetEffect(entries, order, key, value, maxSize).value.0;
      order[0] !in e && k in e && e[k] == entries[k]
  {
  }

  /** `_cache` and `_cache_order`: one store shared by every request the process serves. */
  class ResultCache {
    var entries: map<string, SummarizeResponse>
    var order: seq<string>

    ghost predicate Valid()
      reads this
    {
      CacheInvariant(entries, order)
    }

    constructor()
      ensures Valid() && entries == map[] && order == []
    {
      entries := map[];
      order := [];
    }

    /** `_cache_get`: the stored response, if any; the order is not refreshed. */
    method Get(key: string) returns (cached: Option<SummarizeResponse>)
      ensures cached.Some? <==> key in entries
      ensures cached.Some? ==> cached.value == entries[key]
    {
      if key in entries {
        return Some(entries[key]);
      }
      return None;
    }

    /** `_cache_set`, with the `IndexError` returned rather than raised. */
    method Set(key: string, value: SummarizeResponse, maxSize: int) returns (error: Option<ServiceError>)
      requires Valid()
      modifies this
      ensures Valid()
      ensures var effect := SetEffect(old(entries), old(order), key, value, maxSize);
        if effect.Failure? then error == Some(effect.error) && entries == old(entries) && order == old(order)
        else error == None && entries == effect.value.0 && order == effect.value.1
    {
      if key in entries {
        return None;
      }
      if |entries| >= maxSize {
        if order == [] {
          return Some(UnexpectedError(PopFromEmpty));
        }
        var oldest := order[0];
        order := order[1..];
        entries := entries - {oldest};
      }
      entries := entries[key := value];
      order := order + [key];
      SetKeepsInvariant(old(entries), old(order), key, value, maxSize);
      return None;
    }
  }

  // ---------------------------------------------------------------------------
  // The pipeline
  // ---------------------------------------------------------------------------

  /** `f"{owner}/{repo}"` */
  function CacheKey(owner: string, repo: string): string {
    owner + "/" + repo
  }

  /** Keys of different repositories differ, for owner and repository names without `/`. */
  lemma CacheKeyInjective(o1: string, r1: string, o2: string, r2: string)
    requires '/' !in o1 && '/' !in r1 && '/' !in o2 && '/' !in r2
    requires CacheKey(o1, r1) == CacheKey(o2, r2)
    ensures o1 == o2 && r1 == r2
  {
    SplitAt(o1, '/', r1);
    SplitAt(o2, '/', r2);
    SplitNoSeparator(r1, '/');
    SplitNoSeparator(r2, '/');
    assert Split(CacheKey(o1, r1), '/') == [o1, r1];
    assert Split(CacheKey(o2, r2), '/') == [o2, r2];
  }

  /**
   * Everything outside the process that one request depends on: GitHub's answer to the tree
   * request, the raw contents GitHub serves (a path is absent when its download fails), the
   * language model's reply to a request, and `json.loads`.
   */
  datatype World = World(
    treeStatus: int,
    tree: seq<TreeEntry>,
    rawFiles: map<string, string>,
    llmReply: Request -> Reply,
    decode: string -> Result<Decoded, string>)

  /** What each download returns, in the order of the files. */
  function Outcomes(files: seq<RepoFile>, rawFiles: map<string, string>): (r: seq<Option<string>>)
    ensures |r| == |files|
    ensures forall i :: 0 <= i < |files| ==> (r[i].Some? <==> files[i].path in rawFiles)
    ensures forall i :: 0 <= i < |files| && r[i].Some? ==> r[i].value == rawFiles[files[i].path]
  {
    seq(|files|, i requires 0 <= i < |files| =>
      if files[i].path in rawFiles then Some(rawFiles[files[i].path]) else None)
  }

  const NotAnObjectMessage := "AttributeError: reply is not a JSON object"

  /** `SummarizeResponse(summary=raw.get(...), ...)`: missing entries default to empty. */
  function ToResponse(d: Decoded): (r: Result<SummarizeResponse, ServiceError>)
    ensures r.Failure? <==> d.NotAnObject?
    ensures r.Success? ==>
      r.value.summary == d.summary.GetOr("")
      && r.value.technologies == d.technologies.GetOr([])
      && r.value.structure == d.structure.GetOr("")
  {
    match d
    case NotAnObject => Failure(UnexpectedError(NotAnObjectMessage))
    case JsonObject(summary, technologies, structure) =>
      Success(SummarizeResponse(summary.GetOr(""), technologies.GetOr([]), structure.GetOr("")))
  }

  /** The context the language model is given, from the candidate files. */
  function ContextFor(s: Settings, files: seq<RepoFile>, w: World): string {
    var downloaded := Downloaded(files, Outcomes(files, w.rawFiles), s.ContentBudget(), s.perFileMaxChars, 0).0;
    Join(Sections(downloaded, s.ContentBudget(), s.perFileMaxChars, 0), "\n")
  }

  /** `summarize` after a cache miss, up to the store: the response, or the first error raised. */
  function Pipeline(s: Settings, llm: LLMClient, owner: string, repo: string, w: World): Result<SummarizeResponse, ServiceError> {
    match FetchResult(w.treeStatus, w.tree, owner, repo)
    case Failure(e) => Failure(e)
    case Success(files) =>
      var context := ContextFor(s, files, w);
      match HandleReply(llm, w.llmReply(BuildRequest(llm, context)), w.decode)
      case Failure(e) => Failure(e)
      case Success(d) => ToResponse(d)
  }

  /**
   * The context sent to the model stays within the content budget, up to the newline between
   * sections and the partial section's closing fence.
   */
  lemma ContextWithinBudget(s: Settings, files: seq<RepoFile>, w: World)
    ensures var c := ContextFor(s, files, w);
      c == "" || |c| <= s.ContentBudget() + 4 + |files|
  {
    var r := Downloaded(files, Outcomes(files, w.rawFiles), s.ContentBudget(), s.perFileMaxChars, 0);
    DownloadedPicked(files, Outcomes(files, w.rawFiles), s.ContentBudget(), s.perFileMaxChars, 0);
    PickedNoLonger(r.0, files, Outcomes(files, w.rawFiles));
    ContextLength(r.0, s.ContentBudget(), s.perFileMaxChars);
  }

  /**
   * The context and the prompt's reserved share together stay within the maximum context size,
   * up to the same fence and newline slack; with the defaults, the context is at most
   * 96000 characters plus that slack.
   */
  lemma ContextLeavesPromptBuffer(s: Settings, files: seq<RepoFile>, w: World)
    ensures var c := ContextFor(s, files, w);
      c == "" || |c| + s.promptBufferChars <= s.maxContextChars + 4 + |files|
    ensures var c := ContextFor(Defaults, files, w);
      c == "" || |c| <= 96004 + |files|
  {
    ContextWithinBudget(s, files, w);
    ContextWithinBudget(Defaults, files, w);
    DefaultBudgets();
  }

  /** A failed tree request ends the pipeline with its error, before the model is asked. */
  lemma TreeErrorPropagates(s: Settings, llm: LLMClient, owner: string, repo: string, w: World)
    requires w.treeStatus != 200
    ensures Pipeline(s, llm, owner, repo, w).Failure?
    ensures Pipeline(s, llm, owner, repo, w).error.GitHubClientError?
    ensures Pipeline(s, llm, owner, repo, w).error.statusCode == Some(w.treeStatus)
  {
  }

  /**
   * The response, and the cache afterwards, of `summarize` over a cache in the state
   * (`entries`, `order`): a stored response is returned without running the pipeline; otherwise
   * the pipeline's error is returned and nothing is stored, or its response is stored and returned
   * (unless storing fails).
   */
  function Serve(entries: map<string, SummarizeResponse>, order: seq<string>, maxSize: int, key: string,
                 pipeline: Result<SummarizeResponse, ServiceError>)
    : (Result<SummarizeResponse, ServiceError>, map<string, SummarizeResponse>, seq<string>)
  {
    if key in entries then (Success(entries[key]), entries, order)
    else match pipeline
      case Failure(e) => (Failure(e), entries, order)
      case Success(response) =>
        match SetEffect(entries, order, key, response, maxSize)
        case Failure(e) => (Failure(e), entries, order)
        case Success((e2, o2)) => (Success(response), e2, o2)
  }

  /** Serving keeps the cache invariant. */
  lemma ServeKeepsInvariant(entries: map<string, SummarizeResponse>, order: seq<string>, maxSize: int, key: string,
                            pipeline: Result<SummarizeResponse, ServiceError>)
    requires CacheInvariant(entries, order)
    ensures var (_, e, o) := Serve(entries, order, maxSize, key, pipeline); CacheInvariant(e, o)
  {
    if key !in entries && pipeline.Success? && SetEffect(entries, order, key, pipeline.value, maxSize).Success? {
      SetKeepsInvariant(entries, order, key, pipeline.value, maxSize);
    }
  }

  /**
   * A repeated request is answered from the cache with the response of the first, whatever
   * the pipeline would give the second time; failures are not remembered.
   */
  lemma SecondRequestHitsCache(entries: map<string, SummarizeResponse>, order: seq<string>, maxSize: int, key: string,
                               first: Result<SummarizeResponse, ServiceError>, second: Result<SummarizeResponse, ServiceError>)
    requires CacheInvariant(entries, order)
    requires Serve(entries, order, maxSize, key, first).0.Success?
    ensures var (r1, e, o) := Serve(entries, order, maxSize, key, first);
      Serve(e, o, maxSize, key, second).0 == r1
  {
    if key !in entries {
      SetKeepsInvariant(entries, order, key, first.value, maxSize);
    }
  }

  /** A failed request leaves the cache as it was. */
  lemma FailuresNotCached(entries: map<string, SummarizeResponse>, order: seq<string>, maxSize: int, key: string,
                          pipeline: Result<SummarizeResponse, ServiceError>)
    requires Serve(entries, order, maxSize, key, pipeline).0.Failure?
    ensures Serve(entries, order, maxSize, key, pipeline).1 == entries
    ensures Serve(entries, order, maxSize, key, pipeline).2 == order
  {
  }

  /**
   * With a cache bound of zero or less every request that reaches the store fails: the empty
   * cache is already "full", and evicting from it raises.
   */
  lemma NonPositiveBoundFailsEveryStore(maxSize: int, key: string, pipeline: Result<SummarizeResponse, ServiceError>)
    requires maxSize <= 0
    ensures Serve(map[], [], maxSize, key, pipeline).0.Failure?
    ensures pipeline.Success? ==> Serve(map[], [], maxSize, key, pipeline).0 == Failure(UnexpectedError(PopFromEmpty))
  {
  }

  /** `SummarizerService`: the clients built from the settings, and the process-wide cache. */
  class SummarizerService {
    const settings: Settings
    const llm: LLMClient
    const cache: ResultCache

    constructor(settings: Settings, cache: ResultCache)
      ensures this.settings == settings && this.llm == NewLLMClient(settings) && this.cache == cache
    {
      this.settings := settings;
      this.llm := NewLLMClient(settings);
      this.cache := cache;
    }

    /** `summarize(owner, repo)`, against the world `w`. */
    method Summarize(owner: string, repo: string, w: World) returns (r: Result<SummarizeResponse, ServiceError>)
      requires cache.Valid()
      modifies cache
      ensures cache.Valid()
      ensures var (outcome, e, o) := Serve(old(cache.entries), old(cache.order), settings.cacheMaxSize,
                                           CacheKey(owner, repo), Pipeline(settings, llm, owner, repo, w));
        r == outcome && cache.entries == e && cache.order == o
    {
      var key := CacheKey(owner, repo);
      var cached := cache.Get(key);
      if cached.Some? {
        return Success(cached.value);
      }
      var fetched := FetchRepoFiles(w.treeStatus, w.tree, owner, repo);
      if fetched.Failure? {
        return Failure(fetched.error);
      }
      var files := fetched.value;
      var budget := settings.ContentBudget();
      var perFileMax := settings.perFileMaxChars;
      var downloaded, _ := DownloadFiles(files, Outcomes(files, w.rawFiles), budget, perFileMax);
      var context := BuildContext(downloaded, budget, perFileMax);
      assert context == ContextFor(settings, files, w);
      var reply := HandleReply(llm, w.llmReply(BuildRequest(llm, context)), w.decode);
      if reply.Failure? {
        return Failure(reply.error);
      }
      var response := ToResponse(reply.value);
      if response.Failure? {
        return Failure(response.error);
      }
      var error := cache.Set(key, response.value, settings.cacheMaxSize);
      if error.Some? {
        return Failure(error.value);
      }
      return Success(response.value);
    }
  }
}
