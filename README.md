# repo-summarizer, modelled in Dafny

repo-summarizer is a small web service with one endpoint, `POST /summarize`. Given a GitHub
repository URL it does the following:

1. Validates the URL and splits it into owner and repository.
2. Answers from an in-process result cache when it can.
3. Otherwise it lists the repository tree with GitHub's Trees API. It drops files it
   should not read (vendored directories, lock files, binaries, files over 512000 bytes)
   and scores the remaining files by how informative they are likely to be: README at
   the root, then manifests, deeper READMEs, entry points, top-level sources, then
   everything else (with tests last).
4. Sorts the candidates by score and downloads their contents in batches of ten, until a
   character budget is spent.
5. Assembles a bounded context. Each file is capped, wrapped in a fenced section, and the
   pass stops at the first section that does not fit; that section may be replaced by one
   shortened partial section.
6. Sends the context to a language model, either Anthropic's Messages API or an
   OpenAI-compatible endpoint. It strips a Markdown fence from the reply, decodes it as
   JSON, and caches and returns the summary.

GitHub, model and other failures become HTTP statuses 404, 429, 502 and 500.

The Dafny project follows the program's modules:

| file | module | what it models |
|---|---|---|
| `wrappers.dfy` | `Wrappers` | `Option` and `Result` |
| `errors.dfy` | `Errors` | the three exception kinds the service raises or lets escape |
| `pystr.dfy` | `PyStr` | the Python string operations the code relies on (slices, `strip`, `rstrip`, `split`, `join`, `count`, `lower`, `str(int)`) |
| `schemas.dfy` | `Schemas` | `RepoFile`, `SummarizeResponse`, the URL validator and `parse_owner_repo` |
| `file_filter.dfy` | `FileFilter` | `is_excluded` and `score_file` |
| `context_builder.dfy` | `ContextBuilder` | `build_context`, as a method with a loop proved against the function `Sections` |
| `github_client.dfy` | `GitHubClient` | the tree listing and its filtering and stable sort; the download loop, as methods proved against the function `Downloaded` |
| `llm_client.dfy` | `LlmClient` | provider choice, request construction, fence stripping, the reply's error paths |
| `config.dfy` | `Config` | the `.env` loader, as a method over an environment object; `Settings` and `content_budget` |
| `summarizer.dfy` | `Summarizer` | the result cache, as a class with `entries` and `order`; the pipeline; `SummarizerService.summarize` |
| `router.dfy` | `Router` | `summarize_repo`, the mapping from errors to HTTP answers |

Everything outside the process is an input: GitHub's answers, the language model's reply,
and `json.loads`. `Summarizer.World` bundles what one request depends on. When requests do not
overlap, the result of one request is a function of the cache state before it and of that
world. The methods that
change state (`ResultCache.Set`, `SummarizerService.Summarize`, `Router.SummarizeRepo`,
`Config.LoadDotEnv`) are proved to produce exactly what these functions say.

Behaviour of the code worth knowing:

- `download_files` is documented as stopping once the budget is consumed
  (`clients/github_client.py` lines 81-84). The loop checks the budget before each batch
  and again after each kept file (lines 107-108). A batch is fetched as a whole by
  `asyncio.gather` (line 96), so once the budget is reached the rest of that batch is
  fetched but not kept.
- `build_context` is documented as staying "within *budget* chars"
  (`utils/context_builder.py` line 18). Its partial section is `remaining + 5` characters
  long, so it overshoots what was left by 5 (`ContextBuilder.PartialSectionShape`).
- The tier spacing of `score_file` does not hold at every depth. It holds down to depth 9
  (`FileFilter.HighSignalFilesFirst`). A manifest 31 directories deep scores 41, behind a
  top-level source file's 40 (`FileFilter.DeepManifestLosesToTopLevel`).
- A `.env` line such as `=value` has an empty key. Setting `os.environ[""]` raises
  (`OSError` on POSIX, `ValueError` on Windows) while `config.py` is imported, so the service
  does not start
  (`Config.EmptyKeyLineFails`).
- With a cache bound of zero or less, every store fails with an `IndexError`, and so does
  every request that reaches it (`Summarizer.NonPositiveBoundFailsEveryStore`).
- The URL pattern's `$` also matches before a final newline, so a URL ending in `/\n` is
  accepted. Parsing it gives the repository as owner and `"\n"` as repository
  (`Schemas.NewlineAfterSlashAccepted`).
- Three entries of the excluded-extension set can never match: `.min.js`, `.min.css` and
  `.DS_Store` (`FileFilter.DeadExtensions`).

## Model

| member | source | states |
|---|---|---|
| Schemas.NewRepoFile | models/schemas.py:36-42 | A new file record has the given path and size, score 0 and no content. |
| Schemas.ValidateGithubUrl | models/schemas.py:17-23 | A URL is accepted exactly when its form without trailing slashes matches the repository pattern; it is returned in that form, which no longer ends in a slash; any other URL fails with the fixed "Invalid GitHub URL" message. |
| Schemas.TrailingSlashesIgnored | models/schemas.py:19-23 | Appending any number of slashes to a URL changes neither the verdict nor the result of validation. |
| Schemas.ParseOwnerRepo | models/schemas.py:25-27 | A pair comes back exactly when the URL without trailing slashes holds a slash (otherwise the source raises `IndexError`); neither piece holds a slash, and the stripped URL ends with owner, slash, repository, where the owner is a whole piece: it starts the stripped URL or follows a slash. |
| Schemas.ValidateThenParse | models/schemas.py:17-27 | Round trip: for well-formed owner and repository names and either scheme, the canonical URL with any number of trailing slashes validates to the URL without them, and parsing that gives back exactly the owner and the repository. |
| Schemas.NewlineAfterSlashAccepted | models/schemas.py:18-27 | A canonical URL followed by `/` and a newline is accepted unchanged, and parsing it yields the repository as owner and the newline as repository. |
| FileFilter.FileName | utils/file_filter.py:54 | The file name, the last `/`-separated piece of the path, holds no `/`. |
| FileFilter.Depth | utils/file_filter.py:90 | The number of `/` in a path equals the number of its directory segments. |
| FileFilter.Extension | utils/file_filter.py:58 | `os.path.splitext`'s extension is empty or starts with its only dot, and is a suffix of the name. |
| FileFilter.AnyExcludedDir | utils/file_filter.py:50-52 | The loop over the directory segments returns true exactly when some segment is an excluded directory name. |
| FileFilter.ExcludedDirectoryWins | utils/file_filter.py:50-52 | A path with an excluded directory among its directory segments is skipped whatever its file name and size. |
| FileFilter.ExtensionOf | utils/file_filter.py:58 | The extension of `stem.ext`, for a stem not starting with a dot and an `ext` without one, is `.ext`. |
| FileFilter.RootExclusion | utils/file_filter.py:45-65 | For a file at the root only the file-name, extension and size rules can fire. |
| FileFilter.OneDirExclusion | utils/file_filter.py:45-65 | For `dir/name` the directory rule looks at `dir` alone, and the other rules at `name`. |
| FileFilter.NodeModulesAsFileName | utils/file_filter.py:50-56 | An excluded directory name used as the file name does not trigger the directory rule: `src/node_modules` is kept. |
| FileFilter.NodeModulesAsDirectory | utils/file_filter.py:50-52 | The same name as a directory excludes the files below it: `node_modules/x.js` is skipped. |
| FileFilter.SizeThreshold | utils/file_filter.py:62-63 | Every file larger than the size limit is skipped, whatever its path. |
| FileFilter.SizeThresholdBoundary | utils/file_filter.py:62-63 | The comparison is strict: 512000 bytes is kept and 512001 is skipped. |
| FileFilter.ExtensionRuleExamples | utils/file_filter.py:58-60 | Only the last extension counts, lowered: `X.PNG` is skipped; `a.min.js` and `.DS_Store` are kept. |
| FileFilter.DeadExtensions | utils/file_filter.py:58-59 | No lowered extension equals `.min.js`, `.min.css` or `.DS_Store`, so those entries of the set never match. |
| FileFilter.BuiltPathExclusion | utils/file_filter.py:45-65 | For a path built from slash-free directory names and a file name, the file is skipped exactly when a directory is excluded, the name is an excluded file name, its lowered extension is excluded, or the size exceeds 512000. |
| FileFilter.RootReadmeScore | utils/file_filter.py:89-94 | `README.md` scores 0. |
| FileFilter.NestedReadmeScore | utils/file_filter.py:89-102 | `src/README.md` scores 21: a README one directory down. |
| FileFilter.RootManifestScore | utils/file_filter.py:89-98 | `package.json` scores 10: a manifest at the root. |
| FileFilter.EntryPointScore | utils/file_filter.py:89-106 | `a/b/main.py` scores 32: an entry point two directories down. |
| FileFilter.TestFileScore | utils/file_filter.py:89-115 | `a/b/c/tests/foo.py` scores 84: not a manifest, README or entry point, four deep, and its lowered path holds `tests/`. |
| FileFilter.ScoreRange | utils/file_filter.py:87-118 | A score is never negative, and it is 0 exactly for a README at the root. |
| FileFilter.ManifestIsNotReadme | utils/file_filter.py:72-79 | No manifest name matches the README pattern, so the order of those two tiers does not matter for manifests. |
| FileFilter.HighSignalFilesFirst | utils/file_filter.py:96-110 | Below depth 10, a manifest, README or entry point always scores under any file that is none of these. |
| FileFilter.ManifestScore | utils/file_filter.py:97-98 | A manifest scores 10 plus its depth, at any depth. |
| FileFilter.DeepManifestLosesToTopLevel | utils/file_filter.py:97-110 | A `package.json` 31 directories deep scores 41, more than the 40 of a plain top-level file. |
| ContextBuilder.Header | utils/context_builder.py:36 | The header is the path plus 5 characters. |
| ContextBuilder.CappedShape | utils/context_builder.py:32-34 | Content within the cap is kept as it is; longer content keeps its first `per_file_max` characters followed by the truncation marker. |
| ContextBuilder.FullSection | utils/context_builder.py:37-38 | A full section is the path plus the content plus 14 characters. |
| ContextBuilder.BuildContext | utils/context_builder.py:13-54 | The loop's result is the `"\n"`-join of the sections the pass specification `Sections` gives, and empty for no files. |
| ContextBuilder.AbsentFilesSkipped | utils/context_builder.py:29-30 | Files without content make no difference: the pass over all files equals the pass over the files with content. |
| ContextBuilder.AllFit | utils/context_builder.py:40-52 | When the full sections fit in the budget, equality included, every file with content is taken whole and there is no partial section. |
| ContextBuilder.TakenFits | utils/context_builder.py:40-52 | The sections taken whole, if any, fit in the budget. |
| ContextBuilder.StopOverflows | utils/context_builder.py:40 | The file at the stop index, when there is one, has content and its full section overflows. |
| ContextBuilder.TakenArePrefix | utils/context_builder.py:28-52 | The sections taken whole are the full sections of the files before the stop index. |
| ContextBuilder.SectionsByStop | utils/context_builder.py:28-54 | Greedy single pass: the result is the full sections of the files before the stop index, then at most one partial section for the file there; no later file is looked at, even one that would fit. |
| ContextBuilder.TakenBounds | utils/context_builder.py:40-52 | Before the stop index everything fits; at it, the full section overflows. |
| ContextBuilder.PartialSectionShape | utils/context_builder.py:41-48 | The partial content is a strict prefix of the capped content, `remaining - len(header) - 20` characters long; the partial section is `remaining + 5` long and ends with the marker and the closing fence. |
| ContextBuilder.ContextLength | utils/context_builder.py:28-54 | The context is empty or at most the budget plus 4 plus the number of files long. |
| GitHubClient.AuthorizationHeader | clients/github_client.py:32-35 | The bearer header is sent exactly when a non-empty token is configured, and it carries that token. |
| GitHubClient.TreeStatusError | clients/github_client.py:47-59 | The tree request fails exactly when its status is not 200, with a `GitHubClientError` carrying that status and the message for 404, for 403, or for any other status. |
| GitHubClient.ToFile | clients/github_client.py:68-72 | A kept entry becomes a file with its path, its size (0 when absent), its score and no content. |
| GitHubClient.FetchRepoFiles | clients/github_client.py:37-76 | The method returns what `FetchResult` specifies for the status and the entries. |
| GitHubClient.CollectCandidates | clients/github_client.py:64-72 | The loop fails with the `KeyError` exactly when some blob lacks a path; otherwise it returns the kept candidates in tree order. |
| GitHubClient.KeptFilesExact | clients/github_client.py:65-72 | Every entry the filter keeps is among the candidates, and every candidate comes from a kept entry. |
| GitHubClient.KeptFilesSound | clients/github_client.py:65-72 | Every candidate is a file the filter keeps, scored by `score_file`, without content. |
| GitHubClient.Insert | clients/github_client.py:74 | Inserting one file adds exactly that file to the multiset. |
| GitHubClient.SortByScore | clients/github_client.py:74 | The sort is a permutation of its input. |
| GitHubClient.InsertSorted | clients/github_client.py:74 | Inserting into a score-ordered sequence keeps it ordered. |
| GitHubClient.SortSorted | clients/github_client.py:74 | The sort's output is ordered by ascending score. |
| GitHubClient.InsertStable | clients/github_client.py:74 | Inserting a file puts it after every file of its score that was already there. |
| GitHubClient.SortStable | clients/github_client.py:74 | Python's sort is stable: the files of any one score keep their tree order. |
| GitHubClient.FetchResultSpec | clients/github_client.py:37-76 | A listing succeeds exactly for status 200 with no pathless blob. It yields the kept candidates sorted by score, as a permutation, each score's files in tree order. |
| GitHubClient.DownloadFiles | clients/github_client.py:78-111 | The batched loop returns what the file-by-file specification `Downloaded` gives; with a budget of zero or less it downloads nothing. |
| GitHubClient.DownloadBatch | clients/github_client.py:91-108 | One batch: the inner loop, including its break once the budget is reached, leaves exactly the work the specification leaves for the files after the batch. |
| GitHubClient.DownloadedPicked | clients/github_client.py:98-105 | The downloaded files are a subsequence of the input, in its order, each with its fetched content. |
| GitHubClient.DownloadedCharges | clients/github_client.py:106 | The final `used` is the charge of every downloaded file, capped per file, never its raw length. |
| GitHubClient.DownloadedBound | clients/github_client.py:92-108 | With nothing downloaded `used` is unchanged; otherwise the loop stops below the budget plus one file's cap. |
| GitHubClient.DownloadedPrefix | clients/github_client.py:91-108 | The kept files are a prefix of the successfully fetched files, with their contents, and fewer are kept only when the budget was reached. |
| GitHubClient.DownloadedAllUnderBudget | clients/github_client.py:91-108 | When the budget is never reached, every successfully fetched file is kept. |
| LlmClient.NewLLMClient | clients/llm_client.py:51-57 | The base URL loses its trailing slashes, and the provider decision on it equals the decision on the configured base. |
| LlmClient.ProviderSurvivesRStrip | clients/llm_client.py:44-57 | Removing trailing slashes neither removes nor creates an occurrence of `anthropic.com`. |
| LlmClient.UserPrompt | clients/llm_client.py:29-33 | The user message holds the context, framed by the fixed instructions. |
| LlmClient.BearerHeader | clients/llm_client.py:76-78 | The OpenAI bearer header is sent exactly for a key that is not blank after stripping, and carries the stripped key. |
| LlmClient.BuildRequest | clients/llm_client.py:65-119 | Anthropic requests go to `/v1/messages` with the stripped key in `x-api-key`; others go to `/chat/completions` with the optional bearer header; model, token limit and the context in the user message come along. |
| LlmClient.EndpointJoin | clients/llm_client.py:52-116 | The endpoint path is joined to the base with exactly one slash. |
| LlmClient.StripFence | clients/llm_client.py:133-137 | A reply that does not start with three backticks is left as it is; fence removal never lengthens a reply. |
| LlmClient.FencedReply | clients/llm_client.py:133-137 | A reply fenced as a code block, with an optional language tag, gives back its stripped body. |
| LlmClient.UnclosedFence | clients/llm_client.py:133-137 | A fence that is never closed loses its first line only, and the rest is not stripped. |
| LlmClient.ParseJson | clients/llm_client.py:131-143 | Decoding succeeds exactly when the decoder accepts the unfenced reply; a failure is an `LLMClientError` without a status, with the decoder's message behind the fixed prefix. |
| LlmClient.FencedJsonLikeBare | clients/llm_client.py:131-143 | A fenced reply is decoded exactly like its bare body, whatever the decoder. |
| LlmClient.HandleReply | clients/llm_client.py:87-129 | A status other than 200 is exactly the case of an `LLMClientError` with a status. Its message names the provider and ends with at most 500 characters of the response text. A reply without message text is an unexpected error, and any other reply is parsed after stripping. |
| Config.ParseLine | config.py:10-15 | A line is ignored exactly when it is blank, a comment or lacks `=`; otherwise the key holds no `=` and key and value are stripped. |
| Config.ParseLinePartition | config.py:11-15 | A parsed line is, once stripped, a part without `=`, then `=`, then the rest, and the key and value are those two parts stripped. |
| Config.UnpaddedIsStripped | config.py:11-15 | The strings `strip()` leaves alone are exactly those without whitespace at either end. |
| Config.AssignmentError | config.py:17 | Setting a variable fails exactly when its name is empty or the name or value holds a NUL character. |
| Config.Environment.Set | config.py:17 | Either the variable is set and no error is returned, or the assignment's error is returned and the environment is unchanged. |
| Config.LoadDotEnv | config.py:9-17 | The loop leaves the environment, and returns the error, as `ApplyLines` gives for the old environment and the lines. |
| Config.FailureStopsLoading | config.py:9-17 | Once an assignment fails, the lines after it change nothing. |
| Config.LoaderSemantics | config.py:9-17 | A variable already set is never overridden, whether or not loading fails. When no assignment fails, an unset variable ends with the value of the first line that gives it a non-empty value, or stays unset. |
| Config.FailureHasCause | config.py:14-17 | Loading fails only at a line with a non-empty value whose assignment is illegal, and the error returned is that line's. |
| Config.EmptyKeyLineFails | config.py:14-17 | A line `=value` with a non-empty value fails with the empty-name error and changes nothing, unless the empty name is already set. |
| Config.IgnoredLineChangesNothing | config.py:12-13 | An ignored line leaves the environment unchanged and does not fail. |
| Config.ParseAssignment | config.py:11-15 | `key=value`, with a key that is not padded, not a comment and free of `=`, and an unpadded value, parses back to that key and value; the value may hold `=`. |
| Config.DefaultBudgets | config.py:49-58 | With the default settings 96000 characters go to content, at most 15000 from one file. |
| Summarizer.SetKeepsInvariant | services/summarizer.py:28-35 | A store keeps the map of responses and the insertion order describing the same distinct keys. Afterwards the key holds the first value stored for it and is the newest key. |
| Summarizer.SecondStoreDropped | services/summarizer.py:28-35 | A second store of a stored key changes nothing: the first value stays and the later one is dropped. |
| Summarizer.SetFailsOnlyWhenDisabled | services/summarizer.py:31-33 | A store fails exactly when the cache is empty and its bound is zero or less, since `pop(0)` then meets an empty list. |
| Summarizer.SetBounded | services/summarizer.py:31-35 | With a positive bound a cache within it stays within it. |
| Summarizer.EvictionIsOldestFirst | services/summarizer.py:31-33 | Eviction removes the oldest key and nothing else. |
| Summarizer.ResultCache.Get | services/summarizer.py:24-25 | A lookup finds exactly the stored keys, with their responses. |
| Summarizer.ResultCache.Set | services/summarizer.py:28-35 | The cache's new state, or the error, is what `SetEffect` gives, and the invariant holds. |
| Summarizer.CacheKeyInjective | services/summarizer.py:52 | Different repositories have different cache keys. |
| Summarizer.Outcomes | clients/github_client.py:113-122 | A download succeeds exactly for a path the world serves, with that content. |
| Summarizer.ToResponse | services/summarizer.py:80-84 | Missing fields default to empty; a reply that is not a JSON object fails. |
| Summarizer.ContextLeavesPromptBuffer | config.py:56-58 | The context plus the prompt buffer stays within the maximum context size, up to the same fence and newline slack; with the defaults the context is at most 96004 plus the candidate count. |
| Summarizer.ContextWithinBudget | services/summarizer.py:66-72 | The context sent to the model is empty or at most content budget plus 4 plus the candidate count long. |
| Summarizer.TreeErrorPropagates | services/summarizer.py:61 | A failed tree request ends the request with GitHub's error and its status. |
| Summarizer.ServeKeepsInvariant | services/summarizer.py:51-88 | Serving a request keeps the cache invariant. |
| Summarizer.SecondRequestHitsCache | services/summarizer.py:53-56 | A repeated request is answered from the cache with the first response, whatever the pipeline would now give. |
| Summarizer.FailuresNotCached | services/summarizer.py:51-88 | A failed request leaves the cache as it was. |
| Summarizer.NonPositiveBoundFailsEveryStore | services/summarizer.py:31-33 | With a bound of zero or less the first store raises, so every successful pipeline ends in that error. |
| Summarizer.SummarizerService.Summarize | services/summarizer.py:51-88 | The method returns what `Serve` gives for the old cache and the pipeline's outcome, and leaves the cache in the state `Serve` gives. |
| Router.EffectiveStatus | routers/summarize.py:36 | A missing or zero status becomes 502, and any other status is kept. |
| Router.ErrorResponse | routers/summarize.py:35-49 | 404 exactly for GitHub's 404; 429 exactly for GitHub's 403; 500 exactly for unexpected errors, with a fixed detail; everything else is 502; GitHub errors keep their message, and model errors get the prefix. |
| Router.Respond | routers/summarize.py:33-49 | A success becomes the response body; a failure becomes its error answer. |
| Router.RequestTarget | routers/summarize.py:32 | A URL that fails validation is answered with 422 and the validator's message. Every URL that passes yields an owner and a repository, neither holding `/`, so the 500 for a URL without `/` is never reached. |
| Router.RepositoryUrlTarget | routers/summarize.py:32 | A repository's URL over either scheme, with any trailing slashes, targets that repository. |
| Router.SummarizeRepo | routers/summarize.py:27-49 | The handler's answer and the new cache are those `Route` gives for the old cache. |

## Left out

- The network and httpx: GitHub's and the model's answers are inputs, bundled in `World`, and the transport's timeouts and the `Accept` headers are not modelled.
- Concurrency between requests: requests are modelled one at a time, each as an uninterrupted step over the cache as it was before. Their interleaving at the awaits between `_cache_get` and `_cache_set` (`services/summarizer.py` lines 61, 68 and 77) is not modelled. Each cache operation is atomic. Two overlapping first requests for one repository both miss and both run the pipeline; `Summarizer.SecondStoreDropped` shows that the later store is then dropped.
- `asyncio.gather` concurrency within a batch: the fetches of a batch are taken in input order, which is the order `zip` gives them.
- A download that raises and one that returns `None` are both a missing outcome, since the code treats them alike.
- Logging and timing (`time.monotonic`) are left out, since they change no result.
- `main.py`, `_build_service` and FastAPI's dependency injection: the service is an object the handler is given.
- JSON decoding is not modelled. `json.loads` is a parameter, and the tree response's decoding is replaced by the entries' fields, each possibly missing.
- A tree response without `tree` is modelled as an empty entry list. JSON fields of the wrong type, which pydantic or Python would reject at run time, are not modelled.
- The system prompt's text, the payload's `temperature` and the message list are not modelled; only the parts of the request the client computes are.
- Status codes appear in error messages through `PyStr.IntToString`; no property of that decimal rendering is proved.
- `\w` in the URL and README patterns is restricted to ASCII letters, digits and `_`; Python's Unicode word characters are not modelled.
- `str.lower()` lowers the ASCII capitals and the Kelvin sign (which lowers to `k`). Other non-ASCII letters are left as they are. `str.strip()` removes every character `str.isspace` accepts.
- The in-place `f.content = content` on the caller's file records, and the aliasing it causes, is modelled on values: the downloaded files are new records.
- Only two failures of `os.environ[key] = value` are modelled: a NUL character in the name or the value, and an empty name. Which exception each raises is not distinguished. Names that cannot be encoded, and the platform's own limits, are not modelled.
- Reading `.env` from disk and splitting it into lines are not modelled. The lines are an input, and the environment is a map from names to values.
- `os.getenv` and `int()` parsing of the settings are left out. `Settings` holds the resolved values, and the defaults are a constant.
- The exact 422 body FastAPI produces for a failed validation is not modelled: the answer carries the validator's message.
- `GitHubClient.SortByScore`: modelled as an insertion sort on values, with the stability that Python's sort promises, not as timsort in place.
- `GitHubClient.DownloadBatch`: the inner `break` is a return from the batch; the outer loop's check then ends the download.
- The module-level `_cache` and `_cache_order` are one `ResultCache` object shared through the service.
- In `LlmClient.HandleReply`, any failure of the reply path other than a non-200 status is an `UnexpectedError`. That covers a missing `choices` or `content` entry and a reply that is not an object.
- `FileFilter.Score`: returns an integer where the source returns a float with the same values.
