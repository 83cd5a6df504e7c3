/**
 * The GitHub side of the service: the repository tree reduced to scored candidate files in
 * priority order, and the download of their contents within a character budget. The HTTP
 * calls are replaced by their outcomes, given as inputs.
 */
module GitHubClient {
  import opened Wrappers
  import opened PyStr
  import opened Schemas
  import opened FileFilter
  import opened Errors

  /** The `Authorization` header: sent when a token is configured and not empty. */
  function AuthorizationHeader(token: Option<string>): (h: Option<string>)
    ensures h.Some? <==> token.Some? && token.value != ""
    ensures h.Some? ==> StartsWith(h.value, "Bearer ") && h.value[7..] == token.value
  {
    if token.Some? && token.value != "" then Some("Bearer " + token.value) else None
  }

  const RateLimitMessage := "GitHub API rate limit exceeded. Set GITHUB_TOKEN to increase limits."

  /**
   * The error raised for the tree request's HTTP status: none for 200, and otherwise a
   * `GitHubClientError` carrying that very status, with a message of its own for 404 and 403.
   */
  function TreeStatusError(status: int, owner: string, repo: string): (e: Option<ServiceError>)
    ensures e.None? <==> status == 200
    ensures e.Some? ==> e.value.GitHubClientError? && e.value.statusCode == Some(status)
    ensures status == 404 ==> e.value.message == "Repository " + owner + "/" + repo + " not found or is private"
    ensures status == 403 ==> e.value.message == RateLimitMessage
    ensures status != 200 && status != 404 && status != 403 ==>
      e.value.message == "GitHub API error: " + IntToString(status)
  {
    if status == 404 then Some(GitHubClientError("Repository " + owner + "/" + repo + " not found or is private", Some(404)))
    else if status == 403 then Some(GitHubClientError(RateLimitMessage, Some(403)))
    else if status != 200 then Some(GitHubClientError("GitHub API error: " + IntToString(status), Some(status)))
    else None
  }

  // ---------------------------------------------------------------------------
  // The tree
  // ---------------------------------------------------------------------------

  /** One item of the tree listing, with the keys it may lack. */
  datatype TreeEntry = TreeEntry(kind: Option<string>, path: Option<string>, size: Option<int>)

  predicate IsBlob(e: TreeEntry) {
    e.kind == Some("blob")
  }

  /** A blob without a path: reading `item["path"]` raises a `KeyError`. */
  predicate IsMalformed(e: TreeEntry) {
    IsBlob(e) && e.path.None?
  }

  /** `item.get("size", 0)` */
  function SizeOf(e: TreeEntry): int {
    e.size.GetOr(0)
  }

  /** A blob with a path that the filter does not exclude. */
  predicate IsKept(e: TreeEntry) {
    IsBlob(e) && e.path.Some? && !IsExcluded(e.path.value, SizeOf(e))
  }

  /** The candidate made of a kept entry: its path, its size, its score, and no content yet. */
  function ToFile(e: TreeEntry): (f: RepoFile)
    requires e.path.Some?
    ensures f.path == e.path.value && f.size == SizeOf(e) && f.score == Score(f.path) && f.content.None?
  {
    NewRepoFile(e.path.value, SizeOf(e)).(score := Score(e.path.value))
  }

  /** The candidates of the entries, in tree order. */
  function KeptFiles(entries: seq<TreeEntry>): (fs: seq<RepoFile>)
    decreases |entries|
  {
    if entries == [] then []
    else
      var e := entries[|entries| - 1];
      KeptFiles(entries[..|entries| - 1]) + (if IsKept(e) then [ToFile(e)] else [])
  }

  /** Some entry is a blob without a path. */
  predicate AnyMalformed(entries: seq<TreeEntry>)
    decreases |entries|
  {
    entries != [] && (AnyMalformed(entries[..|entries| - 1]) || IsMalformed(entries[|entries| - 1]))
  }

  /** What `fetch_repo_files` returns for a tree response with this status and these entries. */
  function FetchResult(status: int, entries: seq<TreeEntry>, owner: string, repo: string): Result<seq<RepoFile>, ServiceError> {
    var err := TreeStatusError(status, owner, repo);
    if err.Some? then Failure(err.value)
    else if AnyMalformed(entries) then Failure(UnexpectedError("KeyError: 'path'"))
    else Success(SortByScore(KeptFiles(entries)))
  }

  /** `fetch_repo_files(owner, repo)`, given the tree response's status and entries. */
  method FetchRepoFiles(status: int, entries: seq<TreeEntry>, owner: string, repo: string)
    returns (r: Result<seq<RepoFile>, ServiceError>)
    ensures r == FetchResult(status, entries, owner, repo)
  {
    var err := TreeStatusError(status, owner, repo);
    if err.Some? {
      return Failure(err.value);
    }
    var files := CollectCandidates(entries);
    if files.Failure? {
      return Failure(files.error);
    }
    return Success(SortByScore(files.value));
  }

  /** The loop of `fetch_repo_files` over the tree entries, before the sort. */
  method CollectCandidates(entries: seq<TreeEntry>) returns (r: Result<seq<RepoFile>, ServiceError>)
    ensures r.Failure? ==> AnyMalformed(entries) && r.error == UnexpectedError("KeyError: 'path'")
    ensures r.Success? ==> !AnyMalformed(entries) && r.value == KeptFiles(entries)
  {
    var files := [];
    var i := 0;
    while i < |entries|
      invariant 0 <= i <= |entries|
      invariant files == KeptFiles(entries[..i])
      invariant !AnyMalformed(entries[..i])
    {
      var item := entries[i];
      KeptFilesSnoc(entries, i);
      if !IsBlob(item) {
        assert !IsKept(item);
        i := i + 1;
        continue;
      }
      if item.path.None? {
        assert AnyMalformed(entries[..i + 1]);
        PrefixMalformed(entries, i + 1);
        return Failure(UnexpectedError("KeyError: 'path'"));
      }
      var path := item.path.value;
      var size := SizeOf(item);
      if IsExcluded(path, size) {
        assert !IsKept(item);
        i := i + 1;
        continue;
      }
      assert IsKept(item);
      files := files + [ToFile(item)];
      i := i + 1;
    }
    assert entries[..i] == entries;
    return Success(files);
  }

  /** The candidates of one more entry: the entry's own, if kept, after the others. */
  lemma KeptFilesSnoc(entries: seq<TreeEntry>, i: nat)
    requires i < |entries|
    ensures IsKept(entries[i]) ==> KeptFiles(entries[..i + 1]) == KeptFiles(entries[..i]) + [ToFile(entries[i])]
    ensures !IsKept(entries[i]) ==> KeptFiles(entries[..i + 1]) == KeptFiles(entries[..i])
    ensures AnyMalformed(entries[..i + 1]) <==> AnyMalformed(entries[..i]) || IsMalformed(entries[i])
  {
    assert entries[..i + 1][..i] == entries[..i];
    assert KeptFiles(entries[..i]) + [] == KeptFiles(entries[..i]);
  }

  /** A malformed prefix makes the whole listing malformed. */
  lemma {:induction false} PrefixMalformed(entries: seq<TreeEntry>, n: nat)
    requires n <= |entries| && AnyMalformed(entries[..n])
    ensures AnyMalformed(entries)
    decreases |entries|
  {
    if n < |entries| {
      var init := entries[..|entries| - 1];
      assert init[..n] == entries[..n];
      PrefixMalformed(init, n);
    } else {
      assert entries[..n] == entries;
    }
  }

  /** The candidates are exactly the kept entries: each one is there, and nothing else is. */
  lemma KeptFilesExact(entries: seq<TreeEntry>)
    ensures forall i :: 0 <= i < |entries| && IsKept(entries[i]) ==> ToFile(entries[i]) in KeptFiles(entries)
    ensures forall f :: f in KeptFiles(entries) ==>
      exists i :: 0 <= i < |entries| && IsKept(entries[i]) && f == ToFile(entries[i])
  {
    KeptEntriesIncluded(entries);
    CandidatesFromKept(entries);
  }

  lemma {:induction false} KeptEntriesIncluded(entries: seq<TreeEntry>)
    ensures forall i :: 0 <= i < |entries| && IsKept(entries[i]) ==> ToFile(entries[i]) in KeptFiles(entries)
  {
    if entries != [] {
      var init := entries[..|entries| - 1];
      KeptEntriesIncluded(init);
      forall i | 0 <= i < |entries| - 1
        ensures entries[i] == init[i]
      {
      }
    }
  }

  lemma {:induction false} CandidatesFromKept(entries: seq<TreeEntry>)
    ensures forall f :: f in KeptFiles(entries) ==>
      exists i :: 0 <= i < |entries| && IsKept(entries[i]) && f == ToFile(entries[i])
  {
    if entries != [] {
      var init := entries[..|entries| - 1];
      CandidatesFromKept(init);
      forall i | 0 <= i < |entries| - 1
        ensures entries[i] == init[i]
      {
      }
    }
  }

  /** Every candidate is a file the filter keeps, scored by `Score`, with no content yet. */
  lemma KeptFilesSound(entries: seq<TreeEntry>)
    ensures forall f :: f in KeptFiles(entries) ==>
      !IsExcluded(f.path, f.size) && f.score == Score(f.path) && f.content.None?
  {
    KeptFilesExact(entries);
  }

  // ---------------------------------------------------------------------------
  // `files.sort(key=lambda f: f.score)`: a stable sort by score
  // ---------------------------------------------------------------------------

  predicate SortedByScore(fs: seq<RepoFile>) {
    forall i, j :: 0 <= i < j < |fs| ==> fs[i].score <= fs[j].score
  }

  /** `x` placed after every element whose score is at most its own. */
  function Insert(fs: seq<RepoFile>, x: RepoFile): (r: seq<RepoFile>)
    ensures |r| == |fs| + 1
    ensures multiset(r) == multiset(fs) + multiset{x}
    decreases |fs|
  {
    if fs == [] || fs[|fs| - 1].score <= x.score then fs + [x]
    else
      var init := fs[..|fs| - 1];
      assert fs == init + [fs[|fs| - 1]];
      Insert(init, x) + [fs[|fs| - 1]]
  }

  /** Insertion sort, elements taken in input order. */
  function SortByScore(fs: seq<RepoFile>): (r: seq<RepoFile>)
    ensures multiset(r) == multiset(fs)
    decreases |fs|
  {
    if fs == [] then []
    else
      var init := fs[..|fs| - 1];
      assert fs == init + [fs[|fs| - 1]];
      Insert(SortByScore(init), fs[|fs| - 1])
  }

  /** The last element after an insertion: `x`, unless the last element before outscores it. */
  lemma InsertLast(fs: seq<RepoFile>, x: RepoFile)
    ensures var r := Insert(fs, x);
      r[|r| - 1] == if fs == [] || fs[|fs| - 1].score <= x.score then x else fs[|fs| - 1]
  {
  }

  /** Inserting into an ordered sequence keeps it ordered. */
  lemma {:induction false} InsertSorted(fs: seq<RepoFile>, x: RepoFile)
    requires SortedByScore(fs)
    ensures SortedByScore(Insert(fs, x))
    decreases |fs|
  {
    if fs != [] && fs[|fs| - 1].score > x.score {
      var init := fs[..|fs| - 1];
      var last := fs[|fs| - 1];
      assert SortedByScore(init);
      InsertSorted(init, x);
      var r := Insert(init, x);
      InsertLast(init, x);
      assert r[|r| - 1].score <= last.score;
      var t := r + [last];
      assert Insert(fs, x) == t;
      forall i, j | 0 <= i < j < |t|
        ensures t[i].score <= t[j].score
      {
        if j == |r| {
          assert t[i] == r[i];
          if i < |r| - 1 {
            assert r[i].score <= r[|r| - 1].score;
          }
        }
      }
    }
  }

  /** The sort's output is ordered by score. */
  lemma {:induction false} SortSorted(fs: seq<RepoFile>)
    ensures SortedByScore(SortByScore(fs))
    decreases |fs|
  {
    if fs != [] {
      SortSorted(fs[..|fs| - 1]);
      InsertSorted(SortByScore(fs[..|fs| - 1]), fs[|fs| - 1]);
    }
  }

  /** The elements of `fs` with score `v`, in order. */
  function WithScore(fs: seq<RepoFile>, v: int): seq<RepoFile> {
    if fs == [] then []
    else WithScore(fs[..|fs| - 1], v) + (if fs[|fs| - 1].score == v then [fs[|fs| - 1]] else [])
  }

  lemma {:induction false} WithScoreAppend(a: seq<RepoFile>, b: seq<RepoFile>, v: int)
    ensures WithScore(a + b, v) == WithScore(a, v) + WithScore(b, v)
    decreases |b|
  {
    if b == [] {
      assert a + b == a;
    } else {
      var init := b[..|b| - 1];
      assert (a + b)[..|a + b| - 1] == a + init;
      WithScoreAppend(a, init, v);
    }
  }

  lemma {:induction false} InsertStable(fs: seq<RepoFile>, x: RepoFile, v: int)
    ensures WithScore(Insert(fs, x), v) == WithScore(fs, v) + (if x.score == v then [x] else [])
    decreases |fs|
  {
    if fs == [] || fs[|fs| - 1].score <= x.score {
      WithScoreAppend(fs, [x], v);
      assert [x][..0] == [];
    } else {
      var init := fs[..|fs| - 1];
      var last := fs[|fs| - 1];
      InsertStable(init, x, v);
      WithScoreAppend(Insert(init, x), [last], v);
      assert [last][..0] == [];
      assert WithScore([last], v) == (if last.score == v then [last] else []);
      assert WithScore([x], v) == (if x.score == v then [x] else []) by {
        assert [x][..0] == [];
      }
    }
  }

  /** Stability: the files of any one score keep their relative order. */
  lemma {:induction false} SortStable(fs: seq<RepoFile>, v: int)
    ensures WithScore(SortByScore(fs), v) == WithScore(fs, v)
    decreases |fs|
  {
    if fs != [] {
      var init := fs[..|fs| - 1];
      SortStable(init, v);
      InsertStable(SortByScore(init), fs[|fs| - 1], v);
    }
  }

  /**
   * A successful `fetch_repo_files` holds the kept entries' candidates, sorted by score, with
   * the files of each score in tree order.
   */
  lemma FetchResultSpec(status: int, entries: seq<TreeEntry>, owner: string, repo: string, v: int)
    ensures var r := FetchResult(status, entries, owner, repo);
      && (r.Success? <==> status == 200 && !AnyMalformed(entries))
      && (r.Success? ==>
            && SortedByScore(r.value)
            && multiset(r.value) == multiset(KeptFiles(entries))
            && WithScore(r.value, v) == WithScore(KeptFiles(entries), v))
  {
    SortSorted(KeptFiles(entries));
    SortStable(KeptFiles(entries), v);
  }

  // ---------------------------------------------------------------------------
  // Downloads
  // ---------------------------------------------------------------------------

  const BatchSize := 10

  function Min(a: int, b: int): int {
    if a <= b then a else b
  }

  /**
   * The download loop, file by file: it stops as soon as `used` reaches the budget; a file
   * whose fetch failed is dropped; a fetched file is kept with its content and charges
   * `min(len(content), perFileMax)`. Returns the kept files and the final `used`.
   */
  function Downloaded(files: seq<RepoFile>, outcomes: seq<Option<string>>, budget: int, perFileMax: int, used: int)
    : (r: (seq<RepoFile>, int))
    requires |outcomes| == |files|
    ensures forall k :: 0 <= k < |r.0| ==> r.0[k].content.Some?
    decreases |files|
  {
    if files == [] || used >= budget then ([], used)
    else
      var rest := Downloaded(files[1..], outcomes[1..], budget, perFileMax,
                             if outcomes[0].Some? then used + Min(|outcomes[0].value|, perFileMax) else used);
      if outcomes[0].Some? then ([files[0].(content := outcomes[0])] + rest.0, rest.1)
      else rest
  }

  /** One step of the loop, at file `i`. */
  lemma DownloadedFrom(files: seq<RepoFile>, outcomes: seq<Option<string>>, budget: int, perFileMax: int, used: int, i: nat)
    requires |outcomes| == |files| && i < |files| && used < budget
    ensures outcomes[i].None? ==>
      Downloaded(files[i..], outcomes[i..], budget, perFileMax, used) ==
      Downloaded(files[i + 1..], outcomes[i + 1..], budget, perFileMax, used)
    ensures outcomes[i].Some? ==>
      var rest := Downloaded(files[i + 1..], outcomes[i + 1..], budget, perFileMax, used + Min(|outcomes[i].value|, perFileMax));
      Downloaded(files[i..], outcomes[i..], budget, perFileMax, used) ==
      ([files[i].(content := outcomes[i])] + rest.0, rest.1)
  {
    assert files[i..][0] == files[i] && files[i..][1..] == files[i + 1..];
    assert outcomes[i..][0] == outcomes[i] && outcomes[i..][1..] == outcomes[i + 1..];
  }

  /**
   * `rs` is a subsequence of `files`, in order, each element taken with its fetched content,
   * which is present, and with its other fields unchanged.
   */
  predicate PickedFrom(rs: seq<RepoFile>, files: seq<RepoFile>, outcomes: seq<Option<string>>)
    requires |outcomes| == |files|
    decreases |files|
  {
    if rs == [] then true
    else if files == [] then false
    else
      (outcomes[0].Some? && rs[0] == files[0].(content := outcomes[0]) && PickedFrom(rs[1..], files[1..], outcomes[1..]))
      || PickedFrom(rs, files[1..], outcomes[1..])
  }

  /** A picked subsequence is no longer than what it is picked from. */
  lemma {:induction false} PickedNoLonger(rs: seq<RepoFile>, files: seq<RepoFile>, outcomes: seq<Option<string>>)
    requires |outcomes| == |files| && PickedFrom(rs, files, outcomes)
    ensures |rs| <= |files|
    decreases |files|
  {
    if rs != [] {
      if outcomes[0].Some? && rs[0] == files[0].(content := outcomes[0]) && PickedFrom(rs[1..], files[1..], outcomes[1..]) {
        PickedNoLonger(rs[1..], files[1..], outcomes[1..]);
      } else {
        PickedNoLonger(rs, files[1..], outcomes[1..]);
      }
    }
  }

  /** What a kept file adds to `used`: its content's length, capped at `perFileMax`. */
  function Charge(f: RepoFile, perFileMax: int): int {
    Min(|f.content.GetOr("")|, perFileMax)
  }

  function Charges(rs: seq<RepoFile>, perFileMax: int): int {
    if rs == [] then 0 else Charge(rs[0], perFileMax) + Charges(rs[1..], perFileMax)
  }

  /** Every file whose fetch succeeded, with its content. */
  function Fetched(files: seq<RepoFile>, outcomes: seq<Option<string>>): seq<RepoFile>
    requires |outcomes| == |files|
    decreases |files|
  {
    if files == [] then []
    else if outcomes[0].Some? then [files[0].(content := outcomes[0])] + Fetched(files[1..], outcomes[1..])
    else Fetched(files[1..], outcomes[1..])
  }

  /** The downloaded files are picked from the input in input order, failed fetches dropped. */
  lemma {:induction false} DownloadedPicked(files: seq<RepoFile>, outcomes: seq<Option<string>>, budget: int, perFileMax: int, used: int)
    requires |outcomes| == |files|
    ensures PickedFrom(Downloaded(files, outcomes, budget, perFileMax, used).0, files, outcomes)
    decreases |files|
  {
    if files != [] && used < budget {
      var u := if outcomes[0].Some? then used + Min(|outcomes[0].value|, perFileMax) else used;
      DownloadedPicked(files[1..], outcomes[1..], budget, perFileMax, u);
      var rest := Downloaded(files[1..], outcomes[1..], budget, perFileMax, u).0;
      if outcomes[0].Some? {
        assert ([files[0].(content := outcomes[0])] + rest)[1..] == rest;
      }
    }
  }

  /** The final `used` is the starting one plus the charge of every downloaded file, never its raw length. */
  lemma {:induction false} DownloadedCharges(files: seq<RepoFile>, outcomes: seq<Option<string>>, budget: int, perFileMax: int, used: int)
    requires |outcomes| == |files|
    ensures var r := Downloaded(files, outcomes, budget, perFileMax, used);
      r.1 == used + Charges(r.0, perFileMax)
    decreases |files|
  {
    if files != [] && used < budget {
      var u := if outcomes[0].Some? then used + Min(|outcomes[0].value|, perFileMax) else used;
      DownloadedCharges(files[1..], outcomes[1..], budget, perFileMax, u);
      var rest := Downloaded(files[1..], outcomes[1..], budget, perFileMax, u).0;
      if outcomes[0].Some? {
        assert ([files[0].(content := outcomes[0])] + rest)[1..] == rest;
      }
    }
  }

  /**
   * No file is added once `used` reaches the budget: when anything was downloaded, the final
   * `used` stays below the budget plus one file's cap; when nothing was, `used` is unchanged.
   */
  lemma {:induction false} DownloadedBound(files: seq<RepoFile>, outcomes: seq<Option<string>>, budget: int, perFileMax: int, used: int)
    requires |outcomes| == |files|
    ensures var r := Downloaded(files, outcomes, budget, perFileMax, used);
      (r.0 == [] ==> r.1 == used) && (r.0 != [] ==> r.1 < budget + perFileMax)
    decreases |files|
  {
    if files != [] && used < budget {
      var u := if outcomes[0].Some? then used + Min(|outcomes[0].value|, perFileMax) else used;
      DownloadedBound(files[1..], outcomes[1..], budget, perFileMax, u);
    }
  }

  /** When the budget was never reached, every successfully fetched file was kept. */
  lemma {:induction false} DownloadedAllUnderBudget(files: seq<RepoFile>, outcomes: seq<Option<string>>, budget: int, perFileMax: int, used: int)
    requires |outcomes| == |files|
    requires Downloaded(files, outcomes, budget, perFileMax, used).1 < budget
    ensures Downloaded(files, outcomes, budget, perFileMax, used).0 == Fetched(files, outcomes)
    decreases |files|
  {
    if files != [] {
      var u := if outcomes[0].Some? then used + Min(|outcomes[0].value|, perFileMax) else used;
      DownloadedAllUnderBudget(files[1..], outcomes[1..], budget, perFileMax, u);
    }
  }

  /**
   * The downloaded files are a prefix of the successfully fetched ones, and the only reason
   * to keep fewer is that the budget was reached.
   */
  lemma {:induction false} DownloadedPrefix(files: seq<RepoFile>, outcomes: seq<Option<string>>, budget: int, perFileMax: int, used: int)
    requires |outcomes| == |files|
    ensures var r := Downloaded(files, outcomes, budget, perFileMax, used);
      r.0 <= Fetched(files, outcomes) && (|r.0| < |Fetched(files, outcomes)| ==> r.1 >= budget)
    decreases |files|
  {
    if files != [] && used < budget {
      var u := if outcomes[0].Some? then used + Min(|outcomes[0].value|, perFileMax) else used;
      DownloadedPrefix(files[1..], outcomes[1..], budget, perFileMax, u);
    }
  }

  /**
   * `download_files(owner, repo, files, budget, per_file_max)`, with `outcomes[i]` the result
   * of fetching `files[i]` (`None` for a failed fetch). Files go in batches of ten; the loop
   * stops before a batch, and inside a batch, once `used` reaches the budget. Also returns the
   * final `used`, which the source logs.
   */
  method DownloadFiles(files: seq<RepoFile>, outcomes: seq<Option<string>>, budget: int, perFileMax: int)
    returns (result: seq<RepoFile>, used: int)
    requires |outcomes| == |files|
    ensures (result, used) == Downloaded(files, outcomes, budget, perFileMax, 0)
    ensures budget <= 0 ==> result == []
  {
    used := 0;
    result := [];
    var i := 0;
    ghost var final := Downloaded(files, outcomes, budget, perFileMax, 0);
    assert files[Min(i, |files|)..] == files && outcomes[Min(i, |files|)..] == outcomes;
    assert result + final.0 == final.0;
    while i < |files|
      invariant 0 <= i
      invariant result + Downloaded(files[Min(i, |files|)..], outcomes[Min(i, |files|)..], budget, perFileMax, used).0 == final.0
      invariant Downloaded(files[Min(i, |files|)..], outcomes[Min(i, |files|)..], budget, perFileMax, used).1 == final.1
    {
      if used >= budget {
        break;
      }
      var hi := Min(i + BatchSize, |files|);
      assert Min(i, |files|) == i;
      result, used := DownloadBatch(files, outcomes, i, hi, budget, perFileMax, result, used);
      i := i + BatchSize;
      assert Min(i, |files|) == hi;
    }
    if i >= |files| {
      assert files[|files|..] == [] && outcomes[|files|..] == [];
    }
    assert result + [] == result;
  }

  /**
   * The inner loop over one batch, `files[lo..hi]` with their fetch outcomes: it returns the
   * grown result and `used`, leaving to the files from `hi` on the same work left before.
   */
  method DownloadBatch(files: seq<RepoFile>, outcomes: seq<Option<string>>, lo: nat, hi: nat,
                       budget: int, perFileMax: int, result0: seq<RepoFile>, used0: int)
    returns (result: seq<RepoFile>, used: int)
    requires |outcomes| == |files| && lo <= hi <= |files| && used0 < budget
    ensures var before := Downloaded(files[lo..], outcomes[lo..], budget, perFileMax, used0);
      var after := Downloaded(files[hi..], outcomes[hi..], budget, perFileMax, used);
      result0 + before.0 == result + after.0 && before.1 == after.1
  {
    result, used := result0, used0;
    ghost var before := Downloaded(files[lo..], outcomes[lo..], budget, perFileMax, used0);
    var k := lo;
    while k < hi
      invariant lo <= k <= hi && used < budget
      invariant result + Downloaded(files[k..], outcomes[k..], budget, perFileMax, used).0 == result0 + before.0
      invariant Downloaded(files[k..], outcomes[k..], budget, perFileMax, used).1 == before.1
    {
      var content := outcomes[k];
      if content.None? {
        DownloadedFrom(files, outcomes, budget, perFileMax, used, k);
        k := k + 1;
        continue;
      }
      DownloadedKept(files, outcomes, budget, perFileMax, used, k, result);
      result := result + [files[k].(content := content)];
      used := used + Min(|content.value|, perFileMax);
      if used >= budget {
        DownloadedSpent(files, outcomes, budget, perFileMax, used, k + 1);
        DownloadedSpent(files, outcomes, budget, perFileMax, used, hi);
        return;
      }
      k := k + 1;
    }
  }

  /** A file fetched with content joins the result, and the rest of the pass goes on from the next file. */
  lemma DownloadedKept(files: seq<RepoFile>, outcomes: seq<Option<string>>, budget: int, perFileMax: int, used: int, i: nat,
                        result: seq<RepoFile>)
    requires |outcomes| == |files| && i < |files| && used < budget && outcomes[i].Some?
    ensures var rest := Downloaded(files[i + 1..], outcomes[i + 1..], budget, perFileMax, used + Min(|outcomes[i].value|, perFileMax));
      var here := Downloaded(files[i..], outcomes[i..], budget, perFileMax, used);
      result + here.0 == (result + [files[i].(content := outcomes[i])]) + rest.0 && here.1 == rest.1
  {
    DownloadedFrom(files, outcomes, budget, perFileMax, used, i);
    var rest := Downloaded(files[i + 1..], outcomes[i + 1..], budget, perFileMax, used + Min(|outcomes[i].value|, perFileMax));
    var f := files[i].(content := outcomes[i]);
    assert result + ([f] + rest.0) == (result + [f]) + rest.0;
  }

  /** Once the budget is spent, nothing more is downloaded. */
  lemma DownloadedSpent(files: seq<RepoFile>, outcomes: seq<Option<string>>, budget: int, perFileMax: int, used: int, i: nat)
    requires |outcomes| == |files| && i <= |files| && used >= budget
    ensures Downloaded(files[i..], outcomes[i..], budget, perFileMax, used) == ([], used)
  {
  }

}
