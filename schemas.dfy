/**
 * The request, response and file records, the validator of the request's GitHub URL and
 * the owner/repository extraction that follows it.
 */
module Schemas {
  import opened Wrappers
  import opened PyStr

  /** A file of the repository tree; `content` is filled in once it has been downloaded. */
  datatype RepoFile = RepoFile(path: string, size: int, score: int, content: Option<string>)

  /** `RepoFile(path=..., size=...)`: the declared defaults are score 0 and no content. */
  function NewRepoFile(path: string, size: int): (f: RepoFile)
    ensures f.path == path && f.size == size
    ensures f.score == 0 && f.content == None
  {
    RepoFile(path, size, 0, None)
  }

  /** The service's answer: what the LLM said about the repository. */
  datatype SummarizeResponse = SummarizeResponse(summary: string, technologies: seq<string>, structure: string)

  /** The exception the validator raises, with its message. */
  datatype ValueError = ValueError(message: string)

  const InvalidUrlMessage := "Invalid GitHub URL. Expected format: https://github.com/owner/repo"

  /** `\w` of a regular expression, restricted to ASCII: letters, digits and the underscore. */
  predicate IsWordChar(c: char) {
    ('a' <= c <= 'z') || ('A' <= c <= 'Z') || ('0' <= c <= '9') || c == '_'
  }

  /** One character of the class `[\w\-\.]`. */
  predicate IsSegmentChar(c: char) {
    IsWordChar(c) || c == '-' || c == '.'
  }

  /** `[\w\-\.]+` */
  predicate IsSegment(s: string) {
    |s| > 0 && forall k :: 0 <= k < |s| ==> IsSegmentChar(s[k])
  }

  /**
   * `[\w\-\.]+/[\w\-\.]+`; neither segment may contain `/`, so the one between them is
   * the first `/` of `t`.
   */
  predicate IsOwnerSlashRepo(t: string) {
    var i := IndexOf(t, '/');
    0 < i && IsSegment(t[..i]) && IsSegment(t[i + 1..])
  }

  /** `[\w\-\.]+/[\w\-\.]+/?` */
  predicate IsRepoPath(t: string) {
    IsOwnerSlashRepo(t) || (|t| > 0 && t[|t| - 1] == '/' && IsOwnerSlashRepo(t[..|t| - 1]))
  }

  /** `...$`: `$` matches at the very end, and also just before one final newline. */
  predicate IsRepoPathAtEnd(t: string) {
    IsRepoPath(t) || (|t| > 0 && t[|t| - 1] == '\n' && IsRepoPath(t[..|t| - 1]))
  }

  const HttpsPrefix := "https://github.com/"
  const HttpPrefix := "http://github.com/"

  /** `re.match(r"^https?://github\.com/[\w\-\.]+/[\w\-\.]+/?$", u)` succeeds. */
  predicate MatchesRepoUrl(u: string) {
    (StartsWith(u, HttpsPrefix) && IsRepoPathAtEnd(u[|HttpsPrefix|..]))
    || (StartsWith(u, HttpPrefix) && IsRepoPathAtEnd(u[|HttpPrefix|..]))
  }

  /**
   * `SummarizeRequest.validate_github_url`: the URL without its trailing slashes when that
   * matches the repository pattern, otherwise the `ValueError`.
   */
  function ValidateGithubUrl(v: string): (r: Result<string, ValueError>)
    ensures r.Success? <==> MatchesRepoUrl(RStripChar(v, '/'))
    ensures r.Success? ==> r.value == RStripChar(v, '/') && !EndsWith(r.value, "/")
    ensures r.Failure? ==> r.error == ValueError(InvalidUrlMessage)
  {
    var u := RStripChar(v, '/');
    if MatchesRepoUrl(u) then Success(u) else Failure(ValueError(InvalidUrlMessage))
  }

  /** Any number of trailing slashes is accepted, and removed, alike. */
  lemma TrailingSlashesIgnored(v: string, k: nat)
    ensures ValidateGithubUrl(v + Repeat('/', k)) == ValidateGithubUrl(v)
  {
    RStripCharRepeat(v, '/', k);
  }

  /**
   * `SummarizeRequest.parse_owner_repo`: the last two `/`-separated pieces of the URL once
   * its trailing slashes are removed; `None` stands for the `IndexError` of a URL without `/`.
   */
  function ParseOwnerRepo(url: string): (r: Option<(string, string)>)
    ensures r.Some? <==> '/' in RStripChar(url, '/')
    ensures r.Some? ==> '/' !in r.value.0 && '/' !in r.value.1
    ensures r.Some? ==> EndsWith(RStripChar(url, '/'), r.value.0 + "/" + r.value.1)
    ensures r.Some? ==> var u := RStripChar(url, '/'); var k := |u| - |r.value.0| - |r.value.1| - 1;
      k == 0 || (0 < k && u[k - 1] == '/')
  {
    var u := RStripChar(url, '/');
    var parts := Split(u, '/');
    if |parts| < 2 then
      None
    else
      SplitJoinsBack(u, '/');
      JoinLastTwo(parts, '/');
      JoinLastTwoBoundary(parts, '/');
      Some((parts[|parts| - 2], parts[|parts| - 1]))
  }

  /** The join of two or more pieces ends with its last two pieces and the separator between. */
  lemma {:induction false} JoinLastTwo(parts: seq<string>, c: char)
    requires |parts| >= 2
    ensures EndsWith(Join(parts, [c]), parts[|parts| - 2] + [c] + parts[|parts| - 1])
  {
    if |parts| > 2 {
      JoinLastTwo(parts[1..], c);
    }
  }

  /**
   * The last two pieces of a join are whole pieces: what comes before them is empty or ends
   * with the separator.
   */
  lemma {:induction false} JoinLastTwoBoundary(parts: seq<string>, c: char)
    requires |parts| >= 2
    ensures var j := Join(parts, [c]); var k := |j| - |parts[|parts| - 2]| - |parts[|parts| - 1]| - 1;
      k == 0 || (0 < k <= |j| && j[k - 1] == c)
  {
    if |parts| > 2 {
      var rest := parts[1..];
      JoinLastTwoBoundary(rest, c);
      JoinCons(parts[0], rest, [c]);
      assert [parts[0]] + rest == parts;
      var j := Join(parts, [c]);
      var k' := |Join(rest, [c])| - |rest[|rest| - 2]| - |rest[|rest| - 1]| - 1;
      assert j[|parts[0]|] == c;
      if k' > 0 {
        assert j[|parts[0]| + 1 + k' - 1] == Join(rest, [c])[k' - 1];
      }
    }
  }

  lemma SegmentHasNoSlash(s: string)
    requires IsSegment(s)
    ensures '/' !in s && '\n' !in s && s[|s| - 1] != '/'
  {
  }

  lemma OwnerSlashRepo(owner: string, repo: string)
    requires IsSegment(owner) && IsSegment(repo)
    ensures IsOwnerSlashRepo(owner + "/" + repo)
  {
    var t := owner + "/" + repo;
    SegmentHasNoSlash(owner);
    IndexOfSplitPoint(owner, '/', repo);
    assert t[..|owner|] == owner && t[|owner| + 1..] == repo;
  }

  /** `prefix + owner + "/" + repo` for either scheme matches the URL pattern. */
  lemma CanonicalUrlMatches(prefix: string, owner: string, repo: string)
    requires prefix == HttpsPrefix || prefix == HttpPrefix
    requires IsSegment(owner) && IsSegment(repo)
    ensures MatchesRepoUrl(prefix + owner + "/" + repo)
  {
    var tail := owner + "/" + repo;
    OwnerSlashRepo(owner, repo);
    assert IsRepoPathAtEnd(tail);
    PrefixedMatches(prefix, tail);
    Reassociate(prefix, owner, "/", repo);
  }

  /** The pieces of a canonical URL, split at `/`. */
  lemma CanonicalUrlPieces(scheme: string, owner: string, repo: string)
    requires '/' !in scheme && '/' !in owner && '/' !in repo
    ensures Split(scheme + "//github.com/" + owner + "/" + repo, '/')
      == [scheme, "", "github.com", owner, repo]
  {
    var x := owner + "/" + repo;
    HostPieces(scheme, x);
    SplitAt(owner, '/', repo);
    SplitNoSeparator(repo, '/');
    Reassociate(scheme + "//github.com/", owner, "/", repo);
  }

  /** After the scheme, the host's three pieces come first. */
  lemma HostPieces(scheme: string, x: string)
    requires '/' !in scheme
    ensures Split(scheme + "//github.com/" + x, '/') == [scheme, "", "github.com"] + Split(x, '/')
  {
    HostText(scheme, x);
    SplitHost(scheme, "github.com", x);
  }

  lemma SplitHost(scheme: string, host: string, x: string)
    requires '/' !in scheme && '/' !in host
    ensures Split(scheme + ['/'] + ([] + ['/'] + (host + ['/'] + x)), '/') == [scheme, "", host] + Split(x, '/')
  {
    var r2 := host + ['/'] + x;
    var r1 := [] + ['/'] + r2;
    SplitAt(scheme, '/', r1);
    SplitAt([], '/', r2);
    SplitAt(host, '/', x);
    ConsThree(scheme, "", host, Split(x, '/'));
  }

  lemma ConsThree(a: string, b: string, c: string, rest: seq<string>)
    ensures [a] + ([b] + ([c] + rest)) == [a, b, c] + rest
  {
  }

  /** The text between the scheme and the owner, cut at each `/`. */
  lemma HostText(scheme: string, x: string)
    ensures scheme + "//github.com/" + x == scheme + ['/'] + ([] + ['/'] + ("github.com" + ['/'] + x))
  {
    var g := "github.com";
    assert "//github.com/" == ['/', '/'] + g + ['/'];
    Regroup(scheme, g, x);
  }

  lemma Regroup(scheme: string, g: string, x: string)
    ensures scheme + (['/', '/'] + g + ['/']) + x == scheme + ['/'] + ([] + ['/'] + (g + ['/'] + x))
  {
  }

  lemma Reassociate(p: string, a: string, b: string, c: string)
    ensures p + a + b + c == p + (a + b + c)
  {
  }

  /**
   * Round trip: the canonical URL of a repository, with or without trailing slashes and over
   * either scheme, validates to the URL without slashes, and parsing that gives the owner and
   * the repository back.
   */
  lemma ValidateThenParse(scheme: string, owner: string, repo: string, k: nat)
    requires scheme == "https:" || scheme == "http:"
    requires IsSegment(owner) && IsSegment(repo)
    ensures var base := scheme + "//github.com/" + owner + "/" + repo;
      ValidateGithubUrl(base + Repeat('/', k)) == Success(base)
      && ParseOwnerRepo(base) == Some((owner, repo))
  {
    SegmentHasNoSlash(owner);
    SegmentHasNoSlash(repo);
    CanonicalUrlValid(scheme, owner, repo, k);
    CanonicalUrlParses(scheme, owner, repo);
  }

  lemma CanonicalUrlValid(scheme: string, owner: string, repo: string, k: nat)
    requires scheme == "https:" || scheme == "http:"
    requires IsSegment(owner) && IsSegment(repo)
    ensures var base := scheme + "//github.com/" + owner + "/" + repo;
      ValidateGithubUrl(base + Repeat('/', k)) == Success(base)
  {
    var prefix := scheme + "//github.com/";
    var base := prefix + owner + "/" + repo;
    SegmentHasNoSlash(repo);
    assert RStripChar(base, '/') == base by {
      assert base[|base| - 1] == repo[|repo| - 1];
    }
    CanonicalUrlMatches(prefix, owner, repo);
    TrailingSlashesIgnored(base, k);
  }

  lemma CanonicalUrlParses(scheme: string, owner: string, repo: string)
    requires '/' !in scheme && '/' !in owner && '/' !in repo && repo != []
    ensures ParseOwnerRepo(scheme + "//github.com/" + owner + "/" + repo) == Some((owner, repo))
  {
    var base := scheme + "//github.com/" + owner + "/" + repo;
    assert RStripChar(base, '/') == base by {
      assert base[|base| - 1] == repo[|repo| - 1];
    }
    CanonicalUrlPieces(scheme, owner, repo);
  }

  /**
   * Because `$` also matches before a final newline, and a newline is not a trailing `/`,
   * a canonical URL followed by `/` and a newline is accepted unchanged, and parsing it gives
   * the repository as the owner and the newline as the repository.
   */
  lemma NewlineAfterSlashAccepted(scheme: string, owner: string, repo: string)
    requires scheme == "https:" || scheme == "http:"
    requires IsSegment(owner) && IsSegment(repo)
    ensures var u := scheme + "//github.com/" + owner + "/" + repo + "/\n";
      ValidateGithubUrl(u) == Success(u) && ParseOwnerRepo(u) == Some((repo, "\n"))
  {
    NewlineUrlValidates(scheme, owner, repo);
    NewlineUrlParses(scheme, owner, repo);
  }

  lemma NewlineUrlValidates(scheme: string, owner: string, repo: string)
    requires scheme == "https:" || scheme == "http:"
    requires IsSegment(owner) && IsSegment(repo)
    ensures var u := scheme + "//github.com/" + owner + "/" + repo + "/\n";
      ValidateGithubUrl(u) == Success(u)
  {
    var prefix := scheme + "//github.com/";
    GithubPrefix(scheme);
    NewlineUrlMatches(prefix, owner, repo);
    NewlineEndUnstripped(prefix + owner + "/" + repo);
  }

  lemma GithubPrefix(scheme: string)
    requires scheme == "https:" || scheme == "http:"
    ensures scheme + "//github.com/" == HttpsPrefix || scheme + "//github.com/" == HttpPrefix
  {
  }

  /** A text ending in a slash and a newline has no trailing slash to remove. */
  lemma NewlineEndUnstripped(x: string)
    ensures RStripChar(x + "/\n", '/') == x + "/\n"
  {
    var u := x + "/\n";
    assert u[|u| - 1] == '\n';
    RStripCharUnchanged(u, '/');
  }

  lemma NewlineUrlParses(scheme: string, owner: string, repo: string)
    requires scheme == "https:" || scheme == "http:"
    requires IsSegment(owner) && IsSegment(repo)
    ensures var u := scheme + "//github.com/" + owner + "/" + repo + "/\n";
      ParseOwnerRepo(u) == Some((repo, "\n"))
  {
    var u := scheme + "//github.com/" + owner + "/" + repo + "/\n";
    SegmentHasNoSlash(owner);
    SegmentHasNoSlash(repo);
    NewlinePieces(scheme, owner, repo);
    NewlineEndUnstripped(scheme + "//github.com/" + owner + "/" + repo);
  }

  lemma NewlineUrlMatches(prefix: string, owner: string, repo: string)
    requires prefix == HttpsPrefix || prefix == HttpPrefix
    requires IsSegment(owner) && IsSegment(repo)
    ensures MatchesRepoUrl(prefix + owner + "/" + repo + "/\n")
  {
    var t := owner + "/" + repo;
    OwnerSlashRepo(owner, repo);
    RepoPathThenSlashNewline(t);
    PrefixedMatches(prefix, t + "/\n");
    Regroup4(prefix, owner, "/", repo, "/\n");
  }

  lemma Regroup4(p: string, a: string, s: string, b: string, n: string)
    ensures p + (a + s + b + n) == p + a + s + b + n
  {
  }

  /** Either prefix followed by a repository path matches. */
  lemma PrefixedMatches(prefix: string, rest: string)
    requires prefix == HttpsPrefix || prefix == HttpPrefix
    requires IsRepoPathAtEnd(rest)
    ensures MatchesRepoUrl(prefix + rest)
  {
    var u := prefix + rest;
    assert u[..|prefix|] == prefix;
    assert u[|prefix|..] == rest;
  }

  lemma RepoPathThenSlashNewline(t: string)
    requires IsOwnerSlashRepo(t)
    ensures IsRepoPathAtEnd(t + "/\n")
  {
    assert (t + "/\n")[..|t| + 1] == t + "/";
    assert (t + "/")[..|t|] == t;
  }

  lemma NewlinePieces(scheme: string, owner: string, repo: string)
    requires '/' !in scheme && '/' !in owner && '/' !in repo
    ensures Split(scheme + "//github.com/" + owner + "/" + repo + "/\n", '/')
      == [scheme, "", "github.com", owner, repo, "\n"]
  {
    var x := owner + "/" + (repo + "/" + "\n");
    HostPieces(scheme, x);
    ThreePieces(owner, repo, "\n");
    NewlineText(scheme + "//github.com/", owner, repo);
    SixPieces(scheme, "", "github.com", owner, repo, "\n");
  }

  lemma SixPieces(a: string, b: string, c: string, d: string, e: string, f: string)
    ensures [a, b, c] + [d, e, f] == [a, b, c, d, e, f]
  {
  }

  lemma ThreePieces(a: string, b: string, c: string)
    requires '/' !in a && '/' !in b && '/' !in c
    ensures Split(a + "/" + (b + "/" + c), '/') == [a, b, c]
  {
    SplitAt(a, '/', b + "/" + c);
    SplitAt(b, '/', c);
    SplitNoSeparator(c, '/');
  }

  lemma NewlineText(p: string, owner: string, repo: string)
    ensures p + owner + "/" + repo + "/\n" == p + (owner + "/" + (repo + "/" + "\n"))
  {
    assert "/\n" == "/" + "\n";
    Regroup5(p, owner, "/", repo, "\n");
  }

  lemma Regroup5(p: string, a: string, s: string, b: string, n: string)
    ensures p + a + s + b + (s + n) == p + (a + s + (b + s + n))
  {
  }
}
