/**
 * Which files of a repository tree are skipped, and the priority score of the rest
 * (lower is more important).
 */
module FileFilter {
  import opened PyStr
  import opened Schemas

  const ExcludedDirs: set<string> := {
    "node_modules", "dist", "build", ".git", "__pycache__", ".tox",
    ".mypy_cache", ".pytest_cache", "vendor", "venv", ".venv", "env",
    ".env", "eggs", ".eggs", "bower_components", ".next", ".nuxt",
    "coverage", ".coverage", "htmlcov", "site-packages"
  }

  /** The excluded extensions, in the three groups of the source's listing, united below. */
  const MediaExtensions: set<string> := {
    ".png", ".jpg", ".jpeg", ".gif", ".bmp", ".ico", ".svg", ".webp",
    ".mp3", ".mp4", ".wav", ".avi", ".mov", ".mkv"
  }

  const ArchiveAndBinaryExtensions: set<string> := {
    ".zip", ".tar", ".gz", ".bz2", ".7z", ".rar",
    ".exe", ".dll", ".so", ".dylib", ".o", ".a"
  }

  const DocumentAndBuildExtensions: set<string> := {
    ".woff", ".woff2", ".ttf", ".eot", ".otf",
    ".pdf", ".doc", ".docx", ".xls", ".xlsx",
    ".pyc", ".pyo", ".class", ".jar",
    ".lock", ".min.js", ".min.css", ".map",
    ".DS_Store"
  }

  const ExcludedExtensions: set<string> := MediaExtensions + ArchiveAndBinaryExtensions + DocumentAndBuildExtensions

  const ExcludedFilenames: set<string> := {
    "package-lock.json", "yarn.lock", "pnpm-lock.yaml", "Pipfile.lock",
    "poetry.lock", "composer.lock", "Gemfile.lock", "Cargo.lock",
    ".gitignore", ".gitattributes", ".editorconfig"
  }

  /** Files larger than this many bytes are skipped. */
  const MaxFileSize := 512000

  const ManifestNames: set<string> := {
    "pyproject.toml", "setup.py", "setup.cfg",
    "package.json", "requirements.txt",
    "Cargo.toml", "go.mod", "Gemfile",
    "pom.xml", "build.gradle", "Makefile", "CMakeLists.txt",
    "Dockerfile", "docker-compose.yml", "docker-compose.yaml"
  }

  const EntryNames: set<string> := {
    "main.py", "app.py", "index.js", "index.ts", "server.py",
    "manage.py", "cli.py", "run.py", "__main__.py"
  }

  const TestIndicators: seq<string> := ["test_", "_test.", "spec.", ".test.", ".spec.", "tests/", "test/"]

  /** `path.split("/")[-1]` */
  function FileName(path: string): (name: string)
    ensures '/' !in name
  {
    var parts := Split(path, '/');
    parts[|parts| - 1]
  }

  /** `path.split("/")[:-1]`: the directory segments. */
  function DirSegments(path: string): seq<string> {
    var parts := Split(path, '/');
    parts[..|parts| - 1]
  }

  /** `path.count("/")` */
  function Depth(path: string): (d: nat)
    ensures d == |DirSegments(path)|
  {
    SplitCount(path, '/');
    Count(path, '/')
  }

  /**
   * `os.path.splitext(name)[1]` for a name without `/`: from the last `.` on, provided some
   * character before that dot is not a dot (leading dots belong to the name); otherwise empty.
   * So an extension holds at most one dot, and only at its start.
   */
  function Extension(name: string): (ext: string)
    ensures ext == [] || (ext[0] == '.' && '.' !in ext[1..])
    ensures EndsWith(name, ext)
  {
    var dot := LastIndexOf(name, '.');
    if dot > 0 && exists k :: 0 <= k < dot && name[k] != '.' then
      assert name[dot..][1..] == name[dot + 1..];
      name[dot..]
    else
      []
  }

  /** The loop over the directory segments, returning at the first excluded one. */
  function AnyExcludedDir(dirs: seq<string>): (r: bool)
    ensures r <==> exists i :: 0 <= i < |dirs| && dirs[i] in ExcludedDirs
  {
    if dirs == [] then false
    else if dirs[0] in ExcludedDirs then true
    else
      assert forall i :: 1 <= i < |dirs| ==> dirs[i] == dirs[1..][i - 1];
      AnyExcludedDir(dirs[1..])
  }

  /**
   * `is_excluded(path, size)`: skipped exactly when one of the four rules fires: a directory
   * segment is an excluded directory, the file name is an excluded file name, the lowered
   * extension is an excluded extension, or the file is larger than `MaxFileSize`.
   */
  predicate IsExcluded(path: string, size: int) {
    if AnyExcludedDir(DirSegments(path)) then true
    else if FileName(path) in ExcludedFilenames then true
    else if Lower(Extension(FileName(path))) in ExcludedExtensions then true
    else size > MaxFileSize
  }

  /** `is_excluded` is false exactly when none of the four rules fires. */
  lemma ExclusionRules(path: string, size: int)
    ensures IsExcluded(path, size) <==>
      || (exists i :: 0 <= i < |DirSegments(path)| && DirSegments(path)[i] in ExcludedDirs)
      || FileName(path) in ExcludedFilenames
      || Lower(Extension(FileName(path))) in ExcludedExtensions
      || size > MaxFileSize
  {
  }

  /**
   * A path made of directory segments and a file name: when any directory segment is an
   * excluded directory the file is skipped whatever its size.
   */
  lemma ExcludedDirectoryWins(dirs: seq<string>, name: string, size: int, i: nat)
    requires forall k :: 0 <= k < |dirs| ==> '/' !in dirs[k]
    requires '/' !in name
    requires i < |dirs| && dirs[i] in ExcludedDirs
    ensures IsExcluded(Join(dirs + [name], "/"), size)
  {
    BuiltPathExclusion(dirs, name, size);
  }

  /** The extension of `stem.ext` is `.ext` when `stem` does not start with a dot and `ext` has none. */
  lemma ExtensionOf(stem: string, ext: string)
    requires stem != [] && stem[0] != '.' && '.' !in ext
    ensures Extension(stem + "." + ext) == "." + ext
  {
    var name := stem + "." + ext;
    LastIndexOfAt(stem, '.', ext);
    assert name[0] == stem[0];
    assert name[|stem|..] == "." + ext;
  }

  /** A path without `/` is a file name at the root. */
  lemma RootPath(path: string)
    requires '/' !in path
    ensures DirSegments(path) == [] && FileName(path) == path && Depth(path) == 0
  {
    SplitNoSeparator(path, '/');
  }

  /** A path `dir/name` has the one directory segment `dir` and the file name `name`. */
  lemma OneDirPath(dir: string, name: string)
    requires '/' !in dir && '/' !in name
    ensures DirSegments(dir + "/" + name) == [dir] && FileName(dir + "/" + name) == name
  {
    SplitAt(dir, '/', name);
    SplitNoSeparator(name, '/');
  }

  /** For a file at the root, only the file-name, extension and size rules can fire. */
  lemma RootExclusion(name: string, size: int)
    requires '/' !in name
    ensures IsExcluded(name, size) <==>
      name in ExcludedFilenames || Lower(Extension(name)) in ExcludedExtensions || size > MaxFileSize
  {
    RootPath(name);
    ExclusionRules(name, size);
  }

  /** For a file `dir/name`, the directory rule looks at `dir` only. */
  lemma OneDirExclusion(dir: string, name: string, size: int)
    requires '/' !in dir && '/' !in name
    ensures IsExcluded(dir + "/" + name, size) <==>
      dir in ExcludedDirs || name in ExcludedFilenames || Lower(Extension(name)) in ExcludedExtensions
      || size > MaxFileSize
  {
    OneDirPath(dir, name);
    var path := dir + "/" + name;
    assert DirSegments(path)[0] == dir;
    ExclusionRules(path, size);
  }

  /** An excluded directory name used as the file name does not trigger the directory rule... */
  lemma NodeModulesAsFileName(dir: string, name: string)
    requires dir == "src" && name == "node_modules"
    ensures !IsExcluded(dir + "/" + name, 0)
  {
    NoSlashOrDot(dir);
    NoSlashOrDot(name);
    NoDotNoExtension(name);
    SrcNotExcluded(dir);
    NodeModulesNotAFileName(name);
    EmptyNotExcluded(Lower(Extension(name)));
    OneDirExclusion(dir, name, 0);
  }

  lemma NoSlashOrDot(s: string)
    requires s == "src" || s == "node_modules"
    ensures '/' !in s && '.' !in s
  {
  }

  /** ...while the same name as a directory excludes everything below it. */
  lemma NodeModulesAsDirectory(dir: string, name: string)
    requires dir == "node_modules" && name == "x.js"
    ensures IsExcluded(dir + "/" + name, 0)
  {
    NoSlashOrDot(dir);
    NodeModulesExcluded(dir);
    OneDirExclusion(dir, name, 0);
  }

  lemma NodeModulesExcluded(d: string) requires d == "node_modules" ensures d in ExcludedDirs {}

  /** Above `MaxFileSize` every path is skipped, whatever its name. */
  lemma SizeThreshold(path: string, size: int)
    requires size > MaxFileSize
    ensures IsExcluded(path, size)
  {
  }

  /** At exactly `MaxFileSize` the size rule does not fire; one byte more and it does. */
  lemma SizeThresholdBoundary()
    ensures !IsExcluded("README.md", 512000) && IsExcluded("README.md", 512001)
  {
    ReadmeAtLimit("README.md");
  }

  lemma ReadmeAtLimit(name: string)
    requires name == "README.md"
    ensures !IsExcluded(name, MaxFileSize)
  {
    ReadmeExtension(name);
    RootExclusion(name, MaxFileSize);
    ReadmeNotAFileName(name);
    MdNotExcluded(Lower(Extension(name)));
  }

  /** The lowered extension of `stem.ext`, for a stem that does not start with a dot. */
  lemma LoweredExtension(stem: string, ext: string, lowered: string)
    requires stem != [] && stem[0] != '.' && '.' !in ext && '/' !in stem && '/' !in ext
    requires Lower("." + ext) == lowered
    ensures '/' !in stem + "." + ext && Lower(Extension(stem + "." + ext)) == lowered
  {
    ExtensionOf(stem, ext);
  }

  lemma ReadmeExtension(name: string)
    requires name == "README.md"
    ensures '/' !in name && Lower(Extension(name)) == ".md"
  {
    LoweredExtension("README", "md", ".md");
    assert name == "README" + "." + "md";
  }

  /**
   * The extension rule looks at the last extension only, lowered: `X.PNG` is skipped, while
   * `a.min.js` and `.DS_Store` are not (their extensions are `.js` and empty).
   */
  lemma ExtensionRuleExamples()
    ensures IsExcluded("X.PNG", 0)
    ensures !IsExcluded("a.min.js", 0)
    ensures !IsExcluded(".DS_Store", 0)
  {
    UpperCaseImage("X.PNG");
    MinifiedScript("a.min.js");
    DsStore(".DS_Store");
  }

  lemma UpperCaseImage(name: string)
    requires name == "X.PNG"
    ensures IsExcluded(name, 0)
  {
    LoweredExtension("X", "PNG", ".png");
    assert name == "X" + "." + "PNG";
    RootExclusion(name, 0);
    PngExcluded(Lower(Extension(name)));
  }

  lemma MinifiedScript(name: string)
    requires name == "a.min.js"
    ensures !IsExcluded(name, 0)
  {
    LoweredExtension("a.min", "js", ".js");
    assert name == "a.min" + "." + "js";
    RootExclusion(name, 0);
    MinJsNotAFileName(name);
    JsNotExcluded(Lower(Extension(name)));
  }

  lemma DsStore(name: string)
    requires name == ".DS_Store"
    ensures !IsExcluded(name, 0)
  {
    DsStoreExtension(name);
    RootExclusion(name, 0);
    DsStoreNotAFileName(name);
    EmptyNotExcluded(Lower(Extension(name)));
  }

  lemma DsStoreExtension(name: string)
    requires name == ".DS_Store"
    ensures '/' !in name && Lower(Extension(name)) == []
  {
    assert name == [] + ['.'] + "DS_Store";
    LastIndexOfAt([], '.', "DS_Store");
    assert Extension(name) == [];
  }

  lemma NoDotNoExtension(name: string)
    requires '.' !in name
    ensures Extension(name) == []
  {
  }

  /** Membership facts for the examples above, each decided on its own. */
  lemma SrcNotExcluded(d: string) requires d == "src" ensures d !in ExcludedDirs {}

  lemma NodeModulesNotAFileName(n: string) requires n == "node_modules" ensures n !in ExcludedFilenames {}

  lemma ReadmeNotAFileName(n: string) requires n == "README.md" ensures n !in ExcludedFilenames {}

  lemma MinJsNotAFileName(n: string) requires n == "a.min.js" ensures n !in ExcludedFilenames {}

  lemma DsStoreNotAFileName(n: string) requires n == ".DS_Store" ensures n !in ExcludedFilenames {}

  lemma MdNotExcluded(e: string) requires e == ".md" ensures e !in ExcludedExtensions {}

  lemma JsNotExcluded(e: string) requires e == ".js" ensures e !in ExcludedExtensions {}

  lemma PngExcluded(e: string) requires e == ".png" ensures e in ExcludedExtensions {}

  lemma EmptyNotExcluded(e: string) requires e == [] ensures e !in ExcludedExtensions {}

  /**
   * Three entries of the extension set can never match: an extension holds one dot, at its
   * start, so `.min.js` and `.min.css` are out of reach, and a lowered string holds no capital
   * letter, so `.DS_Store` is too.
   */
  lemma {:induction false} DeadExtensions(name: string)
    ensures Lower(Extension(name)) != ".min.js"
    ensures Lower(Extension(name)) != ".min.css"
    ensures Lower(Extension(name)) != ".DS_Store"
  {
    var low := Lower(Extension(name));
    NoSecondDot(name);
    NoCapitalD(name);
    DotAtFour(low, ".min.js");
    DotAtFour(low, ".min.css");
    DAtOne(low, ".DS_Store");
  }

  /** A lowered extension holds no dot after its first character. */
  lemma NoSecondDot(name: string)
    ensures var low := Lower(Extension(name)); forall i :: 1 <= i < |low| ==> low[i] != '.'
  {
    var ext := Extension(name);
    var low := Lower(ext);
    forall i | 1 <= i < |low|
      ensures low[i] != '.'
    {
      assert ext[i] == ext[1..][i - 1];
      LowerCharDot(ext[i]);
    }
  }

  /** A lowered string holds no `D`. */
  lemma NoCapitalD(name: string)
    ensures var low := Lower(Extension(name)); forall i :: 0 <= i < |low| ==> low[i] != 'D'
  {
  }

  lemma LowerCharDot(c: char)
    ensures LowerChar(c) == '.' <==> c == '.'
  {
  }

  lemma DotAtFour(low: string, lit: string)
    requires lit == ".min.js" || lit == ".min.css"
    requires forall i :: 1 <= i < |low| ==> low[i] != '.'
    ensures low != lit
  {
    assert lit[4] == '.';
  }

  lemma DAtOne(low: string, lit: string)
    requires lit == ".DS_Store"
    requires forall i :: 0 <= i < |low| ==> low[i] != 'D'
    ensures low != lit
  {
    assert lit[1] == 'D';
  }

  // ---------------------------------------------------------------------------
  // Scoring
  // ---------------------------------------------------------------------------

  /** `readme(\.\w+)?` matched against the whole of `f`, the letters of `readme` in any case. */
  predicate IsReadmeCore(f: string) {
    |f| >= 6 && Lower(f[..6]) == "readme"
    && (|f| == 6 || (|f| >= 8 && f[6] == '.' && forall k :: 7 <= k < |f| ==> IsWordChar(f[k])))
  }

  /** `_README_RE.match(f)`: the pattern ends in `$`, which also matches before one final newline. */
  predicate IsReadmeName(f: string) {
    IsReadmeCore(f) || (|f| > 0 && f[|f| - 1] == '\n' && IsReadmeCore(f[..|f| - 1]))
  }

  /** Some test indicator occurs in `s`. */
  predicate HasTestIndicator(s: string) {
    exists k :: 0 <= k < |TestIndicators| && Contains(s, TestIndicators[k])
  }

  /**
   * `score_file(path)`: the first tier of the cascade that applies. It is never negative,
   * and it is 0 exactly for a README at the root.
   */
  function Score(path: string): int {
    var name := FileName(path);
    var depth := Depth(path);
    if depth == 0 && IsReadmeName(name) then 0
    else if name in ManifestNames then 10 + depth
    else if IsReadmeName(name) then 20 + depth
    else if name in EntryNames then 30 + depth
    else if depth <= 1 then 40
    else if HasTestIndicator(Lower(path)) then 80 + depth
    else 60 + depth
  }

  /** A score is never negative, and it is 0 exactly for a README at the root. */
  lemma ScoreRange(path: string)
    ensures Score(path) >= 0
    ensures Score(path) == 0 <==> Depth(path) == 0 && IsReadmeName(FileName(path))
  {
  }

  /** No manifest file name is a README name, so for manifests the cascade order does not matter. */
  lemma ManifestIsNotReadme(name: string)
    requires name in ManifestNames
    ensures !IsReadmeName(name)
  {
  }

  /**
   * Down to depth 9, a manifest, a README or an entry point always outranks a file that is none
   * of these: those tiers stay below 40, the lowest score of the others.
   */
  lemma HighSignalFilesFirst(p: string, q: string)
    requires Depth(p) < 10
    requires FileName(p) in ManifestNames || IsReadmeName(FileName(p)) || FileName(p) in EntryNames
    requires FileName(q) !in ManifestNames && !IsReadmeName(FileName(q)) && FileName(q) !in EntryNames
    ensures Score(p) < Score(q)
  {
  }

  /**
   * The tier gaps only hold near the root: a manifest 31 directories deep scores 41, behind a
   * plain top-level file's 40.
   */
  lemma DeepManifestLosesToTopLevel(dirs: seq<string>)
    requires |dirs| == 31
    requires forall k :: 0 <= k < |dirs| ==> '/' !in dirs[k]
    ensures Score(Join(dirs + ["package.json"], "/")) == 41
  {
    var name := "package.json";
    var path := Join(dirs + [name], "/");
    JoinedPath(dirs, name);
    PackageJsonIsManifest(FileName(path));
    ManifestScore(path);
  }

  /** Joining directory names and a file name gives that file name at the number of directories as depth. */
  lemma JoinedPath(dirs: seq<string>, name: string)
    requires forall k :: 0 <= k < |dirs| ==> '/' !in dirs[k]
    requires '/' !in name
    ensures FileName(Join(dirs + [name], "/")) == name
    ensures DirSegments(Join(dirs + [name], "/")) == dirs
    ensures Depth(Join(dirs + [name], "/")) == |dirs|
  {
    var parts := dirs + [name];
    assert forall k :: 0 <= k < |parts| ==> '/' !in parts[k] by {
      forall k | 0 <= k < |parts| ensures '/' !in parts[k] {
        if k < |dirs| { assert parts[k] == dirs[k]; }
      }
    }
    SplitJoin(parts, '/');
    assert parts[..|parts| - 1] == dirs;
  }

  lemma PackageJsonIsManifest(name: string)
    requires name == "package.json"
    ensures name in ManifestNames
  {
  }

  /** A manifest scores 10 plus its depth, wherever it is. */
  lemma ManifestScore(path: string)
    requires FileName(path) in ManifestNames
    ensures Score(path) == 10 + Depth(path)
  {
    ManifestIsNotReadme(FileName(path));
  }

  /**
   * For a path built from slash-free directory names and a file name, `is_excluded` holds
   * exactly when some directory is excluded, the name is an excluded file name, the lowered
   * extension of the name is excluded, or the size exceeds the limit.
   */
  lemma BuiltPathExclusion(dirs: seq<string>, name: string, size: int)
    requires forall k :: 0 <= k < |dirs| ==> '/' !in dirs[k]
    requires '/' !in name
    ensures IsExcluded(Join(dirs + [name], "/"), size) <==>
      || (exists i :: 0 <= i < |dirs| && dirs[i] in ExcludedDirs)
      || name in ExcludedFilenames
      || Lower(Extension(name)) in ExcludedExtensions
      || size > MaxFileSize
  {
    JoinedPath(dirs, name);
  }

  // Scores of concrete paths, one per tier.

  /** `README.md` at the root scores 0. */
  lemma RootReadmeScore(path: string)
    requires path == "README.md"
    ensures Score(path) == 0
  {
    ReadmeExtension(path);
    RootPath(path);
    ReadmeNameExample(path);
  }

  /** `src/README.md` is a README one directory down: 20 + 1. */
  lemma NestedReadmeScore(path: string)
    requires path == "src/README.md"
    ensures Score(path) == 21
  {
    var name := "README.md";
    assert path == "src" + "/" + name;
    ReadmeExtension(name);
    OneDirPath("src", name);
    ReadmeNameExample(name);
    ReadmeNotManifest(name);
  }

  /** `package.json` at the root is a manifest: 10 + 0. */
  lemma RootManifestScore(path: string)
    requires path == "package.json"
    ensures Score(path) == 10
  {
    PackageJsonNoSlash(path);
    RootPath(path);
    PackageJsonIsManifest(path);
    ManifestScore(path);
  }

  /** `a/b/main.py` is an entry point two directories down: 30 + 2. */
  lemma EntryPointScore(path: string)
    requires path == "a/b/main.py"
    ensures Score(path) == 32
  {
    var name := "main.py";
    assert path == "a" + "/" + "b" + "/" + name;
    JoinTwoDirs("a", "b", name);
    MainPyFacts(name);
    JoinedPath(["a", "b"], name);
  }

  /** `a/b/c/tests/foo.py` is a plain file under a `tests/` directory four deep: 80 + 4. */
  lemma TestFileScore(path: string)
    requires path == "a/b/c/tests/foo.py"
    ensures Score(path) == 84
  {
    var name := "foo.py";
    assert path == "a" + "/" + "b" + "/" + "c" + "/" + "tests" + "/" + name;
    JoinFourDirs("a", "b", "c", "tests", name);
    FooPyFacts(name);
    JoinedPath(["a", "b", "c", "tests"], name);
    TestsDirectoryIndicator(path);
  }

  lemma ReadmeNameExample(f: string)
    requires f == "README.md"
    ensures IsReadmeName(f)
  {
    assert f[..6] == "README";
    assert Lower(f[..6]) == "readme" by {
      var low := Lower(f[..6]);
      assert low[0] == 'r' && low[1] == 'e' && low[2] == 'a';
      assert low[3] == 'd' && low[4] == 'm' && low[5] == 'e';
    }
    assert IsWordChar(f[7]) && IsWordChar(f[8]);
  }

  lemma ReadmeNotManifest(n: string) requires n == "README.md" ensures n !in ManifestNames {}

  lemma PackageJsonNoSlash(n: string) requires n == "package.json" ensures '/' !in n {}

  lemma MainPyFacts(n: string)
    requires n == "main.py"
    ensures '/' !in n && n !in ManifestNames && n in EntryNames && !IsReadmeName(n)
  {
    assert Lower(n[..6])[0] == 'm';
    assert Lower(n[..|n| - 1][..6])[0] == 'm';
  }

  lemma FooPyFacts(n: string)
    requires n == "foo.py"
    ensures '/' !in n && n !in ManifestNames && n !in EntryNames && !IsReadmeName(n)
  {
    assert Lower(n[..6])[0] == 'f';
  }

  /** The lowered `a/b/c/tests/foo.py` holds `tests/` from index 6 on. */
  lemma TestsDirectoryIndicator(path: string)
    requires path == "a/b/c/tests/foo.py"
    ensures HasTestIndicator(Lower(path))
  {
    var low := Lower(path);
    assert low[6] == 't' && low[7] == 'e' && low[8] == 's';
    assert low[9] == 't' && low[10] == 's' && low[11] == '/';
    assert low[6..12] == TestIndicators[5];
    assert OccursAt(low, TestIndicators[5], 6);
  }

  /** Joining two directory names and a file name with `/`. */
  lemma JoinTwoDirs(a: string, b: string, n: string)
    ensures Join([a, b] + [n], "/") == a + "/" + b + "/" + n
  {
    assert [a, b] + [n] == [a] + [b, n];
    JoinCons(a, [b, n], "/");
    assert [b, n] == [b] + [n];
    JoinCons(b, [n], "/");
  }

  /** Joining four directory names and a file name with `/`. */
  lemma JoinFourDirs(a: string, b: string, c: string, d: string, n: string)
    ensures Join([a, b, c, d] + [n], "/") == a + "/" + b + "/" + c + "/" + d + "/" + n
  {
    assert [a, b, c, d] + [n] == [a] + ([b] + ([c] + [d, n]));
    JoinCons(a, [b] + ([c] + [d, n]), "/");
    JoinCons(b, [c] + [d, n], "/");
    JoinCons(c, [d, n], "/");
    assert [d, n] == [d] + [n];
    JoinCons(d, [n], "/");
  }
}
