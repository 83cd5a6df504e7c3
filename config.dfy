/**
 * The settings of the service and the `.env` loader that runs before they are read: each
 * `KEY=value` line sets an environment variable unless that variable is already set.
 */
module Config {
  import opened Wrappers
  import opened PyStr

  /** A line the loader passes over: blank after stripping, a comment, or without `=`. */
  predicate IsIgnoredLine(line: string) {
    var t := Strip(line);
    t == [] || StartsWith(t, "#") || '=' !in t
  }

  /**
   * One line of the file: stripped, then split at its first `=` (`str.partition`) into a
   * key and a value, each stripped again. The key never holds `=`, and neither part has
   * whitespace at either end; `ParseLinePartition` shows the pair is the stripped halves
   * around the first `=`.
   */
  function ParseLine(line: string): (r: Option<(string, string)>)
    ensures r.None? <==> IsIgnoredLine(line)
    ensures r.Some? ==> '=' !in r.value.0 && Unpadded(r.value.0) && Unpadded(r.value.1)
  {
    var t := Strip(line);
    if t == [] || StartsWith(t, "#") || '=' !in t then None
    else
      var eq := IndexOf(t, '=');
      var key := Strip(t[..eq]);
      StripInside(t[..eq]);
      Some((key, Strip(t[eq + 1..])))
  }

  /**
   * `line.strip().partition("=")`: a parsed line is a part without `=`, the `=`, and the rest,
   * and the key and the value are those two parts stripped.
   */
  lemma ParseLinePartition(line: string)
    ensures ParseLine(line).Some? ==>
      exists a, b :: (Strip(line) == a + "=" + b && '=' !in a && ParseLine(line).value == (Strip(a), Strip(b)))
  {
    var t := Strip(line);
    if ParseLine(line).Some? {
      var eq := IndexOf(t, '=');
      var a, b := t[..eq], t[eq + 1..];
      PartitionAt(t, eq);
      assert ParseLine(line).value == (Strip(a), Strip(b));
      assert t == a + "=" + b && '=' !in a;
    }
  }

  /** A string cut at an `=` is the part before, the `=`, and the part after. */
  lemma PartitionAt(t: string, eq: nat)
    requires eq < |t| && t[eq] == '='
    ensures t == t[..eq] + "=" + t[eq + 1..]
  {
    CutAt(t, eq);
  }

  /** Neither end is whitespace: what `strip()` leaves. */
  predicate Unpadded(s: string) {
    s == [] || (!IsSpace(s[0]) && !IsSpace(s[|s| - 1]))
  }

  /** The strings `strip()` leaves as they are are exactly the unpadded ones. */
  lemma UnpaddedIsStripped(s: string)
    ensures Unpadded(s) <==> Strip(s) == s
  {
    if Unpadded(s) {
      LStripUnpadded(s);
      RStripUnpadded(s);
    } else {
      var r := Strip(s);
      assert r == [] || (!IsSpace(r[0]) && !IsSpace(r[|r| - 1]));
      assert r != s;
    }
  }

  /**
   * Why `os.environ[key] = value` raises: a NUL character in the name or the value
   * (`ValueError`, "embedded null byte"), or an empty name (on POSIX `setenv` refuses it and
   * Python raises `OSError`; on Windows it is a `ValueError`).
   */
  datatype EnvError = EmbeddedNull | EmptyName

  /** The error, if any, of setting `key` to `value`; a name from a parsed line never holds `=`. */
  function AssignmentError(key: string, value: string): (e: Option<EnvError>)
    ensures e.None? <==> key != [] && '\0' !in key && '\0' !in value
  {
    if '\0' in key || '\0' in value then Some(EmbeddedNull)
    else if key == [] then Some(EmptyName)
    else None
  }

  /**
   * What one line does to the environment: set its key, if the value is not empty and the key
   * is unset; the assignment may fail, and then the environment is left as it was.
   */
  function ApplyLine(env: map<string, string>, line: string): (map<string, string>, Option<EnvError>) {
    match ParseLine(line)
    case None => (env, None)
    case Some((key, value)) => Assign(env, key, value)
  }

  /** The guarded assignment of a parsed line: only a non-empty value for an unset key is set. */
  function Assign(env: map<string, string>, key: string, value: string): (map<string, string>, Option<EnvError>) {
    if value != [] && key !in env then
      var e := AssignmentError(key, value);
      if e.Some? then (env, e) else (env[key := value], None)
    else (env, None)
  }

  /**
   * The environment after the lines, taken first to last, and the error that stopped the
   * loop, if one did: lines after a failed assignment are not looked at.
   */
  function ApplyLines(env: map<string, string>, lines: seq<string>): (map<string, string>, Option<EnvError>)
    decreases |lines|
  {
    if lines == [] then (env, None)
    else
      var before := ApplyLines(env, lines[..|lines| - 1]);
      if before.1.Some? then before else ApplyLine(before.0, lines[|lines| - 1])
  }

  /** `os.environ`: the process environment, which the loader changes in place. */
  class Environment {
    var vars: map<string, string>

    constructor(vars: map<string, string>)
      ensures this.vars == vars
    {
      this.vars := vars;
    }

    /** `os.environ[key] = value`: either sets the variable or raises and changes nothing. */
    method Set(key: string, value: string) returns (error: Option<EnvError>)
      modifies this
      ensures error == AssignmentError(key, value)
      ensures vars == if error.None? then old(vars)[key := value] else old(vars)
    {
      error := AssignmentError(key, value);
      if error.None? {
        vars := vars[key := value];
      }
    }
  }

  /**
   * The loop over the lines of `.env` (the file already read and split into lines). A failed
   * assignment ends it with that error, the assignments before it kept.
   */
  method LoadDotEnv(env: Environment, lines: seq<string>) returns (error: Option<EnvError>)
    modifies env
    ensures (env.vars, error) == ApplyLines(old(env.vars), lines)
  {
    var i := 0;
    while i < |lines|
      invariant 0 <= i <= |lines|
      invariant ApplyLines(old(env.vars), lines[..i]) == (env.vars, None)
    {
      assert lines[..i + 1][..i] == lines[..i];
      assert ApplyLines(old(env.vars), lines[..i + 1]) == ApplyLine(env.vars, lines[i]);
      var parsed := ParseLine(lines[i]);
      if parsed.Some? {
        var (key, value) := parsed.value;
        if value != [] && key !in env.vars {
          error := env.Set(key, value);
          if error.Some? {
            FailureStopsLoading(old(env.vars), lines, i + 1);
            return;
          }
        }
      }
      i := i + 1;
    }
    assert lines[..i] == lines;
    error := None;
  }

  /** Once an assignment has failed, the remaining lines change nothing. */
  lemma {:induction false} FailureStopsLoading(env: map<string, string>, lines: seq<string>, i: nat)
    requires i <= |lines|
    requires ApplyLines(env, lines[..i]).1.Some?
    ensures ApplyLines(env, lines) == ApplyLines(env, lines[..i])
    decreases |lines| - i
  {
    if i < |lines| {
      assert lines[..i + 1][..i] == lines[..i];
      FailureStopsLoading(env, lines, i + 1);
    } else {
      assert lines[..i] == lines;
    }
  }

  // ---------------------------------------------------------------------------
  // What the loader does
  // ---------------------------------------------------------------------------

  /** The value the first line that sets `key` to a non-empty value gives it, if any line does. */
  function FirstValue(lines: seq<string>, key: string): Option<string>
    decreases |lines|
  {
    if lines == [] then None
    else
      var earlier := FirstValue(lines[..|lines| - 1], key);
      if earlier.Some? then earlier
      else match ParseLine(lines[|lines| - 1])
        case Some((k, v)) => if k == key && v != [] then Some(v) else None
        case None => None
  }

  /**
   * Variables already set are never overridden, failure or not; when no assignment fails, an
   * unset variable ends up with the value of the first line that sets it, or stays unset.
   */
  lemma {:induction false} LoaderSemantics(env: map<string, string>, lines: seq<string>, key: string)
    ensures key in env ==> key in ApplyLines(env, lines).0 && ApplyLines(env, lines).0[key] == env[key]
    ensures key !in env && ApplyLines(env, lines).1.None? ==>
      (key in ApplyLines(env, lines).0 <==> FirstValue(lines, key).Some?)
      && (key in ApplyLines(env, lines).0 ==> ApplyLines(env, lines).0[key] == FirstValue(lines, key).value)
    decreases |lines|
  {
    if lines != [] {
      var init := lines[..|lines| - 1];
      LoaderSemantics(env, init, key);
      var before := ApplyLines(env, init);
      if before.1.None? {
        LineEffect(before.0, lines[|lines| - 1], key);
      }
    }
  }

  /** A line `key=value` with a non-empty value. */
  predicate Sets(line: string, key: string) {
    var p := ParseLine(line);
    p.Some? && p.value.0 == key && p.value.1 != []
  }

  /** What one line does to one variable. */
  lemma LineEffect(env: map<string, string>, line: string, key: string)
    ensures var r := ApplyLine(env, line);
      && (key in env ==> key in r.0 && r.0[key] == env[key])
      && (key !in env && r.1.None? ==> (key in r.0 <==> Sets(line, key)))
      && (key !in env && r.1.None? && key in r.0 ==> r.0[key] == ParseLine(line).value.1)
  {
    var p := ParseLine(line);
    if p.Some? {
      assert ApplyLine(env, line) == Assign(env, p.value.0, p.value.1);
      AssignEffect(env, p.value.0, p.value.1, key);
    } else {
      assert ApplyLine(env, line) == (env, None);
    }
  }

  /** What a guarded assignment does to one variable, and that a failing one changes nothing. */
  lemma AssignEffect(env: map<string, string>, k: string, v: string, key: string)
    ensures var r := Assign(env, k, v);
      && (key in env ==> key in r.0 && r.0[key] == env[key])
      && (key !in env && r.1.None? ==> (key in r.0 <==> k == key && v != []))
      && (key !in env && r.1.None? && key in r.0 ==> r.0[key] == v)
      && (r.1.Some? ==> r.0 == env && v != [] && r.1 == AssignmentError(k, v))
  {
  }

  /** A line fails only when its assignment is illegal, and then it changes nothing. */
  lemma LineFailure(env: map<string, string>, line: string)
    ensures var r := ApplyLine(env, line);
      r.1.Some? ==> r.0 == env && IllegalLine(line) && r.1 == LineError(line)
  {
    var p := ParseLine(line);
    if p.Some? {
      assert ApplyLine(env, line) == Assign(env, p.value.0, p.value.1);
      AssignEffect(env, p.value.0, p.value.1, []);
    }
  }

  /** A line whose assignment `os.environ` refuses: a non-empty value under a bad name or with a NUL. */
  predicate IllegalLine(line: string) {
    var p := ParseLine(line);
    p.Some? && p.value.1 != [] && AssignmentError(p.value.0, p.value.1).Some?
  }

  /** The error that setting a line's variable raises, if it reaches `os.environ`. */
  function LineError(line: string): (e: Option<EnvError>)
    ensures e.Some? <==> IllegalLine(line)
  {
    var p := ParseLine(line);
    if p.Some? && p.value.1 != [] then AssignmentError(p.value.0, p.value.1) else None
  }

  /** Loading fails only at a line whose assignment is illegal, and the error is that line's. */
  lemma {:induction false} FailureHasCause(env: map<string, string>, lines: seq<string>)
    ensures ApplyLines(env, lines).1.Some? ==>
      exists i :: 0 <= i < |lines| && IllegalLine(lines[i]) && ApplyLines(env, lines).1 == LineError(lines[i])
    decreases |lines|
  {
    if lines != [] {
      var init, last := lines[..|lines| - 1], lines[|lines| - 1];
      var before := ApplyLines(env, init);
      FailureHasCause(env, init);
      if before.1.Some? {
        assert ApplyLines(env, lines) == before;
        var i :| 0 <= i < |init| && IllegalLine(init[i]) && before.1 == LineError(init[i]);
        assert lines[i] == init[i];
      } else {
        assert ApplyLines(env, lines) == ApplyLine(before.0, last);
        LineFailure(before.0, last);
        if ApplyLine(before.0, last).1.Some? {
          assert IllegalLine(lines[|lines| - 1]) && ApplyLines(env, lines).1 == LineError(lines[|lines| - 1]);
        }
      }
    }
  }

  /**
   * A line `=value` reaches `os.environ` with an empty name, which it refuses, unless the
   * empty name is already set.
   */
  lemma EmptyKeyLineFails(env: map<string, string>, value: string)
    requires value != [] && Unpadded(value) && '\0' !in value && [] !in env
    ensures ApplyLine(env, "=" + value) == (env, Some(EmptyName))
  {
    EmptyKeyParse(value);
  }

  lemma EmptyKeyParse(value: string)
    requires value != [] && Unpadded(value)
    ensures ParseLine("=" + value) == Some(([], value))
  {
    var line := "=" + value;
    EqualsFirstUnstripped(value);
    assert !IsIgnoredLine(line) by {
      assert line[..1] == "=";
    }
    assert IndexOf(line, '=') == 0;
    assert line[..0] == [] && line[1..] == value;
    UnpaddedIsStripped(value);
    assert Strip([]) == [];
  }

  /** `=value` keeps its ends when the value ends with non-whitespace. */
  lemma EqualsFirstUnstripped(value: string)
    requires value != [] && Unpadded(value)
    ensures Strip("=" + value) == "=" + value
  {
    var line := "=" + value;
    assert line[0] == '=' && line[|line| - 1] == value[|value| - 1];
    assert Unpadded(line);
    UnpaddedIsStripped(line);
  }

  /** Ignored lines leave the environment as it is. */
  lemma IgnoredLineChangesNothing(env: map<string, string>, line: string)
    requires IsIgnoredLine(line)
    ensures ApplyLine(env, line) == (env, None)
  {
  }

  /**
   * A line `key=value`, with a key that is neither blank-padded, a comment nor holding `=`, and
   * a value without padding, parses back to its key and value; the value may hold `=`.
   */
  lemma ParseAssignment(key: string, value: string)
    requires key != [] && key[0] != '#' && '=' !in key && Unpadded(key) && Unpadded(value)
    ensures ParseLine(key + "=" + value) == Some((key, value))
  {
    var line := key + "=" + value;
    StripOfFramed(key, value);
    assert line[..1] == [key[0]];
    assert !StartsWith(line, "#");
    assert line[|key|] == '=';
    IndexOfSplitPoint(key, '=', value);
    assert line[..|key|] == key;
    assert line[|key| + 1..] == value;
    UnpaddedIsStripped(key);
    UnpaddedIsStripped(value);
    assert !IsIgnoredLine(line);
    var t := Strip(line);
    var eq := IndexOf(t, '=');
    assert ParseLine(line) == Some((Strip(t[..eq]), Strip(t[eq + 1..])));
    assert t == line && eq == |key|;
  }

  /** `key=value` keeps its ends when the key starts and the value ends with non-whitespace. */
  lemma StripOfFramed(key: string, value: string)
    requires key != [] && Unpadded(key) && Unpadded(value)
    ensures Strip(key + "=" + value) == key + "=" + value
  {
    var line := key + "=" + value;
    assert line[0] == key[0];
    assert line[|line| - 1] == if value == [] then '=' else value[|value| - 1];
    assert Unpadded(line);
    UnpaddedIsStripped(line);
  }

  lemma LStripUnpadded(s: string)
    requires s == [] || !IsSpace(s[0])
    ensures LStrip(s) == s
  {
  }

  lemma RStripUnpadded(s: string)
    requires s == [] || !IsSpace(s[|s| - 1])
    ensures RStrip(s) == s
  {
  }

  /** A stripped string holds no character the original does not. */
  lemma {:induction false} StripInside(s: string)
    ensures forall c :: c in Strip(s) ==> c in s
  {
    LStripInside(s);
    RStripInside(LStrip(s));
  }

  lemma {:induction false} LStripInside(s: string)
    ensures forall c :: c in LStrip(s) ==> c in s
  {
    if |s| > 0 && IsSpace(s[0]) {
      LStripInside(s[1..]);
    }
  }

  lemma {:induction false} RStripInside(s: string)
    ensures forall c :: c in RStrip(s) ==> c in s
  {
    if |s| > 0 && IsSpace(s[|s| - 1]) {
      RStripInside(s[..|s| - 1]);
    }
  }

  // ---------------------------------------------------------------------------
  // Settings
  // ---------------------------------------------------------------------------

  /** `Settings`: every value the service reads from its environment. */
  datatype Settings = Settings(
    githubApiBase: string,
    githubToken: Option<string>,
    githubTimeout: int,
    llmApiKey: string,
    llmApiBase: string,
    llmModel: string,
    llmTimeout: int,
    llmMaxTokens: int,
    maxContextChars: int,
    promptBufferChars: int,
    perFileMaxChars: int,
    cacheMaxSize: int)
  {
    /** The characters left for file content once the prompt's own share is set aside. */
    function ContentBudget(): int {
      maxContextChars - promptBufferChars
    }
  }

  /** The settings of an environment that sets none of the variables. */
  const Defaults := Settings(
    "https://api.github.com", None, 30,
    "", "https://api.openai.com/v1", "gpt-4o-mini", 60, 4096,
    100000, 4000, 15000,
    128)

  /** With the defaults, 96000 characters go to file content, at most 15000 from one file. */
  lemma DefaultBudgets()
    ensures Defaults.ContentBudget() == 96000
    ensures Defaults.perFileMaxChars == 15000
  {
  }
}
