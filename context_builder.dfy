/**
 * Assembly of the LLM context from downloaded files: one greedy pass in priority order that
 * caps each file, wraps it in a fenced section, and stops at the first section that does not
 * fit, after emitting at most one shortened partial section in its place.
 */
module ContextBuilder {
  import opened Wrappers
  import opened PyStr
  import opened Schemas

  /** Appended to content that was cut short. */
  const TruncationMarker := "\n... [truncated]"

  /** `f"### {path}\n"` */
  function Header(path: string): (h: string)
    ensures |h| == |path| + 5
  {
    "### " + path + "\n"
  }

  /**
   * The per-file cap: content longer than `perFileMax` keeps its first `perFileMax` characters
   * followed by the truncation marker; shorter content is kept as it is.
   */
  function Capped(content: string, perFileMax: int): string {
    if |content| > perFileMax then Take(content, perFileMax) + TruncationMarker else content
  }

  /** Short content is kept as it is; longer content keeps its first `perFileMax` characters, then the marker. */
  lemma CappedShape(content: string, perFileMax: int)
    ensures |content| <= perFileMax ==> Capped(content, perFileMax) == content
    ensures 0 <= perFileMax < |content| ==>
      var c := Capped(content, perFileMax);
      |c| == perFileMax + |TruncationMarker| && c[..perFileMax] == content[..perFileMax]
      && c[perFileMax..] == TruncationMarker
  {
    if 0 <= perFileMax < |content| {
      var c := Capped(content, perFileMax);
      assert c == content[..perFileMax] + TruncationMarker;
    }
  }

  /** A complete section: header, then the content between two fence lines. */
  function FullSection(path: string, content: string): (s: string)
    ensures |s| == |path| + |content| + 14
  {
    Header(path) + "```\n" + content + "\n```\n"
  }

  /** The characters of a partial section's content: the header and 20 more are set aside. */
  function Available(path: string, remaining: int): int {
    remaining - |Header(path)| - 20
  }

  /** A shortened last section: as much content as is available, then the marker and the fence. */
  function PartialSection(path: string, content: string, remaining: int): string {
    Header(path) + "```\n" + Take(content, Available(path, remaining)) + TruncationMarker + "\n```\n"
  }

  /** Whether the budget left is large enough for a partial section. */
  predicate PartialFits(path: string, remaining: int) {
    remaining > |Header(path)| + 50
  }

  /** The section of a file with content, after the per-file cap. */
  function SectionOf(f: RepoFile, perFileMax: int): string
    requires f.content.Some?
  {
    FullSection(f.path, Capped(f.content.value, perFileMax))
  }

  /** What the first section that does not fit leaves behind: its partial section, or nothing. */
  function StopSection(f: RepoFile, perFileMax: int, remaining: int): seq<string>
    requires f.content.Some?
  {
    if PartialFits(f.path, remaining)
    then [PartialSection(f.path, Capped(f.content.value, perFileMax), remaining)]
    else []
  }

  /**
   * The sections the loop appends, starting with `used` characters already spent: files
   * without content are passed over; a section is taken whole while it fits, and the first one
   * that does not fit ends the pass, replaced by a partial section when enough budget is left.
   */
  function Sections(files: seq<RepoFile>, budget: int, perFileMax: int, used: int): seq<string>
    decreases |files|
  {
    if files == [] then []
    else if files[0].content.None? then Sections(files[1..], budget, perFileMax, used)
    else
      var section := SectionOf(files[0], perFileMax);
      if used + |section| > budget then StopSection(files[0], perFileMax, budget - used)
      else [section] + Sections(files[1..], budget, perFileMax, used + |section|)
  }

  /** `build_context(files, budget, per_file_max)` */
  method BuildContext(files: seq<RepoFile>, budget: int, perFileMax: int) returns (context: string)
    ensures context == Join(Sections(files, budget, perFileMax, 0), "\n")
    ensures files == [] ==> context == ""
  {
    var sections: seq<string> := [];
    var used := 0;
    var i := 0;
    while i < |files|
      invariant 0 <= i <= |files|
      invariant sections + Sections(files[i..], budget, perFileMax, used) == Sections(files, budget, perFileMax, 0)
    {
      var f := files[i];
      SectionsFrom(files, i, budget, perFileMax, used);
      if f.content.None? {
        i := i + 1;
        continue;
      }
      var content := Capped(f.content.value, perFileMax);
      var header := Header(f.path);
      var section := FullSection(f.path, content);
      if used + |section| > budget {
        var remaining := budget - used;
        ghost var before := sections;
        if remaining > |header| + 50 {
          sections := sections + [PartialSection(f.path, content, remaining)];
        }
        assert sections == before + StopSection(f, perFileMax, remaining);
        break;
      }
      sections := sections + [section];
      used := used + |section|;
      i := i + 1;
    }
    if i == |files| {
      assert files[i..] == [];
      assert Sections(files[i..], budget, perFileMax, used) == [];
      assert sections + [] == sections;
    }
    assert sections == Sections(files, budget, perFileMax, 0);
    context := Join(sections, "\n");
  }

  /** One step of the pass, at file `i`. */
  lemma SectionsFrom(files: seq<RepoFile>, i: nat, budget: int, perFileMax: int, used: int)
    requires i < |files|
    ensures files[i].content.None? ==>
      Sections(files[i..], budget, perFileMax, used) == Sections(files[i + 1..], budget, perFileMax, used)
    ensures files[i].content.Some? && used + |SectionOf(files[i], perFileMax)| > budget ==>
      Sections(files[i..], budget, perFileMax, used) == StopSection(files[i], perFileMax, budget - used)
    ensures files[i].content.Some? && used + |SectionOf(files[i], perFileMax)| <= budget ==>
      Sections(files[i..], budget, perFileMax, used) ==
        [SectionOf(files[i], perFileMax)] + Sections(files[i + 1..], budget, perFileMax, used + |SectionOf(files[i], perFileMax)|)
  {
    assert files[i..][0] == files[i];
    assert files[i..][1..] == files[i + 1..];
  }

  // ---------------------------------------------------------------------------
  // What the pass produces
  // ---------------------------------------------------------------------------

  /** The files that have content. */
  function Present(files: seq<RepoFile>): (r: seq<RepoFile>)
    ensures |r| <= |files|
    ensures forall k :: 0 <= k < |r| ==> r[k].content.Some?
  {
    if files == [] then []
    else if files[0].content.Some? then [files[0]] + Present(files[1..])
    else Present(files[1..])
  }

  /** The full sections of all files that have content, in order. */
  function FullSections(files: seq<RepoFile>, perFileMax: int): (r: seq<string>)
    ensures |r| <= |files|
  {
    if files == [] then []
    else if files[0].content.Some? then [SectionOf(files[0], perFileMax)] + FullSections(files[1..], perFileMax)
    else FullSections(files[1..], perFileMax)
  }

  function SumLen(parts: seq<string>): nat {
    if parts == [] then 0 else |parts[0]| + SumLen(parts[1..])
  }

  lemma {:induction false} SumLenAppend(a: seq<string>, b: seq<string>)
    ensures SumLen(a + b) == SumLen(a) + SumLen(b)
  {
    if a != [] {
      assert (a + b)[1..] == a[1..] + b;
      SumLenAppend(a[1..], b);
    } else {
      assert a + b == b;
    }
  }

  /** Joining with a one-character separator adds one character between neighbouring parts. */
  lemma {:induction false} JoinLength(parts: seq<string>, sep: string)
    requires |sep| == 1 && parts != []
    ensures |Join(parts, sep)| == SumLen(parts) + |parts| - 1
  {
    if |parts| > 1 {
      JoinLength(parts[1..], sep);
    }
  }

  /** Files without content change nothing: the pass over `files` is the pass over its present files. */
  lemma {:induction false} AbsentFilesSkipped(files: seq<RepoFile>, budget: int, perFileMax: int, used: int)
    ensures Sections(files, budget, perFileMax, used) == Sections(Present(files), budget, perFileMax, used)
    decreases |files|, 1
  {
    if files != [] {
      if files[0].content.Some? {
        AbsentFilesSkippedPresent(files, budget, perFileMax, used);
      } else {
        AbsentFilesSkipped(files[1..], budget, perFileMax, used);
      }
    }
  }

  lemma {:induction false} AbsentFilesSkippedPresent(files: seq<RepoFile>, budget: int, perFileMax: int, used: int)
    requires files != [] && files[0].content.Some?
    ensures Sections(files, budget, perFileMax, used) == Sections(Present(files), budget, perFileMax, used)
    decreases |files|, 0
  {
    var p := Present(files);
    assert p == [files[0]] + Present(files[1..]);
    assert p[0] == files[0] && p[1..] == Present(files[1..]);
    var section := SectionOf(files[0], perFileMax);
    if used + |section| <= budget {
      var u := used + |section|;
      assert Sections(files, budget, perFileMax, used) == [section] + Sections(files[1..], budget, perFileMax, u);
      assert Sections(p, budget, perFileMax, used) == [section] + Sections(p[1..], budget, perFileMax, u);
      AbsentFilesSkipped(files[1..], budget, perFileMax, u);
    } else {
      assert Sections(files, budget, perFileMax, used) == StopSection(files[0], perFileMax, budget - used);
      assert Sections(p, budget, perFileMax, used) == StopSection(files[0], perFileMax, budget - used);
    }
  }

  /**
   * When the full sections fit in what is left of the budget (equality included, as the
   * overflow test is strict), every file with content is taken whole and no partial section
   * appears.
   */
  lemma {:induction false} AllFit(files: seq<RepoFile>, budget: int, perFileMax: int, used: int)
    requires used + SumLen(FullSections(files, perFileMax)) <= budget
    ensures Sections(files, budget, perFileMax, used) == FullSections(files, perFileMax)
  {
    if files != [] {
      if files[0].content.Some? {
        var section := SectionOf(files[0], perFileMax);
        assert SumLen(FullSections(files, perFileMax)) == |section| + SumLen(FullSections(files[1..], perFileMax));
        AllFit(files[1..], budget, perFileMax, used + |section|);
      } else {
        AllFit(files[1..], budget, perFileMax, used);
      }
    }
  }

  /** The index of the first file whose full section overflows the budget, or `|files|` if none does. */
  function StopIndex(files: seq<RepoFile>, budget: int, perFileMax: int, used: int): (k: nat)
    ensures k <= |files|
    decreases |files|
  {
    if files == [] then 0
    else if files[0].content.None? then 1 + StopIndex(files[1..], budget, perFileMax, used)
    else
      var section := SectionOf(files[0], perFileMax);
      if used + |section| > budget then 0
      else 1 + StopIndex(files[1..], budget, perFileMax, used + |section|)
  }

  /** The full sections taken before the stop index. */
  function Taken(files: seq<RepoFile>, budget: int, perFileMax: int, used: int): seq<string>
    decreases |files|
  {
    if files == [] then []
    else if files[0].content.None? then Taken(files[1..], budget, perFileMax, used)
    else
      var section := SectionOf(files[0], perFileMax);
      if used + |section| > budget then []
      else [section] + Taken(files[1..], budget, perFileMax, used + |section|)
  }

  lemma SumLenCons(s: string, rest: seq<string>)
    ensures SumLen([s] + rest) == |s| + SumLen(rest)
  {
    assert ([s] + rest)[1..] == rest;
  }

  /** The sections taken whole, if any, fit in the budget. */
  lemma {:induction false} TakenFits(files: seq<RepoFile>, budget: int, perFileMax: int, used: int)
    ensures Taken(files, budget, perFileMax, used) != [] ==>
      used + SumLen(Taken(files, budget, perFileMax, used)) <= budget
  {
    if files != [] {
      if files[0].content.None? {
        TakenFits(files[1..], budget, perFileMax, used);
      } else {
        var section := SectionOf(files[0], perFileMax);
        if used + |section| <= budget {
          var t1 := Taken(files[1..], budget, perFileMax, used + |section|);
          assert Taken(files, budget, perFileMax, used) == [section] + t1;
          TakenFits(files[1..], budget, perFileMax, used + |section|);
          SumLenCons(section, t1);
        }
      }
    }
  }

  /** The file at the stop index, when there is one, has content and its full section overflows. */
  predicate OverflowsAtStop(files: seq<RepoFile>, budget: int, perFileMax: int, used: int) {
    var k := StopIndex(files, budget, perFileMax, used);
    k < |files| ==>
      files[k].content.Some?
      && used + SumLen(Taken(files, budget, perFileMax, used)) + |SectionOf(files[k], perFileMax)| > budget
  }

  lemma {:induction false} StopOverflows(files: seq<RepoFile>, budget: int, perFileMax: int, used: int)
    ensures OverflowsAtStop(files, budget, perFileMax, used)
    decreases |files|, 1
  {
    if files == [] {
    } else if files[0].content.None? {
      StopOverflowsAbsent(files, budget, perFileMax, used);
    } else if used + |SectionOf(files[0], perFileMax)| <= budget {
      StopOverflowsFits(files, budget, perFileMax, used);
    } else {
      assert StopIndex(files, budget, perFileMax, used) == 0;
      assert Taken(files, budget, perFileMax, used) == [];
    }
  }

  lemma {:induction false} StopOverflowsAbsent(files: seq<RepoFile>, budget: int, perFileMax: int, used: int)
    requires files != [] && files[0].content.None?
    ensures OverflowsAtStop(files, budget, perFileMax, used)
    decreases |files|, 0
  {
    var rest := files[1..];
    var k1 := StopIndex(rest, budget, perFileMax, used);
    var k := 1 + k1;
    assert StopIndex(files, budget, perFileMax, used) == k;
    assert Taken(files, budget, perFileMax, used) == Taken(rest, budget, perFileMax, used);
    StopOverflows(rest, budget, perFileMax, used);
    if k < |files| {
      assert rest[k1] == files[k];
    }
  }

  lemma {:induction false} StopOverflowsFits(files: seq<RepoFile>, budget: int, perFileMax: int, used: int)
    requires files != [] && files[0].content.Some?
    requires used + |SectionOf(files[0], perFileMax)| <= budget
    ensures OverflowsAtStop(files, budget, perFileMax, used)
    decreases |files|, 0
  {
    var rest := files[1..];
    var section := SectionOf(files[0], perFileMax);
    var u := used + |section|;
    var k1 := StopIndex(rest, budget, perFileMax, u);
    var t1 := Taken(rest, budget, perFileMax, u);
    var k := 1 + k1;
    assert StopIndex(files, budget, perFileMax, used) == k;
    assert Taken(files, budget, perFileMax, used) == [section] + t1;
    StopOverflows(rest, budget, perFileMax, u);
    SumLenCons(section, t1);
    if k < |files| {
      assert rest[k1] == files[k];
    }
  }

  /** The sections taken whole are the full sections of the files before the stop index. */
  predicate TakenIsPrefix(files: seq<RepoFile>, budget: int, perFileMax: int, used: int) {
    Taken(files, budget, perFileMax, used) ==
      FullSections(files[..StopIndex(files, budget, perFileMax, used)], perFileMax)
  }

  lemma {:induction false} TakenArePrefix(files: seq<RepoFile>, budget: int, perFileMax: int, used: int)
    ensures TakenIsPrefix(files, budget, perFileMax, used)
    decreases |files|, 1
  {
    if files == [] {
      assert files[..0] == [];
    } else if files[0].content.None? {
      TakenArePrefixAbsent(files, budget, perFileMax, used);
    } else if used + |SectionOf(files[0], perFileMax)| <= budget {
      TakenArePrefixFits(files, budget, perFileMax, used);
    } else {
      assert StopIndex(files, budget, perFileMax, used) == 0;
      assert files[..0] == [];
    }
  }

  lemma {:induction false} TakenArePrefixAbsent(files: seq<RepoFile>, budget: int, perFileMax: int, used: int)
    requires files != [] && files[0].content.None?
    ensures TakenIsPrefix(files, budget, perFileMax, used)
    decreases |files|, 0
  {
    var rest := files[1..];
    var k1 := StopIndex(rest, budget, perFileMax, used);
    var k := 1 + k1;
    assert StopIndex(files, budget, perFileMax, used) == k;
    assert files[..k][0] == files[0];
    assert files[..k][1..] == rest[..k1];
    TakenArePrefix(rest, budget, perFileMax, used);
    assert FullSections(files[..k], perFileMax) == FullSections(rest[..k1], perFileMax);
  }

  lemma {:induction false} TakenArePrefixFits(files: seq<RepoFile>, budget: int, perFileMax: int, used: int)
    requires files != [] && files[0].content.Some?
    requires used + |SectionOf(files[0], perFileMax)| <= budget
    ensures TakenIsPrefix(files, budget, perFileMax, used)
    decreases |files|, 0
  {
    var rest := files[1..];
    var section := SectionOf(files[0], perFileMax);
    var u := used + |section|;
    var k1 := StopIndex(rest, budget, perFileMax, u);
    var k := 1 + k1;
    assert StopIndex(files, budget, perFileMax, used) == k;
    assert files[..k][0] == files[0];
    assert files[..k][1..] == rest[..k1];
    TakenArePrefix(rest, budget, perFileMax, u);
    assert FullSections(files[..k], perFileMax) == [section] + FullSections(rest[..k1], perFileMax);
    assert Taken(files, budget, perFileMax, used) == [section] + Taken(rest, budget, perFileMax, u);
  }

  /**
   * The shape of the result: with `k` the stop index, the sections are the full sections of
   * the first `k` files followed, when file `k` exists, by its partial section or by nothing;
   * no file after it is looked at.
   */
  predicate SplitsAtStop(files: seq<RepoFile>, budget: int, perFileMax: int, used: int) {
    var k := StopIndex(files, budget, perFileMax, used);
    var taken := FullSections(files[..k], perFileMax);
    Sections(files, budget, perFileMax, used) ==
      taken + if k < |files| && files[k].content.Some?
              then StopSection(files[k], perFileMax, budget - used - SumLen(taken)) else []
  }

  lemma {:induction false} SectionsByStop(files: seq<RepoFile>, budget: int, perFileMax: int, used: int)
    ensures SplitsAtStop(files, budget, perFileMax, used)
    decreases |files|, 1
  {
    if files == [] {
      assert files[..0] == [];
    } else if files[0].content.None? {
      SectionsByStopAbsent(files, budget, perFileMax, used);
    } else if used + |SectionOf(files[0], perFileMax)| <= budget {
      SectionsByStopFits(files, budget, perFileMax, used);
    } else {
      assert StopIndex(files, budget, perFileMax, used) == 0;
      assert files[..0] == [];
      var stop := StopSection(files[0], perFileMax, budget - used);
      assert Sections(files, budget, perFileMax, used) == stop;
      assert [] + stop == stop;
    }
  }

  lemma {:induction false} SectionsByStopAbsent(files: seq<RepoFile>, budget: int, perFileMax: int, used: int)
    requires files != [] && files[0].content.None?
    ensures SplitsAtStop(files, budget, perFileMax, used)
    decreases |files|, 0
  {
    var rest := files[1..];
    var k1 := StopIndex(rest, budget, perFileMax, used);
    var k := 1 + k1;
    assert StopIndex(files, budget, perFileMax, used) == k;
    FullSectionsCons(files, perFileMax, k);
    assert Sections(files, budget, perFileMax, used) == Sections(rest, budget, perFileMax, used);
    SectionsByStop(rest, budget, perFileMax, used);
    if k < |files| {
      assert rest[k1] == files[k];
    }
  }

  lemma {:induction false} SectionsByStopFits(files: seq<RepoFile>, budget: int, perFileMax: int, used: int)
    requires files != [] && files[0].content.Some?
    requires used + |SectionOf(files[0], perFileMax)| <= budget
    ensures SplitsAtStop(files, budget, perFileMax, used)
    decreases |files|, 0
  {
    var rest := files[1..];
    var section := SectionOf(files[0], perFileMax);
    var u := used + |section|;
    var k1 := StopIndex(rest, budget, perFileMax, u);
    var k := 1 + k1;
    assert StopIndex(files, budget, perFileMax, used) == k;
    var t1 := FullSections(rest[..k1], perFileMax);
    FullSectionsCons(files, perFileMax, k);
    SumLenCons(section, t1);
    var s1 := Sections(rest, budget, perFileMax, u);
    assert Sections(files, budget, perFileMax, used) == [section] + s1;
    SectionsByStop(rest, budget, perFileMax, u);
    var stop := if k1 < |rest| && rest[k1].content.Some?
                then StopSection(rest[k1], perFileMax, budget - u - SumLen(t1)) else [];
    assert s1 == t1 + stop;
    ConsAppend(section, t1, stop);
    if k < |files| {
      assert rest[k1] == files[k];
    }
  }

  /** The full sections of a non-empty prefix: the first file's section, if it has content, then the rest's. */
  lemma FullSectionsCons(files: seq<RepoFile>, perFileMax: int, k: nat)
    requires 1 <= k <= |files|
    ensures files[0].content.None? ==>
      FullSections(files[..k], perFileMax) == FullSections(files[1..][..k - 1], perFileMax)
    ensures files[0].content.Some? ==>
      FullSections(files[..k], perFileMax) == [SectionOf(files[0], perFileMax)] + FullSections(files[1..][..k - 1], perFileMax)
  {
    var p := files[..k];
    assert p[0] == files[0];
    assert p[1..] == files[1..][..k - 1];
  }

  lemma ConsAppend(s: string, a: seq<string>, b: seq<string>)
    ensures [s] + (a + b) == ([s] + a) + b
  {
  }

  /**
   * The full sections before the stop index fit in the budget; file `k`, when it exists, has
   * content and its full section overflows.
   */
  lemma TakenBounds(files: seq<RepoFile>, budget: int, perFileMax: int, used: int)
    ensures var k := StopIndex(files, budget, perFileMax, used);
      var taken := FullSections(files[..k], perFileMax);
      && (taken != [] ==> used + SumLen(taken) <= budget)
      && (k < |files| ==>
            files[k].content.Some? && used + SumLen(taken) + |SectionOf(files[k], perFileMax)| > budget)
  {
    var k := StopIndex(files, budget, perFileMax, used);
    var taken := Taken(files, budget, perFileMax, used);
    assert taken == FullSections(files[..k], perFileMax) by {
      TakenArePrefix(files, budget, perFileMax, used);
    }
    TakenFits(files, budget, perFileMax, used);
    StopOverflows(files, budget, perFileMax, used);
  }

  /**
   * A partial section replaces a full section that overflows: its content is a strict prefix
   * of the capped content, exactly `remaining - |header| - 20` characters long, and the
   * section itself is `remaining + 5` characters long and ends with the truncation marker and
   * the closing fence.
   */
  lemma PartialSectionShape(path: string, content: string, remaining: int)
    requires |FullSection(path, content)| > remaining
    requires PartialFits(path, remaining)
    ensures var avail := Available(path, remaining);
      && 0 < avail < |content|
      && Take(content, avail) == content[..avail]
      && |PartialSection(path, content, remaining)| == remaining + 5
      && EndsWith(PartialSection(path, content, remaining), TruncationMarker + "\n```\n")
  {
    var s := PartialSection(path, content, remaining);
    var tail := TruncationMarker + "\n```\n";
    assert s == (Header(path) + "```\n" + Take(content, Available(path, remaining))) + tail;
  }

  /**
   * The bound the pass keeps: the context exceeds the budget by at most 4 characters plus one
   * per file, the partial section's 5 extra characters and the `"\n"` separators together;
   * with no section at all it is empty.
   */
  lemma ContextLength(files: seq<RepoFile>, budget: int, perFileMax: int)
    ensures var context := Join(Sections(files, budget, perFileMax, 0), "\n");
      context == "" || |context| <= budget + 4 + |files|
  {
    var sections := Sections(files, budget, perFileMax, 0);
    SectionsByStop(files, budget, perFileMax, 0);
    TakenBounds(files, budget, perFileMax, 0);
    var k := StopIndex(files, budget, perFileMax, 0);
    var taken := FullSections(files[..k], perFileMax);
    if sections != [] {
      JoinLength(sections, "\n");
      if k < |files| {
        var rem := budget - SumLen(taken);
        assert sections == taken + StopSection(files[k], perFileMax, rem);
        if PartialFits(files[k].path, rem) {
          var content := Capped(files[k].content.value, perFileMax);
          PartialSectionShape(files[k].path, content, rem);
          SumLenAppend(taken, [PartialSection(files[k].path, content, rem)]);
          assert SumLen(sections) == budget + 5;
          assert |sections| <= |files|;
        } else {
          assert sections == taken + [] == taken;
        }
      } else {
        assert sections == taken + [] == taken;
      }
    }
  }
}
