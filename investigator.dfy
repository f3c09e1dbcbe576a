/**
  The investigation stage of `agents/investigator.py`: the `File:` and `PR:` scrapers and the
  shaping of its result around the one generator call. The stage keeps the default skip rule.
*/
module Investigator {
  import opened Wrappers
  import opened Text
  import opened Models
  import opened Stages
  import opened Sections

  const Name := "investigate"

  /** The placeholder the prompt template puts after `PR:`. */
  const Placeholder := "[number if known]"

  /** The path a `File:` line names: the trimmed text after its last `:`, if it looks like a path. */
  function FileOf(line: string): (path: Option<string>)
    ensures path.Some? ==> |path.value| > 0 && '/' in path.value && ':' !in path.value && Stripped(path.value)
    ensures !Contains(line, "File:") ==> path == None
    ensures Contains(line, "File:") ==>
      var p := Strip(LastPart(line, ':'));
      path == if |p| > 0 && '/' in p then Some(p) else None
  {
    if Contains(line, "File:") || Contains(line, "- File:") then
      ContainsFile(line);
      CharOfContained(line, "File:", 4);
      SplitsInTwo(line, ':');
      var parts := Split(line, ':');
      if |parts| >= 2 then
        var path := Strip(parts[|parts| - 1]);
        StripKeepsOut(parts[|parts| - 1], ':');
        if |path| > 0 && '/' in path then Some(path) else None
      else None
    else None
  }

  /** `"- File:"` occurs only where `"File:"` does, so the second test of the source adds nothing. */
  lemma ContainsFile(line: string)
    ensures Contains(line, "- File:") ==> Contains(line, "File:")
  {
    if Contains(line, "- File:") {
      assert "- File:" == "- " + "File:";
      ContainsTail(line, "- ", "File:");
    }
  }

  /** `_extract_files(response)`. */
  function Files(response: string): (files: seq<string>)
    ensures |files| <= |Lines(response)|
  {
    FilterMap(Lines(response), FileOf)
  }

  /** A single line yields the path `FileOf` gives it, or nothing. */
  lemma FilesOfLine(line: string)
    requires '\n' !in line
    ensures Files(line) == if FileOf(line).Some? then [FileOf(line).value] else []
  {
    OneLine(line);
  }

  /** The paths of two texts joined by a newline are those of the first, then those of the second. */
  lemma FilesAppend(a: string, b: string)
    ensures Files(a + "\n" + b) == Files(a) + Files(b)
  {
    LinesAppend(a, b);
    FilterMapAppend(Lines(a), Lines(b), FileOf);
  }

  /** The loop of `_extract_files`. */
  method ExtractFiles(response: string) returns (files: seq<string>)
    ensures files == Files(response)
  {
    var lines := Lines(response);
    assert lines[..|lines|] == lines;
    files := [];
    var i := 0;
    while i < |lines|
      invariant 0 <= i <= |lines|
      invariant files == FilterMap(lines[..i], FileOf)
    {
      var next := i + 1;
      FilterMapNext(lines, FileOf, i, next);
      var line := lines[i];
      if Contains(line, "File:") || Contains(line, "- File:") {
        var parts := Split(line, ':');
        if |parts| >= 2 {
          var path := Strip(parts[|parts| - 1]);
          if |path| > 0 && '/' in path {
            files := files + [path];
          }
        }
      }
      i := next;
    }
  }

  /** Every extracted path is non-empty, contains `/`, has no `:` and comes from a `File:` line. */
  lemma FilesWellFormed(response: string, k: nat)
    requires k < |Files(response)|
    ensures var p := Files(response)[k]; |p| > 0 && '/' in p && ':' !in p
    ensures exists i ::
      0 <= i < |Lines(response)| && Contains(Lines(response)[i], "File:") && FileOf(Lines(response)[i]) == Some(Files(response)[k])
  {
    FilterMapSource(Lines(response), FileOf, k);
  }

  /** Every `File:` line that names a path contributes it. */
  lemma FilesComplete(response: string, i: nat)
    requires i < |Lines(response)| && FileOf(Lines(response)[i]).Some?
    ensures FileOf(Lines(response)[i]).value in Files(response)
  {
    FilterMapComplete(Lines(response), FileOf, i);
  }

  /** The reference a `PR:` line gives: the trimmed text after its last `:`, unless empty or the placeholder. */
  function PrOf(line: string): (pr: Option<string>)
    ensures pr.Some? ==> |pr.value| > 0 && pr.value != Placeholder && ':' !in pr.value && Stripped(pr.value)
    ensures !Contains(line, "PR:") ==> pr == None
    ensures Contains(line, "PR:") ==>
      var c := Strip(LastPart(line, ':'));
      pr == if |c| > 0 && c != Placeholder then Some(c) else None
  {
    if Contains(line, "PR:") || Contains(line, "- PR:") then
      ContainsPr(line);
      CharOfContained(line, "PR:", 2);
      SplitsInTwo(line, ':');
      var parts := Split(line, ':');
      if |parts| >= 2 then
        var pr := Strip(parts[|parts| - 1]);
        StripKeepsOut(parts[|parts| - 1], ':');
        if |pr| > 0 && pr != Placeholder then Some(pr) else None
      else None
    else None
  }

  /** `"- PR:"` occurs only where `"PR:"` does, so the second test of the source adds nothing. */
  lemma ContainsPr(line: string)
    ensures Contains(line, "- PR:") ==> Contains(line, "PR:")
  {
    if Contains(line, "- PR:") {
      assert "- PR:" == "- " + "PR:";
      ContainsTail(line, "- ", "PR:");
    }
  }

  /** `_extract_pr(response)`: the reference of the first line that gives one. */
  function Pr(response: string): (pr: Option<string>)
    ensures pr.None? <==> forall i :: 0 <= i < |Lines(response)| ==> PrOf(Lines(response)[i]).None?
    ensures pr.Some? ==> exists i ::
      0 <= i < |Lines(response)| && PrOf(Lines(response)[i]) == pr && forall j :: 0 <= j < i ==> PrOf(Lines(response)[j]).None?
  {
    FirstSome(Lines(response), PrOf)
  }

  /** The reference is non-empty, is not the placeholder and has no `:`. */
  lemma PrWellFormed(response: string)
    requires Pr(response).Some?
    ensures var pr := Pr(response).value; |pr| > 0 && pr != Placeholder && ':' !in pr
  {
    var lines := Lines(response);
    var i :| 0 <= i < |lines| && PrOf(lines[i]) == Pr(response);
  }

  /** The loop of `_extract_pr`, with its early return. */
  method ExtractPr(response: string) returns (pr: Option<string>)
    ensures pr == Pr(response)
  {
    var lines := Lines(response);
    var i := 0;
    while i < |lines|
      invariant 0 <= i <= |lines|
      invariant forall j :: 0 <= j < i ==> PrOf(lines[j]).None?
    {
      var line := lines[i];
      if Contains(line, "PR:") || Contains(line, "- PR:") {
        var parts := Split(line, ':');
        if |parts| >= 2 {
          var candidate := Strip(parts[|parts| - 1]);
          if |candidate| > 0 && candidate != Placeholder {
            FirstSomeAtFirst(lines, PrOf, i);
            return Some(candidate);
          }
        }
      }
      i := i + 1;
    }
    return None;
  }

  /** A `PR:` line whose value has no `:`: the candidate is that value, stripped. */
  lemma PrOfSimple(value: string)
    requires ':' !in value
    ensures PrOf("PR:" + value) == (var c := Strip(value); if |c| > 0 && c != Placeholder then Some(c) else None)
  {
    var line := "PR:" + value;
    assert "PR:" <= line;
    assert line == "PR" + [':'] + value;
    SplitCons("PR", ':', value);
    assert Split(line, ':') == ["PR", value];
  }

  /**
    A placeholder `PR:` line does not end the search: a later line can still give the reference,
    here `v` on the line after the template's placeholder.
  */
  lemma PrSkipsPlaceholder(v: string)
    requires |v| > 0 && Stripped(v) && v != Placeholder && ':' !in v && '\n' !in v
    ensures Pr("PR: " + Placeholder + "\nPR: " + v) == Some(v)
  {
    var lines := Lines("PR: " + Placeholder + "\nPR: " + v);
    PlaceholderExampleLines(v);
    PlaceholderGivesNone();
    ValueGivesReference(v);
    FirstSomeAtFirst(lines, PrOf, 1);
  }

  /** The two lines of the example. */
  lemma PlaceholderExampleLines(v: string)
    requires '\n' !in v
    ensures Lines("PR: " + Placeholder + "\nPR: " + v) == ["PR:" + (" " + Placeholder), "PR:" + (" " + v)]
  {
    var first := "PR:" + (" " + Placeholder);
    var second := "PR:" + (" " + v);
    assert "PR: " + Placeholder + "\nPR: " + v == first + "\n" + second;
    assert '\n' !in first;
    SplitCons(first, '\n', second);
    assert '\n' !in second;
  }

  /** The placeholder line gives no reference. */
  lemma PlaceholderGivesNone()
    ensures PrOf("PR:" + (" " + Placeholder)) == None
  {
    PrOfSimple(" " + Placeholder);
    StripAfterSpaces(" ", Placeholder);
  }

  /** A line `PR: v` gives `v`. */
  lemma ValueGivesReference(v: string)
    requires |v| > 0 && Stripped(v) && v != Placeholder && ':' !in v
    ensures PrOf("PR:" + (" " + v)) == Some(v)
  {
    PrOfSimple(" " + v);
    StripAfterSpaces(" ", v);
  }

  /** The summary: the root cause's first 100 characters, or a fixed text without one. */
  function Summary(rootCause: Option<string>): (s: string)
    ensures rootCause.Some? && rootCause.value != "" ==>
      s == "Investigation complete: " + Take(rootCause.value, 100) + "..."
    ensures rootCause.None? || rootCause.value == "" ==> s == "Investigation complete"
  {
    if rootCause.Some? && rootCause.value != "" then "Investigation complete: " + Take(rootCause.value, 100) + "..."
    else "Investigation complete"
  }

  /** `Investigator.execute`: `generate` answers the stage's one generator call. */
  function Execute(generate: Context -> Generation, ctx: Context, startedAt: nat): (r: StageResult)
    ensures r.stageName == Name && r.startedAt == startedAt && r.completedAt == None
    ensures generate(ctx).GenError? ==>
      r.status == Failed && r.summary == "Failed to call LLM" && r.error == Some(generate(ctx).message)
    ensures generate(ctx).Reply? ==>
      var text := generate(ctx).text;
      && r.status == Completed && r.error == None
      && r.rootCause == Section(text, "Root Cause") && r.summary == Summary(Section(text, "Root Cause"))
      && r.affectedCode == Files(text) && r.originatingPr == Pr(text)
      && r.details == text && r.output == map["full_report" := Str(text)]
  {
    match generate(ctx)
    case GenError(message) =>
      NewStageResult(Name, Failed, startedAt).(summary := "Failed to call LLM", error := Some(message))
    case Reply(text) =>
      var rootCause := Section(text, "Root Cause");
      NewStageResult(Name, Completed, startedAt).(
        summary := Summary(rootCause),
        details := text,
        rootCause := rootCause,
        affectedCode := Files(text),
        originatingPr := Pr(text),
        output := map["full_report" := Str(text)])
  }

  /** The stage as the pipeline sees it. */
  function Agent(generate: Context -> Generation): (s: Stage)
    ensures s.name == Name
  {
    Stage(Name, DefaultSkip, (ctx: Context, t: nat) => Returned(Execute(generate, ctx, t)))
  }

  /** The investigation is never skipped, and its result is exactly what `execute` returns, timed by the wrapper. */
  lemma NeverSkipped(generate: Context -> Generation, ctx: Context, startedAt: nat, finishedAt: nat)
    ensures Run(Agent(generate), ctx, startedAt, finishedAt)
      == Execute(generate, ctx, startedAt).(completedAt := Some(finishedAt))
  {
    assert !Agent(generate).skip(ctx);
  }
}
