/**
  The fix-design stage of `agents/designer.py`: its skip rule, the numbered/bulleted list
  extraction and the shaping of its result around the one generator call.
*/
module Designer {
  import opened Wrappers
  import opened Text
  import opened Models
  import opened Stages
  import opened Sections

  const Name := "design"

  /** The characters `lstrip` removes from the front of a list line. */
  const Markers: set<char> := {'0', '1', '2', '3', '4', '5', '6', '7', '8', '9', '.', '-', ')', ' '}

  /** The item a list line yields, if any: its numbering or bullet removed, stripped. */
  function ListItem(line: string): (item: Option<string>)
    ensures item.Some? ==> |item.value| > 0 && Stripped(item.value)
    ensures item.Some? ==> var t := Strip(line); |t| > 0 && (IsDigit(t[0]) || t[0] == '-')
  {
    var t := Strip(line);
    if |t| > 0 && (IsDigit(t[0]) || t[0] == '-') then
      var it := Strip(LStripChars(t, Markers));
      if |it| > 0 then Some(it) else None
    else None
  }

  /**
    The item of a line that, stripped, starts with a digit or `-`: with `m` the length of its
    leading run of marker characters, the stripped text after that run, when it is not empty.
  */
  lemma ListItemValue(line: string, m: nat)
    requires var t := Strip(line); |t| > 0 && (IsDigit(t[0]) || t[0] == '-')
    requires var t := Strip(line);
      m <= |t| && (forall i :: 0 <= i < m ==> t[i] in Markers) && (m == |t| || t[m] !in Markers)
    ensures var rest := Strip(Strip(line)[m..]);
      ListItem(line) == if |rest| > 0 then Some(rest) else None
  {
    LStripAt(Strip(line), Markers, m);
  }

  /**
    An item starts with none of the marker characters, provided the line's only whitespace is
    the space character: a tab right after the marker survives `lstrip` and is removed only by
    the final `strip`, which can then expose a digit (`"1.\t2 x"` yields `"2 x"`).
  */
  lemma ListItemNoMarker(line: string)
    requires ListItem(line).Some?
    requires forall c :: c in line && IsSpace(c) ==> c == ' '
    ensures ListItem(line).value[0] !in Markers
  {
    var t := Strip(line);
    var u := LStripChars(t, Markers);
    LStripSuffix(t, Markers);
    assert u[0] in t by { assert t[|t| - |u|] == u[0]; }
    StripChars(line);
    StripKeepsFirst(u);
  }

  /** The tab case: an item that does start with a marker character. */
  lemma ListItemAfterTab()
    ensures ListItem("1.\t2 x") == Some("2 x")
  {
    var u := "\t2 x";
    assert LStripChars("1.\t2 x", Markers) == u by {
      assert "1.\t2 x"[1..] == ".\t2 x" && ".\t2 x"[1..] == u;
      assert '\t' !in Markers;
    }
    assert u[1..] == "2 x";
    assert Strip("2 x") == "2 x";
  }

  /** `_extract_list(response, section)`. */
  function List(response: string, section: string): (items: seq<string>)
    ensures forall k :: 0 <= k < |items| ==> |items[k]| > 0 && Stripped(items[k])
  {
    match Section(response, section)
    case None => []
    case Some(content) =>
      if |content| == 0 then []
      else
        var items := FilterMap(Lines(content), ListItem);
        forall k | 0 <= k < |items| ensures |items[k]| > 0 && Stripped(items[k]) {
          FilterMapSource(Lines(content), ListItem, k);
        }
        items
  }

  /** `_extract_list`: the section loop, then the item loop over the section's lines. */
  method ExtractList(response: string, section: string) returns (items: seq<string>)
    ensures items == List(response, section)
  {
    var content := ExtractSection(response, section);
    if content.None? || |content.value| == 0 {
      return [];
    }
    items := CollectItems(Lines(content.value));
  }

  /** The `for line in section_content.split("\n")` loop of `_extract_list`. */
  method CollectItems(parts: seq<string>) returns (items: seq<string>)
    ensures items == FilterMap(parts, ListItem)
  {
    assert parts[..|parts|] == parts;
    items := [];
    var i := 0;
    while i < |parts|
      invariant 0 <= i <= |parts|
      invariant items == FilterMap(parts[..i], ListItem)
    {
      var next := i + 1;
      FilterMapNext(parts, ListItem, i, next);
      var line := Strip(parts[i]);
      if |line| > 0 && (IsDigit(line[0]) || line[0] == '-') {
        var item := Strip(LStripChars(line, Markers));
        if |item| > 0 {
          items := items + [item];
        }
      }
      i := next;
    }
  }

  /** Every list item comes from a section line that, stripped, starts with a digit or `-`. */
  lemma ListItemSource(response: string, section: string, k: nat)
    requires k < |List(response, section)|
    ensures Section(response, section).Some?
    ensures exists line :: line in Lines(Section(response, section).value) && ListItem(line) == Some(List(response, section)[k])
  {
    var content := Section(response, section).value;
    FilterMapSource(Lines(content), ListItem, k);
  }

  /** Conversely, every section line that yields an item contributes it to the list. */
  lemma ListComplete(response: string, section: string, i: nat)
    requires Section(response, section).Some? && |Section(response, section).value| > 0
    requires i < |Lines(Section(response, section).value)|
    requires ListItem(Lines(Section(response, section).value)[i]).Some?
    ensures ListItem(Lines(Section(response, section).value)[i]).value in List(response, section)
  {
    var lines := Lines(Section(response, section).value);
    assert List(response, section) == FilterMap(lines, ListItem);
    FilterMapComplete(lines, ListItem, i);
  }

  /** There are never more items than lines in the section. */
  lemma ListBound(response: string, section: string)
    requires Section(response, section).Some?
    ensures |List(response, section)| <= |Lines(Section(response, section).value)|
  {
  }

  /** An absent or empty section gives no items. */
  lemma ListAbsent(response: string, section: string)
    requires forall k :: 0 <= k < |Lines(response)| ==> !IsHeading(Lines(response)[k], section)
    ensures List(response, section) == []
  {
    SectionAbsent(response, section);
  }

  /** `Designer.should_skip`: the investigation is missing or did not complete. */
  function Skip(ctx: Context): (skip: bool)
    ensures skip <==> forall x :: IsFirstNamed(ctx.previousResults, "investigate", Some(x)) ==> x.status != Completed
  {
    UpstreamNotCompleted(ctx, "investigate")
  }

  /** The summary: the Fix Summary section unless it is missing or empty. */
  function Summary(text: string): (s: string)
    ensures Section(text, "Fix Summary").Some? && Section(text, "Fix Summary").value != "" ==>
      s == Section(text, "Fix Summary").value
    ensures Section(text, "Fix Summary").None? || Section(text, "Fix Summary").value == "" ==> s == "Fix design complete"
  {
    match Section(text, "Fix Summary")
    case Some(s) => if s != "" then s else "Fix design complete"
    case None => "Fix design complete"
  }

  /**
    `Designer.execute`: `generate` answers the stage's one generator call; the call is only
    made once an investigation result is present.
  */
  function Execute(generate: Context -> Generation, ctx: Context, startedAt: nat): (r: StageResult)
    ensures r.stageName == Name && r.startedAt == startedAt && r.completedAt == None
    ensures InvestigationResult(ctx).None? ==>
      r.status == Failed && r.summary == "No investigation results available"
      && r.error == Some("Investigation stage did not complete")
    ensures InvestigationResult(ctx).Some? && generate(ctx).GenError? ==>
      r.status == Failed && r.summary == "Failed to call LLM" && r.error == Some(generate(ctx).message)
    ensures InvestigationResult(ctx).Some? && generate(ctx).Reply? ==>
      var text := generate(ctx).text;
      && r.status == Completed && r.error == None
      && r.summary == Summary(text) && r.details == text && r.fixSpecification == Some(text)
      && r.tradeoffs == List(text, "Tradeoffs") && r.alternatives == List(text, "Alternatives Considered")
      && r.output == map["full_design" := Str(text)]
  {
    if InvestigationResult(ctx).None? then
      NewStageResult(Name, Failed, startedAt).(
        summary := "No investigation results available",
        error := Some("Investigation stage did not complete"))
    else
      match generate(ctx)
      case GenError(message) =>
        NewStageResult(Name, Failed, startedAt).(summary := "Failed to call LLM", error := Some(message))
      case Reply(text) =>
        NewStageResult(Name, Completed, startedAt).(
          summary := Summary(text),
          details := text,
          fixSpecification := Some(text),
          tradeoffs := List(text, "Tradeoffs"),
          alternatives := List(text, "Alternatives Considered"),
          output := map["full_design" := Str(text)])
  }

  /** The stage as the pipeline sees it. */
  function Agent(generate: Context -> Generation): (s: Stage)
    ensures s.name == Name
  {
    Stage(Name, Skip, (ctx: Context, t: nat) => Returned(Execute(generate, ctx, t)))
  }

  /**
    Run through `Stage.run`, the missing-investigation branch of `execute` is unreachable: the
    skip rule catches that case first.
  */
  lemma MissingInvestigationSkipped(generate: Context -> Generation, ctx: Context, startedAt: nat, finishedAt: nat)
    requires InvestigationResult(ctx).None?
    ensures Run(Agent(generate), ctx, startedAt, finishedAt).status == Skipped
  {
    assert Skip(ctx);
  }

  /** Only a completed investigation reaches the generator; a failed generator call fails the stage. */
  lemma GeneratorFailureFails(generate: Context -> Generation, ctx: Context, startedAt: nat, finishedAt: nat)
    requires !Skip(ctx) && generate(ctx).GenError?
    ensures InvestigationResult(ctx).Some? && InvestigationResult(ctx).value.status == Completed
    ensures Run(Agent(generate), ctx, startedAt, finishedAt).status == Failed
    ensures Run(Agent(generate), ctx, startedAt, finishedAt).error == Some(generate(ctx).message)
  {
    var inv := InvestigationResult(ctx);
    if inv.None? {
      assert false;
    }
    assert IsFirstNamed(ctx.previousResults, "investigate", Some(inv.value));
  }
}
