/**
  The validation stage of `agents/tester.py`: its skip rule, the pass/fail reading of the reply,
  the recommendation search and the shaping of its result.
*/
module Tester {
  import opened Wrappers
  import opened Text
  import opened Models
  import opened Stages
  import opened Sections

  const Name := "test"

  // ---------------------------------------------------------------------------
  // _check_passed
  // ---------------------------------------------------------------------------

  /**
    `_check_passed(response)`, read on the lowercased reply: an approval without a rejection, or a
    `[pass]` tag, passes; otherwise a rejection or a change request fails; anything else passes.
  */
  function CheckPassed(response: string): (passed: bool)
    ensures var low := Lower(response);
      !passed ==> Contains(low, "reject") || Contains(low, "request changes")
    ensures var low := Lower(response);
      Contains(low, "approve") && !Contains(low, "reject") ==> passed
    ensures Contains(Lower(response), "[pass]") ==> passed
  {
    var low := Lower(response);
    if Contains(low, "approve") && !Contains(low, "reject") then true
    else if Contains(low, "[pass]") then true
    else if Contains(low, "request changes") || Contains(low, "reject") then false
    else true
  }

  /**
    The exact failing condition, independently of the order of the tests: no `[pass]` tag, and
    either a rejection, or a change request without an approval.
  */
  lemma CheckPassedExactly(response: string)
    ensures var low := Lower(response);
      !CheckPassed(response) <==>
        !Contains(low, "[pass]")
        && (Contains(low, "reject") || (Contains(low, "request changes") && !Contains(low, "approve")))
  {
  }

  // ---------------------------------------------------------------------------
  // _extract_recommendation
  // ---------------------------------------------------------------------------

  /** The three recommendations, in the order a line is tested for them. */
  const Recommendations: set<string> := {"APPROVE", "REJECT", "REQUEST CHANGES"}

  /** The uppercased line mentions one of the recommendations. */
  predicate Mentions(line: string) {
    var u := Upper(line);
    Contains(u, "APPROVE") || Contains(u, "REJECT") || Contains(u, "REQUEST CHANGES")
  }

  /** What one line recommends, if anything: APPROVE before REJECT before REQUEST CHANGES. */
  function RecommendationOf(line: string): (r: Option<string>)
    ensures r.Some? <==> Mentions(line)
    ensures r.Some? ==> r.value in Recommendations
    ensures Contains(Upper(line), "APPROVE") ==> r == Some("APPROVE")
    ensures r == Some("REQUEST CHANGES") ==> !Contains(Upper(line), "APPROVE") && !Contains(Upper(line), "REJECT")
  {
    var u := Upper(line);
    if Contains(u, "APPROVE") then Some("APPROVE")
    else if Contains(u, "REJECT") then Some("REJECT")
    else if Contains(u, "REQUEST CHANGES") then Some("REQUEST CHANGES")
    else None
  }

  /** `_extract_recommendation(response)`: decided by the first line that mentions one. */
  function Recommendation(response: string): (r: Option<string>)
    ensures r.None? <==> forall i :: 0 <= i < |Lines(response)| ==> !Mentions(Lines(response)[i])
    ensures r.Some? ==> r.value in Recommendations
    ensures r.Some? ==> exists i ::
      0 <= i < |Lines(response)| && RecommendationOf(Lines(response)[i]) == r
      && forall j :: 0 <= j < i ==> !Mentions(Lines(response)[j])
  {
    FirstSome(Lines(response), RecommendationOf)
  }

  /** The loop of `_extract_recommendation`, returning from inside it. */
  method ExtractRecommendation(response: string) returns (r: Option<string>)
    ensures r == Recommendation(response)
  {
    var lines := Lines(response);
    var i := 0;
    while i < |lines|
      invariant 0 <= i <= |lines|
      invariant forall j :: 0 <= j < i ==> RecommendationOf(lines[j]).None?
    {
      var upper := Upper(lines[i]);
      if Contains(upper, "APPROVE") {
        FirstSomeAtFirst(lines, RecommendationOf, i);
        return Some("APPROVE");
      }
      if Contains(upper, "REJECT") {
        FirstSomeAtFirst(lines, RecommendationOf, i);
        return Some("REJECT");
      }
      if Contains(upper, "REQUEST CHANGES") {
        FirstSomeAtFirst(lines, RecommendationOf, i);
        return Some("REQUEST CHANGES");
      }
      i := i + 1;
    }
    return None;
  }

  /** A line that mentions a recommendation decides it, whatever the later lines say. */
  lemma RecommendationAt(response: string, i: nat)
    requires i < |Lines(response)| && Mentions(Lines(response)[i])
    requires forall j :: 0 <= j < i ==> !Mentions(Lines(response)[j])
    ensures Recommendation(response) == RecommendationOf(Lines(response)[i])
  {
    FirstSomeAtFirst(Lines(response), RecommendationOf, i);
  }

  // ---------------------------------------------------------------------------
  // The stage
  // ---------------------------------------------------------------------------

  /** `Tester.should_skip`: the implementation is missing or did not complete. */
  function Skip(ctx: Context): (skip: bool)
    ensures skip <==> forall x :: IsFirstNamed(ctx.previousResults, "implement", Some(x)) ==> x.status != Completed
  {
    UpstreamNotCompleted(ctx, "implement")
  }

  /** The summary names the recommendation when there is one. */
  function Summary(recommendation: Option<string>): (s: string)
    ensures recommendation.Some? ==> s == "Validation: " + recommendation.value
    ensures recommendation.None? ==> s == "Validation complete"
  {
    match recommendation
    case Some(rec) => "Validation: " + rec
    case None => "Validation complete"
  }

  /** The recommendation as the output dictionary stores it. */
  function RecommendationOutput(r: Option<string>): OutputValue {
    match r
    case Some(s) => Str(s)
    case None => Null
  }

  /** `Tester.execute`: `generate` answers the one generator call, made once an implementation is present. */
  function Execute(generate: Context -> Generation, ctx: Context, startedAt: nat): (r: StageResult)
    ensures r.stageName == Name && r.startedAt == startedAt && r.completedAt == None
    ensures ImplementationResult(ctx).None? ==>
      r.status == Failed && r.summary == "No implementation results available"
      && r.error == Some("Implementation stage did not complete")
    ensures ImplementationResult(ctx).Some? && generate(ctx).GenError? ==>
      r.status == Failed && r.summary == "Failed to call LLM" && r.error == Some(generate(ctx).message)
    ensures ImplementationResult(ctx).Some? && generate(ctx).Reply? ==>
      var text := generate(ctx).text;
      && r.status == Completed && r.error == None
      && r.summary == Summary(Recommendation(text)) && r.details == text
      && r.testsPassed == Some(CheckPassed(text)) && r.testOutput == Some(text)
      && r.regressionRisk == Section(text, "Regression Analysis")
      && r.output == map[
        "full_report" := Str(text),
        "recommendation" := RecommendationOutput(Recommendation(text)),
        "passed" := Bool(CheckPassed(text))]
  {
    if ImplementationResult(ctx).None? then
      NewStageResult(Name, Failed, startedAt).(
        summary := "No implementation results available",
        error := Some("Implementation stage did not complete"))
    else
      match generate(ctx)
      case GenError(message) =>
        NewStageResult(Name, Failed, startedAt).(summary := "Failed to call LLM", error := Some(message))
      case Reply(text) =>
        var passed := CheckPassed(text);
        var recommendation := Recommendation(text);
        NewStageResult(Name, Completed, startedAt).(
          summary := Summary(recommendation),
          details := text,
          testsPassed := Some(passed),
          testOutput := Some(text),
          regressionRisk := Section(text, "Regression Analysis"),
          output := map[
            "full_report" := Str(text),
            "recommendation" := RecommendationOutput(recommendation),
            "passed" := Bool(passed)])
  }

  /** The stage as the pipeline sees it. */
  function Agent(generate: Context -> Generation): (s: Stage)
    ensures s.name == Name
  {
    Stage(Name, Skip, (ctx: Context, t: nat) => Returned(Execute(generate, ctx, t)))
  }

  /** Run through `Stage.run`, a missing implementation is caught by the skip rule before `execute`. */
  lemma MissingImplementationSkipped(generate: Context -> Generation, ctx: Context, startedAt: nat, finishedAt: nat)
    requires ImplementationResult(ctx).None?
    ensures Run(Agent(generate), ctx, startedAt, finishedAt).status == Skipped
  {
    assert Skip(ctx);
  }
}
