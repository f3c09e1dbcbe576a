/**
  The stage abstraction of `pipeline/stage.py`: the context a stage sees, name-based lookup
  of earlier results, and the uniform `run` wrapper (skip check, execute, failure conversion).
*/
module Stages {
  import opened Wrappers
  import opened Models

  /** What a stage sees: the incident, the results produced so far in this run, and metadata. */
  datatype Context = Context(incident: Incident, previousResults: seq<StageResult>, metadata: map<string, string>)

  /** The text generator's answer to the one call a stage makes: a completion, or the error it raised. */
  datatype Generation = Reply(text: string) | GenError(message: string)

  /** What `execute` does: return a result, or raise an exception with the given message. */
  datatype Outcome = Returned(result: StageResult) | Raised(message: string)

  /**
    A stage: its name, its `should_skip` predicate and its `execute` body. `execute` receives the
    clock reading it would take for its own `started_at` (the wrapper overwrites it).
  */
  datatype Stage = Stage(name: string, skip: Context -> bool, execute: (Context, nat) -> Outcome)

  /** `r` is the first result named `name` in `results`, or None if no result has that name. */
  ghost predicate IsFirstNamed(results: seq<StageResult>, name: string, r: Option<StageResult>) {
    match r
    case None => forall i :: 0 <= i < |results| ==> results[i].stageName != name
    case Some(x) =>
      exists i :: 0 <= i < |results| && results[i] == x && x.stageName == name
        && forall j :: 0 <= j < i ==> results[j].stageName != name
  }

  /** The linear search of `get_result`. */
  function FindNamed(results: seq<StageResult>, name: string): (r: Option<StageResult>)
    ensures IsFirstNamed(results, name, r)
    decreases |results|
  {
    if |results| == 0 then None
    else if results[0].stageName == name then Some(results[0])
    else
      var r := FindNamed(results[1..], name);
      assert forall i :: 1 <= i < |results| ==> results[1..][i - 1] == results[i];
      if r.Some? then
        FindNamedShift(results, name, r.value);
        r
      else r
  }

  lemma FindNamedShift(results: seq<StageResult>, name: string, x: StageResult)
    requires |results| > 0 && results[0].stageName != name
    requires IsFirstNamed(results[1..], name, Some(x))
    ensures IsFirstNamed(results, name, Some(x))
  {
    var i :| 0 <= i < |results| - 1 && results[1..][i] == x && x.stageName == name
      && forall j :: 0 <= j < i ==> results[1..][j].stageName != name;
    assert results[i + 1] == x;
    forall j | 0 <= j < i + 1 ensures results[j].stageName != name {
      if j > 0 { assert results[1..][j - 1] == results[j]; }
    }
  }

  /** `StageContext.get_result`. */
  function GetResult(ctx: Context, stageName: string): (r: Option<StageResult>)
    ensures IsFirstNamed(ctx.previousResults, stageName, r)
  {
    FindNamed(ctx.previousResults, stageName)
  }

  /** `investigation_result`: the first result of the stage named "investigate". */
  function InvestigationResult(ctx: Context): (r: Option<StageResult>)
    ensures IsFirstNamed(ctx.previousResults, "investigate", r)
  {
    GetResult(ctx, "investigate")
  }

  /** `design_result`: the first result of the stage named "design". */
  function DesignResult(ctx: Context): (r: Option<StageResult>)
    ensures IsFirstNamed(ctx.previousResults, "design", r)
  {
    GetResult(ctx, "design")
  }

  /** `implementation_result`: the first result of the stage named "implement". */
  function ImplementationResult(ctx: Context): (r: Option<StageResult>)
    ensures IsFirstNamed(ctx.previousResults, "implement", r)
  {
    GetResult(ctx, "implement")
  }

  /** The first-match property determines the lookup: there is only one first result with a name. */
  lemma FirstNamedUnique(results: seq<StageResult>, name: string, a: Option<StageResult>, b: Option<StageResult>)
    requires IsFirstNamed(results, name, a) && IsFirstNamed(results, name, b)
    ensures a == b
  {
    if a.Some? && b.Some? {
      var i :| 0 <= i < |results| && results[i] == a.value && a.value.stageName == name
        && forall j :: 0 <= j < i ==> results[j].stageName != name;
      var k :| 0 <= k < |results| && results[k] == b.value && b.value.stageName == name
        && forall j :: 0 <= j < k ==> results[j].stageName != name;
      assert i == k;
    }
  }

  /** Appending results never changes a lookup that already succeeds. */
  lemma {:induction false} GetResultStable(results: seq<StageResult>, more: seq<StageResult>, name: string)
    requires FindNamed(results, name).Some?
    ensures FindNamed(results + more, name) == FindNamed(results, name)
    decreases |results|
  {
    if results[0].stageName != name {
      assert (results + more)[1..] == results[1..] + more;
      GetResultStable(results[1..], more, name);
    }
  }

  /** The base class's `should_skip`: never skip. */
  function DefaultSkip(ctx: Context): (skip: bool)
    ensures !skip
  {
    false
  }

  /** `should_skip` of a stage that consumes stage `upstream`: its result is missing or not Completed. */
  function UpstreamNotCompleted(ctx: Context, upstream: string): (skip: bool)
    ensures skip <==> forall x :: IsFirstNamed(ctx.previousResults, upstream, Some(x)) ==> x.status != Completed
  {
    var r := GetResult(ctx, upstream);
    forall x | IsFirstNamed(ctx.previousResults, upstream, Some(x)) ensures r == Some(x) {
      FirstNamedUnique(ctx.previousResults, upstream, r, Some(x));
    }
    r.None? || r.value.status != Completed
  }

  /** The result `run` returns for a skipped stage. */
  function SkippedResult(name: string, startedAt: nat, completedAt: nat): StageResult {
    NewStageResult(name, Skipped, startedAt).(completedAt := Some(completedAt), summary := "Stage " + name + " skipped")
  }

  /** The result `run` returns when `execute` raises. */
  function RaisedResult(name: string, startedAt: nat, completedAt: nat, message: string): StageResult {
    NewStageResult(name, Failed, startedAt).(completedAt := Some(completedAt), summary := "Stage " + name + " failed",
                                             error := Some(message))
  }

  /**
    `Stage.run`. `startedAt` is the clock reading taken before the skip check and `finishedAt` the
    one taken after the stage is done.
  */
  function Run(stage: Stage, ctx: Context, startedAt: nat, finishedAt: nat): (r: StageResult)
    ensures r.startedAt == startedAt && r.completedAt == Some(finishedAt)
    ensures stage.skip(ctx) ==>
      r.status == Skipped && r.stageName == stage.name && r.summary == "Stage " + stage.name + " skipped"
      && r.error == None
    ensures !stage.skip(ctx) && stage.execute(ctx, startedAt).Raised? ==>
      r.status == Failed && r.stageName == stage.name && r.summary == "Stage " + stage.name + " failed"
      && r.error == Some(stage.execute(ctx, startedAt).message)
    ensures !stage.skip(ctx) && stage.execute(ctx, startedAt).Returned? ==>
      r == stage.execute(ctx, startedAt).result.(startedAt := startedAt, completedAt := Some(finishedAt))
  {
    if stage.skip(ctx) then SkippedResult(stage.name, startedAt, finishedAt)
    else
      match stage.execute(ctx, startedAt)
      case Returned(result) => result.(startedAt := startedAt, completedAt := Some(finishedAt))
      case Raised(message) => RaisedResult(stage.name, startedAt, finishedAt, message)
  }

  /** A skipped stage's result does not depend on its body: `execute` is never called. */
  lemma SkipIgnoresExecute(stage: Stage, body: (Context, nat) -> Outcome, ctx: Context, startedAt: nat, finishedAt: nat)
    requires stage.skip(ctx)
    ensures Run(stage, ctx, startedAt, finishedAt) == Run(stage.(execute := body), ctx, startedAt, finishedAt)
  {
  }

  /** Only a raising or failing body, never the wrapper itself, produces a Failed result. */
  lemma RunFailedOnlyFromBody(stage: Stage, ctx: Context, startedAt: nat, finishedAt: nat)
    requires Run(stage, ctx, startedAt, finishedAt).status == Failed
    ensures !stage.skip(ctx)
    ensures stage.execute(ctx, startedAt).Raised? || stage.execute(ctx, startedAt).result.status == Failed
  {
  }
}
