/**
  The stage-sequencing engine of `pipeline/core.py`: the pipeline result, the stage context the
  pipeline grows, and `Pipeline._run_stages`, the state machine that runs, halts on failure,
  pauses for approval, or completes.
*/
module PipelineCore {
  import opened Wrappers
  import opened Models
  import opened Stages

  /** The run-level status strings of `PipelineResult.status`. */
  datatype RunStatus = RunningRun | CompletedRun | FailedRun | AwaitingApprovalRun {
    function Value(): string {
      match this
      case RunningRun => "running"
      case CompletedRun => "completed"
      case FailedRun => "failed"
      case AwaitingApprovalRun => "awaiting_approval"
    }
  }

  // ---------------------------------------------------------------------------
  // PipelineResult
  // ---------------------------------------------------------------------------

  /** The aggregate result of a run, updated in place by the engine. */
  class PipelineResult {
    var incident: Incident
    var stageResults: seq<StageResult>
    var startedAt: nat
    var completedAt: Option<nat>
    var status: RunStatus

    constructor (incident: Incident, startedAt: nat)
      ensures this.incident == incident && this.startedAt == startedAt
      ensures stageResults == [] && completedAt == None && status == RunningRun
    {
      this.incident := incident;
      this.startedAt := startedAt;
      stageResults := [];
      completedAt := None;
      status := RunningRun;
    }
  }

  /** `PipelineResult.successful` over the result's stage results. */
  function Successful(results: seq<StageResult>): (ok: bool)
    ensures ok <==> forall i :: 0 <= i < |results| ==> results[i].status == Completed || results[i].status == Skipped
    decreases |results|
  {
    if |results| == 0 then true
    else
      var rest := Successful(results[1..]);
      assert forall i :: 1 <= i < |results| ==> results[1..][i - 1] == results[i];
      (results[0].status == Completed || results[0].status == Skipped) && rest
  }

  /** `PipelineResult.failed_stage` over the result's stage results: the first Failed result. */
  function FailedStage(results: seq<StageResult>): (r: Option<StageResult>)
    ensures r.None? <==> forall i :: 0 <= i < |results| ==> results[i].status != Failed
    ensures r.Some? ==> exists i :: 0 <= i < |results| && results[i] == r.value && r.value.status == Failed
                          && forall j :: 0 <= j < i ==> results[j].status != Failed
    decreases |results|
  {
    if |results| == 0 then None
    else if results[0].status == Failed then Some(results[0])
    else
      var r := FailedStage(results[1..]);
      assert forall i :: 1 <= i < |results| ==> results[1..][i - 1] == results[i];
      if r.Some? then
        FailedStageShift(results, r.value);
        r
      else r
  }

  lemma FailedStageShift(results: seq<StageResult>, x: StageResult)
    requires |results| > 0 && results[0].status != Failed
    requires exists i :: 0 <= i < |results| - 1 && results[1..][i] == x && x.status == Failed
               && forall j :: 0 <= j < i ==> results[1..][j].status != Failed
    ensures exists i :: 0 <= i < |results| && results[i] == x && x.status == Failed
              && forall j :: 0 <= j < i ==> results[j].status != Failed
  {
    var i :| 0 <= i < |results| - 1 && results[1..][i] == x && x.status == Failed
      && forall j :: 0 <= j < i ==> results[1..][j].status != Failed;
    assert results[i + 1] == x;
    forall j | 0 <= j < i + 1 ensures results[j].status != Failed {
      if j > 0 { assert results[1..][j - 1] == results[j]; }
    }
  }

  /** A list whose only Failed result is its last has that result as its failed stage. */
  lemma {:induction false} FailedStageIsLast(results: seq<StageResult>)
    requires |results| > 0 && results[|results| - 1].status == Failed
    requires forall j :: 0 <= j < |results| - 1 ==> results[j].status != Failed
    ensures FailedStage(results) == Some(results[|results| - 1])
    ensures !Successful(results)
    decreases |results|
  {
    assert !(results[|results| - 1].status == Completed || results[|results| - 1].status == Skipped);
    if |results| > 1 {
      var rest := results[1..];
      assert rest[|rest| - 1] == results[|results| - 1];
      assert forall j :: 0 <= j < |rest| - 1 ==> rest[j] == results[j + 1];
      FailedStageIsLast(rest);
    }
  }

  // ---------------------------------------------------------------------------
  // StageContext
  // ---------------------------------------------------------------------------

  /** The context object the engine hands to each stage; its history grows in place. */
  class StageContext {
    var incident: Incident
    var previousResults: seq<StageResult>
    var metadata: map<string, string>

    constructor (incident: Incident)
      ensures this.incident == incident && previousResults == [] && metadata == map[]
    {
      this.incident := incident;
      previousResults := [];
      metadata := map[];
    }

    /** The value a stage sees. */
    function View(): Context
      reads this
    {
      Context(incident, previousResults, metadata)
    }
  }

  // ---------------------------------------------------------------------------
  // The engine as a function of its inputs
  // ---------------------------------------------------------------------------

  /** The engine's configuration: `config.auto_proceed` and the two optional callbacks. */
  datatype Settings = Settings(
    autoProceed: bool,
    notifies: bool,                                   // an on_stage_complete callback is set
    approval: Option<(string, StageResult) -> bool>)  // on_approval_needed

  /**
    What one call of `_run_stages` does: the results it appends (to the pipeline result and to the
    context's history alike), the calls it makes to the approval callback, the status it leaves,
    the completion time it sets (None: left as it was) and the clock afterwards.
  */
  datatype RunOutcome = RunOutcome(
    produced: seq<StageResult>,
    consulted: seq<(string, StageResult)>,
    status: RunStatus,
    completedAt: Option<nat>,
    clock: nat)

  /**
    How the engine runs one stage on a context, given the clock readings before and after:
    `Stage.run`, that is `Stages.Run`. The lemmas below hold for every runner.
  */
  type Runner = (Stage, Context, nat, nat) -> StageResult

  /** Whether a Completed result is put to the approval callback. */
  predicate AsksApproval(cfg: Settings, r: StageResult) {
    !cfg.autoProceed && r.status == Completed && cfg.approval.Some?
  }

  /** Whether the approval callback is asked about the result of stage `name` and declines it. */
  predicate Declines(cfg: Settings, name: string, r: StageResult) {
    AsksApproval(cfg, r) && !cfg.approval.value(name, r)
  }

  /** The approval call made for the result of stage `name`, if any. */
  function Asked(cfg: Settings, name: string, r: StageResult): seq<(string, StageResult)> {
    if AsksApproval(cfg, r) then [(name, r)] else []
  }

  /** Whether the loop stops after the result `r` of stage `name`. */
  predicate Halts(cfg: Settings, name: string, r: StageResult) {
    r.status == Failed || Declines(cfg, name, r)
  }

  /**
    How the loop stops after result `r` of stage `name`, run from clock reading `clock`: on a
    failure with one more reading for the completion time, otherwise paused after asking for approval.
  */
  function Halted(name: string, r: StageResult, clock: nat): RunOutcome {
    if r.status == Failed then RunOutcome([r], [], FailedRun, Some(clock + 2), clock + 3)
    else RunOutcome([r], [(name, r)], AwaitingApprovalRun, None, clock + 2)
  }

  /** `o` preceded by results `done` and approval calls `asked` made before it. */
  function Prepend(done: seq<StageResult>, asked: seq<(string, StageResult)>, o: RunOutcome): RunOutcome {
    o.(produced := done + o.produced, consulted := asked + o.consulted)
  }

  /**
    The loop of `_run_stages` over `stages` and its epilogue, starting from the context history
    `history` and the clock reading `clock`.
  */
  function Proceed(run: Runner, stages: seq<Stage>, cfg: Settings, incident: Incident, metadata: map<string, string>,
                   history: seq<StageResult>, clock: nat): (o: RunOutcome)
    ensures |o.produced| <= |stages|
    ensures |stages| > 0 ==> |o.produced| > 0
    decreases |stages|
  {
    if |stages| == 0 then RunOutcome([], [], CompletedRun, Some(clock), clock + 1)
    else
      var r := run(stages[0], Context(incident, history, metadata), clock, clock + 1);
      if Halts(cfg, stages[0].name, r) then Halted(stages[0].name, r, clock)
      else
        Prepend([r], Asked(cfg, stages[0].name, r),
                Proceed(run, stages[1..], cfg, incident, metadata, history + [r], clock + 2))
  }

  /** The two ways one step of `Proceed` can go, written out for the callers that need them. */
  lemma ProceedStep(run: Runner, stages: seq<Stage>, cfg: Settings, incident: Incident, metadata: map<string, string>,
                    history: seq<StageResult>, clock: nat)
    requires |stages| > 0
    ensures var r := run(stages[0], Context(incident, history, metadata), clock, clock + 1);
      Proceed(run, stages, cfg, incident, metadata, history, clock)
      == if Halts(cfg, stages[0].name, r) then Halted(stages[0].name, r, clock)
         else Prepend([r], Asked(cfg, stages[0].name, r),
                      Proceed(run, stages[1..], cfg, incident, metadata, history + [r], clock + 2))
  {
  }

  /**
    The reference run of `stages` that never halts: each stage runs on the history so far, with
    the next two clock readings.
  */
  function RunAll(run: Runner, stages: seq<Stage>, incident: Incident, metadata: map<string, string>,
                  history: seq<StageResult>, clock: nat): (rs: seq<StageResult>)
    ensures |rs| == |stages|
    decreases |stages|
  {
    if |stages| == 0 then []
    else
      var r := run(stages[0], Context(incident, history, metadata), clock, clock + 1);
      [r] + RunAll(run, stages[1..], incident, metadata, history + [r], clock + 2)
  }

  /**
    The results a run appends are the reference run of the stages it reached, in order: a prefix
    of the stage list, each stage seeing every earlier result.
  */
  lemma {:induction false} ProceedRunsPrefix(run: Runner, stages: seq<Stage>, cfg: Settings, incident: Incident,
                                             metadata: map<string, string>, history: seq<StageResult>, clock: nat)
    ensures var o := Proceed(run, stages, cfg, incident, metadata, history, clock);
      o.produced == RunAll(run, stages[..|o.produced|], incident, metadata, history, clock)
    decreases |stages|
  {
    var o := Proceed(run, stages, cfg, incident, metadata, history, clock);
    if |stages| > 0 {
      ProceedStep(run, stages, cfg, incident, metadata, history, clock);
      var r := run(stages[0], Context(incident, history, metadata), clock, clock + 1);
      if Halts(cfg, stages[0].name, r) {
        assert o.produced == [r];
        assert stages[..1][1..] == [];
      } else {
        var rest := Proceed(run, stages[1..], cfg, incident, metadata, history + [r], clock + 2);
        ProceedRunsPrefix(run, stages[1..], cfg, incident, metadata, history + [r], clock + 2);
        var reached := stages[..|o.produced|];
        assert o.produced == [r] + rest.produced;
        assert reached[0] == stages[0];
        assert reached[1..] == stages[1..][..|rest.produced|];
      }
    }
  }

  // The properties of every run outcome, over the number `n` of stages it was given.

  /** No result before the last one is Failed: the loop stops at the first failure. */
  predicate StopsAtFirstFailure(o: RunOutcome) {
    forall j :: 0 <= j < |o.produced| - 1 ==> o.produced[j].status != Failed
  }

  /** The run ends "failed" exactly when its last result is Failed. */
  predicate FailsOnlyOnFailure(o: RunOutcome) {
    o.status == FailedRun <==> |o.produced| > 0 && o.produced[|o.produced| - 1].status == Failed
  }

  /** The run never stays "running", and sets a completion time exactly when it does not pause. */
  predicate TimedUnlessPaused(o: RunOutcome) {
    o.status != RunningRun && (o.status == AwaitingApprovalRun <==> o.completedAt.None?)
  }

  /** A run ends "completed" only after every one of the `n` stages has produced a result. */
  predicate CompletesEveryStage(n: nat, o: RunOutcome) {
    o.status == CompletedRun ==> |o.produced| == n
  }

  /**
    A run pauses only because the approval callback was asked about its last result, a Completed
    one, and declined it.
  */
  predicate PausesOnDecline(cfg: Settings, o: RunOutcome) {
    o.status == AwaitingApprovalRun ==>
      && |o.produced| > 0 && |o.consulted| > 0
      && o.consulted[|o.consulted| - 1].1 == o.produced[|o.produced| - 1]
      && Declines(cfg, o.consulted[|o.consulted| - 1].0, o.produced[|o.produced| - 1])
  }

  /**
    The approval callback is consulted only about Completed results of the run, never when
    auto-proceeding and never when it is not set; then the run does not pause either.
  */
  predicate ConsultsOnlyCompleted(cfg: Settings, o: RunOutcome) {
    && (forall k :: 0 <= k < |o.consulted| ==> o.consulted[k].1.status == Completed && o.consulted[k].1 in o.produced)
    && ((cfg.autoProceed || cfg.approval.None?) ==> o.consulted == [] && o.status != AwaitingApprovalRun)
  }

  predicate Settled(cfg: Settings, n: nat, o: RunOutcome) {
    && StopsAtFirstFailure(o) && FailsOnlyOnFailure(o) && TimedUnlessPaused(o)
    && CompletesEveryStage(n, o) && PausesOnDecline(cfg, o) && ConsultsOnlyCompleted(cfg, o)
  }

  /** Running one more stage that neither fails nor is declined, before a settled run, gives a settled run. */
  lemma SettledPrepend(cfg: Settings, n: nat, name: string, r: StageResult, rest: RunOutcome)
    requires !Halts(cfg, name, r)
    requires n > 0 ==> |rest.produced| > 0
    requires Settled(cfg, n, rest)
    ensures Settled(cfg, n + 1, Prepend([r], Asked(cfg, name, r), rest))
  {
    var o := Prepend([r], Asked(cfg, name, r), rest);
    var asked := Asked(cfg, name, r);
    forall j | 0 <= j < |o.produced| - 1 ensures o.produced[j].status != Failed {
      if j > 0 {
        assert o.produced[j] == rest.produced[j - 1];
      }
    }
    if |rest.produced| > 0 {
      assert o.produced[|o.produced| - 1] == rest.produced[|rest.produced| - 1];
    }
    if rest.status == AwaitingApprovalRun {
      assert o.consulted[|o.consulted| - 1] == rest.consulted[|rest.consulted| - 1];
    }
    forall k | 0 <= k < |o.consulted| ensures o.consulted[k].1.status == Completed && o.consulted[k].1 in o.produced {
      if k >= |asked| {
        assert o.consulted[k] == rest.consulted[k - |asked|];
      } else {
        assert o.consulted[k] == (name, r);
        assert o.produced[0] == r;
      }
    }
  }

  /** Every outcome of `Proceed` over `stages` is settled. */
  lemma {:induction false} ProceedSettles(run: Runner, stages: seq<Stage>, cfg: Settings, incident: Incident,
                                          metadata: map<string, string>, history: seq<StageResult>, clock: nat)
    ensures Settled(cfg, |stages|, Proceed(run, stages, cfg, incident, metadata, history, clock))
    decreases |stages|
  {
    var o := Proceed(run, stages, cfg, incident, metadata, history, clock);
    if |stages| > 0 {
      ProceedStep(run, stages, cfg, incident, metadata, history, clock);
      var r := run(stages[0], Context(incident, history, metadata), clock, clock + 1);
      if Halts(cfg, stages[0].name, r) {
        assert o == Halted(stages[0].name, r, clock);
        if r.status != Failed {
          assert o.consulted[0].1 == o.produced[0];
        }
      } else {
        ProceedSettles(run, stages[1..], cfg, incident, metadata, history + [r], clock + 2);
        SettledPrepend(cfg, |stages| - 1, stages[0].name, r,
                       Proceed(run, stages[1..], cfg, incident, metadata, history + [r], clock + 2));
      }
    }
  }

  /** A failed run is not successful and its failed stage is its last result; otherwise it has none. */
  lemma SettledVerdicts(cfg: Settings, n: nat, o: RunOutcome)
    requires Settled(cfg, n, o)
    ensures o.status == FailedRun ==>
      !Successful(o.produced) && FailedStage(o.produced) == Some(o.produced[|o.produced| - 1])
    ensures o.status != FailedRun ==> FailedStage(o.produced) == None
  {
    if o.status == FailedRun {
      FailedStageIsLast(o.produced);
    } else if |o.produced| > 0 {
      assert o.produced[|o.produced| - 1].status != Failed;
    }
  }

  // The decision taken after each stage, over the stages themselves.

  /** The approval calls a run makes for results `rs` of the first `|rs|` stages, in order. */
  function AskedAll(cfg: Settings, stages: seq<Stage>, rs: seq<StageResult>): seq<(string, StageResult)>
    requires |rs| <= |stages|
    decreases |rs|
  {
    if |rs| == 0 then [] else Asked(cfg, stages[0].name, rs[0]) + AskedAll(cfg, stages[1..], rs[1..])
  }

  /** The loop goes on past a stage only when its result neither failed nor was declined. */
  predicate ContinuesOnlyOnApproval(cfg: Settings, stages: seq<Stage>, o: RunOutcome)
    requires |o.produced| <= |stages|
  {
    forall j :: 0 <= j < |o.produced| - 1 ==> !Halts(cfg, stages[j].name, o.produced[j])
  }

  /**
    The last result decides how the run ends: a failure fails it, a declined result pauses it
    without a completion time, and any other result is the last stage's, and the run completes.
  */
  predicate LastDecides(cfg: Settings, stages: seq<Stage>, o: RunOutcome)
    requires |o.produced| <= |stages|
  {
    && (|o.produced| == 0 ==> o.status == CompletedRun)
    && (|o.produced| > 0 ==>
          var k := |o.produced| - 1;
          && (o.produced[k].status == Failed ==> o.status == FailedRun)
          && (Declines(cfg, stages[k].name, o.produced[k]) ==> o.status == AwaitingApprovalRun && o.completedAt == None)
          && (!Halts(cfg, stages[k].name, o.produced[k]) ==> o.status == CompletedRun && |o.produced| == |stages|))
  }

  /** The facts of `LastDecides` for a run whose first result `r` goes on to the outcome `rest`. */
  lemma LastDecidesPrepend(cfg: Settings, stages: seq<Stage>, r: StageResult, rest: RunOutcome)
    requires |stages| > 0 && !Halts(cfg, stages[0].name, r)
    requires |rest.produced| <= |stages| - 1 && (|stages| > 1 ==> |rest.produced| > 0)
    requires LastDecides(cfg, stages[1..], rest)
    ensures LastDecides(cfg, stages, Prepend([r], Asked(cfg, stages[0].name, r), rest))
  {
    var o := Prepend([r], Asked(cfg, stages[0].name, r), rest);
    if |rest.produced| > 0 {
      var k := |o.produced| - 1;
      assert o.produced[k] == rest.produced[k - 1];
      assert stages[k] == stages[1..][k - 1];
    } else {
      assert o.produced == [r];
    }
  }

  /**
    Every outcome of `Proceed` over `stages`: the run continued past each earlier stage because
    its result neither failed nor was declined, its last result decides how it ended, and the
    approval callback was asked about exactly the results `AskedAll` names, in order.
  */
  lemma {:induction false} ProceedDecides(run: Runner, stages: seq<Stage>, cfg: Settings, incident: Incident,
                                          metadata: map<string, string>, history: seq<StageResult>, clock: nat)
    ensures var o := Proceed(run, stages, cfg, incident, metadata, history, clock);
      && ContinuesOnlyOnApproval(cfg, stages, o) && LastDecides(cfg, stages, o)
      && o.consulted == AskedAll(cfg, stages, o.produced)
    decreases |stages|
  {
    var o := Proceed(run, stages, cfg, incident, metadata, history, clock);
    if |stages| > 0 {
      ProceedStep(run, stages, cfg, incident, metadata, history, clock);
      var r := run(stages[0], Context(incident, history, metadata), clock, clock + 1);
      if Halts(cfg, stages[0].name, r) {
        assert o == Halted(stages[0].name, r, clock);
        assert o.produced[1..] == [];
      } else {
        var rest := Proceed(run, stages[1..], cfg, incident, metadata, history + [r], clock + 2);
        ProceedDecides(run, stages[1..], cfg, incident, metadata, history + [r], clock + 2);
        assert o == Prepend([r], Asked(cfg, stages[0].name, r), rest);
        assert o.produced[0] == r && o.produced[1..] == rest.produced;
        forall j | 0 <= j < |o.produced| - 1 ensures !Halts(cfg, stages[j].name, o.produced[j]) {
          if j > 0 {
            assert o.produced[j] == rest.produced[j - 1] && stages[j] == stages[1..][j - 1];
          }
        }
        LastDecidesPrepend(cfg, stages, r, rest);
      }
    }
  }

  // ---------------------------------------------------------------------------
  // The engine
  // ---------------------------------------------------------------------------

  /** Prepending in two steps is prepending the concatenations. */
  lemma PrependTwice(d1: seq<StageResult>, d2: seq<StageResult>, a1: seq<(string, StageResult)>,
                     a2: seq<(string, StageResult)>, o: RunOutcome)
    ensures Prepend(d1, a1, Prepend(d2, a2, o)) == Prepend(d1 + d2, a1 + a2, o)
  {
    assert d1 + (d2 + o.produced) == (d1 + d2) + o.produced;
    assert a1 + (a2 + o.consulted) == (a1 + a2) + o.consulted;
  }

  /** Prepending nothing leaves an outcome as it is. */
  lemma PrependNothing(o: RunOutcome)
    ensures Prepend([], [], o) == o
  {
    assert [] + o.produced == o.produced && [] + o.consulted == o.consulted;
  }

  /**
    One turn of the engine's loop, seen from the whole run: with `done` and `asked` already
    produced and stage `i` next, the run either ends with stage `i` or continues after it.
  */
  lemma ProceedAdvance(run: Runner, stages: seq<Stage>, i: nat, cfg: Settings, incident: Incident,
                       metadata: map<string, string>, seen: seq<StageResult>, clock: nat,
                       done: seq<StageResult>, asked: seq<(string, StageResult)>, whole: RunOutcome,
                       r: StageResult, a1: seq<(string, StageResult)>, halt: bool, next: nat)
    requires i < |stages| && next == clock + 2
    requires whole == Prepend(done, asked, Proceed(run, stages[i..], cfg, incident, metadata, seen, clock))
    requires r == run(stages[i], Context(incident, seen, metadata), clock, clock + 1)
    requires a1 == Asked(cfg, stages[i].name, r) && halt == Halts(cfg, stages[i].name, r)
    ensures halt ==> whole == Prepend(done, asked, Halted(stages[i].name, r, clock))
    ensures !halt ==> whole == Prepend(done + [r], asked + a1,
                                       Proceed(run, stages[i + 1..], cfg, incident, metadata, seen + [r], next))
  {
    assert stages[i..][0] == stages[i] && stages[i..][1..] == stages[i + 1..];
    ProceedStep(run, stages[i..], cfg, incident, metadata, seen, clock);
    PrependTwice(done, [r], asked, a1, Proceed(run, stages[i + 1..], cfg, incident, metadata, seen + [r], clock + 2));
  }

  /** Python's `list.insert(index, x)` position: negative indices count from the end, and clamp. */
  function InsertPosition(n: nat, index: int): (p: nat)
    ensures p <= n
    ensures 0 <= index <= n ==> p == index
    ensures index > n ==> p == n
    ensures index < 0 && n + index >= 0 ==> p == n + index
    ensures n + index < 0 ==> p == 0
  {
    if index < 0 then (if n + index < 0 then 0 else n + index)
    else if index > n then n
    else index
  }

  /** The multi-stage pipeline. Its two callbacks and `auto_proceed` are fixed at construction. */
  class Pipeline {
    var stages: seq<Stage>
    var onStageComplete: bool
    var onApprovalNeeded: Option<(string, StageResult) -> bool>
    var autoProceed: bool
    /** The arguments of every call made so far to `on_stage_complete`. */
    var notified: seq<StageResult>
    /** The arguments of every call made so far to `on_approval_needed`. */
    var consulted: seq<(string, StageResult)>

    /** `Pipeline(stages, on_stage_complete, on_approval_needed)`, with `auto_proceed` read from the configuration. */
    constructor (stages: seq<Stage>, onStageComplete: bool,
                 onApprovalNeeded: Option<(string, StageResult) -> bool>, autoProceed: bool)
      ensures this.stages == stages && this.onStageComplete == onStageComplete
      ensures this.onApprovalNeeded == onApprovalNeeded && this.autoProceed == autoProceed
      ensures notified == [] && consulted == []
    {
      this.stages := stages;
      this.onStageComplete := onStageComplete;
      this.onApprovalNeeded := onApprovalNeeded;
      this.autoProceed := autoProceed;
      notified := [];
      consulted := [];
    }

    function Config(): Settings
      reads this
    {
      Settings(autoProceed, onStageComplete, onApprovalNeeded)
    }

    /** `add_stage`: append at the end; returns the pipeline itself. */
    method AddStage(stage: Stage) returns (self: Pipeline)
      modifies this`stages
      ensures self == this
      ensures stages == old(stages) + [stage]
    {
      stages := stages + [stage];
      self := this;
    }

    /** `insert_stage`: insert at the `list.insert` position; the other stages keep their order. */
    method InsertStage(index: int, stage: Stage) returns (self: Pipeline)
      modifies this`stages
      ensures self == this
      ensures |stages| == |old(stages)| + 1
      ensures var p := InsertPosition(|old(stages)|, index);
        stages[p] == stage && stages[..p] + stages[p + 1..] == old(stages)
    {
      var p := InsertPosition(|stages|, index);
      ghost var before := stages;
      stages := stages[..p] + [stage] + stages[p..];
      assert stages[..p] == before[..p];
      assert stages[p + 1..] == before[p..];
      assert before == before[..p] + before[p..];
      self := this;
    }

    /** Writes the outcome of a run of the stages into `result`, `ctx` and the callback logs. */
    method Commit(result: PipelineResult, ctx: StageContext, done: seq<StageResult>, asked: seq<(string, StageResult)>,
                  status: RunStatus, completedAt: Option<nat>)
      modifies result`stageResults, result`status, result`completedAt, ctx`previousResults, this`notified, this`consulted
      ensures result.stageResults == old(result.stageResults) + done
      ensures ctx.previousResults == old(ctx.previousResults) + done
      ensures notified == (if onStageComplete then old(notified) + done else old(notified))
      ensures consulted == old(consulted) + asked
      ensures result.status == status
      ensures result.completedAt == (if completedAt.Some? then completedAt else old(result.completedAt))
    {
      result.stageResults := result.stageResults + done;
      ctx.previousResults := ctx.previousResults + done;
      if onStageComplete {
        notified := notified + done;
      }
      consulted := consulted + asked;
      result.status := status;
      if completedAt.Some? {
        result.completedAt := completedAt;
      }
    }

    /**
      One turn of the loop of `_run_stages` under settings `cfg`: run `stage` on the history
      `seen` with clock readings `t` and `t + 1`, then decide whether the run stops there. The
      approval callback is consulted only when approval is required and the stage completed.
    */
    static method Turn(cfg: Settings, run: Runner, stage: Stage, inc: Incident, md: map<string, string>,
                       seen: seq<StageResult>, t: nat)
      returns (r: StageResult, asked: seq<(string, StageResult)>, halt: bool)
      ensures r == run(stage, Context(inc, seen, md), t, t + 1)
      ensures asked == Asked(cfg, stage.name, r)
      ensures halt == Halts(cfg, stage.name, r)
    {
      r := run(stage, Context(inc, seen, md), t, t + 1);
      asked, halt := [], false;
      if r.status == Failed {
        halt := true;
      } else if !cfg.autoProceed && r.status == Completed && cfg.approval.Some? {
        asked := [(stage.name, r)];
        var approved := cfg.approval.value(stage.name, r);
        halt := !approved;
      }
    }

    /**
      The loop of `_run_stages` under settings `cfg`: runs `stages` in order from clock reading
      `now` over the earlier results `history` and returns what the run produced.
    */
    static method Drive(cfg: Settings, run: Runner, stages: seq<Stage>, inc: Incident, md: map<string, string>,
                        history: seq<StageResult>, now: nat)
      returns (o: RunOutcome)
      ensures o == Proceed(run, stages, cfg, inc, md, history, now)
    {
      ghost var whole := Proceed(run, stages, cfg, inc, md, history, now);
      assert stages[0..] == stages;
      PrependNothing(whole);
      var seen := history;
      var done: seq<StageResult> := [];
      var asked: seq<(string, StageResult)> := [];
      var t := now;
      var i := 0;
      while i < |stages|
        invariant 0 <= i <= |stages|
        invariant whole == Prepend(done, asked, Proceed(run, stages[i..], cfg, inc, md, seen, t))
      {
        var stageResult, a1, halt := Turn(cfg, run, stages[i], inc, md, seen, t);
        var next := t + 2;
        ProceedAdvance(run, stages, i, cfg, inc, md, seen, t, done, asked, whole, stageResult, a1, halt, next);
        if halt {
          return Prepend(done, asked, Halted(stages[i].name, stageResult, t));
        }
        done, asked, seen := done + [stageResult], asked + a1, seen + [stageResult];
        t, i := next, i + 1;
      }
      assert stages[i..] == [];
      o := Prepend(done, asked, RunOutcome([], [], CompletedRun, Some(t), t + 1));
    }

    /**
      `_run_stages`: runs the configured stages against `result` and `ctx` from clock reading
      `now` and returns the next unused reading. Both histories grow by the results produced,
      the completion callback sees each of them, and status, completion time and clock are
      those of `Proceed`.
    */
    method RunStages(result: PipelineResult, ctx: StageContext, now: nat) returns (r: PipelineResult, later: nat)
      modifies result`stageResults, result`status, result`completedAt, ctx`previousResults, this`notified, this`consulted
      ensures r == result
      ensures var o := Proceed(Stages.Run, stages, Config(), ctx.incident, ctx.metadata, old(ctx.previousResults), now);
        && result.stageResults == old(result.stageResults) + o.produced
        && ctx.previousResults == old(ctx.previousResults) + o.produced
        && notified == (if onStageComplete then old(notified) + o.produced else old(notified))
        && consulted == old(consulted) + o.consulted
        && result.status == o.status
        && result.completedAt == (if o.completedAt.Some? then o.completedAt else old(result.completedAt))
        && later == o.clock
    {
      var o := Drive(Config(), Stages.Run, stages, ctx.incident, ctx.metadata, ctx.previousResults, now);
      Commit(result, ctx, o.produced, o.consulted, o.status, o.completedAt);
      r, later := result, o.clock;
    }

    /**
      `run`: a fresh result for `incident` started at clock reading `now`, a fresh context, then
      `_run_stages` from the next reading.
    */
    method Run(incident: Incident, now: nat) returns (r: PipelineResult, later: nat)
      modifies this`notified, this`consulted
      ensures fresh(r)
      ensures r.incident == incident && r.startedAt == now
      ensures var o := Proceed(Stages.Run, stages, Config(), incident, map[], [], now + 1);
        && r.stageResults == o.produced && r.status == o.status && r.completedAt == o.completedAt
        && notified == (if onStageComplete then old(notified) + o.produced else old(notified))
        && consulted == old(consulted) + o.consulted && later == o.clock
    {
      var result := new PipelineResult(incident, now);
      var ctx := new StageContext(incident);
      r, later := RunStages(result, ctx, now + 1);
    }
  }
}
