# contextcore-coyote, modelled in Dafny

contextcore-coyote resolves software incidents with a pipeline of agent stages:
investigate, design, implement, test and learn. Each stage asks a text generator
once and scrapes its narrative reply for sections, lists, file paths, code blocks
and verdicts. The engine runs the stages in order. It stops at the first failure,
and it can pause for human approval after a completed stage. The learn stage feeds
a knowledge base of lessons, which is kept as a markdown document. Small builders
write the PromQL, LogQL and TraceQL queries an investigation starts from.

This project models that core and proves what it promises:

- `Models` holds the data model: the two status enums, incidents (`from_error`,
  `from_github_issue`), stage results and lessons, with their defaults.
- `Stages` is the stage contract: the first-match lookup `get_result`, the skip
  rules, and the `Stage.run` wrapper that turns a raised exception into a Failed
  result.
- `PipelineCore` is the engine `_run_stages` and the two stage-list editors.
  - A static loop (`Drive`) is proved equal to the reference definition `Proceed`.
  - The lemmas prove about `Proceed` that a run stops at the first failure, pauses
    only on a declined approval and otherwise completes every stage.
- `Sections` holds the `_extract_section` scanner. It appears four times in the
  source, identically, and is defined once here.
- `Designer`, `Investigator`, `Implementer`, `Tester` and `Knowledge` are the
  scrapers of the five agents. Each is a loop method proved equal to a
  specification function, and each agent's `execute` is shaped over an injected
  generator.
- `Lessons` is the knowledge base class.
  - `_save` builds the document and is proved equal to `Serialize`.
  - `_parse_markdown` reads the document. Its loop is proved equal to `Parse`, which
    has the header rule corrected (see Findings).
  - `add`, `query`, `get_by_incident`, `get_categories` and `count` are its other
    operations.
- `LessonsFormat` proves the round trip: parsing what `_save` writes gives back
  every lesson's incident, category, text, prevention, tags and ordinal id.
- `Queries` holds the three query builders as classes that update their own fields,
  and the query templates.
- `Text` and `Wrappers` supply Python's string operations (`strip`, `split`, `join`,
  `in`, `lower`/`upper`, `lstrip`, `str(int)`) and `Optional`.

The generator and the clock are parameters. The generator is a function from the
stage's context to either a reply text or an error message. The engine's
timestamps are natural-number clock readings. The calendar instants of incidents
and lessons (`datetime.now()`) are arguments handed in by the caller. A file is modelled as an
`Option<string>`: `None` means the file is missing, and a write either replaces
the text or fails, as the caller chooses.

Three behaviours of the code are worth knowing before reading the model:

- `_parse_markdown`: a `## ` header without `:` appends the current lesson but
  keeps it current. The model keeps that behaviour as `ParseAsWritten` and proves
  its consequence (see Findings). It also proves that the two parsers agree on every
  document whose `## ` lines all name an incident, such as every document `_save` writes.
- `_extract_pr` does not stop at the first `PR:` line. A line whose candidate is
  empty or the placeholder is passed over, and the search continues.
- `_extract_prevention` keeps a checklist line that has no `]` whole and unstripped.

## Model

| member | source | states |
|---|---|---|
| Models.ParseStageStatus | src/contextcore_coyote/models.py:13-21 | a string names the status whose value it is, and no status when none has that value |
| Models.StageStatusRoundTrip | src/contextcore_coyote/models.py:13-21 | every one of the six statuses is recovered from its value, so the values are distinct |
| Models.ParseSeverity | src/contextcore_coyote/models.py:24-31 | a string names the severity whose value it is, and no severity when none has that value |
| Models.SeverityRoundTrip | src/contextcore_coyote/models.py:24-31 | every one of the five severities is recovered from its value |
| Models.NewIncident | src/contextcore_coyote/models.py:43-67 | an incident built from id, title and description has every other field at its dataclass default |
| Models.TitleOf | src/contextcore_coyote/models.py:95 | the title is a prefix of the message with no newline and at most 100 characters; it is shorter than 100 only when the first line ends there |
| Models.FirstLinePrefix | src/contextcore_coyote/models.py:95 | the first element of `split("\n")` is a prefix of the text, ended by a newline or by the end |
| Models.FromError | src/contextcore_coyote/models.py:70-107 | the id is `INC-` plus the timestamp; the title is cut from the first line; description and error message are the full message; source, severity and stack trace come from the arguments; detected at the call instant |
| Models.FormatStamp | src/contextcore_coyote/models.py:92 | the id timestamp is all digits |
| Models.FromGithubIssue | src/contextcore_coyote/models.py:110-128 | the id is `GH-<n>`; title defaults to `Unknown` and body to empty; source is `github`; the labels are exactly the label names, each mapped to `true` |
| Models.NewLesson | src/contextcore_coyote/models.py:210-221 | a lesson keeps every field given |
| Models.NewStageResult | src/contextcore_coyote/models.py:149-187 | a stage result has no completion time, no error, zero retries and empty output fields |
| Models.FormatDate | src/contextcore_coyote/knowledge/lessons.py:154 | the `Date` field of a saved lesson is one line |
| Stages.FindNamed | src/contextcore_coyote/pipeline/stage.py:27-32 | the result is the first one with the given name, or none when no result has that name |
| Stages.GetResult | src/contextcore_coyote/pipeline/stage.py:27-32 | `get_result` is the first-match lookup over the context's previous results |
| Stages.FirstNamedUnique | src/contextcore_coyote/pipeline/stage.py:27-32 | the first-match property fixes the answer: two answers that both have it are equal |
| Stages.GetResultStable | src/contextcore_coyote/pipeline/stage.py:27-32 | appending results never changes a lookup that already succeeds |
| Stages.InvestigationResult | src/contextcore_coyote/pipeline/stage.py:34-37 | the first result named `investigate` |
| Stages.DesignResult | src/contextcore_coyote/pipeline/stage.py:39-42 | the first result named `design` |
| Stages.ImplementationResult | src/contextcore_coyote/pipeline/stage.py:44-47 | the first result named `implement` |
| Stages.DefaultSkip | src/contextcore_coyote/pipeline/stage.py:77-89 | the base stage never skips |
| Stages.UpstreamNotCompleted | src/contextcore_coyote/agents/designer.py:102-105 | a stage skips iff its upstream result is missing or not Completed |
| Stages.Run | src/contextcore_coyote/pipeline/stage.py:91-132 | a skipped stage gives a Skipped result named after the stage with summary `Stage <name> skipped`; a raised exception gives a Failed result with the message as error; otherwise `execute`'s result with both timestamps overwritten |
| Stages.SkipIgnoresExecute | src/contextcore_coyote/pipeline/stage.py:104-111 | when the stage skips, its body is never consulted: any other body gives the same result |
| Stages.RunFailedOnlyFromBody | src/contextcore_coyote/pipeline/stage.py:113-132 | a Failed result comes only from a body that raised or returned Failed, never from a skip |
| PipelineCore.PipelineResult.constructor | src/contextcore_coyote/pipeline/core.py:29-36 | a new result has no stage results, no completion time and status `running` |
| PipelineCore.StageContext.constructor | src/contextcore_coyote/pipeline/stage.py:20-25 | a new context has an empty history and empty metadata |
| PipelineCore.Successful | src/contextcore_coyote/pipeline/core.py:38-43 | true iff every result is Completed or Skipped, including when there are none |
| PipelineCore.FailedStage | src/contextcore_coyote/pipeline/core.py:45-51 | none iff no result failed; otherwise the first Failed result, every earlier one being not Failed |
| PipelineCore.FailedStageIsLast | src/contextcore_coyote/pipeline/core.py:45-51 | when only the last result failed, it is the failed stage and the run is not successful |
| PipelineCore.Proceed | src/contextcore_coyote/pipeline/core.py:174-208 | a run produces at most one result per stage, and at least one when there are stages |
| PipelineCore.RunAll | src/contextcore_coyote/pipeline/core.py:176-182 | the reference run without halts gives one result per stage |
| PipelineCore.ProceedRunsPrefix | src/contextcore_coyote/pipeline/core.py:176-182 | the results of a run are the reference run of a prefix of the stages, in stage order, each stage seeing all earlier results |
| PipelineCore.ProceedSettles | src/contextcore_coyote/pipeline/core.py:174-208 | every run stops at its first failure; it ends `failed` iff its last result failed; it pauses only after the approval callback declined a completed result; it consults the callback only about completed results, and never when auto-proceeding or when no callback is set; it sets the completion time unless paused; it ends `completed` only after all stages ran |
| PipelineCore.ProceedDecides | src/contextcore_coyote/pipeline/core.py:176-206 | the run goes on past a stage only when its result neither failed nor was declined; a declined completed result ends it `awaiting_approval` with no completion time, a failed one ends it `failed`, any other result is the last stage's and ends it `completed`; the approval callback is asked about every completed result when `auto_proceed` is off and a callback is set, and about nothing else, in order |
| PipelineCore.SettledVerdicts | src/contextcore_coyote/pipeline/core.py:38-51 | after a `failed` run, `successful` is false and `failed_stage` is the last result; otherwise there is no failed stage |
| PipelineCore.InsertPosition | src/contextcore_coyote/pipeline/core.py:265 | the position `list.insert` uses: the index itself when in range, counted from the end when negative, clamped to the ends |
| PipelineCore.Pipeline.constructor | src/contextcore_coyote/pipeline/core.py:94-111 | the pipeline keeps its stages, its callbacks and `auto_proceed`, and no callback has been called |
| PipelineCore.Pipeline.AddStage | src/contextcore_coyote/pipeline/core.py:241-252 | the stage is appended at the end and the pipeline itself is returned |
| PipelineCore.Pipeline.InsertStage | src/contextcore_coyote/pipeline/core.py:254-266 | the stage sits at the `list.insert` position, the others keep their order, and the pipeline itself is returned |
| PipelineCore.Pipeline.Commit | src/contextcore_coyote/pipeline/core.py:180-205 | both histories grow by the same results, each result is passed to the completion callback when one is set, and status and completion time are written |
| PipelineCore.Pipeline.Turn | src/contextcore_coyote/pipeline/core.py:180-202 | one turn runs the stage on the history so far, asks for approval only about a Completed result when not auto-proceeding and a callback is set, and halts on failure or a declined approval |
| PipelineCore.Pipeline.Drive | src/contextcore_coyote/pipeline/core.py:174-208 | the loop with its early returns produces exactly the outcome `Proceed` specifies |
| PipelineCore.Pipeline.RunStages | src/contextcore_coyote/pipeline/core.py:174-208 | the result's stage results and the context's history both grow by the results produced; the callback logs, status, completion time and clock are those of `Proceed` |
| PipelineCore.Pipeline.Run | src/contextcore_coyote/pipeline/core.py:153-172 | a fresh result for the incident, started at the call, holding exactly the run's results, status and completion time |
| Sections.NonHeadings | src/contextcore_coyote/agents/designer.py:176-183 | the kept lines are lines of the input, none of them a heading of the section |
| Sections.Section | src/contextcore_coyote/agents/designer.py:170-185 | an extracted section is stripped |
| Sections.ExtractSection | src/contextcore_coyote/agents/designer.py:170-185 | the loop with its `break` gives exactly `Section` |
| Sections.ScanAppend | src/contextcore_coyote/agents/designer.py:175-183 | scanning two parts scans the second from where the first left off |
| Sections.StoppedStays | src/contextcore_coyote/agents/designer.py:181-182 | after the `break`, later lines change nothing |
| Sections.ScanBeforeHeading | src/contextcore_coyote/agents/designer.py:176-179 | lines before the first heading are never kept |
| Sections.ScanInside | src/contextcore_coyote/agents/designer.py:180-183 | inside the section every line up to the closing one is kept, except repeated headings |
| Sections.SectionContent | src/contextcore_coyote/agents/designer.py:176-185 | the content is the lines after the first heading up to, not including, the next `###` line or the end, with repeated headings of the section dropped |
| Sections.SectionAbsent | src/contextcore_coyote/agents/designer.py:176-185 | no line starts with `### <section>`: no section |
| Sections.ContentHasNoHeadings | src/contextcore_coyote/agents/designer.py:180-183 | no kept line starts with `###`, so no heading of any level is part of a section |
| Sections.SectionEmptyWhenClosed | src/contextcore_coyote/agents/designer.py:185 | a heading followed directly by a `###` line or by the end gives no section |
| Sections.SectionBlank | src/contextcore_coyote/agents/designer.py:185 | a section of blank lines only is the empty string, not none |
| Designer.ListItem | src/contextcore_coyote/agents/designer.py:194-200 | an item is non-empty and stripped, and comes from a line that, stripped, starts with a digit or `-` |
| Designer.ListItemNoMarker | src/contextcore_coyote/agents/designer.py:198 | when the line's only whitespace is spaces, the item does not start with a numbering or bullet character |
| Designer.ListItemAfterTab | src/contextcore_coyote/agents/designer.py:198 | a tab after the marker survives `lstrip`, so `1.\t2 x` yields `2 x`, which starts with a digit |
| Designer.ListItemValue | src/contextcore_coyote/agents/designer.py:194-200 | for a stripped line starting with a digit or `-` whose marker prefix has length `m`, the item is the stripped rest after the prefix, and there is none exactly when that rest is empty |
| Designer.List | src/contextcore_coyote/agents/designer.py:187-202 | every item is non-empty and stripped |
| Designer.ExtractList | src/contextcore_coyote/agents/designer.py:187-202 | the section loop and the item loop give exactly `List` |
| Designer.CollectItems | src/contextcore_coyote/agents/designer.py:193-202 | the item loop keeps the items of the lines, in line order |
| Designer.ListItemSource | src/contextcore_coyote/agents/designer.py:189-202 | every item comes from a line of the section |
| Designer.ListComplete | src/contextcore_coyote/agents/designer.py:194-200 | every section line that yields an item contributes it |
| Designer.ListBound | src/contextcore_coyote/agents/designer.py:193-202 | no more items than section lines |
| Designer.ListAbsent | src/contextcore_coyote/agents/designer.py:189-191 | no section: no items |
| Designer.Skip | src/contextcore_coyote/agents/designer.py:102-105 | skips iff the investigation result is missing or not Completed |
| Designer.Summary | src/contextcore_coyote/agents/designer.py:162 | the Fix Summary section, or `Fix design complete` when it is missing or empty |
| Designer.Execute | src/contextcore_coyote/agents/designer.py:107-168 | without an investigation, Failed with its fixed error; on a generator error, Failed with that message; otherwise Completed with the summary, the reply as details and specification, the tradeoffs and the alternatives |
| Designer.MissingInvestigationSkipped | src/contextcore_coyote/agents/designer.py:102-127 | through `Stage.run`, a missing investigation is caught by the skip rule, so the in-body failure is never reached |
| Designer.GeneratorFailureFails | src/contextcore_coyote/agents/designer.py:142-151 | when run, a generator error fails the stage with that message, and this happens only after a completed investigation |
| Investigator.FileOf | src/contextcore_coyote/agents/investigator.py:172-178 | no path without `File:` in the line; with it, the path is the stripped text after the last `:` when that is non-empty and contains `/`, and none otherwise; a path is non-empty, stripped and has no `:` |
| Investigator.FilesOfLine | src/contextcore_coyote/agents/investigator.py:168-179 | a single line contributes exactly the path `FileOf` gives it, or nothing |
| Investigator.FilesAppend | src/contextcore_coyote/agents/investigator.py:168-179 | the paths of two texts joined by a newline are the paths of the first followed by those of the second |
| Investigator.ContainsFile | src/contextcore_coyote/agents/investigator.py:173 | the source's second test, `- File:`, implies the first, so it adds nothing |
| Investigator.Files | src/contextcore_coyote/agents/investigator.py:168-179 | at most one path per line |
| Investigator.ExtractFiles | src/contextcore_coyote/agents/investigator.py:168-179 | the loop gives exactly `Files` |
| Investigator.FilesWellFormed | src/contextcore_coyote/agents/investigator.py:172-178 | every path is non-empty, contains `/`, has no `:` and comes from a `File:` line |
| Investigator.FilesComplete | src/contextcore_coyote/agents/investigator.py:172-178 | every `File:` line naming a path contributes it |
| Investigator.PrOf | src/contextcore_coyote/agents/investigator.py:184-189 | no reference without `PR:` in the line; with it, the reference is the stripped text after the last `:` when that is non-empty and not the placeholder `[number if known]`, and none otherwise; a reference is non-empty, stripped and has no `:` |
| Investigator.Pr | src/contextcore_coyote/agents/investigator.py:181-190 | none iff no line gives a reference; otherwise the reference of the first line that gives one |
| Investigator.PrWellFormed | src/contextcore_coyote/agents/investigator.py:187-188 | the reference is non-empty, not the placeholder and has no `:` |
| Investigator.ExtractPr | src/contextcore_coyote/agents/investigator.py:181-190 | the loop with its early return gives exactly `Pr` |
| Investigator.PrOfSimple | src/contextcore_coyote/agents/investigator.py:184-189 | a `PR:` line whose value has no `:` gives the stripped value unless it is empty or the placeholder |
| Investigator.PrSkipsPlaceholder | src/contextcore_coyote/agents/investigator.py:181-190 | a placeholder line is passed over and the next `PR:` line decides |
| Investigator.Summary | src/contextcore_coyote/agents/investigator.py:143 | `Investigation complete: ` plus the first 100 characters of the root cause plus `...`, or `Investigation complete` without one |
| Investigator.Execute | src/contextcore_coyote/agents/investigator.py:97-149 | on a generator error, Failed with that message; otherwise Completed with the root cause section, the files, the reference and the reply as details |
| Investigator.NeverSkipped | src/contextcore_coyote/agents/investigator.py:86-149 | the stage never skips: run, it returns what `execute` returns, timed by the wrapper |
| Implementer.Joined | src/contextcore_coyote/agents/implementer.py:207 | each stored block is its lines joined with newlines, under the same keys |
| Implementer.ExtractCodeChanges | src/contextcore_coyote/agents/implementer.py:195-229 | the loop, storing each block as it is left, gives exactly `CodeChanges` |
| Implementer.CollectNames | src/contextcore_coyote/agents/implementer.py:204-211 | the current file and every key were named by a header line |
| Implementer.CollectBlocks | src/contextcore_coyote/agents/implementer.py:205-223 | every stored block holds at least one line, and only lines that are neither fences nor headers |
| Implementer.CodeChangesKeys | src/contextcore_coyote/agents/implementer.py:204-211 | every key is `line[5:].strip()` of a line starting `#### ` that contains `/` |
| Implementer.CodeChangesValues | src/contextcore_coyote/agents/implementer.py:213-227 | every value is made of input lines that are neither fences nor headers |
| Implementer.NoHeaderNoChanges | src/contextcore_coyote/agents/implementer.py:221-227 | without a file header nothing is collected |
| Implementer.HeaderNameNonEmpty | src/contextcore_coyote/agents/implementer.py:208 | a header names a non-empty file |
| Implementer.HeaderBlock | src/contextcore_coyote/agents/implementer.py:204-223 | a header followed by one fenced line leaves that line collected for the header's file |
| Implementer.RepeatedHeaderExample | src/contextcore_coyote/agents/implementer.py:204-211 | two one-line blocks under the same header leave only the second |
| Implementer.LastBlockWins | src/contextcore_coyote/agents/implementer.py:195-227 | when the header at `h` names `k`, its block (the fenced lines up to the next header) is non-empty, and every later header naming `k` has an empty block, then `k` is a key and its value is that block joined with newlines |
| Implementer.CodeChangesByHeaders | src/contextcore_coyote/agents/implementer.py:195-227 | the dictionary is the blocks of the headers, each the fenced lines after its header up to the next one, a later non-empty block of a file replacing an earlier one, empty blocks storing nothing |
| Implementer.HeaderBlockStored | src/contextcore_coyote/agents/implementer.py:204-211 | a header naming `k` with a non-empty block stores something for `k` |
| Implementer.LastBlockStored | src/contextcore_coyote/agents/implementer.py:204-227 | the blocks keep, for `k`, the block of its last header with a non-empty block |
| Implementer.StoredBlockIsLast | src/contextcore_coyote/agents/implementer.py:204-227 | every stored block is the block of the last header naming its file whose block is non-empty |
| Implementer.CodeChangesByLastBlock | src/contextcore_coyote/agents/implementer.py:195-229 | `k` is a key iff some header names `k` with a non-empty block, and then its value is the newline-joined block of the last such header |
| Implementer.CommitMessage | src/contextcore_coyote/agents/implementer.py:250 | a captured commit message is stripped |
| Implementer.CaptureStopsAt | src/contextcore_coyote/agents/implementer.py:243-247 | after a `break`, later lines change nothing |
| Implementer.ExtractCommitMessage | src/contextcore_coyote/agents/implementer.py:231-250 | the loop with its two `break`s gives exactly `CommitMessage` |
| Implementer.CommitMessageAbsent | src/contextcore_coyote/agents/implementer.py:236-240 | no line contains `### Commit Message`: no message |
| Implementer.CapturedLines | src/contextcore_coyote/agents/implementer.py:241-248 | captured lines are input lines that are neither fences, nor `###` lines, nor the heading |
| Implementer.CaptureHeading | src/contextcore_coyote/agents/implementer.py:237-240 | lines before the first heading capture nothing, and the heading starts the capture |
| Implementer.CaptureInside | src/contextcore_coyote/agents/implementer.py:241-248 | inside the message, every line before the ending one is captured unless it carries the heading or is a fence |
| Implementer.CaptureUpTo | src/contextcore_coyote/agents/implementer.py:237-248 | just before the line that ends the message, the capture holds the kept lines after the first heading |
| Implementer.CommitContent | src/contextcore_coyote/agents/implementer.py:231-250 | with `h` the first heading line and `e` the first later `###` line, or fence after captured content, that carries no heading (or the end), the message is none iff no line strictly between is kept, and otherwise the stripped newline-join of the kept ones, where kept means carrying no heading and being neither a fence nor a `###` line |
| Implementer.LeadingFenceSkipped | src/contextcore_coyote/agents/implementer.py:241-248 | fences right after the heading are skipped, and the fence after the message ends it |
| Implementer.Skip | src/contextcore_coyote/agents/implementer.py:113-116 | skips iff the design result is missing or not Completed |
| Implementer.Summary | src/contextcore_coyote/agents/implementer.py:169 | the Summary section, or `Implementation complete` when it is missing or empty |
| Implementer.Execute | src/contextcore_coyote/agents/implementer.py:118-176 | without a design, Failed with its fixed error; on a generator error, Failed with that message; otherwise Completed with the summary, the reply, the code changes and the commit message |
| Implementer.MissingDesignSkipped | src/contextcore_coyote/agents/implementer.py:113-139 | through `Stage.run`, a missing design is caught by the skip rule |
| Tester.CheckPassed | src/contextcore_coyote/agents/tester.py:178-187 | fails only when the reply mentions `reject` or `request changes`; passes on `approve` without `reject`, and on `[pass]` |
| Tester.CheckPassedExactly | src/contextcore_coyote/agents/tester.py:178-187 | fails iff there is no `[pass]`, and there is a rejection, or a change request without an approval |
| Tester.RecommendationOf | src/contextcore_coyote/agents/tester.py:191-197 | a line recommends something iff it mentions one of the three; APPROVE before REJECT before REQUEST CHANGES |
| Tester.Recommendation | src/contextcore_coyote/agents/tester.py:189-198 | none iff no line mentions one; otherwise what the first line that mentions one recommends |
| Tester.ExtractRecommendation | src/contextcore_coyote/agents/tester.py:189-198 | the loop with its early returns gives exactly `Recommendation` |
| Tester.RecommendationAt | src/contextcore_coyote/agents/tester.py:190-197 | the first line that mentions a recommendation decides, whatever later lines say |
| Tester.Skip | src/contextcore_coyote/agents/tester.py:108-111 | skips iff the implementation result is missing or not Completed |
| Tester.Summary | src/contextcore_coyote/agents/tester.py:166 | `Validation: <rec>`, or `Validation complete` without a recommendation |
| Tester.Execute | src/contextcore_coyote/agents/tester.py:113-176 | without an implementation, Failed with its fixed error; on a generator error, Failed with that message; otherwise Completed with the verdict, the reply as details and test output, and the Regression Analysis section |
| Tester.MissingImplementationSkipped | src/contextcore_coyote/agents/tester.py:108-135 | through `Stage.run`, a missing implementation is caught by the skip rule |
| Knowledge.Fill | src/contextcore_coyote/agents/knowledge.py:218-228 | a `**Lesson**:` or `**Prevention**:` line sets that text to the stripped value after its first `:`; a `**Related Files**:` or `**Tags**:` line sets that list to the comma-separated parts of the value, each stripped; nothing else changes, and a line with none of the four keys leaves the lesson as it was |
| Knowledge.KeysExclusive | src/contextcore_coyote/agents/knowledge.py:218-228 | a line starts with at most one of the four field keys, so the `elif` order does not matter |
| Knowledge.FillField | src/contextcore_coyote/agents/knowledge.py:218-228 | a line sets a field iff it starts with that field's key, to the value the key reads; every other field keeps its value |
| Knowledge.ExtractLessons | src/contextcore_coyote/agents/knowledge.py:199-233 | the loop, filling the current lesson in place, gives exactly `Lessons` |
| Knowledge.HarvestShape | src/contextcore_coyote/agents/knowledge.py:206-217 | one lesson per header so far, numbered in order |
| Knowledge.LessonsNumbered | src/contextcore_coyote/agents/knowledge.py:206-233 | as many lessons as `#### Lesson` lines, with ids `<incident>-L1` to `-Ln` in order, the incident given and category `unknown` |
| Knowledge.BeforeFirstHeader | src/contextcore_coyote/agents/knowledge.py:205-218 | lines before the first lesson header are ignored |
| Knowledge.HarvestBlock | src/contextcore_coyote/agents/knowledge.py:218-228 | the lines after a header fill the current lesson in order |
| Knowledge.LastFieldLineWins | src/contextcore_coyote/agents/knowledge.py:218-228 | each of the four fields is set by the last line of the block carrying its key, earlier ones being overwritten |
| Knowledge.FieldUntouched | src/contextcore_coyote/agents/knowledge.py:218-228 | a field that no line of the block carries a key for keeps its value |
| Knowledge.LastLessonLineWins | src/contextcore_coyote/agents/knowledge.py:219-220 | the text of a lesson is set by the last `**Lesson**:` line of its block |
| Knowledge.LessonTextFromLastLine | src/contextcore_coyote/agents/knowledge.py:205-231 | in a whole reply, a lesson's text is what the last `**Lesson**:` line of its block gives |
| Knowledge.OpenedBlock | src/contextcore_coyote/agents/knowledge.py:205-228 | in a whole reply, the lesson a header opens, numbered after the lessons before it, is filled by the lines up to the next header, in order |
| Knowledge.FieldFromLastLine | src/contextcore_coyote/agents/knowledge.py:205-231 | in a whole reply, each field of a lesson, text, prevention, related files or tags, is what the last line of its block carrying that key gives |
| Knowledge.FieldDefault | src/contextcore_coyote/agents/knowledge.py:205-217 | in a whole reply, a field no line of the lesson's block sets keeps the empty text or empty list the header gave it |
| Knowledge.PreventionItem | src/contextcore_coyote/agents/knowledge.py:247-250 | a line whose stripped form starts with `- [` yields the stripped text after its first `]` when that is non-empty (none when empty), or the whole line when it has no `]`; no other line yields an item |
| Knowledge.UnclosedItemKeptWhole | src/contextcore_coyote/agents/knowledge.py:248 | a checklist line without `]` is kept whole |
| Knowledge.ChecklistStopsAt | src/contextcore_coyote/agents/knowledge.py:244-246 | after the `break`, later lines change nothing |
| Knowledge.ExtractPrevention | src/contextcore_coyote/agents/knowledge.py:235-252 | the loop with its `break` gives exactly `Prevention` |
| Knowledge.PreventionAbsent | src/contextcore_coyote/agents/knowledge.py:240-243 | no checklist heading: no items |
| Knowledge.PreventionSource | src/contextcore_coyote/agents/knowledge.py:244-250 | every item is what some non-heading input line yields |
| Knowledge.PreventionContent | src/contextcore_coyote/agents/knowledge.py:235-252 | with `h` the first line carrying the checklist heading and `e` the first later `###` line without it (or the end), the items are exactly what the lines strictly between yield, in order, heading lines yielding nothing |
| Knowledge.NonBlank | src/contextcore_coyote/agents/knowledge.py:261-262 | a line yields iff it is not blank, and yields its stripped text |
| Knowledge.IndexOf | src/contextcore_coyote/agents/knowledge.py:259 | `lines.index(line)` is the first position holding the line |
| Knowledge.ExtractCategory | src/contextcore_coyote/agents/knowledge.py:254-263 | the nested loop with its early return gives exactly `Category` |
| Knowledge.FirstNonBlankAfter | src/contextcore_coyote/agents/knowledge.py:260-262 | the inner loop finds the first non-blank line after the heading |
| Knowledge.IndexIsCurrent | src/contextcore_coyote/agents/knowledge.py:259 | the heading the outer loop stops at is found again by `index` |
| Knowledge.CategoryAbsent | src/contextcore_coyote/agents/knowledge.py:263 | no line starts with `### Category`: `unknown` |
| Knowledge.CategoryAllBlank | src/contextcore_coyote/agents/knowledge.py:263 | a reply of blank lines only: `unknown` |
| Knowledge.CategoryAt | src/contextcore_coyote/agents/knowledge.py:256-263 | the first heading decides: the first non-blank line after it, not limited to the section, or `unknown` if there is none |
| Knowledge.CategoryPrefix | src/contextcore_coyote/agents/knowledge.py:256-257 | lines before the first heading do not affect the category |
| Knowledge.Texts | src/contextcore_coyote/agents/knowledge.py:190 | the lessons' texts in extraction order |
| Knowledge.Execute | src/contextcore_coyote/agents/knowledge.py:135-197 | on a generator error, Failed with that message; otherwise Completed with `Extracted <n> lessons in category: <category>`, the lesson texts and the prevention steps |
| Knowledge.Agent | src/contextcore_coyote/agents/knowledge.py:124-135 | the learn stage never skips |
| Lessons.SaveDocument | src/contextcore_coyote/knowledge/lessons.py:147-165 | the loop builds exactly the parts `Serialize` joins: the two header strings, then one block per lesson in list order, with the files and tags lines only when non-empty |
| Lessons.SaveStep | src/contextcore_coyote/knowledge/lessons.py:152-162 | one more lesson adds its block at the end |
| Lessons.ParseField | src/contextcore_coyote/knowledge/lessons.py:89-97 | a field line never changes id, incident, related files, date or confidence |
| Lessons.ParseDocument | src/contextcore_coyote/knowledge/lessons.py:60-100 | the loop, appending to the list, gives exactly `Parse` |
| Lessons.LessonLineField | src/contextcore_coyote/knowledge/lessons.py:91-92 | a `**Lesson**:` line is not a header and sets only the text |
| Lessons.UnnamedHeaderDuplicates | src/contextcore_coyote/knowledge/lessons.py:73-88 | as written, a later header without `:` makes the first lesson appear twice, both copies carrying the second block's text; corrected, there is one lesson with its own text |
| Lessons.ParseOrdinal | src/contextcore_coyote/knowledge/lessons.py:80-87 | every parsed lesson has the id `<incident>-L<position>` |
| Lessons.ReadOrdinal | src/contextcore_coyote/knowledge/lessons.py:72-100 | the parser's state keeps the ordinal numbering line after line |
| Lessons.AsWrittenAgrees | src/contextcore_coyote/knowledge/lessons.py:72-97 | when every `## ` line names an incident, the as-written reading and the corrected one reach the same state |
| Lessons.ParsersAgree | src/contextcore_coyote/knowledge/lessons.py:60-100 | the as-written parser and the corrected one give the same lessons on a document whose every `## ` line has a `:` after it |
| Lessons.Limited | src/contextcore_coyote/knowledge/lessons.py:244-247 | a prefix of the matches, of length `max(limit, 1)` when there are more |
| Lessons.LessonsLearned.constructor | src/contextcore_coyote/knowledge/lessons.py:27-58 | a missing file gives an empty list; otherwise the parsed document, which is what the as-written parser gives when every `## ` line names an incident; every lesson numbered by position |
| Lessons.LessonsLearned.Save | src/contextcore_coyote/knowledge/lessons.py:147-167 | the document becomes the serialised list, or stays as it was when the write fails |
| Lessons.LessonsLearned.Add | src/contextcore_coyote/knowledge/lessons.py:102-145 | one lesson with id `<incident>-L<old count + 1>` and the given fields is appended; the earlier lessons are unchanged; the document is rewritten; the ordinal numbering is kept |
| Lessons.LessonsLearned.Query | src/contextcore_coyote/knowledge/lessons.py:195-249 | the loop with `continue` and `break` gives the matching lessons in order, cut at the limit |
| Lessons.LessonsLearned.Categories | src/contextcore_coyote/knowledge/lessons.py:255-257 | exactly the categories of the lessons, each once |
| Lessons.QuerySound | src/contextcore_coyote/knowledge/lessons.py:216-244 | every result is a lesson that passes every non-empty filter |
| Lessons.QueryBound | src/contextcore_coyote/knowledge/lessons.py:244-247 | at most `max(limit, 1)` results, and all matches when there are no more than that |
| Lessons.QueryComplete | src/contextcore_coyote/knowledge/lessons.py:216-247 | a matching lesson is returned when no more than `limit` lessons match |
| Lessons.ByIncidentExact | src/contextcore_coyote/knowledge/lessons.py:251-253 | the lessons of exactly that incident, from the list |
| LessonsFormat.BlockTerminated | src/contextcore_coyote/knowledge/lessons.py:153-162 | a block's strings are its lines, each ended by a newline |
| LessonsFormat.SavePartsTerminated | src/contextcore_coyote/knowledge/lessons.py:149-162 | the whole document is its lines, each ended by a newline |
| LessonsFormat.ItemsOfJoin | src/contextcore_coyote/knowledge/lessons.py:96-97 | tags joined with `, ` are split back into the same tags |
| LessonsFormat.Ignored | src/contextcore_coyote/knowledge/lessons.py:88-97 | a line that is none of the four keys changes nothing |
| LessonsFormat.TagsRead | src/contextcore_coyote/knowledge/lessons.py:95-97 | the saved tags line restores the tags |
| LessonsFormat.FixedRead | src/contextcore_coyote/knowledge/lessons.py:89-94 | the saved date, category, lesson and prevention lines restore category, text and prevention |
| LessonsFormat.OptionalRead | src/contextcore_coyote/knowledge/lessons.py:95-97 | the related-files line is ignored and the tags line restores the tags |
| LessonsFormat.HeaderRead | src/contextcore_coyote/knowledge/lessons.py:78-80 | the saved header names the lesson's incident |
| LessonsFormat.ReadBlock | src/contextcore_coyote/knowledge/lessons.py:73-97 | reading one saved block ends the previous lesson and restores this one under the next ordinal id |
| LessonsFormat.ReadBlocks | src/contextcore_coyote/knowledge/lessons.py:72-100 | reading all saved blocks restores every lesson in order |
| LessonsFormat.HeadRead | src/contextcore_coyote/knowledge/lessons.py:149-150 | the document's title and intro lines are read past |
| LessonsFormat.SavedLines | src/contextcore_coyote/knowledge/lessons.py:149-165 | the lines of the saved text are the header lines, the block lines and a final empty line |
| LessonsFormat.RoundTrip | src/contextcore_coyote/knowledge/lessons.py:72-165 | parsing the saved document gives back every lesson's incident, category, text, prevention and tags, with the ordinal id of its position and no related files |
| LessonsFormat.BlockNamed | src/contextcore_coyote/knowledge/lessons.py:153-162 | the only `## ` line of a saved block is its header, which names the incident |
| LessonsFormat.StoredParsersAgree | src/contextcore_coyote/knowledge/lessons.py:60-165 | on what `_save` writes, the as-written parser gives what the corrected one gives: every lesson back |
| Queries.Put | src/contextcore_coyote/o11y/queries.py:41 | dictionary assignment: an existing key keeps its place and gets the new value, a new key goes last, and no key repeats |
| Queries.Lookup | src/contextcore_coyote/o11y/queries.py:41 | a value is found iff the key is present |
| Queries.LookupAt | src/contextcore_coyote/o11y/queries.py:41 | in a dictionary without repeated keys, every entry is found under its own key |
| Queries.PutLookup | src/contextcore_coyote/o11y/queries.py:41 | after assignment the key maps to the new value and every other key to its old value |
| Queries.Matchers | src/contextcore_coyote/o11y/queries.py:24 | one `k="v"` matcher per label, in insertion order |
| Queries.Selector | src/contextcore_coyote/o11y/queries.py:25 | a selector is braced |
| Queries.EmptySelector | src/contextcore_coyote/o11y/queries.py:72-73 | an empty stream selector is `{}` |
| Queries.SelectorNewKey | src/contextcore_coyote/o11y/queries.py:24-25 | a new label adds `, k="v"` just before the closing brace |
| Queries.MatchersOverwrite | src/contextcore_coyote/o11y/queries.py:24 | overwriting a label changes only its own matcher, in place |
| Queries.MetricText | src/contextcore_coyote/o11y/queries.py:21-37 | the query is the bare metric iff there are no labels, no rate and no aggregation; the aggregation is outermost and the rate wraps the selector |
| Queries.MetricLayers | src/contextcore_coyote/o11y/queries.py:24-35 | with labels, a rate and an aggregation the query is `agg(rate(metric{labels}[window]))` |
| Queries.MetricsQuery.constructor | src/contextcore_coyote/o11y/queries.py:12-19 | the builder holds the four fields given, and its label dictionary has no repeated key |
| Queries.MetricsQuery.Build | src/contextcore_coyote/o11y/queries.py:21-37 | `build` reads the four fields |
| Queries.MetricsQuery.WithLabel | src/contextcore_coyote/o11y/queries.py:39-42 | the label is assigned and the builder itself is returned |
| Queries.MetricsQuery.WithRate | src/contextcore_coyote/o11y/queries.py:44-47 | the rate window is set and the builder itself is returned |
| Queries.MetricsQuery.Sum | src/contextcore_coyote/o11y/queries.py:49-52 | the aggregation becomes `sum`, whatever it was |
| Queries.MetricsQuery.Avg | src/contextcore_coyote/o11y/queries.py:54-57 | the aggregation becomes `avg`, whatever it was |
| Queries.LogText | src/contextcore_coyote/o11y/queries.py:69-87 | a log query always starts with its brace selector |
| Queries.ApplyAllLists | src/contextcore_coyote/o11y/queries.py:89-107 | whatever the call order, the line filters are the `contains` texts and the parsers the `json`/`logfmt` calls, each in call order, and the label filters are untouched |
| Queries.CallsCommute | src/contextcore_coyote/o11y/queries.py:69-107 | two calls of different kinds give the same query in either order |
| Queries.ContainsAtEnd | src/contextcore_coyote/o11y/queries.py:94-97 | with no label filters or parsers, `contains` adds its line filter on the text at the very end |
| Queries.ParserAtEnd | src/contextcore_coyote/o11y/queries.py:99-107 | `json` and `logfmt` always add their parser stage at the very end |
| Queries.LogQuery.constructor | src/contextcore_coyote/o11y/queries.py:60-67 | the builder holds the selector and the three lists given |
| Queries.LogQuery.Build | src/contextcore_coyote/o11y/queries.py:69-87 | the three `+=` loops give the selector, then the line filters, the label filters and the parsers |
| Queries.LogQuery.Job | src/contextcore_coyote/o11y/queries.py:89-92 | sets the `job` key of the selector |
| Queries.LogQuery.Contains | src/contextcore_coyote/o11y/queries.py:94-97 | appends one line filter |
| Queries.LogQuery.Json | src/contextcore_coyote/o11y/queries.py:99-102 | appends the `json` parser |
| Queries.LogQuery.Logfmt | src/contextcore_coyote/o11y/queries.py:104-107 | appends the `logfmt` parser |
| Queries.TraceText | src/contextcore_coyote/o11y/queries.py:116-120 | `{}` iff there are no conditions; the query is always braced |
| Queries.TraceAppend | src/contextcore_coyote/o11y/queries.py:120 | one more condition is joined with ` && ` before the closing brace |
| Queries.TraceQuery.constructor | src/contextcore_coyote/o11y/queries.py:110-114 | the builder holds the conditions given |
| Queries.TraceQuery.Build | src/contextcore_coyote/o11y/queries.py:116-120 | `build` reads the conditions |
| Queries.TraceQuery.Status | src/contextcore_coyote/o11y/queries.py:122-125 | appends exactly the condition `status = s` |
| Queries.TraceQuery.Service | src/contextcore_coyote/o11y/queries.py:127-130 | appends exactly the service-name condition |
| Queries.TraceQuery.Operation | src/contextcore_coyote/o11y/queries.py:132-135 | appends exactly the span-name condition |
| Queries.TraceQuery.Duration | src/contextcore_coyote/o11y/queries.py:137-140 | appends exactly the duration condition |
| Queries.TraceQuery.Attribute | src/contextcore_coyote/o11y/queries.py:142-145 | appends exactly the span-attribute condition |
| Queries.ErrorRate | src/contextcore_coyote/o11y/queries.py:152-156 | with a service and a window, the denominator is what `MetricsQuery` builds for the summed request rate of that job |
| Queries.LatencyP99 | src/contextcore_coyote/o11y/queries.py:158-162 | with a service and a window, the quantile is taken over what `MetricsQuery` builds for the summed bucket rate of that job |
| Queries.ErrorLogs | src/contextcore_coyote/o11y/queries.py:164-168 | without a service the selector is `job=~".+"`; with one, the query is what `LogQuery` builds from the job, the line filter and the two trailing stages |
| Queries.FailedTraces | src/contextcore_coyote/o11y/queries.py:170-175 | `{ status = error }` without a service; with one, what `TraceQuery` builds from `status("error")` then `service(s)` |
| Queries.SlowTraces | src/contextcore_coyote/o11y/queries.py:177-182 | what `TraceQuery` builds from `duration(">", t)`, then `service(s)` when a service is named |
| Text.Strip | src/contextcore_coyote/agents/designer.py:185 | `strip()` leaves neither end whitespace and never lengthens the text |
| Text.StrippedIsFixpoint | src/contextcore_coyote/agents/designer.py:185 | a text with no whitespace at either end is its own `strip()` |
| Text.StripIdempotent | src/contextcore_coyote/agents/designer.py:185 | stripping twice is stripping once |
| Text.Split | src/contextcore_coyote/agents/designer.py:172 | `split(c)` gives at least one part, and no part holds the separator |
| Text.Lines | src/contextcore_coyote/agents/designer.py:172 | `split("\n")` gives at least one line, none holding a newline |
| Text.SplitJoin | src/contextcore_coyote/agents/designer.py:172-185 | splitting what was joined with the same one-character separator gives the parts back |
| Text.JoinSplit | src/contextcore_coyote/agents/designer.py:172-185 | joining what was split with the same separator gives the text back |
| Text.LastPart | src/contextcore_coyote/agents/investigator.py:175-176 | `split(":")[-1]` holds no `:` |
| Text.FieldValue | src/contextcore_coyote/knowledge/lessons.py:90 | `line.split(":", 1)[1].strip()` is stripped |
| Text.Items | src/contextcore_coyote/knowledge/lessons.py:96-97 | one stripped item per comma-separated part, in order |
| Text.Lower | src/contextcore_coyote/agents/tester.py:180 | `lower()` keeps the length and maps each character on its own |
| Text.Upper | src/contextcore_coyote/agents/tester.py:192-196 | `upper()` keeps the length and maps each character on its own |

## Left out

- The text generator, its SDK clients and the prompt templates are not modelled: each stage gets a function from its context to a reply or an error message.
- Telemetry is not modelled: `_run_with_telemetry`, `_execute_with_telemetry` and both `_emit_to_contextcore` methods. The telemetry path times and returns results in the same way as the plain path.
- The wall clock is a natural-number reading passed in by the caller. `duration_seconds`, `PipelineResult.summary()`, `to_dict`, `to_json` and the `confidence` arithmetic are not modelled.
- File reads and writes are left out. The lessons file is an `Option<string>` and a write replaces it. A file that exists but cannot be read is modelled like a missing one.
- Configuration and the command-line front ends are not part of this model: `config.py`, `cli.py`, `pup_cli.py` and the HTTP client `o11y/client.py`. `auto_proceed` is a constructor argument of the pipeline.
- Models.FromError and Models.FromGithubIssue: the extra keyword arguments `from_error` passes on to the dataclass are not modelled, and neither is the `raw_payload` field, so the issue dictionary `from_github_issue` stores there is dropped. The model holds only the fields it names.
- Models.FromGithubIssue: a `title` or `body` key whose value is JSON null is not modelled. In models.py:123-124 `dict.get` then returns None, so the source's title or description is None and not the default. In the model an absent key and a null value both give the default. A label dictionary without a `"name"` key is not modelled either: models.py:126 raises KeyError there, and the model takes the label names as given strings.
- The three pipeline factories `full`, `investigation_only` and `design_and_implement` are not modelled. They only fill the stage list.
- `lower()`, `upper()`, `strip()` and `isdigit()` are modelled for ASCII only.
- PipelineCore.Pipeline.RunStages: the loop runs on values, and the two histories and the callback logs are written once after it, not after each stage. The order of those writes is not observable to a stage, because each stage receives the history as a value.
- PipelineCore.Pipeline.RunStages: the `on_stage_complete` and `on_approval_needed` callbacks are assumed not to raise. In core.py:185-202 nothing catches an exception from either one. Such an exception escapes `Pipeline.run` after the stage's result was appended to both histories, and the run's status stays `"running"`. The model has no such path, because the notification is a log and the approval decision is a total function.
- Stages.Run: a stage's `execute` cannot see the `Stage` object or mutate the result after returning. The wrapper's assignment of both timestamps is modelled as a record update.
- Lessons.LessonsLearned.Categories: gives a set; the list order of Python's `set` is not modelled.
- Lessons.LessonsLearned.Add: the new lesson's `related_files` and `tags` are plain lists. `None` arguments are passed as empty lists, which is all that `or []` yields.
- PipelineCore.ProceedSettles: its own contract states the verdicts of a settled run. That a declined result halts the run, and that the callback is asked about every completed result, in order, is stated by PipelineCore.ProceedDecides.
- Designer.ListItem: its own contract states only what an item looks like. The item's value, and when a marked line yields one, is stated by Designer.ListItemValue.
- Implementer.CommitMessage: its own contract states only that the message is stripped. Which lines make it up, and when it is none, is stated by Implementer.CommitContent.
- Designer.List: its own contract states only that every item is non-empty and stripped. The items themselves are stated by Designer.ExtractList and Designer.CollectItems, by Designer.ListItemValue for each line, and by Designer.ListItemSource and Designer.ListComplete.
- Investigator.Files: its own contract only bounds the number of paths. The paths are stated by Investigator.FileOf for each line, by Investigator.FilesOfLine and Investigator.FilesAppend, and by Investigator.FilesWellFormed and Investigator.FilesComplete.
- Implementer.CodeChangesValues: states only what a value is made of. Which block a value is, is stated by Implementer.CodeChangesByLastBlock and Implementer.LastBlockWins.
- Knowledge.PreventionSource: states only where each item comes from. The items, in order, are stated by Knowledge.PreventionContent.
- Lessons.ParseDocument: is proved equal to the parser with the header rule corrected, not to the loop as written. The two agree on every document whose `## ` lines all name an incident, which includes every document `_save` writes (Lessons.ParsersAgree, LessonsFormat.StoredParsersAgree).
- Lessons.LessonsLearned.constructor: loads with the corrected parser, like Lessons.ParseDocument. Its contract also states that the result is the as-written parser's whenever every `## ` line names an incident.
- Lessons.ParseAsWritten: models the shared `current_lesson` object as the count of trailing list entries that alias it. Other aliasing between lessons is not modelled, because lessons are values.
- LessonsFormat.RoundTrip: holds for lessons whose texts are single lines and stripped, whose incident id has no `:`, and whose tags are non-empty and stripped, with no comma. The source also reads empty tags back, but with an empty last tag the saved tags line is no longer stripped text, and that case is not proved. The related files and the confidence are not read back by the source, so they come back as `[]` and 0.8. The loop as written reads every such saved document the same way (LessonsFormat.StoredParsersAgree).
- Queries.MetricsQuery.WithRate: the default window `"5m"` of the source is the caller's to pass. The same goes for the defaults of the templates.
- Queries.LatencyP99: stated only for a named service and a non-empty window; the other cases are stated by the definition alone.
- Queries.ErrorRate: the numerator, with its `=~` matcher, has no `MetricsQuery` form, so only the denominator is related to the builder. Without a service the template keeps an empty `{}` and a trailing comma, which is stated by the definition alone.

## Findings

| source | as written | input that shows it | evidently intended | confidence | as-written member | corrected member |
|---|---|---|---|---|---|---|
| src/contextcore_coyote/knowledge/lessons.py:73-88 | a `## ` header without `:` appends the current lesson but does not replace it, so the same object is appended again at the next header or at the end, and later field lines change every copy | `## INC-1: Lesson`, `**Lesson**: a`, `## Notes`, `**Lesson**: b` | one lesson, `INC-1-L1` with text `a`; the unnamed header ends it | not executed | Lessons.UnnamedHeaderDuplicates | Lessons.ParseOrdinal |
