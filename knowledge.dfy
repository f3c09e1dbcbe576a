/**
  The knowledge stage of `agents/knowledge.py`: the lesson, prevention-checklist and category
  extraction from the generator's reply, and the shaping of its result.
*/
module Knowledge {
  import opened Wrappers
  import opened Text
  import opened Models
  import opened Stages

  const Name := "learn"

  // ---------------------------------------------------------------------------
  // _extract_lessons
  // ---------------------------------------------------------------------------

  /** A line that opens a lesson. */
  predicate IsLessonHeader(line: string) {
    "#### Lesson" <= line
  }

  /** A freshly opened lesson: numbered, of this incident, category `unknown`, no text yet. */
  function Opened(incidentId: string, n: nat, now: DateTime): Lesson {
    NewLesson(LessonId(incidentId, n), incidentId, "unknown", "", "", now)
  }

  /** The lesson's identity: the fields no field line changes. */
  predicate Numbered(l: Lesson, incidentId: string, n: nat) {
    l.id == LessonId(incidentId, n) && l.incidentId == incidentId && l.category == "unknown"
  }

  /** The four lesson fields a `**Key**:` line can set. */
  datatype Field = LessonField | PreventionField | RelatedFilesField | TagsField

  /** The line prefix that sets a field. */
  function Key(f: Field): (key: string)
    ensures |key| > 2 && key[|key| - 1] == ':'
  {
    match f
    case LessonField => "**Lesson**:"
    case PreventionField => "**Prevention**:"
    case RelatedFilesField => "**Related Files**:"
    case TagsField => "**Tags**:"
  }

  /** A line starts with at most one key: the keys differ in their third character. */
  lemma KeysExclusive(f: Field, g: Field, line: string)
    ensures Key(f) <= line && Key(g) <= line ==> f == g
  {
    if Key(f) <= line && Key(g) <= line {
      assert Key(f)[2] == line[2] == Key(g)[2];
    }
  }

  /** The value of a field: a text, or the list of a comma-separated field. */
  datatype Entry = TextEntry(text: string) | ListEntry(items: seq<string>)

  function Get(l: Lesson, f: Field): Entry {
    match f
    case LessonField => TextEntry(l.lesson)
    case PreventionField => TextEntry(l.prevention)
    case RelatedFilesField => ListEntry(l.relatedFiles)
    case TagsField => ListEntry(l.tags)
  }

  /**
    What a line starting with the key of `f` sets: the stripped text after its first `:`, split
    on `,` with every part stripped for the two list fields.
  */
  function Read(f: Field, line: string): Entry
    requires Key(f) <= line
  {
    KeyColon(Key(f), line);
    if f == LessonField || f == PreventionField then TextEntry(FieldValue(line)) else ListEntry(Items(FieldValue(line)))
  }

  /** The field a `**Key**:` line sets on the current lesson; other lines change nothing. */
  function Fill(l: Lesson, line: string): (r: Lesson)
    ensures r.id == l.id && r.incidentId == l.incidentId && r.category == l.category && r.createdAt == l.createdAt
    ensures "**Lesson**:" <= line ==> (KeyColon("**Lesson**:", line); r.lesson == FieldValue(line))
    ensures !("**Lesson**:" <= line) ==> r.lesson == l.lesson
    ensures "**Lesson**:" <= line ==> (KeyColon("**Lesson**:", line); r == l.(lesson := FieldValue(line)))
    ensures "**Prevention**:" <= line ==> (KeyColon("**Prevention**:", line); r == l.(prevention := FieldValue(line)))
    ensures "**Related Files**:" <= line ==>
      (KeyColon("**Related Files**:", line); r == l.(relatedFiles := Items(FieldValue(line))))
    ensures "**Tags**:" <= line ==> (KeyColon("**Tags**:", line); r == l.(tags := Items(FieldValue(line))))
    ensures (!("**Lesson**:" <= line) && !("**Prevention**:" <= line) && !("**Related Files**:" <= line)
             && !("**Tags**:" <= line)) ==> r == l
  {
    KeysExclusive(LessonField, PreventionField, line);
    KeysExclusive(LessonField, RelatedFilesField, line);
    KeysExclusive(LessonField, TagsField, line);
    KeysExclusive(PreventionField, RelatedFilesField, line);
    KeysExclusive(PreventionField, TagsField, line);
    KeysExclusive(RelatedFilesField, TagsField, line);
    if "**Lesson**:" <= line then
      KeyColon("**Lesson**:", line);
      l.(lesson := FieldValue(line))
    else if "**Prevention**:" <= line then
      KeyColon("**Prevention**:", line);
      l.(prevention := FieldValue(line))
    else if "**Related Files**:" <= line then
      KeyColon("**Related Files**:", line);
      l.(relatedFiles := Items(FieldValue(line)))
    else if "**Tags**:" <= line then
      KeyColon("**Tags**:", line);
      l.(tags := Items(FieldValue(line)))
    else l
  }

  /** The loop state of `_extract_lessons`: the finished lessons and the one being filled. */
  datatype Harvest = Harvest(done: seq<Lesson>, current: Option<Lesson>)

  /** The finished lessons plus the current one, as appended after the loop. */
  function Finished(h: Harvest): seq<Lesson> {
    h.done + (if h.current.Some? then [h.current.value] else [])
  }

  /** One iteration: a header closes the current lesson and opens the next one. */
  function HarvestStep(h: Harvest, incidentId: string, now: DateTime, line: string): Harvest {
    if IsLessonHeader(line) then
      var done := Finished(h);
      Harvest(done, Some(Opened(incidentId, |done| + 1, now)))
    else if h.current.Some? then Harvest(h.done, Some(Fill(h.current.value, line)))
    else h
  }

  function HarvestLines(h: Harvest, incidentId: string, now: DateTime, lines: seq<string>): Harvest
    decreases |lines|
  {
    if |lines| == 0 then h
    else HarvestStep(HarvestLines(h, incidentId, now, lines[..|lines| - 1]), incidentId, now, lines[|lines| - 1])
  }

  const NoLessons := Harvest([], None)

  /** `_extract_lessons(response, incident_id)`; `now` is the creation time every lesson gets. */
  function Lessons(response: string, incidentId: string, now: DateTime): seq<Lesson> {
    Finished(HarvestLines(NoLessons, incidentId, now, Lines(response)))
  }

  /** The number of lesson headers among `lines`. */
  function HeaderCount(lines: seq<string>): nat
    decreases |lines|
  {
    if |lines| == 0 then 0
    else HeaderCount(lines[..|lines| - 1]) + (if IsLessonHeader(lines[|lines| - 1]) then 1 else 0)
  }

  lemma HarvestNext(incidentId: string, now: DateTime, lines: seq<string>, i: nat, next: nat)
    requires i < |lines| && next == i + 1
    ensures HarvestLines(NoLessons, incidentId, now, lines[..next])
      == HarvestStep(HarvestLines(NoLessons, incidentId, now, lines[..i]), incidentId, now, lines[i])
  {
    assert lines[..next][..i] == lines[..i];
  }

  /** The loop of `_extract_lessons`, filling the current lesson in place. */
  method ExtractLessons(response: string, incidentId: string, now: DateTime) returns (lessons: seq<Lesson>)
    ensures lessons == Lessons(response, incidentId, now)
  {
    var lines := Lines(response);
    assert lines[..|lines|] == lines;
    lessons := [];
    var current: Option<Lesson> := None;
    var i := 0;
    while i < |lines|
      invariant 0 <= i <= |lines|
      invariant HarvestLines(NoLessons, incidentId, now, lines[..i]) == Harvest(lessons, current)
    {
      var line := lines[i];
      var next := i + 1;
      HarvestNext(incidentId, now, lines, i, next);
      ghost var h := Harvest(lessons, current);
      if "#### Lesson" <= line {
        if current.Some? {
          lessons := lessons + [current.value];
        }
        assert lessons == Finished(h);
        var lessonNum := |lessons| + 1;
        current := Some(NewLesson(incidentId + "-L" + NatToString(lessonNum), incidentId, "unknown", "", "", now));
      } else if current.Some? {
        current := Some(Fill(current.value, line));
      }
      assert Harvest(lessons, current) == HarvestStep(h, incidentId, now, line);
      i := next;
    }
    if current.Some? {
      lessons := lessons + [current.value];
    }
  }

  /** `count` lessons so far, the current one last, every one numbered by its position. */
  ghost predicate Shaped(h: Harvest, incidentId: string, count: nat) {
    && |Finished(h)| == count
    && (h.current.None? ==> h.done == [])
    && (h.current.Some? ==> Numbered(h.current.value, incidentId, |h.done| + 1))
    && forall k :: 0 <= k < |h.done| ==> Numbered(h.done[k], incidentId, k + 1)
  }

  /** One iteration keeps the shape, counting one more lesson at a header. */
  lemma ShapedStep(h: Harvest, incidentId: string, now: DateTime, line: string, count: nat)
    requires Shaped(h, incidentId, count)
    ensures Shaped(HarvestStep(h, incidentId, now, line), incidentId, count + (if IsLessonHeader(line) then 1 else 0))
  {
    if IsLessonHeader(line) {
      FinishedNumbered(h, incidentId);
    }
  }

  /** The shape of the loop state: one lesson per header so far, numbered in order. */
  lemma {:induction false} HarvestShape(incidentId: string, now: DateTime, lines: seq<string>)
    ensures var h := HarvestLines(NoLessons, incidentId, now, lines);
      && |Finished(h)| == HeaderCount(lines)
      && (h.current.None? ==> h.done == [])
      && (h.current.Some? ==> Numbered(h.current.value, incidentId, |h.done| + 1))
      && forall k :: 0 <= k < |h.done| ==> Numbered(h.done[k], incidentId, k + 1)
    decreases |lines|
  {
    if |lines| > 0 {
      var front, last := lines[..|lines| - 1], lines[|lines| - 1];
      HarvestShape(incidentId, now, front);
      var h := HarvestLines(NoLessons, incidentId, now, front);
      assert HarvestLines(NoLessons, incidentId, now, lines) == HarvestStep(h, incidentId, now, last);
      assert HeaderCount(lines) == HeaderCount(front) + (if IsLessonHeader(last) then 1 else 0);
      ShapedStep(h, incidentId, now, last, HeaderCount(front));
    }
  }

  /**
    As many lessons as lesson headers, the `k`-th (from 0) with id `<incident>-L<k + 1>`, of this
    incident and in category `unknown`.
  */
  lemma LessonsNumbered(response: string, incidentId: string, now: DateTime)
    ensures var ls := Lessons(response, incidentId, now);
      |ls| == HeaderCount(Lines(response)) && forall k :: 0 <= k < |ls| ==> Numbered(ls[k], incidentId, k + 1)
  {
    HarvestShape(incidentId, now, Lines(response));
    FinishedNumbered(HarvestLines(NoLessons, incidentId, now, Lines(response)), incidentId);
  }

  /** Appending the current lesson keeps the numbering. */
  lemma FinishedNumbered(h: Harvest, incidentId: string)
    requires h.current.Some? ==> Numbered(h.current.value, incidentId, |h.done| + 1)
    requires forall k :: 0 <= k < |h.done| ==> Numbered(h.done[k], incidentId, k + 1)
    ensures forall k :: 0 <= k < |Finished(h)| ==> Numbered(Finished(h)[k], incidentId, k + 1)
  {
    assert forall k :: 0 <= k < |h.done| ==> Finished(h)[k] == h.done[k];
  }

  /** Lines before the first lesson header are ignored. */
  lemma {:induction false} BeforeFirstHeader(incidentId: string, now: DateTime, lines: seq<string>)
    requires forall k :: 0 <= k < |lines| ==> !IsLessonHeader(lines[k])
    ensures HarvestLines(NoLessons, incidentId, now, lines) == NoLessons
    decreases |lines|
  {
    if |lines| > 0 {
      BeforeFirstHeader(incidentId, now, lines[..|lines| - 1]);
    }
  }

  /** The field lines of one lesson, applied in order. */
  function FillAll(l: Lesson, block: seq<string>): (r: Lesson)
    ensures r.id == l.id && r.incidentId == l.incidentId && r.category == l.category
    decreases |block|
  {
    if |block| == 0 then l else Fill(FillAll(l, block[..|block| - 1]), block[|block| - 1])
  }

  lemma {:induction false} HarvestAppend(h: Harvest, incidentId: string, now: DateTime, xs: seq<string>, ys: seq<string>)
    ensures HarvestLines(h, incidentId, now, xs + ys)
      == HarvestLines(HarvestLines(h, incidentId, now, xs), incidentId, now, ys)
    decreases |ys|
  {
    if |ys| == 0 {
      assert xs + ys == xs;
    } else {
      assert (xs + ys)[..|xs + ys| - 1] == xs + ys[..|ys| - 1];
      HarvestAppend(h, incidentId, now, xs, ys[..|ys| - 1]);
    }
  }

  /** Lines without a header fill the current lesson in order. */
  lemma {:induction false} HarvestBlock(h: Harvest, incidentId: string, now: DateTime, block: seq<string>)
    requires h.current.Some?
    requires forall k :: 0 <= k < |block| ==> !IsLessonHeader(block[k])
    ensures HarvestLines(h, incidentId, now, block) == Harvest(h.done, Some(FillAll(h.current.value, block)))
    decreases |block|
  {
    if |block| > 0 {
      HarvestBlock(h, incidentId, now, block[..|block| - 1]);
    }
  }

  /** A line starting with the key of `f` sets that field; any other line leaves it as it was. */
  lemma FillField(l: Lesson, line: string, f: Field)
    ensures Key(f) <= line ==> Get(Fill(l, line), f) == Read(f, line)
    ensures !(Key(f) <= line) ==> Get(Fill(l, line), f) == Get(l, f)
  {
    KeysExclusive(f, LessonField, line);
    KeysExclusive(f, PreventionField, line);
    KeysExclusive(f, RelatedFilesField, line);
    KeysExclusive(f, TagsField, line);
  }

  /** A field is set by the last line of the block carrying its key, earlier ones being overwritten. */
  lemma {:induction false} LastFieldLineWins(l: Lesson, block: seq<string>, f: Field, j: nat)
    requires j < |block| && Key(f) <= block[j]
    requires forall m :: j < m < |block| ==> !(Key(f) <= block[m])
    ensures Get(FillAll(l, block), f) == Read(f, block[j])
    decreases |block|
  {
    var front, last := block[..|block| - 1], block[|block| - 1];
    FillField(FillAll(l, front), last, f);
    if j < |block| - 1 {
      LastFieldLineWins(l, front, f, j);
    }
  }

  /** A field no line of the block carries a key for keeps its value. */
  lemma {:induction false} FieldUntouched(l: Lesson, block: seq<string>, f: Field)
    requires forall m :: 0 <= m < |block| ==> !(Key(f) <= block[m])
    ensures Get(FillAll(l, block), f) == Get(l, f)
    decreases |block|
  {
    if |block| > 0 {
      var front, last := block[..|block| - 1], block[|block| - 1];
      FieldUntouched(l, front, f);
      FillField(FillAll(l, front), last, f);
    }
  }

  /** The text of a lesson is set by the last `**Lesson**:` line of its block. */
  lemma LastLessonLineWins(l: Lesson, block: seq<string>, j: nat)
    requires j < |block| && "**Lesson**:" <= block[j]
    requires forall m :: j < m < |block| ==> !("**Lesson**:" <= block[m])
    ensures (KeyColon("**Lesson**:", block[j]); FillAll(l, block).lesson == FieldValue(block[j]))
  {
    LastFieldLineWins(l, block, LessonField, j);
  }

  /** The lesson a header opens, filled by the lines up to the next header. */
  lemma OpenedBlock(incidentId: string, now: DateTime, before: seq<string>, header: string, block: seq<string>)
    requires IsLessonHeader(header)
    requires forall k :: 0 <= k < |block| ==> !IsLessonHeader(block[k])
    ensures var h := HarvestLines(NoLessons, incidentId, now, before + [header] + block);
      var start := HarvestLines(NoLessons, incidentId, now, before);
      h.current == Some(FillAll(Opened(incidentId, |Finished(start)| + 1, now), block))
  {
    var start := HarvestLines(NoLessons, incidentId, now, before + [header]);
    assert (before + [header])[..|before|] == before;
    HarvestAppend(NoLessons, incidentId, now, before + [header], block);
    HarvestBlock(start, incidentId, now, block);
  }

  /**
    Within the lines of a response, each field of the lesson opened by a header gets the value of
    the last line before the next header carrying that field's key, earlier such lines being
    overwritten.
  */
  lemma FieldFromLastLine(incidentId: string, now: DateTime, before: seq<string>, header: string,
                          block: seq<string>, f: Field, j: nat)
    requires IsLessonHeader(header)
    requires forall k :: 0 <= k < |block| ==> !IsLessonHeader(block[k])
    requires j < |block| && Key(f) <= block[j]
    requires forall m :: j < m < |block| ==> !(Key(f) <= block[m])
    ensures var h := HarvestLines(NoLessons, incidentId, now, before + [header] + block);
      h.current.Some? && Get(h.current.value, f) == Read(f, block[j])
  {
    OpenedBlock(incidentId, now, before, header, block);
    var start := HarvestLines(NoLessons, incidentId, now, before);
    LastFieldLineWins(Opened(incidentId, |Finished(start)| + 1, now), block, f, j);
  }

  /** A field no line before the next header sets keeps the empty value the header gave it. */
  lemma FieldDefault(incidentId: string, now: DateTime, before: seq<string>, header: string,
                     block: seq<string>, f: Field)
    requires IsLessonHeader(header)
    requires forall k :: 0 <= k < |block| ==> !IsLessonHeader(block[k])
    requires forall m :: 0 <= m < |block| ==> !(Key(f) <= block[m])
    ensures var h := HarvestLines(NoLessons, incidentId, now, before + [header] + block);
      h.current.Some? && Get(h.current.value, f) == if f == LessonField || f == PreventionField then TextEntry("") else ListEntry([])
  {
    OpenedBlock(incidentId, now, before, header, block);
    var start := HarvestLines(NoLessons, incidentId, now, before);
    FieldUntouched(Opened(incidentId, |Finished(start)| + 1, now), block, f);
  }

  /**
    Within the lines of a response, the lesson opened by a header gets the value of the last
    `**Lesson**:` line before the next header, earlier such lines being overwritten.
  */
  lemma LessonTextFromLastLine(incidentId: string, now: DateTime, before: seq<string>, header: string,
                               block: seq<string>, j: nat)
    requires IsLessonHeader(header)
    requires forall k :: 0 <= k < |block| ==> !IsLessonHeader(block[k])
    requires j < |block| && "**Lesson**:" <= block[j]
    requires forall m :: j < m < |block| ==> !("**Lesson**:" <= block[m])
    ensures var h := HarvestLines(NoLessons, incidentId, now, before + [header] + block);
      (KeyColon("**Lesson**:", block[j]); h.current.Some? && h.current.value.lesson == FieldValue(block[j]))
  {
    FieldFromLastLine(incidentId, now, before, header, block, LessonField, j);
  }

  // ---------------------------------------------------------------------------
  // _extract_prevention
  // ---------------------------------------------------------------------------

  /** The checklist item a line yields: the text after its first `]`, or the whole line if it has none. */
  function PreventionItem(line: string): (item: Option<string>)
    ensures item.Some? ==> |item.value| > 0 && "- [" <= Strip(line)
    ensures item.Some? && ']' in line ==> item.value == Strip(AfterFirst(line, ']'))
    ensures item.Some? && ']' !in line ==> item.value == line
    ensures "- [" <= Strip(line) && ']' !in line ==> item == Some(line)
    ensures "- [" <= Strip(line) && ']' in line ==> (item.Some? <==> |Strip(AfterFirst(line, ']'))| > 0)
  {
    assert "- [" <= Strip(line) ==> |line| > 0;
    if "- [" <= Strip(line) then
      var item := if ']' in line then Strip(AfterFirst(line, ']')) else line;
      if |item| > 0 then Some(item) else None
    else None
  }

  /**
    A `- [` line without any `]` is kept whole, not stripped: its leading indentation and
    trailing whitespace stay in the item.
  */
  lemma UnclosedItemKeptWhole(line: string)
    requires "- [" <= line && ']' !in line
    ensures PreventionItem(line) == Some(line)
  {
    StripKeepsPrefix(line, 2);
    assert Strip(line)[..3] == line[..3];
  }

  /** The heading of the checklist; matched anywhere in a line. */
  const ChecklistHeading := "### Prevention Checklist"

  /** The loop state of `_extract_prevention`. */
  datatype Checklist = Checklist(inChecklist: bool, items: seq<string>, stopped: bool)

  const Unopened := Checklist(false, [], false)

  function ChecklistStep(c: Checklist, line: string): Checklist {
    if c.stopped then c
    else if Contains(line, ChecklistHeading) then c.(inChecklist := true)
    else if !c.inChecklist then c
    else if "###" <= line then c.(stopped := true)
    else if PreventionItem(line).Some? then c.(items := c.items + [PreventionItem(line).value])
    else c
  }

  function ChecklistLines(c: Checklist, lines: seq<string>): Checklist
    decreases |lines|
  {
    if |lines| == 0 then c else ChecklistStep(ChecklistLines(c, lines[..|lines| - 1]), lines[|lines| - 1])
  }

  /** `_extract_prevention(response)`. */
  function Prevention(response: string): seq<string> {
    ChecklistLines(Unopened, Lines(response)).items
  }

  lemma ChecklistNext(lines: seq<string>, i: nat, next: nat)
    requires i < |lines| && next == i + 1
    ensures ChecklistLines(Unopened, lines[..next]) == ChecklistStep(ChecklistLines(Unopened, lines[..i]), lines[i])
  {
    assert lines[..next][..i] == lines[..i];
  }

  lemma {:induction false} ChecklistAppend(c: Checklist, xs: seq<string>, ys: seq<string>)
    ensures ChecklistLines(c, xs + ys) == ChecklistLines(ChecklistLines(c, xs), ys)
    decreases |ys|
  {
    if |ys| == 0 {
      assert xs + ys == xs;
    } else {
      assert (xs + ys)[..|xs + ys| - 1] == xs + ys[..|ys| - 1];
      ChecklistAppend(c, xs, ys[..|ys| - 1]);
    }
  }

  lemma {:induction false} ChecklistStopped(c: Checklist, ys: seq<string>)
    requires c.stopped
    ensures ChecklistLines(c, ys) == c
    decreases |ys|
  {
    if |ys| > 0 {
      ChecklistStopped(c, ys[..|ys| - 1]);
    }
  }

  lemma ChecklistStopsAt(lines: seq<string>, n: nat)
    requires n <= |lines| && ChecklistLines(Unopened, lines[..n]).stopped
    ensures ChecklistLines(Unopened, lines) == ChecklistLines(Unopened, lines[..n])
  {
    assert lines == lines[..n] + lines[n..];
    ChecklistAppend(Unopened, lines[..n], lines[n..]);
    ChecklistStopped(ChecklistLines(Unopened, lines[..n]), lines[n..]);
  }

  /** The loop of `_extract_prevention`, with its `break`. */
  method ExtractPrevention(response: string) returns (items: seq<string>)
    ensures items == Prevention(response)
  {
    var lines := Lines(response);
    assert lines[..|lines|] == lines;
    items := [];
    var inChecklist := false;
    var i := 0;
    while i < |lines|
      invariant 0 <= i <= |lines|
      invariant ChecklistLines(Unopened, lines[..i]) == Checklist(inChecklist, items, false)
    {
      var line := lines[i];
      var next := i + 1;
      ChecklistNext(lines, i, next);
      if Contains(line, ChecklistHeading) {
        inChecklist := true;
      } else if inChecklist {
        if "###" <= line {
          ChecklistStopsAt(lines, next);
          break;
        }
        if "- [" <= Strip(line) {
          var item := if ']' in line then Strip(AfterFirst(line, ']')) else line;
          if |item| > 0 {
            items := items + [item];
          }
        }
      }
      i := next;
    }
  }

  /** No line carries the checklist heading: no items. */
  lemma {:induction false} PreventionAbsent(lines: seq<string>)
    requires forall k :: 0 <= k < |lines| ==> !Contains(lines[k], ChecklistHeading)
    ensures ChecklistLines(Unopened, lines) == Unopened
    decreases |lines|
  {
    if |lines| > 0 {
      PreventionAbsent(lines[..|lines| - 1]);
    }
  }

  /** What a line after the heading yields: repeated heading lines are skipped. */
  function ChecklistItem(line: string): Option<string> {
    if Contains(line, ChecklistHeading) then None else PreventionItem(line)
  }

  /** A line that ends an open checklist: a `###` line that is not a repeated heading. */
  predicate ClosesChecklist(line: string) {
    "###" <= line && !Contains(line, ChecklistHeading)
  }

  /** Inside the checklist, up to the closing line, each line contributes what it yields. */
  lemma {:induction false} ChecklistInside(c: Checklist, xs: seq<string>)
    requires c.inChecklist && !c.stopped
    requires forall k :: 0 <= k < |xs| ==> !ClosesChecklist(xs[k])
    ensures ChecklistLines(c, xs) == c.(items := c.items + FilterMap(xs, ChecklistItem))
    decreases |xs|
  {
    if |xs| > 0 {
      var front := xs[..|xs| - 1];
      ChecklistInside(c, front);
      var before := FilterMap(front, ChecklistItem);
      var last := xs[|xs| - 1];
      if ChecklistItem(last).Some? {
        assert c.items + before + [ChecklistItem(last).value] == c.items + (before + [ChecklistItem(last).value]);
      }
    }
  }

  /** The state of the checklist loop just before the closing line. */
  lemma ChecklistUpTo(lines: seq<string>, h: nat, e: nat)
    requires h < e <= |lines|
    requires Contains(lines[h], ChecklistHeading) && forall k :: 0 <= k < h ==> !Contains(lines[k], ChecklistHeading)
    requires forall k :: h < k < e ==> !ClosesChecklist(lines[k])
    ensures ChecklistLines(Unopened, lines[..e]) == Checklist(true, FilterMap(lines[h + 1..e], ChecklistItem), false)
  {
    var mid := lines[h + 1..e];
    var upTo := lines[..h + 1];
    assert lines[..e] == upTo + mid;
    assert upTo[..h] == lines[..h];
    PreventionAbsent(lines[..h]);
    var open := ChecklistLines(Unopened, upTo);
    assert open == Checklist(true, [], false);
    ChecklistAppend(Unopened, upTo, mid);
    assert forall k :: 0 <= k < |mid| ==> mid[k] == lines[h + 1 + k];
    ChecklistInside(open, mid);
  }

  /**
    The checklist, independently of the loop: with `h` the first line carrying the heading and
    `e` the first closing line after it (or the end of input), the items are what the lines
    strictly between the two yield, in order.
  */
  lemma PreventionContent(response: string, h: nat, e: nat)
    requires var lines := Lines(response);
      && h < e <= |lines|
      && Contains(lines[h], ChecklistHeading) && (forall k :: 0 <= k < h ==> !Contains(lines[k], ChecklistHeading))
      && (forall k :: h < k < e ==> !ClosesChecklist(lines[k]))
      && (e == |lines| || ClosesChecklist(lines[e]))
    ensures Prevention(response) == FilterMap(Lines(response)[h + 1..e], ChecklistItem)
  {
    var lines := Lines(response);
    ChecklistUpTo(lines, h, e);
    if e == |lines| {
      assert lines[..e] == lines;
    } else {
      ChecklistNext(lines, e, e + 1);
      ChecklistStopsAt(lines, e + 1);
    }
  }

  /** `item` is what some non-heading line among `lines` yields. */
  ghost predicate Yielded(lines: seq<string>, item: string) {
    exists l :: l in lines && !("###" <= l) && PreventionItem(l) == Some(item)
  }

  /** Every item is what some non-heading line of the input yields. */
  lemma {:induction false} PreventionSource(lines: seq<string>)
    ensures forall k :: 0 <= k < |ChecklistLines(Unopened, lines).items| ==>
      Yielded(lines, ChecklistLines(Unopened, lines).items[k])
    decreases |lines|
  {
    if |lines| > 0 {
      var front := lines[..|lines| - 1];
      var before := ChecklistLines(Unopened, front).items;
      var after := ChecklistLines(Unopened, lines).items;
      PreventionSource(front);
      forall k | 0 <= k < |after| ensures Yielded(lines, after[k]) {
        if k < |before| {
          assert Yielded(front, before[k]);
          var l :| l in front && !("###" <= l) && PreventionItem(l) == Some(before[k]);
          assert l in lines && after[k] == before[k];
        } else {
          var last := lines[|lines| - 1];
          assert after == before + [PreventionItem(last).value];
          assert last in lines;
        }
      }
    }
  }

  // ---------------------------------------------------------------------------
  // _extract_category
  // ---------------------------------------------------------------------------

  predicate IsCategoryHeading(line: string) {
    "### Category" <= line
  }

  /** A line that is not blank yields its stripped text. */
  function NonBlank(line: string): (r: Option<string>)
    ensures r.Some? <==> |Strip(line)| > 0
    ensures r.Some? ==> r.value == Strip(line)
  {
    var t := Strip(line);
    if |t| > 0 then Some(t) else None
  }

  /**
    The outer loop of `_extract_category` over the lines from some position on: at a category
    heading, the first non-blank line after it answers, and otherwise the loop goes on.
  */
  function CategoryIn(lines: seq<string>): string
    decreases |lines|
  {
    if |lines| == 0 then "unknown"
    else if IsCategoryHeading(lines[0]) then
      match FirstSome(lines[1..], NonBlank)
      case Some(t) => t
      case None => CategoryIn(lines[1..])
    else CategoryIn(lines[1..])
  }

  /** `_extract_category(response)`. */
  function Category(response: string): string {
    CategoryIn(Lines(response))
  }

  /** `lines.index(line)`: the first position holding `line`. */
  function IndexOf(lines: seq<string>, line: string): (i: nat)
    requires line in lines
    ensures i < |lines| && lines[i] == line && forall j :: 0 <= j < i ==> lines[j] != line
    decreases |lines|
  {
    if lines[0] == line then 0
    else
      var i := IndexOf(lines[1..], line) + 1;
      assert forall j :: 1 <= j < i ==> lines[j] == lines[1..][j - 1];
      i
  }

  lemma CategoryNext(lines: seq<string>, i: nat, next: nat)
    requires i < |lines| && next == i + 1
    ensures CategoryIn(lines[i..]) == if IsCategoryHeading(lines[i]) && FirstSome(lines[next..], NonBlank).Some?
      then FirstSome(lines[next..], NonBlank).value
      else CategoryIn(lines[next..])
  {
    assert lines[i..][0] == lines[i] && lines[i..][1..] == lines[next..];
  }

  /**
    The loop of `_extract_category`: on a heading it looks the line up again with `index` and
    scans the lines after that position, returning the first non-blank one.
  */
  method ExtractCategory(response: string) returns (category: string)
    ensures category == Category(response)
  {
    var lines := Lines(response);
    assert lines[0..] == lines;
    var i := 0;
    while i < |lines|
      invariant 0 <= i <= |lines|
      invariant forall k :: 0 <= k < i ==> !IsCategoryHeading(lines[k]) || FirstSome(lines[k + 1..], NonBlank).None?
      invariant CategoryIn(lines) == CategoryIn(lines[i..])
    {
      var line := lines[i];
      var next := i + 1;
      CategoryNext(lines, i, next);
      if "### Category" <= line {
        var idx := IndexOf(lines, line);
        IndexIsCurrent(lines, i, idx);
        var found := FirstNonBlankAfter(lines, idx);
        assert lines[idx + 1..] == lines[next..];
        if found.Some? {
          return found.value;
        }
      }
      assert !IsCategoryHeading(lines[i]) || FirstSome(lines[i + 1..], NonBlank).None?;
      i := next;
    }
    return "unknown";
  }

  /** The inner loop of `_extract_category`: the first non-blank line after position `idx`, stripped. */
  method FirstNonBlankAfter(lines: seq<string>, idx: nat) returns (found: Option<string>)
    requires idx < |lines|
    ensures found == FirstSome(lines[idx + 1..], NonBlank)
  {
    var rest := lines[idx + 1..];
    var j := 0;
    while j < |rest|
      invariant 0 <= j <= |rest|
      invariant forall m :: 0 <= m < j ==> NonBlank(rest[m]).None?
    {
      var t := Strip(rest[j]);
      if |t| > 0 {
        FirstSomeAtFirst(rest, NonBlank, j);
        return Some(t);
      }
      j := j + 1;
    }
    return None;
  }

  /**
    While every earlier heading was followed by blank lines only, `index` finds the current
    heading line itself: an earlier copy of it would be a non-blank line after that heading.
  */
  lemma IndexIsCurrent(lines: seq<string>, i: nat, idx: nat)
    requires i < |lines| && IsCategoryHeading(lines[i])
    requires forall k :: 0 <= k < i ==> !IsCategoryHeading(lines[k]) || FirstSome(lines[k + 1..], NonBlank).None?
    requires lines[i] in lines && idx == IndexOf(lines, lines[i])
    ensures idx == i
  {
    if idx < i {
      StripKeepsFirst(lines[i]);
    }
  }

  /** No category heading: the category is `unknown`. */
  lemma {:induction false} CategoryAbsent(lines: seq<string>)
    requires forall k :: 0 <= k < |lines| ==> !IsCategoryHeading(lines[k])
    ensures CategoryIn(lines) == "unknown"
    decreases |lines|
  {
    if |lines| > 0 {
      assert forall k :: 0 <= k < |lines| - 1 ==> lines[1..][k] == lines[k + 1];
      CategoryAbsent(lines[1..]);
    }
  }

  /** Only blank lines: the category is `unknown`. */
  lemma {:induction false} CategoryAllBlank(lines: seq<string>)
    requires forall k :: 0 <= k < |lines| ==> |Strip(lines[k])| == 0
    ensures CategoryIn(lines) == "unknown"
    decreases |lines|
  {
    if |lines| > 0 {
      assert !IsCategoryHeading(lines[0]) by {
        if IsCategoryHeading(lines[0]) {
          StripKeepsFirst(lines[0]);
        }
      }
      assert forall k :: 0 <= k < |lines| - 1 ==> lines[1..][k] == lines[k + 1];
      CategoryAllBlank(lines[1..]);
    }
  }

  /**
    With `i` the first category heading, the category is the first non-blank line after it,
    stripped, whether or not that line is still in the category section; with no such line it is
    `unknown`, since the outer loop then meets only blank lines.
  */
  lemma CategoryAt(lines: seq<string>, i: nat)
    requires i < |lines| && IsCategoryHeading(lines[i])
    requires forall k :: 0 <= k < i ==> !IsCategoryHeading(lines[k])
    ensures FirstSome(lines[i + 1..], NonBlank).Some? ==> CategoryIn(lines) == FirstSome(lines[i + 1..], NonBlank).value
    ensures FirstSome(lines[i + 1..], NonBlank).None? ==> CategoryIn(lines) == "unknown"
  {
    CategoryPrefix(lines, i);
    if FirstSome(lines[i + 1..], NonBlank).None? {
      CategoryAllBlank(lines[i + 1..]);
    }
  }

  /** Lines before the first heading do not affect the category. */
  lemma {:induction false} CategoryPrefix(lines: seq<string>, i: nat)
    requires i < |lines|
    requires forall k :: 0 <= k < i ==> !IsCategoryHeading(lines[k])
    ensures CategoryIn(lines) == CategoryIn(lines[i..])
    decreases i
  {
    if i > 0 {
      assert forall k :: 0 <= k < i - 1 ==> lines[1..][k] == lines[k + 1];
      assert lines[1..][i - 1..] == lines[i..];
      CategoryPrefix(lines[1..], i - 1);
    }
  }

  // ---------------------------------------------------------------------------
  // The stage
  // ---------------------------------------------------------------------------

  /** The lessons' texts, in extraction order. */
  function Texts(lessons: seq<Lesson>): (texts: seq<string>)
    ensures |texts| == |lessons| && forall k :: 0 <= k < |lessons| ==> texts[k] == lessons[k].lesson
  {
    seq(|lessons|, k requires 0 <= k < |lessons| => lessons[k].lesson)
  }

  /** The summary: the number of lessons and the category. */
  function Summary(count: nat, category: string): string {
    "Extracted " + NatToString(count) + " lessons in category: " + category
  }

  /**
    `KnowledgeAgent.execute`: `generate` answers the one generator call, `now` is the time the
    extracted lessons are stamped with.
  */
  function Execute(generate: Context -> Generation, now: DateTime, ctx: Context, startedAt: nat): (r: StageResult)
    ensures r.stageName == Name && r.startedAt == startedAt && r.completedAt == None
    ensures generate(ctx).GenError? ==>
      r.status == Failed && r.summary == "Failed to call LLM" && r.error == Some(generate(ctx).message)
    ensures generate(ctx).Reply? ==>
      var text := generate(ctx).text;
      var lessons := Lessons(text, ctx.incident.id, now);
      && r.status == Completed && r.error == None && r.details == text
      && r.summary == Summary(|lessons|, Category(text))
      && r.lessons == Texts(lessons) && r.preventionSteps == Prevention(text)
      && r.output == map["full_report" := Str(text), "lessons" := Records(lessons), "category" := Str(Category(text))]
  {
    match generate(ctx)
    case GenError(message) =>
      NewStageResult(Name, Failed, startedAt).(summary := "Failed to call LLM", error := Some(message))
    case Reply(text) =>
      var lessons := Lessons(text, ctx.incident.id, now);
      var category := Category(text);
      NewStageResult(Name, Completed, startedAt).(
        summary := Summary(|lessons|, category),
        details := text,
        lessons := Texts(lessons),
        preventionSteps := Prevention(text),
        output := map["full_report" := Str(text), "lessons" := Records(lessons), "category" := Str(category)])
  }

  /** The stage as the pipeline sees it; it keeps the default skip rule. */
  function Agent(generate: Context -> Generation, now: DateTime): (s: Stage)
    ensures s.name == Name && forall ctx :: !s.skip(ctx)
  {
    Stage(Name, DefaultSkip, (ctx: Context, t: nat) => Returned(Execute(generate, now, ctx, t)))
  }
}
