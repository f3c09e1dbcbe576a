/**
  The lessons-learned knowledge base of `knowledge/lessons.py`: an ordered list of lessons kept
  in a markdown document, with the serialiser `_save`, the parser `_parse_markdown`, `add`,
  `query`, `get_by_incident`, `get_categories` and `count`.

  The document is a value: `None` when the file is missing (or cannot be read), the text
  otherwise; saving replaces it.
*/
module Lessons {
  import opened Wrappers
  import opened Text
  import opened Models

  // ---------------------------------------------------------------------------
  // _save
  // ---------------------------------------------------------------------------

  const Title := "# Lessons Learned\n"
  const Intro := "Knowledge captured from incident resolutions.\n\n"

  /** The strings `_save` appends for one lesson: five fixed lines, the optional ones, a rule. */
  function BlockParts(l: Lesson): seq<string> {
    ["## " + l.incidentId + ": Lesson" + "\n",
     "**Date**: " + FormatDate(l.createdAt) + "\n",
     "**Category**: " + l.category + "\n",
     "**Lesson**: " + l.lesson + "\n",
     "**Prevention**: " + l.prevention + "\n"]
    + OptionalParts(l) + ["\n---\n\n"]
  }

  /** The related files and the tags are written only when there are some. */
  function OptionalParts(l: Lesson): seq<string> {
    (if |l.relatedFiles| > 0 then ["**Related Files**: " + Join(l.relatedFiles, ", ") + "\n"] else [])
    + (if |l.tags| > 0 then ["**Tags**: " + Join(l.tags, ", ") + "\n"] else [])
  }

  /** The list `_save` builds: the two header strings, then one block per lesson in list order. */
  function SaveParts(ls: seq<Lesson>): seq<string>
    decreases |ls|
  {
    if |ls| == 0 then [Title, Intro] else SaveParts(ls[..|ls| - 1]) + BlockParts(ls[|ls| - 1])
  }

  /** The document `_save` writes. */
  function Serialize(ls: seq<Lesson>): string {
    Concat(SaveParts(ls))
  }

  /** The loop of `_save`, building the list of strings it then joins. */
  method SaveDocument(ls: seq<Lesson>) returns (text: string)
    ensures text == Serialize(ls)
  {
    var parts := [Title, Intro];
    var i := 0;
    while i < |ls|
      invariant 0 <= i <= |ls|
      invariant parts == SaveParts(ls[..i])
    {
      var l := ls[i];
      ghost var before := parts;
      parts := parts + ["## " + l.incidentId + ": Lesson" + "\n"];
      parts := parts + ["**Date**: " + FormatDate(l.createdAt) + "\n"];
      parts := parts + ["**Category**: " + l.category + "\n"];
      parts := parts + ["**Lesson**: " + l.lesson + "\n"];
      parts := parts + ["**Prevention**: " + l.prevention + "\n"];
      ghost var fixed := parts;
      if |l.relatedFiles| > 0 {
        parts := parts + ["**Related Files**: " + Join(l.relatedFiles, ", ") + "\n"];
      }
      if |l.tags| > 0 {
        parts := parts + ["**Tags**: " + Join(l.tags, ", ") + "\n"];
      }
      assert parts == fixed + OptionalParts(l);
      parts := parts + ["\n---\n\n"];
      BlockStep(before, fixed, parts, l);
      SaveStep(ls, i);
      i := i + 1;
    }
    assert ls[..|ls|] == ls;
    text := Concat(parts);
  }

  /** The strings appended for one lesson are that lesson's block. */
  lemma {:induction false} BlockStep(before: seq<string>, fixed: seq<string>, parts: seq<string>, l: Lesson)
    requires fixed == before
      + ["## " + l.incidentId + ": Lesson" + "\n"]
      + ["**Date**: " + FormatDate(l.createdAt) + "\n"]
      + ["**Category**: " + l.category + "\n"]
      + ["**Lesson**: " + l.lesson + "\n"]
      + ["**Prevention**: " + l.prevention + "\n"]
    requires parts == fixed + OptionalParts(l) + ["\n---\n\n"]
    ensures parts == before + BlockParts(l)
  {
  }

  /** One more lesson adds its block to the list. */
  lemma {:induction false} SaveStep(ls: seq<Lesson>, i: nat)
    requires i < |ls|
    ensures SaveParts(ls[..i + 1]) == SaveParts(ls[..i]) + BlockParts(ls[i])
  {
    assert ls[..i + 1][..i] == ls[..i];
  }

  // ---------------------------------------------------------------------------
  // The document's lines
  // ---------------------------------------------------------------------------

  const HeadLines := ["# Lessons Learned", "Knowledge captured from incident resolutions.", ""]

  function HeaderLine(l: Lesson): string {
    "## " + l.incidentId + ": Lesson"
  }

  /** The four field lines after a block's header. */
  function FieldLines(l: Lesson): seq<string> {
    ["**Date**: " + FormatDate(l.createdAt),
     "**Category**: " + l.category,
     "**Lesson**: " + l.lesson,
     "**Prevention**: " + l.prevention]
  }

  function OptionalLines(l: Lesson): seq<string> {
    (if |l.relatedFiles| > 0 then ["**Related Files**: " + Join(l.relatedFiles, ", ")] else [])
    + (if |l.tags| > 0 then ["**Tags**: " + Join(l.tags, ", ")] else [])
  }

  /** The rule `"\n---\n\n"` ends the last field line and adds these three. */
  const Closing := ["", "---", ""]

  /** What follows a block's header. */
  function BodyLines(l: Lesson): seq<string> {
    FieldLines(l) + OptionalLines(l) + Closing
  }

  /** The lines of one block, as the parser sees them. */
  function BlockLines(l: Lesson): seq<string> {
    [HeaderLine(l)] + BodyLines(l)
  }

  function AllBlockLines(ls: seq<Lesson>): seq<string>
    decreases |ls|
  {
    if |ls| == 0 then [] else AllBlockLines(ls[..|ls| - 1]) + BlockLines(ls[|ls| - 1])
  }

  // ---------------------------------------------------------------------------
  // _parse_markdown
  // ---------------------------------------------------------------------------

  /** The incident a `## ` header names: the stripped text before the first `:`, if there is one. */
  function HeaderIncident(line: string): Option<string>
    requires "## " <= line
  {
    var header := Strip(line[3..]);
    if ':' in header then Some(Strip(header[..FirstIndex(header, ':')])) else None
  }

  /** The field a `**Key**:` line sets on the current lesson; other lines change nothing. */
  function ParseField(l: Lesson, line: string): (r: Lesson)
    ensures r.id == l.id && r.incidentId == l.incidentId && r.relatedFiles == l.relatedFiles
    ensures r.createdAt == l.createdAt && r.confidence == l.confidence
  {
    if "**Category**:" <= line then
      KeyColon("**Category**:", line);
      l.(category := FieldValue(line))
    else if "**Lesson**:" <= line then
      KeyColon("**Lesson**:", line);
      l.(lesson := FieldValue(line))
    else if "**Prevention**:" <= line then
      KeyColon("**Prevention**:", line);
      l.(prevention := FieldValue(line))
    else if "**Tags**:" <= line then
      KeyColon("**Tags**:", line);
      l.(tags := Items(FieldValue(line)))
    else l
  }

  /**
    The loop state of `_parse_markdown`: the lessons appended so far, the current lesson, and how
    many of the last appended entries are that same object (only the as-written parser shares).
  */
  datatype Reading = Reading(done: seq<Lesson>, current: Option<Lesson>, shared: nat)

  const Unread := Reading([], None, 0)

  /** The appended lessons plus the current one, as appended after the loop. */
  function Finished(st: Reading): seq<Lesson> {
    st.done + (if st.current.Some? then [st.current.value] else [])
  }

  /** A lesson opened by a header naming `incidentId`, as the `n`-th of the document. */
  function Opened(incidentId: string, n: nat, now: DateTime): Lesson {
    NewLesson(LessonId(incidentId, n), incidentId, "unknown", "", "", now)
  }

  /**
    One line of the parser, with the header rule as evidently intended: every `## ` line ends
    the current lesson, and opens a new one if it names an incident.
  */
  function ReadLine(st: Reading, now: DateTime, line: string): Reading {
    if "## " <= line then
      var done := Finished(st);
      match HeaderIncident(line)
      case Some(id) => Reading(done, Some(Opened(id, |done| + 1, now)), 0)
      case None => Reading(done, None, 0)
    else if st.current.Some? then st.(current := Some(ParseField(st.current.value, line)))
    else st
  }

  function ReadAll(st: Reading, now: DateTime, lines: seq<string>): Reading
    decreases |lines|
  {
    if |lines| == 0 then st else ReadAll(ReadLine(st, now, lines[0]), now, lines[1..])
  }

  /** `_parse_markdown(content)` with the header rule corrected; `now` is each parsed lesson's `created_at`. */
  function Parse(content: string, now: DateTime): seq<Lesson> {
    Finished(ReadAll(Unread, now, Lines(content)))
  }

  lemma {:induction false} ReadAllAt(now: DateTime, lines: seq<string>, i: nat, st: Reading)
    requires i < |lines|
    ensures ReadAll(st, now, lines[i..]) == ReadAll(ReadLine(st, now, lines[i]), now, lines[i + 1..])
  {
    assert lines[i..][1..] == lines[i + 1..];
  }

  /** The loop of `_parse_markdown`, appending to the list it fills. */
  method ParseDocument(content: string, now: DateTime) returns (lessons: seq<Lesson>)
    ensures lessons == Parse(content, now)
  {
    var lines := Lines(content);
    assert lines[0..] == lines;
    lessons := [];
    var current: Option<Lesson> := None;
    var i := 0;
    while i < |lines|
      invariant 0 <= i <= |lines|
      invariant ReadAll(Reading(lessons, current, 0), now, lines[i..]) == ReadAll(Unread, now, lines)
    {
      var line := lines[i];
      ghost var before := Reading(lessons, current, 0);
      ReadAllAt(now, lines, i, before);
      if "## " <= line {
        if current.Some? {
          lessons := lessons + [current.value];
        }
        assert lessons == Finished(before);
        var header := Strip(line[3..]);
        if ':' in header {
          var incidentId := Strip(header[..FirstIndex(header, ':')]);
          current := Some(NewLesson(incidentId + "-L" + NatToString(|lessons| + 1), incidentId, "unknown", "", "", now));
        } else {
          current := None;
        }
      } else if current.Some? {
        current := Some(ParseField(current.value, line));
      }
      assert Reading(lessons, current, 0) == ReadLine(before, now, line);
      i := i + 1;
    }
    if current.Some? {
      lessons := lessons + [current.value];
    }
  }

  // ---------------------------------------------------------------------------
  // The parser as written
  // ---------------------------------------------------------------------------

  /** The last `n` entries of `done` replaced by `c`: the entries that are the mutated object. */
  function Refresh(done: seq<Lesson>, n: nat, c: Lesson): (r: seq<Lesson>)
    ensures |r| == |done|
    decreases |done|
  {
    if n == 0 || |done| == 0 then done else Refresh(done[..|done| - 1], n - 1, c) + [c]
  }

  /**
    One line of `_parse_markdown` as written: a `## ` line without `:` appends the current lesson
    but leaves it current, so the list holds that object once more and later field lines change
    every entry that is this object.
  */
  function ReadLineAsWritten(st: Reading, now: DateTime, line: string): Reading {
    if "## " <= line then
      var done := Finished(st);
      match HeaderIncident(line)
      case Some(id) => Reading(done, Some(Opened(id, |done| + 1, now)), 0)
      case None => if st.current.Some? then Reading(done, st.current, st.shared + 1) else st
    else if st.current.Some? then
      var c := ParseField(st.current.value, line);
      Reading(Refresh(st.done, st.shared, c), Some(c), st.shared)
    else st
  }

  function ReadAllAsWritten(st: Reading, now: DateTime, lines: seq<string>): Reading
    decreases |lines|
  {
    if |lines| == 0 then st else ReadAllAsWritten(ReadLineAsWritten(st, now, lines[0]), now, lines[1..])
  }

  /** `_parse_markdown(content)` as written. */
  function ParseAsWritten(content: string, now: DateTime): seq<Lesson> {
    Finished(ReadAllAsWritten(Unread, now, Lines(content)))
  }

  /** Every `## ` line names an incident: its text after `## ` holds a `:`. */
  predicate HeadersNamed(lines: seq<string>) {
    forall k :: 0 <= k < |lines| && "## " <= lines[k] ==> HeaderIncident(lines[k]).Some?
  }

  /** Where every `## ` line names an incident, the parser as written reads what the corrected one reads. */
  lemma {:induction false} AsWrittenAgrees(st: Reading, now: DateTime, lines: seq<string>)
    requires st.shared == 0 && HeadersNamed(lines)
    ensures ReadAllAsWritten(st, now, lines) == ReadAll(st, now, lines)
    decreases |lines|
  {
    if |lines| > 0 {
      var next := ReadLine(st, now, lines[0]);
      assert ReadLineAsWritten(st, now, lines[0]) == next;
      assert HeadersNamed(lines[1..]) by {
        forall k | 0 <= k < |lines[1..]| && "## " <= lines[1..][k]
          ensures HeaderIncident(lines[1..][k]).Some?
        {
          assert lines[1..][k] == lines[k + 1];
        }
      }
      AsWrittenAgrees(next, now, lines[1..]);
    }
  }

  /** The two parsers differ only on documents with a `## ` line that names no incident. */
  lemma ParsersAgree(content: string, now: DateTime)
    requires HeadersNamed(Lines(content))
    ensures ParseAsWritten(content, now) == Parse(content, now)
  {
    AsWrittenAgrees(Unread, now, Lines(content));
  }

  /** The first field line after a header: `**Lesson**:` is not a header nor a category line. */
  lemma {:induction false} LessonLineField(c: Lesson, line: string)
    requires "**Lesson**:" <= line
    ensures !("## " <= line) && ':' in line && ParseField(c, line) == c.(lesson := FieldValue(line))
  {
    assert line[0] == '*' && line[2] == 'L' && line[10] == ':';
    NotPrefixAt("## ", line, 0);
    NotPrefixAt("**Category**:", line, 2);
  }

  /**
    A lesson, a `## ` header without `:`, then another `**Lesson**:` line: the code as written
    returns the lesson twice, both copies carrying the second text; with the header ending the
    lesson, there is one lesson with the first text.
  */
  lemma {:induction false} UnnamedHeaderDuplicates(now: DateTime, h1: string, l1: string, h2: string, l2: string)
    requires "## " <= h1 && HeaderIncident(h1).Some?
    requires "## " <= h2 && HeaderIncident(h2).None?
    requires "**Lesson**:" <= l1 && "**Lesson**:" <= l2
    requires '\n' !in h1 && '\n' !in l1 && '\n' !in h2 && '\n' !in l2
    ensures ':' in l1 && ':' in l2
    ensures var x := Opened(HeaderIncident(h1).value, 1, now).(lesson := FieldValue(l1));
      var y := x.(lesson := FieldValue(l2));
      && ParseAsWritten(Join([h1, l1, h2, l2], "\n"), now) == [y, y]
      && Parse(Join([h1, l1, h2, l2], "\n"), now) == [x]
  {
    var x0 := Opened(HeaderIncident(h1).value, 1, now);
    LessonLineField(x0, l1);
    var x := x0.(lesson := FieldValue(l1));
    LessonLineField(x, l2);
    LinesOfJoin([h1, l1, h2, l2]);
    AsWrittenRun(now, h1, l1, h2, l2);
    CorrectedRun(now, h1, l1, h2, l2);
  }

  /** The four lines as the code reads them. */
  lemma {:induction false} AsWrittenRun(now: DateTime, h1: string, l1: string, h2: string, l2: string)
    requires "## " <= h1 && HeaderIncident(h1).Some?
    requires "## " <= h2 && HeaderIncident(h2).None?
    requires "**Lesson**:" <= l1 && "**Lesson**:" <= l2
    ensures ':' in l1 && ':' in l2
    ensures var x := Opened(HeaderIncident(h1).value, 1, now).(lesson := FieldValue(l1));
      var y := x.(lesson := FieldValue(l2));
      ReadAllAsWritten(Unread, now, [h1, l1, h2, l2]) == Reading([y], Some(y), 1)
  {
    var x0 := Opened(HeaderIncident(h1).value, 1, now);
    LessonLineField(x0, l1);
    var x := x0.(lesson := FieldValue(l1));
    LessonLineField(x, l2);
    var y := x.(lesson := FieldValue(l2));
    var s1 := Reading([], Some(x0), 0);
    var s2 := Reading([], Some(x), 0);
    var s3 := Reading([x], Some(x), 1);
    var s4 := Reading([y], Some(y), 1);
    assert ReadLineAsWritten(Unread, now, h1) == s1;
    assert ReadLineAsWritten(s1, now, l1) == s2;
    assert ReadLineAsWritten(s2, now, h2) == s3;
    assert Refresh([x], 1, y) == [y];
    assert ReadLineAsWritten(s3, now, l2) == s4;
    var lines := [h1, l1, h2, l2];
    assert lines[1..] == [l1, h2, l2] && lines[1..][1..] == [h2, l2] && lines[1..][1..][1..] == [l2];
    assert ReadAllAsWritten(s3, now, [l2]) == s4;
    assert ReadAllAsWritten(s2, now, [h2, l2]) == s4;
    assert ReadAllAsWritten(s1, now, [l1, h2, l2]) == s4;
  }

  /** The four lines with the header rule corrected. */
  lemma {:induction false} CorrectedRun(now: DateTime, h1: string, l1: string, h2: string, l2: string)
    requires "## " <= h1 && HeaderIncident(h1).Some?
    requires "## " <= h2 && HeaderIncident(h2).None?
    requires "**Lesson**:" <= l1 && "**Lesson**:" <= l2
    ensures ':' in l1
    ensures var x := Opened(HeaderIncident(h1).value, 1, now).(lesson := FieldValue(l1));
      ReadAll(Unread, now, [h1, l1, h2, l2]) == Reading([x], None, 0)
  {
    var x0 := Opened(HeaderIncident(h1).value, 1, now);
    LessonLineField(x0, l1);
    var x := x0.(lesson := FieldValue(l1));
    NotPrefixAt("## ", l2, 0);
    var s1 := Reading([], Some(x0), 0);
    var s2 := Reading([], Some(x), 0);
    var s3 := Reading([x], None, 0);
    assert ReadLine(Unread, now, h1) == s1;
    assert ReadLine(s1, now, l1) == s2;
    assert ReadLine(s2, now, h2) == s3;
    assert ReadLine(s3, now, l2) == s3;
    var lines := [h1, l1, h2, l2];
    assert lines[1..] == [l1, h2, l2] && lines[1..][1..] == [h2, l2] && lines[1..][1..][1..] == [l2];
    assert ReadAll(s3, now, [l2]) == s3;
    assert ReadAll(s2, now, [h2, l2]) == s3;
    assert ReadAll(s1, now, [l1, h2, l2]) == s3;
  }

  // ---------------------------------------------------------------------------
  // The knowledge base
  // ---------------------------------------------------------------------------

  /** `lessons[k]` carries the ordinal id `<incident>-L<k + 1>`. */
  ghost predicate Ordinal(lessons: seq<Lesson>) {
    forall k :: 0 <= k < |lessons| ==> lessons[k].id == LessonId(lessons[k].incidentId, k + 1)
  }

  /** The corrected parser numbers lessons by position. */
  lemma {:induction false} ParseOrdinal(content: string, now: DateTime)
    ensures Ordinal(Parse(content, now))
  {
    ReadOrdinal(Unread, now, Lines(content));
  }

  /** Parser states whose finished lessons are numbered by position. */
  ghost predicate OrdinalState(st: Reading) {
    Ordinal(st.done) && (st.current.Some? ==> st.current.value.id == LessonId(st.current.value.incidentId, |st.done| + 1))
  }

  /** The lessons appended after the loop keep the numbering. */
  lemma FinishedOrdinal(st: Reading)
    requires OrdinalState(st)
    ensures Ordinal(Finished(st))
  {
    assert forall k :: 0 <= k < |st.done| ==> Finished(st)[k] == st.done[k];
  }

  /** One line of the parser keeps the numbering. */
  lemma ReadLineOrdinal(st: Reading, now: DateTime, line: string)
    requires OrdinalState(st)
    ensures OrdinalState(ReadLine(st, now, line))
  {
    if "## " <= line {
      FinishedOrdinal(st);
    }
  }

  lemma {:induction false} ReadOrdinal(st: Reading, now: DateTime, lines: seq<string>)
    requires OrdinalState(st)
    ensures OrdinalState(ReadAll(st, now, lines)) && Ordinal(Finished(ReadAll(st, now, lines)))
    decreases |lines|
  {
    if |lines| == 0 {
      FinishedOrdinal(st);
    } else {
      ReadLineOrdinal(st, now, lines[0]);
      ReadOrdinal(ReadLine(st, now, lines[0]), now, lines[1..]);
    }
  }

  /** The filters of `query`; an empty list or text is no filter, as in the source. */
  datatype Filters = Filters(categories: seq<string>, files: seq<string>, tags: seq<string>, text: string)

  predicate CategoryOk(l: Lesson, f: Filters) {
    |f.categories| == 0 || l.category in f.categories
  }

  predicate FilesOk(l: Lesson, f: Filters) {
    |f.files| == 0 || exists i, j :: 0 <= i < |f.files| && 0 <= j < |l.relatedFiles| && Contains(l.relatedFiles[j], f.files[i])
  }

  predicate TagsOk(l: Lesson, f: Filters) {
    |f.tags| == 0 || exists i :: 0 <= i < |f.tags| && f.tags[i] in l.tags
  }

  predicate TextOk(l: Lesson, f: Filters) {
    |f.text| == 0 || Contains(Lower(l.lesson), Lower(f.text)) || Contains(Lower(l.prevention), Lower(f.text))
  }

  /** A lesson passes every non-empty filter. */
  predicate Matches(l: Lesson, f: Filters) {
    CategoryOk(l, f) && FilesOk(l, f) && TagsOk(l, f) && TextOk(l, f)
  }

  function Selector(f: Filters): Lesson -> Option<Lesson> {
    l => if Matches(l, f) then Some(l) else None
  }

  /** The matching lessons in list order. */
  function Matching(ls: seq<Lesson>, f: Filters): seq<Lesson> {
    FilterMap(ls, Selector(f))
  }

  /** At most `max(limit, 1)` of them: the limit is checked only after an append. */
  function Limited(xs: seq<Lesson>, limit: int): (r: seq<Lesson>)
    ensures r <= xs
    ensures |r| == if |xs| <= limit || |xs| <= 1 then |xs| else if limit < 1 then 1 else limit
  {
    var n := if limit < 1 then 1 else limit;
    if |xs| <= n then xs else xs[..n]
  }

  /** The loop of `query` returns as soon as an append reaches the limit: that prefix is the limited list. */
  lemma LimitReached(all: seq<Lesson>, pre: seq<Lesson>, limit: int)
    requires pre <= all && |pre| >= 1 && |pre| >= limit
    requires |pre| == 1 || |pre| - 1 < limit
    ensures pre == Limited(all, limit)
  {
    var n := if limit < 1 then 1 else limit;
    assert |pre| == n;
    if |all| > n {
      assert all[..n] == pre;
    }
  }

  /** `lessons` filtered by incident, in order. */
  function OfIncident(ls: seq<Lesson>, incidentId: string): seq<Lesson> {
    FilterMap(ls, (l: Lesson) => if l.incidentId == incidentId then Some(l) else None)
  }

  class LessonsLearned {
    /** The in-memory list `_lessons`. */
    var lessons: seq<Lesson>
    /** The lessons file: `None` when it is missing. */
    var document: Option<string>

    /** `__init__` followed by `_load`: a missing file leaves the list empty, otherwise it is parsed. */
    constructor(file: Option<string>, now: DateTime)
      ensures document == file
      ensures lessons == if file.None? then [] else Parse(file.value, now)
      ensures file.Some? && HeadersNamed(Lines(file.value)) ==> lessons == ParseAsWritten(file.value, now)
      ensures Ordinal(lessons)
    {
      var loaded: seq<Lesson> := [];
      if file.Some? {
        loaded := ParseDocument(file.value, now);
        ParseOrdinal(file.value, now);
        if HeadersNamed(Lines(file.value)) {
          ParsersAgree(file.value, now);
        }
      }
      document := file;
      lessons := loaded;
    }

    /** `count()`. */
    function Count(): nat
      reads this
    {
      |lessons|
    }

    /** `_save`: the document becomes the serialised list, unless writing fails (then it is logged). */
    method Save(writable: bool)
      modifies this
      ensures lessons == old(lessons)
      ensures document == if writable then Some(Serialize(lessons)) else old(document)
    {
      var text := SaveDocument(lessons);
      if writable {
        document := Some(text);
      }
    }

    /**
      `add`: one new lesson at the end, numbered after the existing ones, with absent related files
      and tags as empty lists and a confidence of 0.8 unless given; then the document is saved.
    */
    method Add(incidentId: string, category: string, lesson: string, prevention: string,
               relatedFiles: Option<seq<string>>, tags: Option<seq<string>>,
               now: DateTime, writable: bool, confidence: real := 0.8) returns (l: Lesson)
      modifies this
      ensures l == NewLesson(LessonId(incidentId, old(Count()) + 1), incidentId, category, lesson, prevention, now,
                             relatedFiles.GetOr([]), tags.GetOr([]), confidence)
      ensures lessons == old(lessons) + [l] && Count() == old(Count()) + 1
      ensures document == if writable then Some(Serialize(lessons)) else old(document)
      ensures old(Ordinal(lessons)) ==> Ordinal(lessons)
    {
      l := NewLesson(incidentId + "-L" + NatToString(|lessons| + 1), incidentId, category, lesson, prevention, now,
                     relatedFiles.GetOr([]), tags.GetOr([]), confidence);
      lessons := lessons + [l];
      Save(writable);
    }

    /** `query`: the matching lessons in order, stopping once the limit is reached. */
    method Query(categories: seq<string>, files: seq<string>, tags: seq<string>, text: string, limit: int)
        returns (results: seq<Lesson>)
      ensures results == Limited(Matching(lessons, Filters(categories, files, tags, text)), limit)
    {
      var f := Filters(categories, files, tags, text);
      var ls, sel := lessons, Selector(f);
      results := [];
      var i := 0;
      while i < |ls|
        invariant 0 <= i <= |ls|
        invariant results == FilterMap(ls[..i], sel)
        invariant |results| == 0 || |results| < limit
      {
        var l := ls[i];
        FilterMapNext(ls, sel, i, i + 1);
        if CategoryOk(l, f) && FilesOk(l, f) && TagsOk(l, f) && TextOk(l, f) {
          assert sel(l) == Some(l);
          results := results + [l];
          if |results| >= limit {
            FilterMapPrefix(ls, sel, i + 1);
            LimitReached(FilterMap(ls, sel), results, limit);
            return;
          }
        } else {
          assert sel(l) == None;
        }
        i := i + 1;
      }
      assert ls[..|ls|] == ls;
    }

    /** `get_by_incident`. */
    function ByIncident(incidentId: string): seq<Lesson>
      reads this
    {
      OfIncident(lessons, incidentId)
    }

    /** `get_categories`: the distinct categories; the list order Python's set gives is not modelled. */
    function Categories(): (cs: set<string>)
      reads this
      ensures forall k :: 0 <= k < |lessons| ==> lessons[k].category in cs
      ensures forall c :: c in cs ==> exists k :: 0 <= k < |lessons| && lessons[k].category == c
    {
      set k | 0 <= k < |lessons| :: lessons[k].category
    }
  }

  // ---------------------------------------------------------------------------
  // Query properties
  // ---------------------------------------------------------------------------

  /** Every result matches every non-empty filter and is one of the lessons. */
  lemma {:induction false} QuerySound(ls: seq<Lesson>, f: Filters, limit: int, k: nat)
    requires k < |Limited(Matching(ls, f), limit)|
    ensures Matches(Limited(Matching(ls, f), limit)[k], f) && Limited(Matching(ls, f), limit)[k] in ls
  {
    FilterMapSource(ls, Selector(f), k);
  }

  /** No more than `max(limit, 1)` results, and all matches when there are no more than that. */
  lemma {:induction false} QueryBound(ls: seq<Lesson>, f: Filters, limit: int)
    ensures |Limited(Matching(ls, f), limit)| <= if limit < 1 then 1 else limit
    ensures |Matching(ls, f)| <= limit || |Matching(ls, f)| <= 1 ==> Limited(Matching(ls, f), limit) == Matching(ls, f)
  {
  }

  /** A matching lesson is returned when fewer than `limit` lessons match in all. */
  lemma {:induction false} QueryComplete(ls: seq<Lesson>, f: Filters, limit: int, i: nat)
    requires i < |ls| && Matches(ls[i], f) && |Matching(ls, f)| <= limit
    ensures ls[i] in Limited(Matching(ls, f), limit)
  {
    FilterMapComplete(ls, Selector(f), i);
  }

  /** `get_by_incident` keeps exactly the lessons of that incident. */
  lemma {:induction false} ByIncidentExact(ls: seq<Lesson>, incidentId: string)
    ensures forall k :: 0 <= k < |OfIncident(ls, incidentId)| ==>
      OfIncident(ls, incidentId)[k].incidentId == incidentId && OfIncident(ls, incidentId)[k] in ls
    ensures forall i :: 0 <= i < |ls| && ls[i].incidentId == incidentId ==> ls[i] in OfIncident(ls, incidentId)
  {
    var f := (l: Lesson) => if l.incidentId == incidentId then Some(l) else None;
    forall k | 0 <= k < |OfIncident(ls, incidentId)|
      ensures OfIncident(ls, incidentId)[k].incidentId == incidentId && OfIncident(ls, incidentId)[k] in ls
    {
      FilterMapSource(ls, f, k);
    }
    forall i | 0 <= i < |ls| && ls[i].incidentId == incidentId ensures ls[i] in OfIncident(ls, incidentId) {
      FilterMapComplete(ls, f, i);
    }
  }
}
