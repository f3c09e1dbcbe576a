/**
  The document `LessonsLearned._save` writes, read line by line, and the proof that
  `_parse_markdown` reads back what `_save` wrote.
*/
module LessonsFormat {
  import opened Wrappers
  import opened Text
  import opened Models
  import opened Lessons

  // ---------------------------------------------------------------------------
  // The document's lines
  // ---------------------------------------------------------------------------

  lemma {:induction false} HeadTerminated()
    ensures Concat([Title, Intro]) == Terminated(HeadLines)
  {
    var h := HeadLines;
    assert h[1..] == [h[1], ""] && h[1..][1..] == [""] && h[1..][1..][1..] == [];
    assert Terminated([""]) == "\n";
    assert Terminated(h[1..]) == h[1] + "\n" + "\n";
    assert Intro == h[1] + "\n" + "\n";
    assert Title == h[0] + "\n";
    var p := [Title, Intro];
    assert p[1..] == [Intro] && p[1..][1..] == [];
    assert Concat([Intro]) == Intro + Concat([]);
    assert Concat(p) == Title + Concat([Intro]);
  }

  lemma {:induction false} ClosingTerminated()
    ensures Concat(["\n---\n\n"]) == Terminated(Closing)
  {
    var c := Closing;
    assert c[1..] == ["---", ""] && c[1..][1..] == [""] && c[1..][1..][1..] == [];
    var p := ["\n---\n\n"];
    assert p[1..] == [];
  }

  /** One block's strings spell its lines, each ended by a newline. */
  lemma {:induction false} BlockTerminated(l: Lesson)
    ensures Concat(BlockParts(l)) == Terminated(BlockLines(l))
  {
    var fixed := ["## " + l.incidentId + ": Lesson" + "\n",
                  "**Date**: " + FormatDate(l.createdAt) + "\n",
                  "**Category**: " + l.category + "\n",
                  "**Lesson**: " + l.lesson + "\n",
                  "**Prevention**: " + l.prevention + "\n"];
    var fixedLines := [HeaderLine(l)] + FieldLines(l);
    assert BlockParts(l) == fixed + OptionalParts(l) + ["\n---\n\n"];
    ConcatAppend(fixed + OptionalParts(l), ["\n---\n\n"]);
    ConcatAppend(fixed, OptionalParts(l));
    ConcatTerminated(fixed, fixedLines);
    ConcatTerminated(OptionalParts(l), OptionalLines(l));
    ClosingTerminated();
    TerminatedAppend(fixedLines + OptionalLines(l), Closing);
    TerminatedAppend(fixedLines, OptionalLines(l));
    AppendAssoc([HeaderLine(l)], FieldLines(l), OptionalLines(l));
    AppendAssoc([HeaderLine(l)], FieldLines(l) + OptionalLines(l), Closing);
  }

  /** The document's text is its header lines and block lines, each ended by a newline. */
  lemma {:induction false} SavePartsTerminated(ls: seq<Lesson>)
    ensures Concat(SaveParts(ls)) == Terminated(HeadLines + AllBlockLines(ls))
    decreases |ls|
  {
    if |ls| == 0 {
      HeadTerminated();
      assert HeadLines + AllBlockLines(ls) == HeadLines;
    } else {
      var front := ls[..|ls| - 1];
      var l := ls[|ls| - 1];
      SavePartsTerminated(front);
      BlockTerminated(l);
      assert SaveParts(ls) == SaveParts(front) + BlockParts(l);
      assert AllBlockLines(ls) == AllBlockLines(front) + BlockLines(l);
      AppendAssoc(HeadLines, AllBlockLines(front), BlockLines(l));
      TerminatedStep(SaveParts(front), BlockParts(l), HeadLines + AllBlockLines(front), BlockLines(l));
    }
  }

  /** Two texts that are terminated lines, one after the other. */
  lemma TerminatedStep(a: seq<string>, b: seq<string>, x: seq<string>, y: seq<string>)
    requires Concat(a) == Terminated(x) && Concat(b) == Terminated(y)
    ensures Concat(a + b) == Terminated(x + y)
  {
    ConcatAppend(a, b);
    TerminatedAppend(x, y);
  }

  /** Joining single lines with `", "` gives a single line. */
  lemma {:induction false} JoinSingle(parts: seq<string>)
    requires forall k :: 0 <= k < |parts| ==> '\n' !in parts[k]
    ensures '\n' !in Join(parts, ", ")
    decreases |parts|
  {
    if |parts| > 1 {
      assert forall k :: 0 <= k < |parts| - 1 ==> parts[1..][k] == parts[k + 1];
      JoinSingle(parts[1..]);
    }
  }

  // ---------------------------------------------------------------------------
  // The round trip
  // ---------------------------------------------------------------------------

  /** A tag the parser finds again after joining: non-empty, stripped, without `,` or a newline. */
  predicate GoodTag(t: string) {
    |t| > 0 && Stripped(t) && ',' !in t && '\n' !in t
  }

  /** What `_save` can write so that `_parse_markdown` reads it back. */
  predicate Storable(l: Lesson) {
    && Stripped(l.incidentId) && ':' !in l.incidentId && '\n' !in l.incidentId
    && Stripped(l.category) && '\n' !in l.category
    && Stripped(l.lesson) && '\n' !in l.lesson
    && Stripped(l.prevention) && '\n' !in l.prevention
    && (forall k :: 0 <= k < |l.tags| ==> GoodTag(l.tags[k]))
    && (forall k :: 0 <= k < |l.relatedFiles| ==> '\n' !in l.relatedFiles[k])
  }

  /** The `n`-th lesson as the parser restores it: related files and confidence are not written back. */
  function Restored(l: Lesson, n: nat, now: DateTime): Lesson {
    NewLesson(LessonId(l.incidentId, n), l.incidentId, l.category, l.lesson, l.prevention, now, [], l.tags)
  }

  function AllRestored(ls: seq<Lesson>, now: DateTime): (r: seq<Lesson>)
    ensures |r| == |ls|
    decreases |ls|
  {
    if |ls| == 0 then [] else AllRestored(ls[..|ls| - 1], now) + [Restored(ls[|ls| - 1], |ls|, now)]
  }

  /** No line of a storable block has a newline in it. */
  lemma {:induction false} BlockLinesSingle(l: Lesson)
    requires Storable(l)
    ensures SingleLines(BlockLines(l))
  {
    assert SingleLines([HeaderLine(l)]);
    FieldSingle(l);
    OptionalSingle(l);
    assert SingleLines(Closing);
    SingleLinesAppend(FieldLines(l), OptionalLines(l));
    SingleLinesAppend(FieldLines(l) + OptionalLines(l), Closing);
    SingleLinesAppend([HeaderLine(l)], BodyLines(l));
  }

  lemma {:induction false} FieldSingle(l: Lesson)
    requires Storable(l)
    ensures SingleLines(FieldLines(l))
  {
    assert '\n' !in FormatDate(l.createdAt);
  }

  lemma {:induction false} OptionalSingle(l: Lesson)
    requires Storable(l)
    ensures SingleLines(OptionalLines(l))
  {
    var files := if |l.relatedFiles| > 0 then ["**Related Files**: " + Join(l.relatedFiles, ", ")] else [];
    var tags := if |l.tags| > 0 then ["**Tags**: " + Join(l.tags, ", ")] else [];
    if |l.relatedFiles| > 0 {
      JoinSingle(l.relatedFiles);
    }
    if |l.tags| > 0 {
      assert forall k :: 0 <= k < |l.tags| ==> GoodTag(l.tags[k]);
      JoinSingle(l.tags);
    }
    SingleLinesAppend(files, tags);
  }

  lemma {:induction false} AllBlockLinesSingle(ls: seq<Lesson>)
    requires forall k :: 0 <= k < |ls| ==> Storable(ls[k])
    ensures SingleLines(AllBlockLines(ls))
    decreases |ls|
  {
    if |ls| > 0 {
      AllBlockLinesSingle(ls[..|ls| - 1]);
      BlockLinesSingle(ls[|ls| - 1]);
      SingleLinesAppend(AllBlockLines(ls[..|ls| - 1]), BlockLines(ls[|ls| - 1]));
    }
  }

  /** Non-empty stripped tags join into a non-empty stripped text. */
  lemma {:induction false} JoinStripped(tags: seq<string>)
    requires |tags| > 0 && forall k :: 0 <= k < |tags| ==> GoodTag(tags[k])
    ensures |Join(tags, ", ")| > 0 && Stripped(Join(tags, ", "))
    decreases |tags|
  {
    assert GoodTag(tags[0]);
    if |tags| > 1 {
      assert forall k :: 0 <= k < |tags| - 1 ==> tags[1..][k] == tags[k + 1];
      JoinStripped(tags[1..]);
    }
  }

  /** Splitting joined tags at commas and stripping each piece gives the tags back. */
  lemma {:induction false} ItemsOfJoin(tags: seq<string>, pad: string)
    requires |tags| > 0 && forall k :: 0 <= k < |tags| ==> GoodTag(tags[k])
    requires AllSpace(pad) && ',' !in pad
    ensures Items(pad + Join(tags, ", ")) == tags
    decreases |tags|
  {
    assert GoodTag(tags[0]);
    StripAfterSpaces(pad, tags[0]);
    if |tags| == 1 {
      assert pad + Join(tags, ", ") == pad + tags[0];
      ItemsSingle(pad + tags[0]);
    } else {
      var rest := " " + Join(tags[1..], ", ");
      assert pad + Join(tags, ", ") == (pad + tags[0]) + [','] + rest;
      ItemsCons(pad + tags[0], rest);
      assert forall k :: 0 <= k < |tags| - 1 ==> tags[1..][k] == tags[k + 1];
      ItemsOfJoin(tags[1..], " ");
      assert tags == [tags[0]] + tags[1..];
    }
  }

  /** Lines whose third character starts none of the four keys leave the lesson as it is. */
  lemma {:induction false} Ignored(c: Lesson, line: string)
    requires |line| < 3 || line[2] !in {'C', 'L', 'P', 'T'}
    ensures ParseField(c, line) == c
  {
    if |line| >= 3 {
      NotPrefixAt("**Category**:", line, 2);
      NotPrefixAt("**Lesson**:", line, 2);
      NotPrefixAt("**Prevention**:", line, 2);
      NotPrefixAt("**Tags**:", line, 2);
    }
  }

  lemma {:induction false} CategoryRead(c: Lesson, v: string)
    requires Stripped(v)
    ensures ParseField(c, "**Category**: " + v) == c.(category := v)
  {
    assert "**Category**: " + v == "**Category**:" + " " + v;
    FieldAfterKey("**Category**:", v);
  }

  lemma {:induction false} LessonRead(c: Lesson, v: string)
    requires Stripped(v)
    ensures ParseField(c, "**Lesson**: " + v) == c.(lesson := v)
  {
    NotPrefixAt("**Category**:", "**Lesson**: " + v, 2);
    assert "**Lesson**: " + v == "**Lesson**:" + " " + v;
    FieldAfterKey("**Lesson**:", v);
  }

  lemma {:induction false} PreventionRead(c: Lesson, v: string)
    requires Stripped(v)
    ensures ParseField(c, "**Prevention**: " + v) == c.(prevention := v)
  {
    NotPrefixAt("**Category**:", "**Prevention**: " + v, 2);
    NotPrefixAt("**Lesson**:", "**Prevention**: " + v, 2);
    assert "**Prevention**: " + v == "**Prevention**:" + " " + v;
    FieldAfterKey("**Prevention**:", v);
  }

  lemma {:induction false} TagsField(c: Lesson, v: string)
    requires Stripped(v)
    ensures ParseField(c, "**Tags**: " + v) == c.(tags := Items(v))
  {
    NotPrefixAt("**Category**:", "**Tags**: " + v, 2);
    NotPrefixAt("**Lesson**:", "**Tags**: " + v, 2);
    NotPrefixAt("**Prevention**:", "**Tags**: " + v, 2);
    assert "**Tags**: " + v == "**Tags**:" + " " + v;
    FieldAfterKey("**Tags**:", v);
  }

  /** The tags line gives back the tags. */
  lemma {:induction false} TagsRead(c: Lesson, tags: seq<string>)
    requires |tags| > 0 && forall k :: 0 <= k < |tags| ==> GoodTag(tags[k])
    ensures ParseField(c, "**Tags**: " + Join(tags, ", ")) == c.(tags := tags)
  {
    JoinStripped(tags);
    ItemsOfJoin(tags, "");
    assert "" + Join(tags, ", ") == Join(tags, ", ");
    TagsField(c, Join(tags, ", "));
  }

  /** Lines without a `## ` header only fill the current lesson. */
  lemma {:induction false} ReadFields(st: Reading, now: DateTime, lines: seq<string>)
    requires st.current.Some?
    requires NoHeaders(lines)
    ensures ReadAll(st, now, lines) == st.(current := Some(FillAll(st.current.value, lines)))
    decreases |lines|
  {
    if |lines| > 0 {
      if |lines[0]| > 0 {
        NotPrefixAt("## ", lines[0], 0);
      }
      assert forall k :: 0 <= k < |lines| - 1 ==> lines[1..][k] == lines[k + 1];
      ReadFields(st.(current := Some(ParseField(st.current.value, lines[0]))), now, lines[1..]);
    }
  }

  /** The field lines of a block, applied in order to the current lesson. */
  function FillAll(l: Lesson, lines: seq<string>): Lesson
    decreases |lines|
  {
    if |lines| == 0 then l else FillAll(ParseField(l, lines[0]), lines[1..])
  }

  /** The four field lines after the header set category, lesson and prevention. */
  lemma {:induction false} FixedRead(c: Lesson, l: Lesson)
    requires Storable(l)
    ensures FillAll(c, FieldLines(l)) == c.(category := l.category, lesson := l.lesson, prevention := l.prevention)
  {
    var d := "**Date**: " + FormatDate(l.createdAt);
    var lc := "**Category**: " + l.category;
    var ll := "**Lesson**: " + l.lesson;
    var lp := "**Prevention**: " + l.prevention;
    var c1 := c.(category := l.category);
    var c2 := c1.(lesson := l.lesson);
    var c3 := c2.(prevention := l.prevention);
    Ignored(c, d);
    CategoryRead(c, l.category);
    LessonRead(c1, l.lesson);
    PreventionRead(c2, l.prevention);
    FillFour(c, d, lc, ll, lp, c1, c2, c3);
    assert FieldLines(l) == [d, lc, ll, lp];
  }

  /** Four lines read in turn. */
  lemma {:induction false} FillFour(c: Lesson, a: string, b: string, d: string, e: string, c1: Lesson, c2: Lesson, c3: Lesson)
    requires ParseField(c, a) == c && ParseField(c, b) == c1 && ParseField(c1, d) == c2 && ParseField(c2, e) == c3
    ensures FillAll(c, [a, b, d, e]) == c3
  {
    var xs := [a, b, d, e];
    assert xs[1..] == [b, d, e] && xs[1..][1..] == [d, e] && xs[1..][1..][1..] == [e] && xs[1..][1..][1..][1..] == [];
    assert FillAll(c3, []) == c3;
    assert FillAll(c2, [e]) == c3;
    assert FillAll(c1, [d, e]) == c3;
    assert FillAll(c, [b, d, e]) == c3;
  }

  /** Of the optional lines only the tags are read back. */
  lemma {:induction false} OptionalRead(c: Lesson, l: Lesson)
    requires Storable(l)
    ensures FillAll(c, OptionalLines(l)) == if |l.tags| > 0 then c.(tags := l.tags) else c
  {
    var files := if |l.relatedFiles| > 0 then ["**Related Files**: " + Join(l.relatedFiles, ", ")] else [];
    var tags := if |l.tags| > 0 then ["**Tags**: " + Join(l.tags, ", ")] else [];
    assert OptionalLines(l) == files + tags;
    if |l.tags| > 0 {
      TagsRead(c, l.tags);
      FillFirst(c, tags[0], []);
      assert tags == [tags[0]] + [];
    }
    if |l.relatedFiles| > 0 {
      FilesIgnored(c, Join(l.relatedFiles, ", "));
      FillFirst(c, files[0], tags);
      assert files + tags == [files[0]] + tags;
    } else {
      assert files + tags == tags;
    }
  }

  /** The related files line is not read. */
  lemma {:induction false} FilesIgnored(c: Lesson, v: string)
    ensures ParseField(c, "**Related Files**: " + v) == c
  {
    Ignored(c, "**Related Files**: " + v);
  }

  /** The first line read, then the others. */
  lemma {:induction false} FillFirst(c: Lesson, x: string, ys: seq<string>)
    ensures FillAll(c, [x] + ys) == FillAll(ParseField(c, x), ys)
  {
    assert ([x] + ys)[1..] == ys;
  }

  lemma {:induction false} ClosingRead(c: Lesson)
    ensures FillAll(c, Closing) == c
  {
    Ignored(c, "---");
    var xs := Closing;
    assert xs[1..] == ["---", ""] && xs[1..][1..] == [""] && xs[1..][1..][1..] == [];
  }

  /** A header the serialiser writes names the lesson's incident. */
  lemma {:induction false} HeaderRead(l: Lesson)
    requires Storable(l)
    ensures "## " <= HeaderLine(l) && HeaderIncident(HeaderLine(l)) == Some(l.incidentId)
  {
    var id := l.incidentId;
    var rest := id + ": Lesson";
    HeaderSplit("## ", id, ": Lesson");
    assert HeaderLine(l) == "## " + rest;
    RestRead(id, " Lesson");
    assert rest == id + [':'] + " Lesson";
  }

  /** The header's text after `## `. */
  lemma HeaderSplit(p: string, id: string, q: string)
    ensures p <= p + (id + q) && (p + (id + q))[|p|..] == id + q
    ensures p + id + q == p + (id + q)
  {
  }

  /** `id: rest` with a stripped `id` free of `:`, and `rest` ending in a letter, names `id`. */
  lemma RestRead(id: string, q: string)
    requires Stripped(id) && ':' !in id
    requires q == " Lesson"
    ensures var rest := id + [':'] + q;
      && ':' in Strip(rest) && Strip(rest) == rest
      && Strip(Strip(rest)[..FirstIndex(Strip(rest), ':')]) == id
  {
    var rest := id + [':'] + q;
    assert rest[|rest| - 1] == 'n';
    assert Stripped(rest) by {
      if |id| > 0 {
        assert rest[0] == id[0];
      } else {
        assert rest[0] == ':';
      }
    }
    StrippedIsFixpoint(rest);
    assert rest[|id|] == ':';
    FirstIndexAfter(id, ':', q);
    assert rest[..|id|] == id;
    StrippedIsFixpoint(id);
  }

  /** No line after a block's header starts with `#`. */
  predicate NoHeaders(lines: seq<string>) {
    forall k :: 0 <= k < |lines| ==> |lines[k]| == 0 || lines[k][0] != '#'
  }

  lemma {:induction false} BodyNoHeaders(l: Lesson)
    ensures NoHeaders(FieldLines(l)) && NoHeaders(OptionalLines(l)) && NoHeaders(Closing)
  {
    var files := if |l.relatedFiles| > 0 then ["**Related Files**: " + Join(l.relatedFiles, ", ")] else [];
    var tags := if |l.tags| > 0 then ["**Tags**: " + Join(l.tags, ", ")] else [];
    assert OptionalLines(l) == files + tags;
    assert NoHeaders(files) && NoHeaders(tags);
  }

  /** The header line of a block ends the previous lesson and opens this one. */
  lemma {:induction false} HeaderStep(st: Reading, now: DateTime, l: Lesson)
    requires Storable(l)
    ensures ReadLine(st, now, HeaderLine(l)) == Reading(Finished(st), Some(Opened(l.incidentId, |Finished(st)| + 1, now)), 0)
  {
    HeaderRead(l);
  }

  /** The lesson after a block's field lines are read into `c`. */
  function Filled(c: Lesson, l: Lesson): Lesson {
    c.(category := l.category, lesson := l.lesson, prevention := l.prevention,
       tags := if |l.tags| > 0 then l.tags else c.tags)
  }

  /** The lines after a block's header only fill the current lesson. */
  lemma {:induction false} BodyRead(st: Reading, now: DateTime, l: Lesson)
    requires Storable(l) && st.current.Some?
    ensures ReadAll(st, now, BodyLines(l)) == st.(current := Some(Filled(st.current.value, l)))
  {
    BodyNoHeaders(l);
    var c := st.current.value;
    ReadAppend(st, now, FieldLines(l) + OptionalLines(l), Closing);
    ReadAppend(st, now, FieldLines(l), OptionalLines(l));
    ReadFields(st, now, FieldLines(l));
    FixedRead(c, l);
    var c1 := c.(category := l.category, lesson := l.lesson, prevention := l.prevention);
    var st2 := st.(current := Some(c1));
    ReadFields(st2, now, OptionalLines(l));
    OptionalRead(c1, l);
    var c2 := if |l.tags| > 0 then c1.(tags := l.tags) else c1;
    var st3 := st2.(current := Some(c2));
    ReadFields(st3, now, Closing);
    ClosingRead(c2);
  }

  /** Reading one block: it ends the previous lesson and restores this one. */
  lemma {:induction false} ReadBlock(st: Reading, now: DateTime, l: Lesson)
    requires Storable(l)
    ensures ReadAll(st, now, BlockLines(l))
      == Reading(Finished(st), Some(Restored(l, |Finished(st)| + 1, now)), 0)
  {
    var start := Opened(l.incidentId, |Finished(st)| + 1, now);
    HeaderStep(st, now, l);
    assert BlockLines(l)[1..] == BodyLines(l);
    BodyRead(Reading(Finished(st), Some(start), 0), now, l);
  }

  /** Reading concatenated lines reads the second part from where the first left off. */
  lemma {:induction false} ReadAppend(st: Reading, now: DateTime, xs: seq<string>, ys: seq<string>)
    ensures ReadAll(st, now, xs + ys) == ReadAll(ReadAll(st, now, xs), now, ys)
    decreases |xs|
  {
    if |xs| == 0 {
      assert xs + ys == ys;
    } else {
      assert (xs + ys)[1..] == xs[1..] + ys;
      ReadAppend(ReadLine(st, now, xs[0]), now, xs[1..], ys);
    }
  }

  /** Reading every block restores every lesson, numbered by position. */
  lemma {:induction false} ReadBlocks(now: DateTime, ls: seq<Lesson>)
    requires forall k :: 0 <= k < |ls| ==> Storable(ls[k])
    ensures Finished(ReadAll(Unread, now, AllBlockLines(ls))) == AllRestored(ls, now)
    ensures |ls| > 0 ==> ReadAll(Unread, now, AllBlockLines(ls)).current.Some?
    ensures |ls| == 0 ==> ReadAll(Unread, now, AllBlockLines(ls)) == Unread
    decreases |ls|
  {
    if |ls| > 0 {
      var front, last := ls[..|ls| - 1], ls[|ls| - 1];
      assert forall k :: 0 <= k < |front| ==> Storable(front[k]) by {
        forall k | 0 <= k < |front| ensures Storable(front[k]) { assert front[k] == ls[k]; }
      }
      ReadBlocks(now, front);
      var before := ReadAll(Unread, now, AllBlockLines(front));
      assert AllBlockLines(ls) == AllBlockLines(front) + BlockLines(last);
      ReadAppend(Unread, now, AllBlockLines(front), BlockLines(last));
      ReadBlock(before, now, last);
      assert AllRestored(ls, now) == AllRestored(front, now) + [Restored(last, |ls|, now)];
      assert |Finished(before)| + 1 == |ls|;
    }
  }

  /** The three header lines of the document are read past. */
  lemma {:induction false} HeadRead(now: DateTime)
    ensures ReadAll(Unread, now, HeadLines) == Unread
  {
    var h := HeadLines;
    NotPrefixAt("## ", h[0], 1);
    assert h[1] == "Knowledge captured from incident resolutions.";
    assert h[1] == ['K'] + h[1][1..];
    NotPrefixAt("## ", h[1], 0);
    assert h[1..] == [h[1], ""] && h[1..][1..] == [""] && h[1..][1..][1..] == [];
    assert ReadLine(Unread, now, h[0]) == Unread;
    assert ReadLine(Unread, now, h[1]) == Unread;
    assert ReadLine(Unread, now, "") == Unread;
    assert ReadAll(Unread, now, [""]) == Unread;
    assert ReadAll(Unread, now, h[1..]) == Unread;
  }

  lemma {:induction false} HeadSingle()
    ensures SingleLines(HeadLines)
  {
    TitleSingle();
    IntroSingle();
    var h := HeadLines;
    assert h[0] == "# Lessons Learned" && h[1] == "Knowledge captured from incident resolutions." && h[2] == "";
  }

  lemma TitleSingle()
    ensures '\n' !in "# Lessons Learned"
  {
  }

  lemma IntroSingle()
    ensures '\n' !in "Knowledge captured from incident resolutions."
  {
    var a := "Knowledge captured from ";
    var b := "incident resolutions.";
    assert '\n' !in a && '\n' !in b;
    assert '\n' !in a + b;
    assert "Knowledge captured from incident resolutions." == a + b;
  }

  /** The lines of a saved document: the header lines, every block's lines, and a last empty line. */
  lemma {:induction false} SavedLines(ls: seq<Lesson>)
    requires forall k :: 0 <= k < |ls| ==> Storable(ls[k])
    ensures Lines(Serialize(ls)) == HeadLines + AllBlockLines(ls) + [""]
  {
    SerializeTerminated(ls);
    DocLines(ls);
  }

  lemma {:induction false} SerializeTerminated(ls: seq<Lesson>)
    ensures Serialize(ls) == Terminated(HeadLines + AllBlockLines(ls))
  {
    SavePartsTerminated(ls);
  }

  lemma {:induction false} DocLines(ls: seq<Lesson>)
    requires forall k :: 0 <= k < |ls| ==> Storable(ls[k])
    ensures Lines(Terminated(HeadLines + AllBlockLines(ls))) == HeadLines + AllBlockLines(ls) + [""]
  {
    DocSingle(ls);
    LinesOf(Terminated(HeadLines + AllBlockLines(ls)), HeadLines + AllBlockLines(ls));
  }

  lemma {:induction false} DocSingle(ls: seq<Lesson>)
    requires forall k :: 0 <= k < |ls| ==> Storable(ls[k])
    ensures SingleLines(HeadLines + AllBlockLines(ls))
  {
    AllBlockLinesSingle(ls);
    HeadSingle();
    SingleLinesAppend(HeadLines, AllBlockLines(ls));
  }

  lemma {:induction false} LinesOf(text: string, lines: seq<string>)
    requires text == Terminated(lines) && SingleLines(lines)
    ensures Lines(text) == lines + [""]
  {
    TerminatedLines(lines);
  }

  /**
    Parsing what `_save` wrote restores every lesson's incident, category, text, prevention and
    tags, and gives it its ordinal id; related files come back empty, since the parser never reads
    that line, and the creation time and confidence are the parser's defaults.
  */
  lemma {:induction false} RoundTrip(ls: seq<Lesson>, now: DateTime)
    requires forall k :: 0 <= k < |ls| ==> Storable(ls[k])
    ensures Parse(Serialize(ls), now) == AllRestored(ls, now)
  {
    SavedLines(ls);
    ReadAppend(Unread, now, HeadLines + AllBlockLines(ls), [""]);
    ReadAppend(Unread, now, HeadLines, AllBlockLines(ls));
    HeadRead(now);
    ReadBlocks(now, ls);
    var st := ReadAll(Unread, now, AllBlockLines(ls));
    if st.current.Some? {
      Ignored(st.current.value, "");
    }
    assert ReadAll(st, now, [""]) == ReadLine(st, now, "");
  }

  /** Lines without a `#` at their start have no `## ` line at all. */
  lemma NoHeadersNamed(lines: seq<string>)
    requires NoHeaders(lines)
    ensures HeadersNamed(lines)
  {
    forall k | 0 <= k < |lines|
      ensures !("## " <= lines[k])
    {
      if |lines[k]| > 0 {
        NotPrefixAt("## ", lines[k], 0);
      }
    }
  }

  lemma NamedAppend(xs: seq<string>, ys: seq<string>)
    requires HeadersNamed(xs) && HeadersNamed(ys)
    ensures HeadersNamed(xs + ys)
  {
    forall k | 0 <= k < |xs + ys| && "## " <= (xs + ys)[k]
      ensures HeaderIncident((xs + ys)[k]).Some?
    {
      if k >= |xs| {
        assert (xs + ys)[k] == ys[k - |xs|];
      }
    }
  }

  /** The only `## ` line of a storable block is its header, which names the incident. */
  lemma BlockNamed(l: Lesson)
    requires Storable(l)
    ensures HeadersNamed(BlockLines(l))
  {
    HeaderRead(l);
    BodyNoHeaders(l);
    NoHeadersNamed(FieldLines(l));
    NoHeadersNamed(OptionalLines(l));
    NoHeadersNamed(Closing);
    NamedAppend(FieldLines(l), OptionalLines(l));
    NamedAppend(FieldLines(l) + OptionalLines(l), Closing);
    NamedAppend([HeaderLine(l)], BodyLines(l));
  }

  lemma {:induction false} AllBlocksNamed(ls: seq<Lesson>)
    requires forall k :: 0 <= k < |ls| ==> Storable(ls[k])
    ensures HeadersNamed(AllBlockLines(ls))
    decreases |ls|
  {
    if |ls| > 0 {
      var front := ls[..|ls| - 1];
      assert forall k :: 0 <= k < |front| ==> front[k] == ls[k];
      AllBlocksNamed(front);
      BlockNamed(ls[|ls| - 1]);
      NamedAppend(AllBlockLines(front), BlockLines(ls[|ls| - 1]));
    }
  }

  /** On what `_save` writes, the parser as written agrees with the corrected one. */
  lemma StoredParsersAgree(ls: seq<Lesson>, now: DateTime)
    requires forall k :: 0 <= k < |ls| ==> Storable(ls[k])
    ensures ParseAsWritten(Serialize(ls), now) == Parse(Serialize(ls), now) == AllRestored(ls, now)
  {
    SavedLines(ls);
    HeadNamed();
    AllBlocksNamed(ls);
    NoHeadersNamed([""]);
    NamedAppend(HeadLines, AllBlockLines(ls));
    NamedAppend(HeadLines + AllBlockLines(ls), [""]);
    ParsersAgree(Serialize(ls), now);
    RoundTrip(ls, now);
  }

  /** The document's three head lines hold no `## ` line. */
  lemma HeadNamed()
    ensures HeadersNamed(HeadLines)
  {
    var h := HeadLines;
    NotPrefixAt("## ", h[0], 1);
    assert h[1] == ['K'] + h[1][1..];
    NotPrefixAt("## ", h[1], 0);
  }
}
