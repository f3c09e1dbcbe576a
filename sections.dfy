/**
  The `_extract_section` scanner shared by the four agents that carry an identical copy of it
  (designer, investigator, implementer, tester), defined once.

  A line that starts with `"### " + section` opens the section and is itself skipped; once the
  section is open, the next line that starts with `"###"` and is not such a heading ends the scan,
  and every other line is kept. The kept lines, joined with newlines and stripped, are the
  section; no kept line at all means there is no section.
*/
module Sections {
  import opened Wrappers
  import opened Text

  /** The loop state: whether the heading was seen, the lines kept so far, whether the loop broke. */
  datatype Scan = Scan(inSection: bool, content: seq<string>, stopped: bool)

  const Start := Scan(false, [], false)

  /** A heading line of the section: a prefix match, so a heading may carry extra words. */
  predicate IsHeading(line: string, section: string) {
    "### " + section <= line
  }

  /** A line that closes an open section: any other `###` line, including `####` headings. */
  predicate Closes(line: string, section: string) {
    "###" <= line && !IsHeading(line, section)
  }

  /** One iteration of the `for line in lines` loop. */
  function Step(s: Scan, section: string, line: string): Scan {
    if s.stopped then s
    else if IsHeading(line, section) then s.(inSection := true)
    else if !s.inSection then s
    else if "###" <= line then s.(stopped := true)
    else s.(content := s.content + [line])
  }

  /** The loop run over `lines` from state `s`. */
  function ScanLines(s: Scan, section: string, lines: seq<string>): Scan
    decreases |lines|
  {
    if |lines| == 0 then s
    else Step(ScanLines(s, section, lines[..|lines| - 1]), section, lines[|lines| - 1])
  }

  /** The lines of `lines` that are not headings of the section, in order. */
  function NonHeadings(lines: seq<string>, section: string): (kept: seq<string>)
    ensures |kept| <= |lines|
    ensures forall k :: 0 <= k < |kept| ==> kept[k] in lines && !IsHeading(kept[k], section)
    decreases |lines|
  {
    if |lines| == 0 then []
    else
      var rest := NonHeadings(lines[..|lines| - 1], section);
      assert forall k :: 0 <= k < |rest| ==> rest[k] in lines;
      if IsHeading(lines[|lines| - 1], section) then rest else rest + [lines[|lines| - 1]]
  }

  /** `_extract_section(response, section)`. */
  function Section(response: string, section: string): (r: Option<string>)
    ensures r.Some? ==> Stripped(r.value)
  {
    var content := ScanLines(Start, section, Lines(response)).content;
    if |content| == 0 then None else Some(Strip(Join(content, "\n")))
  }

  /** The loop as the agents write it, with its early `break`. */
  method ExtractSection(response: string, section: string) returns (r: Option<string>)
    ensures r == Section(response, section)
  {
    var lines := Lines(response);
    assert lines[..|lines|] == lines;
    var inSection := false;
    var content: seq<string> := [];
    var i := 0;
    while i < |lines|
      invariant 0 <= i <= |lines|
      invariant ScanLines(Start, section, lines[..i]) == Scan(inSection, content, false)
    {
      var line := lines[i];
      var next := i + 1;
      ScanNext(section, lines, i, next);
      if IsHeading(line, section) {
        inSection := true;
      } else if inSection {
        if "###" <= line {
          StoppedStays(section, lines, next);
          break;
        }
        content := content + [line];
      }
      i := next;
    }
    if |content| == 0 {
      r := None;
    } else {
      r := Some(Strip(Join(content, "\n")));
    }
  }

  /** One more line is one more step. */
  lemma ScanNext(section: string, lines: seq<string>, i: nat, next: nat)
    requires i < |lines| && next == i + 1
    ensures ScanLines(Start, section, lines[..next]) == Step(ScanLines(Start, section, lines[..i]), section, lines[i])
  {
    assert lines[..next][..i] == lines[..i];
  }

  /** Scanning a concatenation scans the second part from where the first part left off. */
  lemma {:induction false} ScanAppend(s: Scan, section: string, xs: seq<string>, ys: seq<string>)
    ensures ScanLines(s, section, xs + ys) == ScanLines(ScanLines(s, section, xs), section, ys)
    decreases |ys|
  {
    if |ys| == 0 {
      assert xs + ys == xs;
    } else {
      assert (xs + ys)[..|xs + ys| - 1] == xs + ys[..|ys| - 1];
      ScanAppend(s, section, xs, ys[..|ys| - 1]);
    }
  }

  /** After the loop breaks, no further line changes anything. */
  lemma {:induction false} StoppedScan(s: Scan, section: string, ys: seq<string>)
    requires s.stopped
    ensures ScanLines(s, section, ys) == s
    decreases |ys|
  {
    if |ys| > 0 {
      StoppedScan(s, section, ys[..|ys| - 1]);
    }
  }

  /** A break after `n` lines fixes the result of the whole scan. */
  lemma StoppedStays(section: string, lines: seq<string>, n: nat)
    requires n <= |lines| && ScanLines(Start, section, lines[..n]).stopped
    ensures ScanLines(Start, section, lines) == ScanLines(Start, section, lines[..n])
  {
    assert lines == lines[..n] + lines[n..];
    ScanAppend(Start, section, lines[..n], lines[n..]);
    StoppedScan(ScanLines(Start, section, lines[..n]), section, lines[n..]);
  }

  /** Lines before the first heading are never kept. */
  lemma {:induction false} ScanBeforeHeading(section: string, xs: seq<string>)
    requires forall k :: 0 <= k < |xs| ==> !IsHeading(xs[k], section)
    ensures ScanLines(Start, section, xs) == Start
    decreases |xs|
  {
    if |xs| > 0 {
      ScanBeforeHeading(section, xs[..|xs| - 1]);
    }
  }

  /** Inside the section, every line up to the closing one is kept unless it is a repeated heading. */
  lemma {:induction false} ScanInside(s: Scan, section: string, xs: seq<string>)
    requires s.inSection && !s.stopped
    requires forall k :: 0 <= k < |xs| ==> !Closes(xs[k], section)
    ensures ScanLines(s, section, xs) == s.(content := s.content + NonHeadings(xs, section))
    decreases |xs|
  {
    if |xs| > 0 {
      ScanInside(s, section, xs[..|xs| - 1]);
      var before := NonHeadings(xs[..|xs| - 1], section);
      if !IsHeading(xs[|xs| - 1], section) {
        assert s.content + before + [xs[|xs| - 1]] == s.content + (before + [xs[|xs| - 1]]);
      }
    }
  }

  /**
    The section's lines, independently of the loop: with `h` the first heading line and `e` the
    first closing line after it (or the end of input), the kept lines are the non-heading lines
    strictly between the two.
  */
  lemma SectionContent(section: string, lines: seq<string>, h: nat, e: nat)
    requires h < e <= |lines|
    requires IsHeading(lines[h], section) && forall k :: 0 <= k < h ==> !IsHeading(lines[k], section)
    requires forall k :: h < k < e ==> !Closes(lines[k], section)
    requires e == |lines| || Closes(lines[e], section)
    ensures ScanLines(Start, section, lines).content == NonHeadings(lines[h + 1..e], section)
  {
    ScanUpTo(section, lines, h, e);
    if e == |lines| {
      assert lines[..e] == lines;
    } else {
      ScanNext(section, lines, e, e + 1);
      StoppedStays(section, lines, e + 1);
    }
  }

  /** The state of the scan just before the closing line of `SectionContent`. */
  lemma ScanUpTo(section: string, lines: seq<string>, h: nat, e: nat)
    requires h < e <= |lines|
    requires IsHeading(lines[h], section) && forall k :: 0 <= k < h ==> !IsHeading(lines[k], section)
    requires forall k :: h < k < e ==> !Closes(lines[k], section)
    ensures ScanLines(Start, section, lines[..e]) == Scan(true, NonHeadings(lines[h + 1..e], section), false)
  {
    var mid := lines[h + 1..e];
    var upTo := lines[..h + 1];
    assert lines[..e] == upTo + mid;
    assert upTo[..h] == lines[..h];
    ScanBeforeHeading(section, lines[..h]);
    var open := ScanLines(Start, section, upTo);
    assert open == Scan(true, [], false);
    ScanAppend(Start, section, upTo, mid);
    assert forall k :: 0 <= k < |mid| ==> mid[k] == lines[h + 1 + k];
    ScanInside(open, section, mid);
    assert [] + NonHeadings(mid, section) == NonHeadings(mid, section);
  }

  /** No heading line: no section. */
  lemma SectionAbsent(response: string, section: string)
    requires forall k :: 0 <= k < |Lines(response)| ==> !IsHeading(Lines(response)[k], section)
    ensures Section(response, section) == None
  {
    ScanBeforeHeading(section, Lines(response));
  }

  /** Kept lines never start with `###`: no heading of any level ends up in the section. */
  lemma {:induction false} ContentHasNoHeadings(section: string, lines: seq<string>)
    ensures forall k :: 0 <= k < |ScanLines(Start, section, lines).content| ==>
      !("###" <= ScanLines(Start, section, lines).content[k])
    decreases |lines|
  {
    if |lines| > 0 {
      var before := ScanLines(Start, section, lines[..|lines| - 1]).content;
      ContentHasNoHeadings(section, lines[..|lines| - 1]);
      var after := ScanLines(Start, section, lines).content;
      forall k | 0 <= k < |after| ensures !("###" <= after[k]) {
        if k < |before| {
          assert after[k] == before[k];
        }
      }
    }
  }

  /** A heading directly followed by a closing line, or by the end of input, gives no section. */
  lemma SectionEmptyWhenClosed(response: string, section: string, h: nat)
    requires h < |Lines(response)|
    requires IsHeading(Lines(response)[h], section)
    requires forall k :: 0 <= k < h ==> !IsHeading(Lines(response)[k], section)
    requires h + 1 == |Lines(response)| || Closes(Lines(response)[h + 1], section)
    ensures Section(response, section) == None
  {
    SectionContent(section, Lines(response), h, h + 1);
  }

  /** Joining whitespace-only lines with newlines gives whitespace only. */
  lemma {:induction false} JoinBlank(parts: seq<string>)
    requires forall k :: 0 <= k < |parts| ==> AllSpace(parts[k])
    ensures AllSpace(Join(parts, "\n"))
    decreases |parts|
  {
    if |parts| > 1 {
      JoinBlank(parts[1..]);
      var rest := Join(parts[1..], "\n");
      var j := parts[0] + "\n" + rest;
      assert forall i :: 0 <= i < |j| ==> (i < |parts[0]| ==> j[i] == parts[0][i]);
      assert forall i :: |parts[0]| + 1 <= i < |j| ==> j[i] == rest[i - |parts[0]| - 1];
    }
  }

  /** A section whose lines are all blank is the empty string, not None. */
  lemma SectionBlank(response: string, section: string)
    requires var c := ScanLines(Start, section, Lines(response)).content;
      |c| > 0 && forall k :: 0 <= k < |c| ==> AllSpace(c[k])
    ensures Section(response, section) == Some("")
  {
    var content := ScanLines(Start, section, Lines(response)).content;
    JoinBlank(content);
    StripAllSpace(Join(content, "\n"));
  }
}
