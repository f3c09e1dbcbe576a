/**
  The implementation stage of `agents/implementer.py`: its skip rule, the collection of fenced
  code blocks under `#### path` headers, the commit-message capture and the shaping of its result.
*/
module Implementer {
  import opened Wrappers
  import opened Text
  import opened Models
  import opened Stages
  import opened Sections

  const Name := "implement"

  // ---------------------------------------------------------------------------
  // _extract_code_changes
  // ---------------------------------------------------------------------------

  /** A file header: a `#### ` line that mentions a path. */
  predicate IsFileHeader(line: string) {
    "#### " <= line && '/' in line
  }

  /** The file a header names. */
  function HeaderName(line: string): string
    requires IsFileHeader(line)
  {
    Strip(line[5..])
  }

  /** A code fence line. */
  predicate IsFence(line: string) {
    "```" <= line
  }

  /**
    The loop state of `_extract_code_changes`: the blocks stored so far (as their lines), the
    current file, the lines collected for it and whether a fence is open.
  */
  datatype Collector = Collector(blocks: map<string, seq<string>>, file: Option<string>, code: seq<string>, inBlock: bool)

  const Empty := Collector(map[], None, [], false)

  /** `current_file` is set and non-empty. */
  predicate HasFile(c: Collector) {
    c.file.Some? && |c.file.value| > 0
  }

  /** The blocks after storing the current file's lines, if there is a file and it has lines. */
  function Flush(c: Collector): map<string, seq<string>> {
    if HasFile(c) && |c.code| > 0 then c.blocks[c.file.value := c.code] else c.blocks
  }

  /** One iteration of the loop. */
  function CodeStep(c: Collector, line: string): Collector {
    if IsFileHeader(line) then Collector(Flush(c), Some(HeaderName(line)), [], false)
    else if IsFence(line) then c.(inBlock := !c.inBlock)
    else if c.inBlock && HasFile(c) then c.(code := c.code + [line])
    else c
  }

  /** The loop run over `lines`. */
  function Collect(lines: seq<string>): Collector
    decreases |lines|
  {
    if |lines| == 0 then Empty else CodeStep(Collect(lines[..|lines| - 1]), lines[|lines| - 1])
  }

  /** Each stored block as the text the dictionary holds. */
  function Joined(blocks: map<string, seq<string>>): (m: map<string, string>)
    ensures m.Keys == blocks.Keys
    ensures forall k :: k in m ==> m[k] == Join(blocks[k], "\n")
  {
    map k | k in blocks :: Join(blocks[k], "\n")
  }

  /** `_extract_code_changes(response)`. */
  function CodeChanges(response: string): map<string, string> {
    Joined(Flush(Collect(Lines(response))))
  }

  lemma JoinedUpdate(blocks: map<string, seq<string>>, k: string, v: seq<string>)
    ensures Joined(blocks[k := v]) == Joined(blocks)[k := Join(v, "\n")]
  {
  }

  lemma CollectNext(lines: seq<string>, i: nat, next: nat)
    requires i < |lines| && next == i + 1
    ensures Collect(lines[..next]) == CodeStep(Collect(lines[..i]), lines[i])
  {
    assert lines[..next][..i] == lines[..i];
  }

  /** The loop of `_extract_code_changes`, storing each block as it is left. */
  method ExtractCodeChanges(response: string) returns (changes: map<string, string>)
    ensures changes == CodeChanges(response)
  {
    var lines := Lines(response);
    assert lines[..|lines|] == lines;
    changes := map[];
    var currentFile: Option<string> := None;
    var currentCode: seq<string> := [];
    var inCodeBlock := false;
    ghost var blocks: map<string, seq<string>> := map[];
    var i := 0;
    while i < |lines|
      invariant 0 <= i <= |lines|
      invariant Collect(lines[..i]) == Collector(blocks, currentFile, currentCode, inCodeBlock)
      invariant changes == Joined(blocks)
    {
      var line := lines[i];
      var next := i + 1;
      CollectNext(lines, i, next);
      if "#### " <= line && '/' in line {
        if currentFile.Some? && |currentFile.value| > 0 && |currentCode| > 0 {
          JoinedUpdate(blocks, currentFile.value, currentCode);
          changes := changes[currentFile.value := Join(currentCode, "\n")];
          blocks := blocks[currentFile.value := currentCode];
        }
        currentFile := Some(Strip(line[5..]));
        currentCode := [];
        inCodeBlock := false;
      } else if "```" <= line {
        inCodeBlock := !inCodeBlock;
      } else if inCodeBlock && currentFile.Some? && |currentFile.value| > 0 {
        currentCode := currentCode + [line];
      }
      i := next;
    }
    if currentFile.Some? && |currentFile.value| > 0 && |currentCode| > 0 {
      JoinedUpdate(blocks, currentFile.value, currentCode);
      changes := changes[currentFile.value := Join(currentCode, "\n")];
    }
  }

  /** `k` is the name that some header line among `lines` gives. */
  ghost predicate NamedBy(lines: seq<string>, k: string) {
    exists l :: l in lines && IsFileHeader(l) && HeaderName(l) == k
  }

  /** The current file and every key were named by a header line. */
  lemma {:induction false} CollectNames(lines: seq<string>)
    ensures var c := Collect(lines);
      && (c.file.Some? ==> NamedBy(lines, c.file.value))
      && (forall k :: k in c.blocks ==> NamedBy(lines, k))
    decreases |lines|
  {
    if |lines| > 0 {
      var front := lines[..|lines| - 1];
      var line := lines[|lines| - 1];
      CollectNames(front);
      assert forall l :: l in front ==> l in lines;
      if IsFileHeader(line) {
        assert NamedBy(lines, HeaderName(line));
      }
    }
  }

  /** Lines that a block keeps: input lines that are neither fences nor file headers. */
  ghost predicate Kept(lines: seq<string>, block: seq<string>) {
    forall l :: l in block ==> l in lines && !IsFence(l) && !IsFileHeader(l)
  }

  /** Every block holds at least one line, and only kept lines. */
  lemma {:induction false} CollectBlocks(lines: seq<string>)
    ensures var c := Collect(lines);
      && Kept(lines, c.code)
      && (forall k :: k in c.blocks ==> |c.blocks[k]| > 0 && Kept(lines, c.blocks[k]))
    decreases |lines|
  {
    if |lines| > 0 {
      var front := lines[..|lines| - 1];
      CollectBlocks(front);
      assert forall l :: l in front ==> l in lines;
    }
  }

  /** Every key of the result is the name a `#### ` header line with a `/` gives. */
  lemma CodeChangesKeys(response: string, k: string)
    requires k in CodeChanges(response)
    ensures exists l :: l in Lines(response) && IsFileHeader(l) && HeaderName(l) == k
  {
    CollectNames(Lines(response));
  }

  /**
    Every value is a non-empty run of collected lines: splitting it at newlines gives back input
    lines that are neither fences nor headers, so no fence line ever ends up in a value.
  */
  lemma CodeChangesValues(response: string, k: string)
    requires k in CodeChanges(response)
    ensures var block := Lines(CodeChanges(response)[k]);
      |block| > 0 && forall l :: l in block ==> l in Lines(response) && !IsFence(l) && !IsFileHeader(l)
  {
    var lines := Lines(response);
    CollectBlocks(lines);
    var block := Flush(Collect(lines))[k];
    assert forall j :: 0 <= j < |block| ==> block[j] in lines;
    SplitJoin(block, '\n');
  }

  /** Without a file header nothing is collected. */
  lemma {:induction false} NoHeaderNoChanges(lines: seq<string>)
    requires forall j :: 0 <= j < |lines| ==> !IsFileHeader(lines[j])
    ensures Collect(lines).file == None && Collect(lines).blocks == map[] && Collect(lines).code == []
    decreases |lines|
  {
    if |lines| > 0 {
      NoHeaderNoChanges(lines[..|lines| - 1]);
    }
  }

  /** A header line names a non-empty file: the `/` survives the strip. */
  lemma HeaderNameNonEmpty(header: string)
    requires IsFileHeader(header)
    ensures |HeaderName(header)| > 0
  {
    var i :| 0 <= i < |header| && header[i] == '/';
    assert forall j :: 0 <= j < 5 ==> header[j] == "#### "[j];
    assert header[5..][i - 5] == '/';
    StripNonEmpty(header[5..]);
  }

  /** A header followed by one fenced line, outside any fence, leaves that line collected. */
  lemma HeaderBlock(lines: seq<string>, i: nat, header: string, x: string)
    requires i + 4 <= |lines| && lines[i..i + 4] == [header, "```", x, "```"]
    requires IsFileHeader(header) && !IsFence(x) && !IsFileHeader(x)
    ensures Collect(lines[..i + 4]) == Collector(Flush(Collect(lines[..i])), Some(HeaderName(header)), [x], false)
  {
    HeaderNameNonEmpty(header);
    assert lines[i] == header && lines[i + 1] == "```" && lines[i + 2] == x && lines[i + 3] == "```";
    assert !IsFileHeader("```") && IsFence("```");
    CollectNext(lines, i, i + 1);
    CollectNext(lines, i + 1, i + 2);
    CollectNext(lines, i + 2, i + 3);
    CollectNext(lines, i + 3, i + 4);
  }

  /**
    A file named twice keeps its last block: the second header stores the first block, then the
    second block overwrites it.
  */
  lemma RepeatedHeaderExample(header: string, a: string, b: string)
    requires IsFileHeader(header)
    requires !IsFence(a) && !IsFileHeader(a) && !IsFence(b) && !IsFileHeader(b)
    ensures Flush(Collect([header, "```", a, "```", header, "```", b, "```"])) == map[HeaderName(header) := [b]]
  {
    var lines := [header, "```", a, "```", header, "```", b, "```"];
    var n := HeaderName(header);
    HeaderNameNonEmpty(header);
    assert lines[..0] == [] && lines[..8] == lines;
    HeaderBlock(lines, 0, header, a);
    HeaderBlock(lines, 4, header, b);
    assert map[n := [a]][n := [b]] == map[n := [b]];
  }

  // The blocks by header, independently of the loop.

  /** The index of the last file header among `lines`, or -1 when there is none. */
  function LastHeader(lines: seq<string>): (h: int)
    ensures -1 <= h < |lines|
    ensures h >= 0 ==> IsFileHeader(lines[h])
    decreases |lines|
  {
    if |lines| == 0 then -1
    else if IsFileHeader(lines[|lines| - 1]) then |lines| - 1
    else LastHeader(lines[..|lines| - 1])
  }

  /** No file header follows the last one. */
  lemma {:induction false} LastHeaderAfter(lines: seq<string>, j: nat)
    requires LastHeader(lines) < j < |lines|
    ensures !IsFileHeader(lines[j])
    decreases |lines|
  {
    var n := |lines|;
    if j < n - 1 {
      LastHeaderAfter(lines[..n - 1], j);
    }
  }

  /** A header at `h` precedes the last header or is it. */
  lemma {:induction false} HeaderBeforeLast(lines: seq<string>, h: nat)
    requires h < |lines| && IsFileHeader(lines[h])
    ensures h <= LastHeader(lines)
    decreases |lines|
  {
    var n := |lines|;
    if h < n - 1 && !IsFileHeader(lines[n - 1]) {
      HeaderBeforeLast(lines[..n - 1], h);
    }
  }

  /** The number of fence lines among `lines`. */
  function FenceCount(lines: seq<string>): nat
    decreases |lines|
  {
    if |lines| == 0 then 0
    else FenceCount(lines[..|lines| - 1]) + (if IsFence(lines[|lines| - 1]) then 1 else 0)
  }

  /** The lines inside a fence: those that are not fences and follow an odd number of fence lines. */
  function InFence(lines: seq<string>): seq<string>
    decreases |lines|
  {
    if |lines| == 0 then []
    else
      var front := lines[..|lines| - 1];
      var line := lines[|lines| - 1];
      InFence(front) + (if !IsFence(line) && FenceCount(front) % 2 == 1 then [line] else [])
  }

  /**
    The blocks the headers among `lines` store, in order: each header's block is the fenced
    lines up to the next header, and a header whose block is empty stores nothing.
  */
  function Blocks(lines: seq<string>): map<string, seq<string>>
    decreases |lines|
  {
    var h := LastHeader(lines);
    if h < 0 then map[]
    else
      var block := InFence(lines[h + 1..]);
      if |block| > 0 then Blocks(lines[..h])[HeaderName(lines[h]) := block] else Blocks(lines[..h])
  }

  /** The loop's state after `lines`, in terms of the last header and the lines after it. */
  ghost predicate StateByHeaders(lines: seq<string>) {
    var h := LastHeader(lines);
    var c := Collect(lines);
    if h < 0 then c == Collector(map[], None, [], FenceCount(lines) % 2 == 1)
    else c == Collector(Blocks(lines[..h]), Some(HeaderName(lines[h])), InFence(lines[h + 1..]),
                        FenceCount(lines[h + 1..]) % 2 == 1)
  }

  /** From that state, storing the current block gives the blocks of all headers. */
  lemma FlushByHeaders(lines: seq<string>)
    requires StateByHeaders(lines)
    ensures Flush(Collect(lines)) == Blocks(lines)
  {
    var h := LastHeader(lines);
    if h >= 0 {
      HeaderNameNonEmpty(lines[h]);
    }
  }

  /** A header line stores the current block and starts an empty one. */
  lemma HeaderStep(lines: seq<string>)
    requires |lines| > 0 && IsFileHeader(lines[|lines| - 1]) && StateByHeaders(lines[..|lines| - 1])
    ensures StateByHeaders(lines)
  {
    var n := |lines|;
    FlushByHeaders(lines[..n - 1]);
    assert lines[n..] == [];
  }

  /** One non-header line after a header: the block and the fence state extend by that line. */
  lemma BlockStep(blocks: map<string, seq<string>>, name: string, before: seq<string>, line: string)
    requires |name| > 0 && !IsFileHeader(line)
    ensures CodeStep(Collector(blocks, Some(name), InFence(before), FenceCount(before) % 2 == 1), line)
      == Collector(blocks, Some(name), InFence(before + [line]), FenceCount(before + [line]) % 2 == 1)
  {
    assert (before + [line])[..|before|] == before;
  }

  /** The last line, when it is no header, leaves the last header where it was and extends the lines after it. */
  lemma BodySlices(lines: seq<string>)
    requires |lines| > 0 && !IsFileHeader(lines[|lines| - 1]) && LastHeader(lines[..|lines| - 1]) >= 0
    ensures var front := lines[..|lines| - 1]; var h := LastHeader(front);
      && LastHeader(lines) == h && lines[..h] == front[..h] && lines[h] == front[h]
      && lines[h + 1..] == front[h + 1..] + [lines[|lines| - 1]]
  {
    var n := |lines|;
    var front := lines[..n - 1];
    var h := LastHeader(front);
    assert LastHeader(lines) == h;
    assert lines[..h] == front[..h];
    assert front[h + 1..] == lines[h + 1..n - 1];
    SliceSnoc(lines, h + 1);
  }

  /** A suffix of a sequence is its part before the last element, then the last element. */
  lemma SliceSnoc(xs: seq<string>, i: nat)
    requires i < |xs|
    ensures xs[i..] == xs[i..|xs| - 1] + [xs[|xs| - 1]]
  {
  }

  /** Any other line after a header extends the lines after it. */
  lemma BodyStep(lines: seq<string>)
    requires |lines| > 0 && !IsFileHeader(lines[|lines| - 1]) && StateByHeaders(lines[..|lines| - 1])
    requires LastHeader(lines[..|lines| - 1]) >= 0
    ensures StateByHeaders(lines)
  {
    var front := lines[..|lines| - 1];
    var h := LastHeader(front);
    BodySlices(lines);
    HeaderNameNonEmpty(lines[h]);
    BlockStep(Blocks(front[..h]), HeaderName(lines[h]), front[h + 1..], lines[|lines| - 1]);
  }

  /** Before any header, a line only toggles the fence. */
  lemma PreambleStep(lines: seq<string>)
    requires |lines| > 0 && !IsFileHeader(lines[|lines| - 1]) && StateByHeaders(lines[..|lines| - 1])
    requires LastHeader(lines[..|lines| - 1]) < 0
    ensures StateByHeaders(lines)
  {
    var n := |lines|;
    assert LastHeader(lines) == LastHeader(lines[..n - 1]);
  }

  /** Every state of the loop is the one `StateByHeaders` describes. */
  lemma {:induction false} CollectByHeaders(lines: seq<string>)
    ensures StateByHeaders(lines)
    decreases |lines|
  {
    if |lines| > 0 {
      var n := |lines|;
      var front := lines[..n - 1];
      CollectByHeaders(front);
      if IsFileHeader(lines[n - 1]) {
        HeaderStep(lines);
      } else if LastHeader(front) >= 0 {
        BodyStep(lines);
      } else {
        PreambleStep(lines);
      }
    }
  }

  /** `_extract_code_changes` stores exactly the blocks of the headers, joined with newlines. */
  lemma CodeChangesByHeaders(response: string)
    ensures CodeChanges(response) == Joined(Blocks(Lines(response)))
  {
    CollectByHeaders(Lines(response));
    FlushByHeaders(Lines(response));
  }

  /** The index of the first file header after `h`, or the end of `lines`. */
  function NextHeader(lines: seq<string>, h: nat): (e: nat)
    requires h < |lines|
    ensures h < e <= |lines| && (e < |lines| ==> IsFileHeader(lines[e]))
    decreases |lines| - h
  {
    if h + 1 == |lines| || IsFileHeader(lines[h + 1]) then h + 1 else NextHeader(lines, h + 1)
  }

  /** No file header lies strictly between `h` and `NextHeader(lines, h)`. */
  lemma {:induction false} NextHeaderFirst(lines: seq<string>, h: nat, j: nat)
    requires h < j < |lines| && j < NextHeader(lines, h)
    ensures !IsFileHeader(lines[j])
    decreases |lines| - h
  {
    if j > h + 1 {
      NextHeaderFirst(lines, h + 1, j);
    }
  }

  /** After the last header, the next header is the end of the lines. */
  lemma {:induction false} NextHeaderIsEnd(lines: seq<string>, h: nat)
    requires h < |lines| && forall j :: h < j < |lines| ==> !IsFileHeader(lines[j])
    ensures NextHeader(lines, h) == |lines|
    decreases |lines| - h
  {
    if h + 1 < |lines| {
      NextHeaderIsEnd(lines, h + 1);
    }
  }

  /** Cutting the lines at a later header does not move the next header after `j`. */
  lemma {:induction false} NextHeaderPrefix(lines: seq<string>, cut: nat, j: nat)
    requires j < cut < |lines| && IsFileHeader(lines[cut])
    ensures NextHeader(lines[..cut], j) == NextHeader(lines, j)
    decreases cut - j
  {
    var pre := lines[..cut];
    if j + 1 < cut {
      assert pre[j + 1] == lines[j + 1];
      if !IsFileHeader(lines[j + 1]) {
        NextHeaderPrefix(lines, cut, j + 1);
      }
    }
  }

  /** The block under the line at `h`: the fenced lines up to the next header. */
  function BlockAt(lines: seq<string>, h: nat): seq<string>
    requires h < |lines|
  {
    InFence(lines[h + 1..NextHeader(lines, h)])
  }

  /** Cutting the lines at a later header leaves the block under `j` as it is. */
  lemma BlockAtPrefix(lines: seq<string>, cut: nat, j: nat)
    requires j < cut < |lines| && IsFileHeader(lines[cut])
    ensures BlockAt(lines[..cut], j) == BlockAt(lines, j)
  {
    var pre := lines[..cut];
    var e := NextHeader(lines, j);
    NextHeaderPrefix(lines, cut, j);
    assert pre[j + 1..e] == lines[j + 1..e];
  }

  /** The line at `h` is a header naming `k` whose block holds lines. */
  ghost predicate BlockFor(lines: seq<string>, k: string, h: nat) {
    h < |lines| && IsFileHeader(lines[h]) && HeaderName(lines[h]) == k && |BlockAt(lines, h)| > 0
  }

  /**
    The header at `h` names `k`, its block holds lines, and every later header naming `k` has
    an empty block: the block `_extract_code_changes` keeps for `k`.
  */
  ghost predicate LastBlockOf(lines: seq<string>, k: string, h: nat) {
    && BlockFor(lines, k, h)
    && forall j {:trigger BlockAt(lines, j)} ::
         h < j < |lines| && IsFileHeader(lines[j]) && HeaderName(lines[j]) == k ==> BlockAt(lines, j) == []
  }

  /** The blocks, unfolded at the last header: its block is stored over those of the earlier headers. */
  lemma BlocksAtLast(lines: seq<string>)
    requires LastHeader(lines) >= 0
    ensures var last := LastHeader(lines); var block := BlockAt(lines, last);
      Blocks(lines) == if |block| > 0 then Blocks(lines[..last])[HeaderName(lines[last]) := block]
                       else Blocks(lines[..last])
  {
    var h := LastHeader(lines);
    forall j | h < j < |lines| {
      LastHeaderAfter(lines, j);
    }
    NextHeaderIsEnd(lines, h);
    assert lines[h + 1..|lines|] == lines[h + 1..];
  }

  /** Cutting the lines at a later header keeps `h` the last non-empty block of `k`. */
  lemma LastBlockOfPrefix(lines: seq<string>, k: string, h: nat, cut: nat)
    requires LastBlockOf(lines, k, h) && h < cut < |lines| && IsFileHeader(lines[cut])
    ensures LastBlockOf(lines[..cut], k, h)
  {
    var pre := lines[..cut];
    BlockAtPrefix(lines, cut, h);
    forall j | h < j < |pre| && IsFileHeader(pre[j]) && HeaderName(pre[j]) == k
      ensures BlockAt(pre, j) == []
    {
      assert pre[j] == lines[j];
      BlockAtPrefix(lines, cut, j);
    }
  }

  /** The blocks keep, for `k`, the block of its last header with a non-empty block. */
  lemma {:induction false} LastBlockStored(lines: seq<string>, k: string, h: nat)
    requires LastBlockOf(lines, k, h)
    ensures k in Blocks(lines) && Blocks(lines)[k] == BlockAt(lines, h)
    decreases |lines|
  {
    HeaderBeforeLast(lines, h);
    var last := LastHeader(lines);
    BlocksAtLast(lines);
    if last > h {
      LastBlockOfPrefix(lines, k, h, last);
      LastBlockStored(lines[..last], k, h);
      BlockAtPrefix(lines, last, h);
      assert HeaderName(lines[last]) == k ==> BlockAt(lines, last) == [];
    }
  }

  /** A later header naming `k` has an empty block. */
  lemma LaterBlockEmpty(lines: seq<string>, k: string, h: nat, j: nat)
    requires LastBlockOf(lines, k, h)
    requires h < j < |lines| && IsFileHeader(lines[j]) && HeaderName(lines[j]) == k
    ensures BlockAt(lines, j) == []
  {
  }

  /** One later header of `lines`: its block is empty when it names `k`. */
  lemma LastBlockOfLiftAt(lines: seq<string>, k: string, h: nat, last: nat, j: nat)
    requires last == LastHeader(lines) && h < last && LastBlockOf(lines[..last], k, h)
    requires HeaderName(lines[last]) == k ==> BlockAt(lines, last) == []
    requires h < j < |lines| && IsFileHeader(lines[j]) && HeaderName(lines[j]) == k
    ensures BlockAt(lines, j) == []
  {
    HeaderBeforeLast(lines, j);
    if j < last {
      assert lines[..last][j] == lines[j];
      LaterBlockEmpty(lines[..last], k, h, j);
      BlockAtPrefix(lines, last, j);
    } else {
      assert j == last;
    }
  }

  /** Lifting `LastBlockOf` from the lines before the last header, whose block does not store `k`. */
  lemma LastBlockOfLift(lines: seq<string>, k: string, h: nat, last: nat)
    requires last == LastHeader(lines) && h < last && LastBlockOf(lines[..last], k, h)
    requires HeaderName(lines[last]) == k ==> BlockAt(lines, last) == []
    ensures LastBlockOf(lines, k, h)
  {
    BlockAtPrefix(lines, last, h);
    assert lines[h] == lines[..last][h];
    forall j | h < j < |lines| && IsFileHeader(lines[j]) && HeaderName(lines[j]) == k
      ensures BlockAt(lines, j) == []
    {
      LastBlockOfLiftAt(lines, k, h, last, j);
    }
  }

  /** Every stored block is the block of the last header naming the file with a non-empty block. */
  lemma {:induction false} StoredBlockIsLast(lines: seq<string>, k: string)
    requires k in Blocks(lines)
    ensures exists h :: LastBlockOf(lines, k, h) && Blocks(lines)[k] == BlockAt(lines, h)
    decreases |lines|
  {
    var last := LastHeader(lines);
    BlocksAtLast(lines);
    var block := BlockAt(lines, last);
    if |block| > 0 && HeaderName(lines[last]) == k {
      forall j | last < j < |lines|
        ensures !IsFileHeader(lines[j])
      {
        LastHeaderAfter(lines, j);
      }
      assert LastBlockOf(lines, k, last);
    } else {
      var pre := lines[..last];
      StoredBlockIsLast(pre, k);
      var h :| LastBlockOf(pre, k, h) && Blocks(pre)[k] == BlockAt(pre, h);
      LastBlockOfLift(lines, k, h, last);
      BlockAtPrefix(lines, last, h);
    }
  }

  /** A header naming `k` whose block holds lines stores something for `k`. */
  lemma {:induction false} HeaderBlockStored(lines: seq<string>, k: string, h: nat)
    requires BlockFor(lines, k, h)
    ensures k in Blocks(lines)
    decreases |lines|
  {
    HeaderBeforeLast(lines, h);
    var last := LastHeader(lines);
    BlocksAtLast(lines);
    if last > h {
      BlockAtPrefix(lines, last, h);
      HeaderBlockStored(lines[..last], k, h);
    }
  }

  /**
    A later block for the same file replaces the earlier one: the value stored for `k` is the
    newline-joined block of the last header naming `k` whose fences hold any line.
  */
  lemma LastBlockWins(response: string, k: string, h: nat)
    requires LastBlockOf(Lines(response), k, h)
    ensures k in CodeChanges(response)
    ensures CodeChanges(response)[k] == Join(BlockAt(Lines(response), h), "\n")
  {
    CodeChangesByHeaders(response);
    LastBlockStored(Lines(response), k, h);
  }

  /**
    The keys are exactly the files some header names with a non-empty block, and each value is
    the newline-joined block of the last such header.
  */
  lemma CodeChangesByLastBlock(response: string, k: string)
    ensures k in CodeChanges(response) <==> exists h: nat :: BlockFor(Lines(response), k, h)
    ensures k in CodeChanges(response) ==>
      exists h :: LastBlockOf(Lines(response), k, h) && CodeChanges(response)[k] == Join(BlockAt(Lines(response), h), "\n")
  {
    var lines := Lines(response);
    CodeChangesByHeaders(response);
    if k in Blocks(lines) {
      StoredBlockIsLast(lines, k);
    }
    if exists h: nat :: BlockFor(lines, k, h) {
      var h: nat :| BlockFor(lines, k, h);
      HeaderBlockStored(lines, k, h);
    }
  }

  // ---------------------------------------------------------------------------
  // _extract_commit_message
  // ---------------------------------------------------------------------------

  /** The heading the commit message follows; matched anywhere in a line. */
  const CommitHeading := "### Commit Message"

  /** The loop state of `_extract_commit_message`. */
  datatype Capture = Capture(inCommit: bool, taken: seq<string>, stopped: bool)

  const Idle := Capture(false, [], false)

  /** One iteration: fences before any content are skipped, a fence after content or a `###` line ends it. */
  function CommitStep(c: Capture, line: string): Capture {
    if c.stopped then c
    else if Contains(line, CommitHeading) then c.(inCommit := true)
    else if !c.inCommit then c
    else if IsFence(line) then (if |c.taken| > 0 then c.(stopped := true) else c)
    else if "###" <= line then c.(stopped := true)
    else c.(taken := c.taken + [line])
  }

  function CaptureLines(c: Capture, lines: seq<string>): Capture
    decreases |lines|
  {
    if |lines| == 0 then c else CommitStep(CaptureLines(c, lines[..|lines| - 1]), lines[|lines| - 1])
  }

  /** `_extract_commit_message(response)`. */
  function CommitMessage(response: string): (m: Option<string>)
    ensures m.Some? ==> Stripped(m.value)
  {
    var taken := CaptureLines(Idle, Lines(response)).taken;
    if |taken| == 0 then None else Some(Strip(Join(taken, "\n")))
  }

  lemma CaptureNext(lines: seq<string>, i: nat, next: nat)
    requires i < |lines| && next == i + 1
    ensures CaptureLines(Idle, lines[..next]) == CommitStep(CaptureLines(Idle, lines[..i]), lines[i])
  {
    assert lines[..next][..i] == lines[..i];
  }

  lemma {:induction false} CaptureStopped(c: Capture, ys: seq<string>)
    requires c.stopped
    ensures CaptureLines(c, ys) == c
    decreases |ys|
  {
    if |ys| > 0 {
      CaptureStopped(c, ys[..|ys| - 1]);
    }
  }

  lemma {:induction false} CaptureAppend(c: Capture, xs: seq<string>, ys: seq<string>)
    ensures CaptureLines(c, xs + ys) == CaptureLines(CaptureLines(c, xs), ys)
    decreases |ys|
  {
    if |ys| == 0 {
      assert xs + ys == xs;
    } else {
      assert (xs + ys)[..|xs + ys| - 1] == xs + ys[..|ys| - 1];
      CaptureAppend(c, xs, ys[..|ys| - 1]);
    }
  }

  /** Once the loop breaks after `n` lines, the rest of the input changes nothing. */
  lemma CaptureStopsAt(lines: seq<string>, n: nat)
    requires n <= |lines| && CaptureLines(Idle, lines[..n]).stopped
    ensures CaptureLines(Idle, lines) == CaptureLines(Idle, lines[..n])
  {
    assert lines == lines[..n] + lines[n..];
    CaptureAppend(Idle, lines[..n], lines[n..]);
    CaptureStopped(CaptureLines(Idle, lines[..n]), lines[n..]);
  }

  /** The loop of `_extract_commit_message`, with its two `break`s. */
  method ExtractCommitMessage(response: string) returns (m: Option<string>)
    ensures m == CommitMessage(response)
  {
    var lines := Lines(response);
    assert lines[..|lines|] == lines;
    var inCommit := false;
    var commitLines: seq<string> := [];
    var i := 0;
    while i < |lines|
      invariant 0 <= i <= |lines|
      invariant CaptureLines(Idle, lines[..i]) == Capture(inCommit, commitLines, false)
    {
      var line := lines[i];
      var next := i + 1;
      CaptureNext(lines, i, next);
      if Contains(line, CommitHeading) {
        inCommit := true;
      } else if inCommit {
        if "```" <= line {
          if |commitLines| > 0 {
            CaptureStopsAt(lines, next);
            break;
          }
        } else if "###" <= line {
          CaptureStopsAt(lines, next);
          break;
        } else {
          commitLines := commitLines + [line];
        }
      }
      i := next;
    }
    if |commitLines| == 0 {
      m := None;
    } else {
      m := Some(Strip(Join(commitLines, "\n")));
    }
  }

  /** No line carries the heading: no commit message. */
  lemma {:induction false} NoHeadingNoCapture(lines: seq<string>)
    requires forall j :: 0 <= j < |lines| ==> !Contains(lines[j], CommitHeading)
    ensures CaptureLines(Idle, lines) == Idle
    decreases |lines|
  {
    if |lines| > 0 {
      NoHeadingNoCapture(lines[..|lines| - 1]);
    }
  }

  lemma CommitMessageAbsent(response: string)
    requires forall j :: 0 <= j < |Lines(response)| ==> !Contains(Lines(response)[j], CommitHeading)
    ensures CommitMessage(response) == None
  {
    NoHeadingNoCapture(Lines(response));
  }

  /** Captured lines are input lines that are not fences, not `###` lines and not the heading. */
  lemma {:induction false} CapturedLines(lines: seq<string>)
    ensures forall l :: l in CaptureLines(Idle, lines).taken ==>
      l in lines && !IsFence(l) && !("###" <= l) && !Contains(l, CommitHeading)
    decreases |lines|
  {
    if |lines| > 0 {
      var front := lines[..|lines| - 1];
      CapturedLines(front);
      assert forall l :: l in front ==> l in lines;
    }
  }

  /** The lines the capture keeps: those that carry no heading and are neither fences nor `###` lines. */
  function MessageLines(xs: seq<string>): (kept: seq<string>)
    ensures |kept| <= |xs|
    decreases |xs|
  {
    if |xs| == 0 then []
    else
      var x := xs[|xs| - 1];
      MessageLines(xs[..|xs| - 1]) + (if !Contains(x, CommitHeading) && !IsFence(x) && !("###" <= x) then [x] else [])
  }

  /** A line that ends the message once `taken` has been captured: a `###` line, or a fence after content. */
  predicate EndsMessage(line: string, taken: seq<string>) {
    !Contains(line, CommitHeading) && ("###" <= line || (IsFence(line) && |taken| > 0))
  }

  /** The message `_extract_commit_message` returns for the captured lines. */
  function MessageOf(taken: seq<string>): Option<string> {
    if |taken| == 0 then None else Some(Strip(Join(taken, "\n")))
  }

  /** Inside the message, every line before the ending one is captured unless it is a heading or a fence. */
  lemma {:induction false} CaptureInside(c: Capture, xs: seq<string>)
    requires c.inCommit && !c.stopped
    requires forall k :: 0 <= k < |xs| ==> !EndsMessage(xs[k], c.taken + MessageLines(xs[..k]))
    ensures CaptureLines(c, xs) == c.(taken := c.taken + MessageLines(xs))
    decreases |xs|
  {
    if |xs| > 0 {
      var n := |xs| - 1;
      var front := xs[..n];
      forall k | 0 <= k < |front|
        ensures !EndsMessage(front[k], c.taken + MessageLines(front[..k]))
      {
        assert front[k] == xs[k] && front[..k] == xs[..k];
      }
      CaptureInside(c, front);
      assert !EndsMessage(xs[n], c.taken + MessageLines(front));
      var x := xs[n];
      if !Contains(x, CommitHeading) && !IsFence(x) && !("###" <= x) {
        assert c.taken + MessageLines(front) + [x] == c.taken + (MessageLines(front) + [x]);
      }
    }
  }

  /** Up to the first heading nothing is captured; the heading starts the capture. */
  lemma CaptureHeading(lines: seq<string>, h: nat)
    requires h < |lines| && Contains(lines[h], CommitHeading)
    requires forall k :: 0 <= k < h ==> !Contains(lines[k], CommitHeading)
    ensures CaptureLines(Idle, lines[..h + 1]) == Capture(true, [], false)
  {
    assert forall k :: 0 <= k < h ==> lines[..h][k] == lines[k];
    NoHeadingNoCapture(lines[..h]);
    CaptureNext(lines, h, h + 1);
  }

  /** The state of the capture just before the line that ends the message. */
  lemma CaptureUpTo(lines: seq<string>, h: nat, e: nat)
    requires h < e <= |lines| && Contains(lines[h], CommitHeading)
    requires forall k :: 0 <= k < h ==> !Contains(lines[k], CommitHeading)
    requires forall k :: h < k < e ==> !EndsMessage(lines[k], MessageLines(lines[h + 1..k]))
    ensures CaptureLines(Idle, lines[..e]) == Capture(true, MessageLines(lines[h + 1..e]), false)
  {
    var xs := lines[h + 1..e];
    var start := Capture(true, [], false);
    CaptureHeading(lines, h);
    forall k | 0 <= k < |xs|
      ensures !EndsMessage(xs[k], start.taken + MessageLines(xs[..k]))
    {
      assert xs[k] == lines[h + 1 + k] && xs[..k] == lines[h + 1..h + 1 + k];
    }
    CaptureInside(start, xs);
    assert lines[..e] == lines[..h + 1] + xs;
    CaptureAppend(Idle, lines[..h + 1], xs);
  }

  /**
    The message, independently of the loop: with `h` the first line carrying the heading and `e`
    the first line after it that ends the message (or the end of input), the message is made of
    the lines strictly between the two that carry no heading and are neither fences nor `###` lines.
  */
  lemma CommitContent(response: string, h: nat, e: nat)
    requires h < e <= |Lines(response)|
    requires Contains(Lines(response)[h], CommitHeading)
    requires forall k :: 0 <= k < h ==> !Contains(Lines(response)[k], CommitHeading)
    requires forall k :: h < k < e ==> !EndsMessage(Lines(response)[k], MessageLines(Lines(response)[h + 1..k]))
    requires e == |Lines(response)| || EndsMessage(Lines(response)[e], MessageLines(Lines(response)[h + 1..e]))
    ensures CommitMessage(response) == MessageOf(MessageLines(Lines(response)[h + 1..e]))
  {
    var lines := Lines(response);
    CaptureUpTo(lines, h, e);
    if e == |lines| {
      assert lines[..e] == lines;
    } else {
      CaptureNext(lines, e, e + 1);
      if "###" <= lines[e] {
        assert lines[e][0] == '#' && !IsFence(lines[e]);
      }
      CaptureStopsAt(lines, e + 1);
    }
  }

  /** Fences right after the heading are skipped; the fence after the message ends it. */
  lemma LeadingFenceSkipped(heading: string, body: string, rest: seq<string>)
    requires Contains(heading, CommitHeading)
    requires !Contains(body, CommitHeading) && !IsFence(body) && !("###" <= body)
    ensures CaptureLines(Idle, [heading, "```", body, "```"] + rest) == Capture(true, [body], true)
  {
    var lines := [heading, "```", body, "```"];
    assert !Contains("```", CommitHeading) by {
      if Contains("```", CommitHeading) {
        ContainsLength("```", CommitHeading);
      }
    }
    CaptureNext(lines, 0, 1);
    assert lines[..0] == [];
    assert CaptureLines(Idle, lines[..1]) == Capture(true, [], false);
    CaptureNext(lines, 1, 2);
    assert CaptureLines(Idle, lines[..2]) == Capture(true, [], false);
    CaptureNext(lines, 2, 3);
    assert CaptureLines(Idle, lines[..3]) == Capture(true, [body], false);
    CaptureNext(lines, 3, 4);
    assert lines[..4] == lines;
    CaptureAppend(Idle, lines, rest);
    CaptureStopped(Capture(true, [body], true), rest);
  }

  // ---------------------------------------------------------------------------
  // The stage
  // ---------------------------------------------------------------------------

  /** `Implementer.should_skip`: the design is missing or did not complete. */
  function Skip(ctx: Context): (skip: bool)
    ensures skip <==> forall x :: IsFirstNamed(ctx.previousResults, "design", Some(x)) ==> x.status != Completed
  {
    UpstreamNotCompleted(ctx, "design")
  }

  /** The summary: the Summary section unless it is missing or empty. */
  function Summary(text: string): (s: string)
    ensures Section(text, "Summary").Some? && Section(text, "Summary").value != "" ==> s == Section(text, "Summary").value
    ensures Section(text, "Summary").None? || Section(text, "Summary").value == "" ==> s == "Implementation complete"
  {
    match Section(text, "Summary")
    case Some(s) => if s != "" then s else "Implementation complete"
    case None => "Implementation complete"
  }

  /** The commit message as the output dictionary stores it. */
  function CommitOutput(m: Option<string>): OutputValue {
    match m
    case Some(s) => Str(s)
    case None => Null
  }

  /** `Implementer.execute`: `generate` answers the one generator call, made once a design is present. */
  function Execute(generate: Context -> Generation, ctx: Context, startedAt: nat): (r: StageResult)
    ensures r.stageName == Name && r.startedAt == startedAt && r.completedAt == None
    ensures DesignResult(ctx).None? ==>
      r.status == Failed && r.summary == "No design results available" && r.error == Some("Design stage did not complete")
    ensures DesignResult(ctx).Some? && generate(ctx).GenError? ==>
      r.status == Failed && r.summary == "Failed to call LLM" && r.error == Some(generate(ctx).message)
    ensures DesignResult(ctx).Some? && generate(ctx).Reply? ==>
      var text := generate(ctx).text;
      && r.status == Completed && r.error == None
      && r.summary == Summary(text) && r.details == text && r.codeChanges == CodeChanges(text)
      && r.output == map["full_implementation" := Str(text), "commit_message" := CommitOutput(CommitMessage(text))]
  {
    if DesignResult(ctx).None? then
      NewStageResult(Name, Failed, startedAt).(
        summary := "No design results available",
        error := Some("Design stage did not complete"))
    else
      match generate(ctx)
      case GenError(message) =>
        NewStageResult(Name, Failed, startedAt).(summary := "Failed to call LLM", error := Some(message))
      case Reply(text) =>
        NewStageResult(Name, Completed, startedAt).(
          summary := Summary(text),
          details := text,
          codeChanges := CodeChanges(text),
          output := map["full_implementation" := Str(text), "commit_message" := CommitOutput(CommitMessage(text))])
  }

  /** The stage as the pipeline sees it. */
  function Agent(generate: Context -> Generation): (s: Stage)
    ensures s.name == Name
  {
    Stage(Name, Skip, (ctx: Context, t: nat) => Returned(Execute(generate, ctx, t)))
  }

  /** Run through `Stage.run`, a missing design is caught by the skip rule before `execute`. */
  lemma MissingDesignSkipped(generate: Context -> Generation, ctx: Context, startedAt: nat, finishedAt: nat)
    requires DesignResult(ctx).None?
    ensures Run(Agent(generate), ctx, startedAt, finishedAt).status == Skipped
  {
    assert Skip(ctx);
  }
}
