/**
  String helpers with the semantics of the Python `str` methods the source uses:
  `strip`, `split(sep)`, `split(sep, 1)`, `join`, `in` (substring), `lower`/`upper`,
  slicing `s[:n]`, `lstrip(chars)` and `str(int)`.
  Whitespace and case mapping are restricted to ASCII.
*/
module Text {
  import opened Wrappers

  // ---------------------------------------------------------------------------
  // Whitespace and strip()
  // ---------------------------------------------------------------------------

  /** The ASCII characters that Python's `str.isspace()` accepts. */
  predicate IsSpace(c: char) {
    c == ' ' || c == '\t' || c == '\n' || c == '\r' || c == '\U{000B}' || c == '\U{000C}'
    || ('\U{001C}' <= c <= '\U{001F}')
  }

  predicate AllSpace(s: string) {
    forall i :: 0 <= i < |s| ==> IsSpace(s[i])
  }

  /** Neither end of `s` is whitespace: `s.strip() == s`. */
  predicate Stripped(s: string) {
    |s| == 0 || (!IsSpace(s[0]) && !IsSpace(s[|s| - 1]))
  }

  /** `s.strip()`: the whitespace at both ends dropped. */
  function Strip(s: string): (r: string)
    ensures Stripped(r) && |r| <= |s|
    decreases |s|
  {
    if |s| == 0 then s
    else if IsSpace(s[0]) then Strip(s[1..])
    else if IsSpace(s[|s| - 1]) then Strip(s[..|s| - 1])
    else s
  }

  /** Every character of a slice occurs in the whole. */
  lemma SliceChars(s: string, a: nat, b: nat)
    requires a <= b <= |s|
    ensures forall c :: c in s[a..b] ==> c in s
  {
    forall c | c in s[a..b] ensures c in s {
      var i :| 0 <= i < b - a && s[a..b][i] == c;
      assert s[a + i] == c;
    }
  }

  /** strip only removes characters. */
  lemma {:induction false} StripChars(s: string)
    ensures forall c :: c in Strip(s) ==> c in s
    decreases |s|
  {
    if |s| > 0 && IsSpace(s[0]) {
      StripChars(s[1..]);
      SliceChars(s, 1, |s|);
    } else if |s| > 0 && IsSpace(s[|s| - 1]) {
      StripChars(s[..|s| - 1]);
      SliceChars(s, 0, |s| - 1);
    }
  }

  /** Text that does not start with whitespace keeps its first character. */
  lemma {:induction false} StripKeepsFirst(s: string)
    requires |s| > 0 && !IsSpace(s[0])
    ensures |Strip(s)| > 0 && Strip(s)[0] == s[0]
    decreases |s|
  {
    if IsSpace(s[|s| - 1]) {
      assert |s| > 1;
      StripKeepsFirst(s[..|s| - 1]);
    }
  }

  /**
    Text that does not start with whitespace loses only a suffix, and keeps every position up to
    its non-whitespace character `k`.
  */
  lemma {:induction false} StripKeepsPrefix(s: string, k: nat)
    requires |s| > 0 && !IsSpace(s[0]) && k < |s| && !IsSpace(s[k])
    ensures |Strip(s)| > k && Strip(s) == s[..|Strip(s)|]
    decreases |s|
  {
    if IsSpace(s[|s| - 1]) {
      StripKeepsPrefix(s[..|s| - 1], k);
    }
  }

  /** A string with no whitespace at either end is its own strip. */
  lemma StrippedIsFixpoint(s: string)
    requires Stripped(s)
    ensures Strip(s) == s
  {
  }

  /** strip is idempotent. */
  lemma StripIdempotent(s: string)
    ensures Strip(Strip(s)) == Strip(s)
  {
    StrippedIsFixpoint(Strip(s));
  }

  /** Leading whitespace before a stripped text is removed by strip. */
  lemma {:induction false} StripAfterSpaces(p: string, t: string)
    requires AllSpace(p) && Stripped(t)
    ensures Strip(p + t) == t
    decreases |p|
  {
    if |p| == 0 {
      assert p + t == t;
    } else {
      assert (p + t)[0] == p[0];
      assert (p + t)[1..] == p[1..] + t;
      StripAfterSpaces(p[1..], t);
    }
  }

  /** A string whose characters are all whitespace strips to "". */
  lemma {:induction false} StripAllSpace(s: string)
    requires AllSpace(s)
    ensures Strip(s) == ""
    decreases |s|
  {
    if |s| > 0 {
      StripAllSpace(s[1..]);
    }
  }

  /** A string with a non-whitespace character strips to a non-empty string. */
  lemma {:induction false} StripNonEmpty(s: string)
    requires !AllSpace(s)
    ensures Strip(s) != ""
    decreases |s|
  {
    var k :| 0 <= k < |s| && !IsSpace(s[k]);
    if IsSpace(s[0]) {
      assert s[1..][k - 1] == s[k];
      StripNonEmpty(s[1..]);
    } else if IsSpace(s[|s| - 1]) {
      assert s[..|s| - 1][k] == s[k];
      StripNonEmpty(s[..|s| - 1]);
    }
  }

  // ---------------------------------------------------------------------------
  // Substrings
  // ---------------------------------------------------------------------------

  /** Python's `sub in s`. */
  predicate Contains(s: string, sub: string)
    decreases |s|
  {
    sub <= s || (|s| > 0 && Contains(s[1..], sub))
  }

  lemma {:induction false} ContainsLength(s: string, sub: string)
    requires Contains(s, sub)
    ensures |sub| <= |s|
    decreases |s|
  {
    if !(sub <= s) {
      ContainsLength(s[1..], sub);
    }
  }

  /** A substring of `s` is a substring of text that has `s` as a suffix. */
  lemma {:induction false} ContainsInSuffix(p: string, s: string, sub: string)
    requires Contains(s, sub)
    ensures Contains(p + s, sub)
    decreases |p|
  {
    if |p| > 0 {
      assert (p + s)[1..] == p[1..] + s;
      ContainsInSuffix(p[1..], s, sub);
    } else {
      assert p + s == s;
    }
  }

  /** A substring of `s` is a substring of text that has `s` as a prefix. */
  lemma {:induction false} ContainsInPrefix(s: string, q: string, sub: string)
    requires Contains(s, sub)
    ensures Contains(s + q, sub)
    decreases |s|
  {
    if sub <= s {
      assert sub <= s + q;
    } else {
      assert (s + q)[1..] == s[1..] + q;
      ContainsInPrefix(s[1..], q, sub);
    }
  }

  /** If `s` contains `x + y`, it contains `y`. */
  lemma {:induction false} ContainsTail(s: string, x: string, y: string)
    requires Contains(s, x + y)
    ensures Contains(s, y)
    decreases |s|
  {
    if x + y <= s {
      assert s == s[..|x|] + s[|x|..];
      assert y <= s[|x|..];
      ContainsInSuffix(s[..|x|], s[|x|..], y);
    } else {
      ContainsTail(s[1..], x, y);
    }
  }

  /** A text containing `sub` contains each character of it: here the one at `i`. */
  lemma CharOfContained(s: string, sub: string, i: nat)
    requires Contains(s, sub) && i < |sub|
    ensures sub[i] in s
  {
    ContainsChars(s, sub);
  }

  /** Stripping adds no character: one missing from `s` is missing from `Strip(s)`. */
  lemma StripKeepsOut(s: string, c: char)
    requires c !in s
    ensures c !in Strip(s)
  {
    StripChars(s);
  }

  lemma {:induction false} ContainsChars(s: string, sub: string)
    requires Contains(s, sub)
    ensures forall c :: c in sub ==> c in s
    decreases |s|
  {
    if !(sub <= s) {
      ContainsChars(s[1..], sub);
    }
  }

  // ---------------------------------------------------------------------------
  // Case mapping (ASCII)
  // ---------------------------------------------------------------------------

  function LowerChar(c: char): char {
    if 'A' <= c <= 'Z' then (c as int + 32) as char else c
  }

  function UpperChar(c: char): char {
    if 'a' <= c <= 'z' then (c as int - 32) as char else c
  }

  /** `s.lower()` on ASCII letters. */
  function Lower(s: string): (r: string)
    ensures |r| == |s|
    ensures forall i :: 0 <= i < |s| ==> r[i] == LowerChar(s[i])
  {
    seq(|s|, i requires 0 <= i < |s| => LowerChar(s[i]))
  }

  /** `s.upper()` on ASCII letters. */
  function Upper(s: string): (r: string)
    ensures |r| == |s|
    ensures forall i :: 0 <= i < |s| ==> r[i] == UpperChar(s[i])
  {
    seq(|s|, i requires 0 <= i < |s| => UpperChar(s[i]))
  }

  // ---------------------------------------------------------------------------
  // Splitting and joining
  // ---------------------------------------------------------------------------

  /** The index of the first occurrence of `c` in `s`. */
  function FirstIndex(s: string, c: char): (i: nat)
    requires c in s
    ensures i < |s| && s[i] == c && c !in s[..i]
  {
    if s[0] == c then 0 else 1 + FirstIndex(s[1..], c)
  }

  /** Python's `s.split(c)` for a one-character separator. */
  function Split(s: string, c: char): (parts: seq<string>)
    ensures |parts| >= 1
    ensures forall k :: 0 <= k < |parts| ==> c !in parts[k]
    decreases |s|
  {
    if c in s then
      var i := FirstIndex(s, c);
      [s[..i]] + Split(s[i + 1..], c)
    else
      [s]
  }

  /** Python's `sep.join(parts)`. */
  function Join(parts: seq<string>, sep: string): string
    decreases |parts|
  {
    if |parts| == 0 then ""
    else if |parts| == 1 then parts[0]
    else parts[0] + sep + Join(parts[1..], sep)
  }

  /** The lines of a text: `text.split("\n")`. */
  function Lines(text: string): (lines: seq<string>)
    ensures |lines| >= 1
    ensures forall k :: 0 <= k < |lines| ==> '\n' !in lines[k]
  {
    Split(text, '\n')
  }

  /** The first occurrence of `c` is the one with no `c` before it. */
  lemma FirstIndexUnique(s: string, c: char, i: nat)
    requires i < |s| && s[i] == c && c !in s[..i]
    ensures FirstIndex(s, c) == i
  {
  }

  /** The lines of two texts joined by a newline are the lines of the first, then those of the second. */
  lemma {:induction false} LinesAppend(a: string, b: string)
    ensures Lines(a + "\n" + b) == Lines(a) + Lines(b)
    decreases |a|
  {
    var s := a + "\n" + b;
    if '\n' in a {
      var i := FirstIndex(a, '\n');
      assert s[..i] == a[..i] && s[i] == '\n';
      FirstIndexUnique(s, '\n', i);
      assert s[i + 1..] == a[i + 1..] + "\n" + b;
      LinesAppend(a[i + 1..], b);
    } else {
      assert s == a + ['\n'] + b;
      SplitCons(a, '\n', b);
      assert Split(a, '\n') == [a];
    }
  }

  /** A text without a newline is one line. */
  lemma OneLine(line: string)
    requires '\n' !in line
    ensures Lines(line) == [line]
  {
  }

  /** Splitting undoes joining with the same separator character. */
  lemma {:induction false} SplitJoin(parts: seq<string>, c: char)
    requires |parts| >= 1
    requires forall k :: 0 <= k < |parts| ==> c !in parts[k]
    ensures Split(Join(parts, [c]), c) == parts
    decreases |parts|
  {
    if |parts| > 1 {
      var s := Join(parts, [c]);
      var rest := Join(parts[1..], [c]);
      assert s == parts[0] + [c] + rest;
      assert s[|parts[0]|] == c;
      assert s[..|parts[0]|] == parts[0];
      assert FirstIndex(s, c) == |parts[0]| by {
        FirstIndexAfter(parts[0], c, rest);
      }
      assert s[|parts[0]| + 1..] == rest;
      SplitJoin(parts[1..], c);
    }
  }

  /** Lines joined by newlines are split back into those lines. */
  lemma LinesOfJoin(lines: seq<string>)
    requires |lines| >= 1 && forall k :: 0 <= k < |lines| ==> '\n' !in lines[k]
    ensures Lines(Join(lines, "\n")) == lines
  {
    SplitJoin(lines, '\n');
    assert "\n" == ['\n'];
  }

  /** Splitting `a + [c] + b` with no `c` in `a` finds `c` right after `a`. */
  lemma {:induction false} FirstIndexAfter(a: string, c: char, b: string)
    requires c !in a
    ensures FirstIndex(a + [c] + b, c) == |a|
    decreases |a|
  {
    if |a| > 0 {
      assert (a + [c] + b)[1..] == a[1..] + [c] + b;
      FirstIndexAfter(a[1..], c, b);
    }
  }

  /** Joining undoes splitting. */
  lemma {:induction false} JoinSplit(s: string, c: char)
    ensures Join(Split(s, c), [c]) == s
    decreases |s|
  {
    if c in s {
      var i := FirstIndex(s, c);
      var rest := Split(s[i + 1..], c);
      assert Split(s, c) == [s[..i]] + rest;
      assert (([s[..i]] + rest)[1..]) == rest;
      assert Join(Split(s, c), [c]) == s[..i] + [c] + Join(rest, [c]);
      JoinSplit(s[i + 1..], c);
      assert s == s[..i] + [c] + s[i + 1..];
    }
  }

  /** Split of `a + [c] + b`, where `a` has no `c`, starts with `a`. */
  lemma SplitCons(a: string, c: char, b: string)
    requires c !in a
    ensures Split(a + [c] + b, c) == [a] + Split(b, c)
  {
    var s := a + [c] + b;
    FirstIndexAfter(a, c, b);
    assert s[..|a|] == a;
    assert s[|a| + 1..] == b;
  }

  /** Joining two non-empty lists of parts puts one separator between them. */
  lemma {:induction false} JoinAppend(a: seq<string>, b: seq<string>, sep: string)
    requires |a| >= 1 && |b| >= 1
    ensures Join(a + b, sep) == Join(a, sep) + sep + Join(b, sep)
    decreases |a|
  {
    if |a| == 1 {
      assert (a + b)[1..] == b;
    } else {
      assert (a + b)[1..] == a[1..] + b;
      JoinAppend(a[1..], b, sep);
    }
  }

  /** The text after the last occurrence of `c`, `s.split(c)[-1]`. */
  function LastPart(s: string, c: char): (r: string)
    ensures c !in r
  {
    var parts := Split(s, c);
    parts[|parts| - 1]
  }

  /**
    `LastPart` is the text after the last `c`: a suffix of `s` without `c`, preceded by `c`
    whenever `s` has one, and the whole of `s` otherwise.
  */
  lemma {:induction false} LastPartSuffix(s: string, c: char)
    ensures var r := LastPart(s, c); |r| <= |s| && s[|s| - |r|..] == r
    ensures c in s ==> |LastPart(s, c)| < |s| && s[|s| - |LastPart(s, c)| - 1] == c
    ensures c !in s ==> LastPart(s, c) == s
    decreases |s|
  {
    if c in s {
      var i := FirstIndex(s, c);
      var t := s[i + 1..];
      var r := LastPart(t, c);
      assert LastPart(s, c) == r by {
        assert Split(s, c) == [s[..i]] + Split(t, c);
      }
      LastPartSuffix(t, c);
      assert |t| == |s| - i - 1;
      assert s[|s| - |r|..] == t[|t| - |r|..];
      if c in t {
        assert s[|s| - |r| - 1] == t[|t| - |r| - 1];
      } else {
        assert r == t;
        assert |s| - |r| - 1 == i;
      }
      assert s[|s| - |r| - 1] == c;
    }
  }

  /** A string holding `c` splits into at least two parts. */
  lemma SplitsInTwo(s: string, c: char)
    requires c in s
    ensures |Split(s, c)| >= 2
  {
  }

  /** The text after the first occurrence of `c`, `s.split(c, 1)[1]`. */
  function AfterFirst(s: string, c: char): string
    requires c in s
  {
    s[FirstIndex(s, c) + 1..]
  }

  /** After a key whose only `c` is its last character, `split(c, 1)[1]` is the rest of the line. */
  lemma AfterKey(key: string, c: char, rest: string)
    requires |key| >= 1 && key[|key| - 1] == c && c !in key[..|key| - 1]
    ensures c in key + rest
    ensures AfterFirst(key + rest, c) == rest
  {
    var s := key + rest;
    assert s == key[..|key| - 1] + [c] + rest;
    FirstIndexAfter(key[..|key| - 1], c, rest);
  }

  /** A key that ends with its only `:` puts that `:` into every line it starts. */
  lemma KeyColon(key: string, line: string)
    requires |key| > 0 && key[|key| - 1] == ':' && key <= line
    ensures ':' in line
  {
    assert line[|key| - 1] == ':';
  }

  /** `line.split(":", 1)[1].strip()`. */
  function FieldValue(line: string): (v: string)
    requires ':' in line
    ensures Stripped(v)
  {
    Strip(AfterFirst(line, ':'))
  }

  /** `[x.strip() for x in s.split(",")]`. */
  function Items(s: string): (items: seq<string>)
    ensures |items| == |Split(s, ',')|
    ensures forall k :: 0 <= k < |items| ==> Stripped(items[k]) && items[k] == Strip(Split(s, ',')[k])
  {
    var parts := Split(s, ',');
    seq(|parts|, k requires 0 <= k < |parts| => Strip(parts[k]))
  }

  /** Without a comma there is one item, the stripped text. */
  lemma ItemsSingle(s: string)
    requires ',' !in s
    ensures Items(s) == [Strip(s)]
  {
  }

  /** The first comma ends the first item. */
  lemma ItemsCons(a: string, rest: string)
    requires ',' !in a
    ensures Items(a + [','] + rest) == [Strip(a)] + Items(rest)
  {
    var s := a + [','] + rest;
    var l := Items(s);
    var r := [Strip(a)] + Items(rest);
    assert |l| == |r| by {
      SplitCons(a, ',', rest);
    }
    forall k | 0 <= k < |l|
      ensures l[k] == r[k]
    {
      SplitCons(a, ',', rest);
      if k > 0 {
        assert Split(s, ',')[k] == Split(rest, ',')[k - 1];
      }
    }
  }

  /** A `"**Key**: " + v` line read back: the value after the key's colon, stripped, is `v`. */
  lemma FieldAfterKey(key: string, v: string)
    requires |key| >= 1 && key[|key| - 1] == ':' && ':' !in key[..|key| - 1]
    requires Stripped(v)
    ensures ':' in key + " " + v && FieldValue(key + " " + v) == v
  {
    assert key + " " + v == key + (" " + v);
    AfterKey(key, ':', " " + v);
    StripAfterSpaces(" ", v);
  }

  /** A text that differs from `key` at position `i` does not start with `key`. */
  lemma NotPrefixAt(key: string, line: string, i: nat)
    requires i < |key| && i < |line| && key[i] != line[i]
    ensures !(key <= line)
  {
  }

  /** `"".join(parts)`. */
  function Concat(parts: seq<string>): string
    decreases |parts|
  {
    if |parts| == 0 then "" else parts[0] + Concat(parts[1..])
  }

  lemma {:induction false} ConcatAppend(a: seq<string>, b: seq<string>)
    ensures Concat(a + b) == Concat(a) + Concat(b)
    decreases |a|
  {
    if |a| == 0 {
      assert a + b == b;
    } else {
      assert (a + b)[1..] == a[1..] + b;
      ConcatAppend(a[1..], b);
    }
  }

  /** No line has a newline in it. */
  predicate SingleLines(lines: seq<string>) {
    forall k :: 0 <= k < |lines| ==> '\n' !in lines[k]
  }

  lemma SingleLinesAppend(a: seq<string>, b: seq<string>)
    requires SingleLines(a) && SingleLines(b)
    ensures SingleLines(a + b)
  {
    assert forall k :: 0 <= k < |a + b| ==> (a + b)[k] == if k < |a| then a[k] else b[k - |a|];
  }

  /** Parts that are lines each followed by a newline concatenate to those lines, terminated. */
  lemma {:induction false} ConcatTerminated(parts: seq<string>, lines: seq<string>)
    requires |parts| == |lines|
    requires forall k :: 0 <= k < |parts| ==> parts[k] == lines[k] + "\n"
    ensures Concat(parts) == Terminated(lines)
    decreases |parts|
  {
    if |parts| > 0 {
      assert forall k :: 0 <= k < |parts| - 1 ==> parts[1..][k] == parts[k + 1] && lines[1..][k] == lines[k + 1];
      ConcatTerminated(parts[1..], lines[1..]);
    }
  }

  /** Every line followed by a newline: the text a sequence of `"...\n"` writes produces. */
  function Terminated(lines: seq<string>): string
    decreases |lines|
  {
    if |lines| == 0 then "" else lines[0] + "\n" + Terminated(lines[1..])
  }

  lemma {:induction false} TerminatedAppend(a: seq<string>, b: seq<string>)
    ensures Terminated(a + b) == Terminated(a) + Terminated(b)
    decreases |a|
  {
    if |a| == 0 {
      assert a + b == b;
    } else {
      assert (a + b)[1..] == a[1..] + b;
      TerminatedAppend(a[1..], b);
    }
  }

  /** Newline-terminated lines are the newline-joined lines with an empty last line. */
  lemma {:induction false} TerminatedJoin(lines: seq<string>)
    ensures Terminated(lines) == Join(lines + [""], "\n")
    decreases |lines|
  {
    if |lines| > 0 {
      assert (lines + [""])[1..] == lines[1..] + [""];
      TerminatedJoin(lines[1..]);
    }
  }

  /** Splitting newline-terminated single lines gives them back, followed by one empty line. */
  lemma TerminatedLines(lines: seq<string>)
    requires SingleLines(lines)
    ensures Lines(Terminated(lines)) == lines + [""]
  {
    TerminatedJoin(lines);
    SplitJoin(lines + [""], '\n');
  }

  // ---------------------------------------------------------------------------
  // Other str operations
  // ---------------------------------------------------------------------------

  /** `s[:n]`. */
  function Take(s: string, n: nat): (r: string)
    ensures r <= s
    ensures |r| == if |s| <= n then |s| else n
  {
    if |s| <= n then s else s[..n]
  }

  /** `s.lstrip(chars)`: drop every leading character that is in `chars`. */
  function LStripChars(s: string, chars: set<char>): (r: string)
    ensures |r| <= |s| && (|r| == 0 || r[0] !in chars)
    decreases |s|
  {
    if |s| > 0 && s[0] in chars then LStripChars(s[1..], chars) else s
  }

  /** `lstrip(chars)` keeps a suffix, after a prefix made only of `chars`. */
  lemma {:induction false} LStripSuffix(s: string, chars: set<char>)
    ensures LStripChars(s, chars) == s[|s| - |LStripChars(s, chars)|..]
    ensures forall i :: 0 <= i < |s| - |LStripChars(s, chars)| ==> s[i] in chars
    decreases |s|
  {
    if |s| > 0 && s[0] in chars {
      LStripSuffix(s[1..], chars);
      assert forall i :: 1 <= i < |s| ==> s[1..][i - 1] == s[i];
    }
  }

  /** `lstrip(chars)` drops exactly the longest prefix made only of `chars`. */
  lemma {:induction false} LStripAt(s: string, chars: set<char>, m: nat)
    requires m <= |s| && (forall i :: 0 <= i < m ==> s[i] in chars) && (m == |s| || s[m] !in chars)
    ensures LStripChars(s, chars) == s[m..]
    decreases m
  {
    if m > 0 {
      assert forall i :: 0 <= i < m - 1 ==> s[1..][i] == s[i + 1];
      LStripAt(s[1..], chars, m - 1);
      assert s[1..][m - 1..] == s[m..];
    }
  }

  /** The ASCII decimal digits, as `str.isdigit()` restricted to ASCII. */
  predicate IsDigit(c: char) {
    '0' <= c <= '9'
  }

  function DigitChar(d: nat): (c: char)
    requires d < 10
    ensures IsDigit(c)
  {
    ('0' as int + d) as char
  }

  /** Python's `str(n)` for a non-negative integer. */
  function NatToString(n: nat): (s: string)
    ensures |s| >= 1
    ensures forall i :: 0 <= i < |s| ==> IsDigit(s[i])
  {
    if n < 10 then [DigitChar(n)] else NatToString(n / 10) + [DigitChar(n % 10)]
  }

  // ---------------------------------------------------------------------------
  // Sequence helpers
  // ---------------------------------------------------------------------------

  /** Keep the values `f` produces, in order: the shape of `[g(x) for x in xs if p(x)]`. */
  function FilterMap<T, U>(xs: seq<T>, f: T -> Option<U>): (ys: seq<U>)
    ensures |ys| <= |xs|
    decreases |xs|
  {
    if |xs| == 0 then []
    else
      var rest := FilterMap(xs[..|xs| - 1], f);
      match f(xs[|xs| - 1])
      case Some(y) => rest + [y]
      case None => rest
  }

  /** One more input: FilterMap over a one-longer prefix. */
  lemma FilterMapNext<T, U>(xs: seq<T>, f: T -> Option<U>, i: nat, next: nat)
    requires i < |xs| && next == i + 1
    ensures FilterMap(xs[..next], f) == FilterMap(xs[..i], f) + (if f(xs[i]).Some? then [f(xs[i]).value] else [])
  {
    assert xs[..next][..i] == xs[..i];
  }

  /** FilterMap over a concatenation is the concatenation of the two FilterMaps. */
  lemma {:induction false} FilterMapAppend<T, U>(xs: seq<T>, ys: seq<T>, f: T -> Option<U>)
    ensures FilterMap(xs + ys, f) == FilterMap(xs, f) + FilterMap(ys, f)
    decreases |ys|
  {
    if |ys| == 0 {
      assert xs + ys == xs;
    } else {
      assert (xs + ys)[..|xs + ys| - 1] == xs + ys[..|ys| - 1];
      FilterMapAppend(xs, ys[..|ys| - 1], f);
    }
  }

  /** FilterMap of a prefix is a prefix of FilterMap of the whole. */
  lemma {:induction false} FilterMapPrefix<T, U>(xs: seq<T>, f: T -> Option<U>, n: nat)
    requires n <= |xs|
    ensures FilterMap(xs[..n], f) <= FilterMap(xs, f)
    decreases |xs| - n
  {
    if n == |xs| {
      assert xs[..n] == xs;
    } else {
      FilterMapNext(xs, f, n, n + 1);
      FilterMapPrefix(xs, f, n + 1);
    }
  }

  /** Every value kept by FilterMap was produced from some input, in input order. */
  lemma {:induction false} FilterMapSource<T, U>(xs: seq<T>, f: T -> Option<U>, k: nat)
    requires k < |FilterMap(xs, f)|
    ensures exists i :: 0 <= i < |xs| && f(xs[i]) == Some(FilterMap(xs, f)[k])
    decreases |xs|
  {
    var rest := FilterMap(xs[..|xs| - 1], f);
    if k < |rest| {
      FilterMapSource(xs[..|xs| - 1], f, k);
      var i :| 0 <= i < |xs| - 1 && f(xs[..|xs| - 1][i]) == Some(rest[k]);
      assert xs[..|xs| - 1][i] == xs[i];
    } else {
      assert f(xs[|xs| - 1]) == Some(FilterMap(xs, f)[k]);
    }
  }

  /** A value is produced for every input that `f` maps to some value. */
  lemma {:induction false} FilterMapComplete<T, U>(xs: seq<T>, f: T -> Option<U>, i: nat)
    requires i < |xs| && f(xs[i]).Some?
    ensures f(xs[i]).value in FilterMap(xs, f)
    decreases |xs|
  {
    if i < |xs| - 1 {
      assert xs[..|xs| - 1][i] == xs[i];
      FilterMapComplete(xs[..|xs| - 1], f, i);
    }
  }

  /** The first value `f` produces along `xs`: the shape of a search loop with an early return. */
  function FirstSome<T, U(==)>(xs: seq<T>, f: T -> Option<U>): (r: Option<U>)
    ensures r.None? <==> forall i :: 0 <= i < |xs| ==> f(xs[i]).None?
    ensures r.Some? ==> exists i :: 0 <= i < |xs| && f(xs[i]) == r && forall j :: 0 <= j < i ==> f(xs[j]).None?
    decreases |xs|
  {
    if |xs| == 0 then None
    else if f(xs[0]).Some? then f(xs[0])
    else
      var r := FirstSome(xs[1..], f);
      FirstSomeShift(xs, f, r);
      r
  }

  /** One step of a search loop over `xs[i..]`: stop at `xs[i]`, or go on with `xs[next..]`. */
  lemma FirstSomeAt<T, U>(xs: seq<T>, f: T -> Option<U>, i: nat, next: nat)
    requires i < |xs| && next == i + 1
    ensures FirstSome(xs[i..], f) == if f(xs[i]).Some? then f(xs[i]) else FirstSome(xs[next..], f)
  {
    assert xs[i..][0] == xs[i];
    assert xs[i..][1..] == xs[next..];
  }

  /** A search stops at the first input `f` maps to a value. */
  lemma {:induction false} FirstSomeAtFirst<T, U>(xs: seq<T>, f: T -> Option<U>, i: nat)
    requires i < |xs| && f(xs[i]).Some?
    requires forall j :: 0 <= j < i ==> f(xs[j]).None?
    ensures FirstSome(xs, f) == f(xs[i])
    decreases i
  {
    if i > 0 {
      assert forall j :: 0 <= j < i - 1 ==> xs[1..][j] == xs[j + 1];
      FirstSomeAtFirst(xs[1..], f, i - 1);
    }
  }

  /** A witness for the tail of `xs` is, shifted by one, a witness for `xs`. */
  lemma FirstSomeShift<T, U>(xs: seq<T>, f: T -> Option<U>, r: Option<U>)
    requires |xs| > 0 && f(xs[0]).None?
    requires r.None? <==> forall i :: 0 <= i < |xs| - 1 ==> f(xs[1..][i]).None?
    requires r.Some? ==> exists i :: 0 <= i < |xs| - 1 && f(xs[1..][i]) == r && forall j :: 0 <= j < i ==> f(xs[1..][j]).None?
    ensures r.None? <==> forall i :: 0 <= i < |xs| ==> f(xs[i]).None?
    ensures r.Some? ==> exists i :: 0 <= i < |xs| && f(xs[i]) == r && forall j :: 0 <= j < i ==> f(xs[j]).None?
  {
    assert forall i :: 1 <= i < |xs| ==> xs[1..][i - 1] == xs[i];
    if r.Some? {
      var i :| 0 <= i < |xs| - 1 && f(xs[1..][i]) == r && forall j :: 0 <= j < i ==> f(xs[1..][j]).None?;
      assert f(xs[i + 1]) == r;
      assert forall j :: 0 <= j < i + 1 ==> f(xs[j]).None? by {
        forall j | 0 <= j < i + 1 ensures f(xs[j]).None? {
          if j > 0 { assert xs[1..][j - 1] == xs[j]; }
        }
      }
    }
  }
}
