/**
  The query builders of `o11y/queries.py`: a PromQL builder, a LogQL builder and a TraceQL
  builder, each an object whose methods update its fields and return it, and the fixed
  query templates an investigation starts from.
*/
module Queries {
  import opened Wrappers
  import opened Text

  // ---------------------------------------------------------------------------
  // Label dictionaries
  // ---------------------------------------------------------------------------

  /** A Python `dict` of labels: its entries in insertion order. */
  type Labels = seq<(string, string)>

  predicate HasKey(d: Labels, k: string) {
    exists i :: 0 <= i < |d| && d[i].0 == k
  }

  /** The invariant of a dictionary: no key occurs twice. */
  predicate UniqueKeys(d: Labels) {
    forall i, j :: 0 <= i < j < |d| ==> d[i].0 != d[j].0
  }

  /** `d[k] = v`: an existing key keeps its place and gets the new value, a new key goes last. */
  function Put(d: Labels, k: string, v: string): (r: Labels)
    requires UniqueKeys(d)
    ensures UniqueKeys(r)
    ensures HasKey(d, k) ==>
      |r| == |d| && forall i :: 0 <= i < |d| ==> r[i] == (if d[i].0 == k then (k, v) else d[i])
    ensures !HasKey(d, k) ==> r == d + [(k, v)]
    decreases |d|
  {
    if |d| == 0 then [(k, v)]
    else if d[0].0 == k then [(k, v)] + d[1..]
    else
      var rest := Put(d[1..], k, v);
      assert HasKey(d, k) ==> HasKey(d[1..], k) by {
        if HasKey(d, k) {
          var i :| 0 <= i < |d| && d[i].0 == k;
          assert d[1..][i - 1].0 == k;
        }
      }
      assert !HasKey(d, k) ==> !HasKey(d[1..], k) by {
        if HasKey(d[1..], k) {
          var i :| 0 <= i < |d[1..]| && d[1..][i].0 == k;
          assert d[i + 1].0 == k;
        }
      }
      [d[0]] + rest
  }

  /** The value stored under `k`, if any. */
  function Lookup(d: Labels, k: string): (r: Option<string>)
    ensures r.Some? <==> HasKey(d, k)
    decreases |d|
  {
    if |d| == 0 then None
    else if d[0].0 == k then Some(d[0].1)
    else
      var r := Lookup(d[1..], k);
      assert HasKey(d, k) <==> HasKey(d[1..], k) by {
        if HasKey(d, k) {
          var i :| 0 <= i < |d| && d[i].0 == k;
          assert d[1..][i - 1].0 == k;
        }
        if HasKey(d[1..], k) {
          var i :| 0 <= i < |d[1..]| && d[1..][i].0 == k;
          assert d[i + 1].0 == k;
        }
      }
      r
  }

  lemma {:induction false} LookupAt(d: Labels, i: nat)
    requires UniqueKeys(d) && i < |d|
    ensures Lookup(d, d[i].0) == Some(d[i].1)
    decreases i
  {
    if i > 0 {
      assert d[1..][i - 1] == d[i];
      LookupAt(d[1..], i - 1);
    }
  }

  /** After `d[k] = v`, `k` maps to `v` and every other key to what it mapped to before. */
  lemma {:induction false} PutLookup(d: Labels, k: string, v: string, other: string)
    requires UniqueKeys(d)
    ensures Lookup(Put(d, k, v), k) == Some(v)
    ensures other != k ==> Lookup(Put(d, k, v), other) == Lookup(d, other)
  {
    PutFinds(d, k, v);
    if other != k {
      if HasKey(d, other) {
        PutKeepsPresent(d, k, v, other);
      } else {
        PutKeepsAbsent(d, k, v, other);
      }
    }
  }

  lemma PutFinds(d: Labels, k: string, v: string)
    requires UniqueKeys(d)
    ensures Lookup(Put(d, k, v), k) == Some(v)
  {
    var r := Put(d, k, v);
    if HasKey(d, k) {
      var i :| 0 <= i < |d| && d[i].0 == k;
      assert r[i] == (k, v);
      LookupAt(r, i);
    } else {
      assert r[|d|] == (k, v);
      LookupAt(r, |d|);
    }
  }

  lemma PutKeepsPresent(d: Labels, k: string, v: string, other: string)
    requires UniqueKeys(d) && other != k && HasKey(d, other)
    ensures Lookup(Put(d, k, v), other) == Lookup(d, other)
  {
    var r := Put(d, k, v);
    var i :| 0 <= i < |d| && d[i].0 == other;
    assert r[i] == d[i];
    LookupAt(d, i);
    LookupAt(r, i);
  }

  lemma PutKeepsAbsent(d: Labels, k: string, v: string, other: string)
    requires UniqueKeys(d) && other != k && !HasKey(d, other)
    ensures Lookup(Put(d, k, v), other) == Lookup(d, other)
  {
    var r := Put(d, k, v);
    forall i | 0 <= i < |r|
      ensures r[i].0 != other
    {
      if i < |d| {
        assert d[i].0 != other;
        if HasKey(d, k) {
          assert r[i] == (if d[i].0 == k then (k, v) else d[i]);
        } else {
          assert r[i] == d[i];
        }
      } else if !HasKey(d, k) {
        assert r[i] == (k, v);
      }
    }
    assert !HasKey(r, other);
  }

  /** One entry as a matcher, `f'{k}="{v}"'`. */
  function Matcher(k: string, v: string): string {
    k + "=\"" + v + "\""
  }

  /** The list comprehension of matchers, one per entry in insertion order. */
  function Matchers(d: Labels): (ms: seq<string>)
    ensures |ms| == |d|
    ensures forall i :: 0 <= i < |d| ==> ms[i] == Matcher(d[i].0, d[i].1)
    decreases |d|
  {
    if |d| == 0 then [] else Matchers(d[..|d| - 1]) + [Matcher(d[|d| - 1].0, d[|d| - 1].1)]
  }

  /** A brace selector: the matchers joined by `", "` inside braces. */
  function Selector(d: Labels): (s: string)
    ensures |s| >= 2 && s[0] == '{' && s[|s| - 1] == '}'
  {
    "{" + Join(Matchers(d), ", ") + "}"
  }

  lemma EmptySelector()
    ensures Selector([]) == "{}"
  {
  }

  /**
    Adding a new label to a non-empty dictionary adds `, k="v"` just before the closing brace:
    the matchers stay in insertion order.
  */
  lemma {:induction false} SelectorNewKey(d: Labels, k: string, v: string)
    requires UniqueKeys(d) && |d| > 0 && !HasKey(d, k)
    ensures Selector(Put(d, k, v)) == "{" + Join(Matchers(d), ", ") + ", " + Matcher(k, v) + "}"
  {
    var r := Put(d, k, v);
    assert Matchers(r) == Matchers(d) + [Matcher(k, v)] by {
      assert r == d + [(k, v)];
      assert r[..|r| - 1] == d;
    }
    JoinAppend(Matchers(d), [Matcher(k, v)], ", ");
  }

  /** Overwriting a label changes only its own matcher, in place. */
  lemma {:induction false} MatchersOverwrite(d: Labels, k: string, v: string, i: nat)
    requires UniqueKeys(d) && HasKey(d, k) && i < |d|
    ensures |Matchers(Put(d, k, v))| == |Matchers(d)|
    ensures Matchers(Put(d, k, v))[i] == (if d[i].0 == k then Matcher(k, v) else Matchers(d)[i])
  {
  }

  // ---------------------------------------------------------------------------
  // Python truthiness of the optional strings
  // ---------------------------------------------------------------------------

  /** `if x:` on an `Optional[str]`: neither `None` nor the empty string. */
  predicate Given(x: Option<string>) {
    x.Some? && |x.value| > 0
  }

  // ---------------------------------------------------------------------------
  // MetricsQuery
  // ---------------------------------------------------------------------------

  /** `MetricsQuery.build` on the builder's four fields. */
  function MetricText(base: string, labels: Labels, rate: Option<string>, aggregation: Option<string>): (q: string)
    ensures q == base <==> |labels| == 0 && !Given(rate) && !Given(aggregation)
    ensures Given(aggregation) ==> aggregation.value + "(" <= q && q[|q| - 1] == ')'
    ensures !Given(aggregation) && Given(rate) ==> "rate(" <= q && q[|q| - 2..] == "])"
    ensures !Given(aggregation) && !Given(rate) ==> base <= q
  {
    var selector := if |labels| == 0 then "" else Selector(labels);
    var plain := base + selector;
    var rated := if Given(rate) then "rate(" + plain + "[" + rate.value + "])" else plain;
    assert |plain| == |base| <==> |labels| == 0;
    assert Given(rate) ==> |rated| > |plain|;
    var q := if Given(aggregation) then aggregation.value + "(" + rated + ")" else rated;
    assert Given(aggregation) ==> |q| > |rated| && q[..|aggregation.value| + 1] == aggregation.value + "(";
    assert !Given(aggregation) && Given(rate) ==> q[..5] == "rate(";
    assert !Given(aggregation) && !Given(rate) ==> q[..|base|] == base;
    q
  }

  /** The rate wraps the selector and the aggregation wraps the rate. */
  lemma MetricLayers(base: string, labels: Labels, window: string, aggregation: string)
    requires |labels| > 0 && |window| > 0 && |aggregation| > 0
    ensures MetricText(base, labels, Some(window), Some(aggregation))
      == aggregation + "(rate(" + base + Selector(labels) + "[" + window + "]))"
  {
    var plain := base + Selector(labels);
    var rated := "rate(" + plain + "[" + window + "])";
    assert MetricText(base, labels, Some(window), Some(aggregation)) == aggregation + "(" + rated + ")";
    Layers(aggregation, plain, window);
  }

  /** The bracketing of the nested layers does not matter. */
  lemma Layers(a: string, p: string, w: string)
    ensures a + "(" + ("rate(" + p + "[" + w + "])") + ")" == a + "(rate(" + p + "[" + w + "]))"
  {
    var o, r, b, c, e := "(", "rate(", "[", "])", ")";
    assert "(rate(" == o + r;
    assert "]))" == c + e;
    assert a + o + (r + p + b + w + c) + e == a + (o + r) + p + b + w + (c + e);
  }

  /** A PromQL query under construction. */
  class MetricsQuery {
    var baseMetric: string
    var labels: Labels
    var rateWindow: Option<string>
    var aggregation: Option<string>

    ghost predicate Valid()
      reads this
    {
      UniqueKeys(labels)
    }

    /** The dataclass constructor: the label dictionary given has no repeated key. */
    constructor(baseMetric: string, labels: Labels, rateWindow: Option<string>, aggregation: Option<string>)
      requires UniqueKeys(labels)
      ensures Valid()
      ensures this.baseMetric == baseMetric && this.labels == labels
      ensures this.rateWindow == rateWindow && this.aggregation == aggregation
    {
      this.baseMetric := baseMetric;
      this.labels := labels;
      this.rateWindow := rateWindow;
      this.aggregation := aggregation;
    }

    function Build(): (q: string)
      reads this
      ensures q == MetricText(baseMetric, labels, rateWindow, aggregation)
    {
      MetricText(baseMetric, labels, rateWindow, aggregation)
    }

    /** `with_label`: `labels[key] = value`. */
    method WithLabel(key: string, value: string) returns (self: MetricsQuery)
      requires Valid()
      modifies this
      ensures Valid() && self == this
      ensures labels == Put(old(labels), key, value)
      ensures baseMetric == old(baseMetric) && rateWindow == old(rateWindow) && aggregation == old(aggregation)
    {
      labels := Put(labels, key, value);
      self := this;
    }

    /** `with_rate(window)`; the source's default window is `"5m"`. */
    method WithRate(window: string) returns (self: MetricsQuery)
      requires Valid()
      modifies this
      ensures Valid() && self == this
      ensures rateWindow == Some(window)
      ensures baseMetric == old(baseMetric) && labels == old(labels) && aggregation == old(aggregation)
    {
      rateWindow := Some(window);
      self := this;
    }

    /** `sum()`: replaces whatever aggregation was set before. */
    method Sum() returns (self: MetricsQuery)
      requires Valid()
      modifies this
      ensures Valid() && self == this
      ensures aggregation == Some("sum")
      ensures baseMetric == old(baseMetric) && labels == old(labels) && rateWindow == old(rateWindow)
    {
      aggregation := Some("sum");
      self := this;
    }

    /** `avg()`: replaces whatever aggregation was set before. */
    method Avg() returns (self: MetricsQuery)
      requires Valid()
      modifies this
      ensures Valid() && self == this
      ensures aggregation == Some("avg")
      ensures baseMetric == old(baseMetric) && labels == old(labels) && rateWindow == old(rateWindow)
    {
      aggregation := Some("avg");
      self := this;
    }
  }

  // ---------------------------------------------------------------------------
  // LogQuery
  // ---------------------------------------------------------------------------

  /** The text one loop of `LogQuery.build` adds: `pre + x + post` for every `x`, in order. */
  function Piped(pre: string, xs: seq<string>, post: string): string
    decreases |xs|
  {
    if |xs| == 0 then "" else Piped(pre, xs[..|xs| - 1], post) + pre + xs[|xs| - 1] + post
  }

  lemma PipedStep(pre: string, xs: seq<string>, post: string, i: nat)
    requires i < |xs|
    ensures Piped(pre, xs[..i + 1], post) == Piped(pre, xs[..i], post) + pre + xs[i] + post
  {
    assert xs[..i + 1][..i] == xs[..i];
  }

  lemma {:induction false} PipedAppend(pre: string, xs: seq<string>, post: string, x: string)
    ensures Piped(pre, xs + [x], post) == Piped(pre, xs, post) + pre + x + post
  {
    assert (xs + [x])[..|xs|] == xs;
  }

  /** `LogQuery.build` on the builder's four fields: the selector, then the three lists. */
  function LogText(selector: Labels, lineFilters: seq<string>, labelFilters: seq<string>, parsers: seq<string>): (q: string)
    ensures Selector(selector) <= q
  {
    Selector(selector) + Piped(" |= \"", lineFilters, "\"") + Piped(" | ", labelFilters, "") + Piped(" | ", parsers, "")
  }

  /** The four fields of a `LogQuery`, as a value. */
  datatype LogParts = LogParts(selector: Labels, lineFilters: seq<string>, labelFilters: seq<string>, parsers: seq<string>)

  function Rendered(p: LogParts): string {
    LogText(p.selector, p.lineFilters, p.labelFilters, p.parsers)
  }

  /** The builder methods of `LogQuery`. */
  datatype LogCall = Job(name: string) | ContainsText(text: string) | Json | Logfmt

  /** What one builder call does to the fields. */
  function Applied(p: LogParts, c: LogCall): (r: LogParts)
    requires UniqueKeys(p.selector)
    ensures UniqueKeys(r.selector)
  {
    match c
    case Job(name) => p.(selector := Put(p.selector, "job", name))
    case ContainsText(text) => p.(lineFilters := p.lineFilters + [text])
    case Json => p.(parsers := p.parsers + ["json"])
    case Logfmt => p.(parsers := p.parsers + ["logfmt"])
  }

  function ApplyAll(p: LogParts, cs: seq<LogCall>): (r: LogParts)
    requires UniqueKeys(p.selector)
    ensures UniqueKeys(r.selector)
    decreases |cs|
  {
    if |cs| == 0 then p else ApplyAll(Applied(p, cs[0]), cs[1..])
  }

  /** The texts of the `contains` calls, in call order. */
  function ContainedTexts(cs: seq<LogCall>): seq<string>
    decreases |cs|
  {
    if |cs| == 0 then []
    else (if cs[0].ContainsText? then [cs[0].text] else []) + ContainedTexts(cs[1..])
  }

  /** The parsers the `json`/`logfmt` calls name, in call order. */
  function ParserNames(cs: seq<LogCall>): seq<string>
    decreases |cs|
  {
    if |cs| == 0 then []
    else (if cs[0].Json? then ["json"] else if cs[0].Logfmt? then ["logfmt"] else []) + ParserNames(cs[1..])
  }

  /**
    Whatever the order of the calls, every `contains` lands in the line filters and every
    `json`/`logfmt` in the parsers, each list in its own call order, and the label filters are
    left alone: `build` then emits them in its fixed order.
  */
  lemma {:induction false} ApplyAllLists(p: LogParts, cs: seq<LogCall>)
    requires UniqueKeys(p.selector)
    ensures ApplyAll(p, cs).lineFilters == p.lineFilters + ContainedTexts(cs)
    ensures ApplyAll(p, cs).parsers == p.parsers + ParserNames(cs)
    ensures ApplyAll(p, cs).labelFilters == p.labelFilters
    decreases |cs|
  {
    if |cs| > 0 {
      var q := Applied(p, cs[0]);
      ApplyAllLists(q, cs[1..]);
      assert ApplyAll(p, cs) == ApplyAll(q, cs[1..]);
      var t := if cs[0].ContainsText? then [cs[0].text] else [];
      var n := if cs[0].Json? then ["json"] else if cs[0].Logfmt? then ["logfmt"] else [];
      assert ContainedTexts(cs) == t + ContainedTexts(cs[1..]);
      assert ParserNames(cs) == n + ParserNames(cs[1..]);
      assert q.lineFilters == p.lineFilters + t && q.parsers == p.parsers + n;
      AppendAssoc(p.lineFilters, t, ContainedTexts(cs[1..]));
      AppendAssoc(p.parsers, n, ParserNames(cs[1..]));
    }
  }

  /** Two calls of different kinds give the same query in either order. */
  lemma CallsCommute(p: LogParts, a: LogCall, b: LogCall)
    requires UniqueKeys(p.selector)
    requires a.Job? != b.Job? || a.ContainsText? != b.ContainsText?
    ensures UniqueKeys(Applied(p, a).selector) && UniqueKeys(Applied(p, b).selector)
    ensures Rendered(Applied(Applied(p, a), b)) == Rendered(Applied(Applied(p, b), a))
  {
  }

  /** A `contains` after everything else adds its filter at the very end only when nothing follows the line filters. */
  lemma {:induction false} ContainsAtEnd(p: LogParts, text: string)
    requires UniqueKeys(p.selector) && p.labelFilters == [] && p.parsers == []
    ensures Rendered(Applied(p, ContainsText(text))) == Rendered(p) + " |= \"" + text + "\""
  {
    PipedAppend(" |= \"", p.lineFilters, "\"", text);
  }

  /** A parser is always the last thing `build` emits. */
  lemma {:induction false} ParserAtEnd(p: LogParts, c: LogCall)
    requires UniqueKeys(p.selector) && (c.Json? || c.Logfmt?)
    ensures Rendered(Applied(p, c)) == Rendered(p) + " | " + (if c.Json? then "json" else "logfmt")
  {
    var name := if c.Json? then "json" else "logfmt";
    assert Applied(p, c) == p.(parsers := p.parsers + [name]);
    PipedAppend(" | ", p.parsers, "", name);
  }

  /** A LogQL query under construction. */
  class LogQuery {
    var streamSelector: Labels
    var lineFilters: seq<string>
    var labelFilters: seq<string>
    var parsers: seq<string>

    ghost predicate Valid()
      reads this
    {
      UniqueKeys(streamSelector)
    }

    function Parts(): LogParts
      reads this
    {
      LogParts(streamSelector, lineFilters, labelFilters, parsers)
    }

    constructor(streamSelector: Labels, lineFilters: seq<string>, labelFilters: seq<string>, parsers: seq<string>)
      requires UniqueKeys(streamSelector)
      ensures Valid() && Parts() == LogParts(streamSelector, lineFilters, labelFilters, parsers)
    {
      this.streamSelector := streamSelector;
      this.lineFilters := lineFilters;
      this.labelFilters := labelFilters;
      this.parsers := parsers;
    }

    /** `LogQuery.build`: the selector, then one `+=` per line filter, label filter and parser. */
    method Build() returns (query: string)
      ensures query == Rendered(Parts())
    {
      query := "{" + Join(Matchers(streamSelector), ", ") + "}";
      var i := 0;
      while i < |lineFilters|
        invariant 0 <= i <= |lineFilters|
        invariant query == Selector(streamSelector) + Piped(" |= \"", lineFilters[..i], "\"")
      {
        PipedStep(" |= \"", lineFilters, "\"", i);
        query := query + " |= \"" + lineFilters[i] + "\"";
        i := i + 1;
      }
      assert lineFilters[..i] == lineFilters;
      ghost var prefix := query;
      i := 0;
      while i < |labelFilters|
        invariant 0 <= i <= |labelFilters|
        invariant query == prefix + Piped(" | ", labelFilters[..i], "")
      {
        PipedStep(" | ", labelFilters, "", i);
        query := query + " | " + labelFilters[i];
        i := i + 1;
      }
      assert labelFilters[..i] == labelFilters;
      prefix := query;
      i := 0;
      while i < |parsers|
        invariant 0 <= i <= |parsers|
        invariant query == prefix + Piped(" | ", parsers[..i], "")
      {
        PipedStep(" | ", parsers, "", i);
        query := query + " | " + parsers[i];
        i := i + 1;
      }
      assert parsers[..i] == parsers;
    }

    /** `job(name)`: `stream_selector["job"] = name`. */
    method Job(jobName: string) returns (self: LogQuery)
      requires Valid()
      modifies this
      ensures Valid() && self == this
      ensures Parts() == Applied(old(Parts()), LogCall.Job(jobName))
    {
      streamSelector := Put(streamSelector, "job", jobName);
      self := this;
    }

    /** `contains(text)`: one more line filter. */
    method Contains(text: string) returns (self: LogQuery)
      requires Valid()
      modifies this
      ensures Valid() && self == this
      ensures Parts() == Applied(old(Parts()), ContainsText(text))
    {
      lineFilters := lineFilters + [text];
      self := this;
    }

    /** `json()`: one more parser. */
    method Json() returns (self: LogQuery)
      requires Valid()
      modifies this
      ensures Valid() && self == this
      ensures Parts() == Applied(old(Parts()), LogCall.Json)
    {
      parsers := parsers + ["json"];
      self := this;
    }

    /** `logfmt()`: one more parser. */
    method Logfmt() returns (self: LogQuery)
      requires Valid()
      modifies this
      ensures Valid() && self == this
      ensures Parts() == Applied(old(Parts()), LogCall.Logfmt)
    {
      parsers := parsers + ["logfmt"];
      self := this;
    }
  }

  // ---------------------------------------------------------------------------
  // TraceQuery
  // ---------------------------------------------------------------------------

  /** `TraceQuery.build` on the list of conditions. */
  function TraceText(conditions: seq<string>): (q: string)
    ensures q == "{}" <==> |conditions| == 0
    ensures |q| >= 2 && q[0] == '{' && q[|q| - 1] == '}'
  {
    if |conditions| == 0 then "{}"
    else
      var q := "{ " + Join(conditions, " && ") + " }";
      assert q[1] == ' ';
      q
  }

  /** One more condition is joined to the others with `" && "`. */
  lemma TraceAppend(conditions: seq<string>, c: string)
    requires |conditions| > 0
    ensures TraceText(conditions + [c]) == "{ " + (Join(conditions, " && ") + " && " + c) + " }"
  {
    JoinAppend(conditions, [c], " && ");
    assert Join([c], " && ") == c;
  }

  function StatusCondition(status: string): string { "status = " + status }
  function ServiceCondition(name: string): string { "resource.service.name = \"" + name + "\"" }
  function OperationCondition(name: string): string { "name = \"" + name + "\"" }
  function DurationCondition(op: string, value: string): string { "duration " + op + " " + value }
  function AttributeCondition(key: string, value: string): string { "span." + key + " = \"" + value + "\"" }

  /** A TraceQL query under construction. */
  class TraceQuery {
    var conditions: seq<string>

    constructor(conditions: seq<string>)
      ensures this.conditions == conditions
    {
      this.conditions := conditions;
    }

    function Build(): (q: string)
      reads this
      ensures q == TraceText(conditions)
    {
      TraceText(conditions)
    }

    method Status(status: string) returns (self: TraceQuery)
      modifies this
      ensures self == this && conditions == old(conditions) + [StatusCondition(status)]
    {
      conditions := conditions + [StatusCondition(status)];
      self := this;
    }

    method Service(serviceName: string) returns (self: TraceQuery)
      modifies this
      ensures self == this && conditions == old(conditions) + [ServiceCondition(serviceName)]
    {
      conditions := conditions + [ServiceCondition(serviceName)];
      self := this;
    }

    method Operation(operationName: string) returns (self: TraceQuery)
      modifies this
      ensures self == this && conditions == old(conditions) + [OperationCondition(operationName)]
    {
      conditions := conditions + [OperationCondition(operationName)];
      self := this;
    }

    method Duration(op: string, value: string) returns (self: TraceQuery)
      modifies this
      ensures self == this && conditions == old(conditions) + [DurationCondition(op, value)]
    {
      conditions := conditions + [DurationCondition(op, value)];
      self := this;
    }

    method Attribute(key: string, value: string) returns (self: TraceQuery)
      modifies this
      ensures self == this && conditions == old(conditions) + [AttributeCondition(key, value)]
    {
      conditions := conditions + [AttributeCondition(key, value)];
      self := this;
    }
  }

  // ---------------------------------------------------------------------------
  // QueryTemplates
  // ---------------------------------------------------------------------------

  /** The `job` matcher of the metric templates: empty when no service is named. */
  function JobLabel(service: string): string {
    if |service| > 0 then Matcher("job", service) else ""
  }

  /** A selector of one label. */
  lemma OneLabel(k: string, v: string)
    ensures Selector([(k, v)]) == "{" + Matcher(k, v) + "}"
  {
    assert Matchers([(k, v)]) == [Matcher(k, v)];
  }

  /** A summed rate over one label, as `MetricsQuery` builds it. */
  lemma {:induction false} SummedRate(base: string, k: string, v: string, window: string)
    requires |window| > 0
    ensures MetricText(base, [(k, v)], Some(window), Some("sum"))
      == "sum" + "(rate(" + base + "{" + Matcher(k, v) + "}" + "[" + window + "]))"
  {
    OneLabel(k, v);
    MetricLayers(base, [(k, v)], window, "sum");
  }

  /** `error_rate(service, window)`: 5xx requests over all requests; the defaults are `""` and `"5m"`. */
  function ErrorRate(service: string, window: string): (q: string)
    ensures |service| > 0 && |window| > 0 ==>
      q == "sum(rate(http_requests_total{status=~\"5..\"," + Matcher("job", service) + "}[" + window + "])) / "
        + MetricText("http_requests_total", [("job", service)], Some(window), Some("sum"))
  {
    var labels := JobLabel(service);
    var total := "http_requests_total";
    var q := "sum(rate(http_requests_total{status=~\"5..\"," + labels + "}[" + window + "])) / "
      + ("sum" + "(rate(" + total + "{" + labels + "}" + "[" + window + "]))");
    assert |service| > 0 && |window| > 0 ==>
      q == "sum(rate(http_requests_total{status=~\"5..\"," + Matcher("job", service) + "}[" + window + "])) / "
        + MetricText("http_requests_total", [("job", service)], Some(window), Some("sum")) by {
      if |service| > 0 && |window| > 0 {
        SummedRate(total, "job", service, window);
      }
    }
    q
  }

  /** `latency_p99(service, window)`: the 0.99 quantile of the summed request-duration buckets. */
  function LatencyP99(service: string, window: string): (q: string)
    ensures |service| > 0 && |window| > 0 ==>
      q == "histogram_quantile(0.99, "
        + MetricText("http_request_duration_seconds_bucket", [("job", service)], Some(window), Some("sum"))
        + " by (le))"
  {
    var labels := JobLabel(service);
    var bucket := "http_request_duration_seconds_bucket";
    var q := "histogram_quantile(0.99, " + ("sum" + "(rate(" + bucket + "{" + labels + "}" + "[" + window + "]))")
      + " by (le))";
    assert |service| > 0 && |window| > 0 ==>
      q == "histogram_quantile(0.99, "
        + MetricText(bucket, [("job", service)], Some(window), Some("sum"))
        + " by (le))" by {
      if |service| > 0 && |window| > 0 {
        SummedRate(bucket, "job", service, window);
      }
    }
    q
  }

  /** One line filter and two trailing stages, as `LogQuery` emits them. */
  lemma {:induction false} FilteredLog(d: Labels, text: string, x: string, y: string)
    ensures LogText(d, [text], [], [x, y])
      == Selector(d) + " |= \"" + text + "\"" + " | " + x + " | " + y
  {
    PipedAppend(" |= \"", [], "\"", text);
    assert [] + [text] == [text];
    PipedAppend(" | ", [], "", x);
    assert [] + [x] == [x];
    PipedAppend(" | ", [x], "", y);
    assert [x] + [y] == [x, y];
  }

  /**
    `error_logs(service, error_text)`: the defaults are `""` and `"error"`. Without a service the
    selector matches every job, `job=~".+"`, which no `LogQuery` selector can express; with one,
    it is what a `LogQuery` holding the line filter and the two trailing stages builds.
  */
  function ErrorLogs(service: string, errorText: string): (q: string)
    ensures |service| == 0 ==>
      q == "{job=~\".+\"}" + " |= \"" + errorText + "\"" + " | " + "logfmt" + " | " + "level = \"error\""
    ensures |service| > 0 ==>
      q == LogText([("job", service)], [errorText], [], ["logfmt", "level = \"error\""])
  {
    var jobFilter := if |service| > 0 then Matcher("job", service) else "job=~\".+\"";
    var q := "{" + jobFilter + "}" + " |= \"" + errorText + "\"" + " | " + "logfmt" + " | " + "level = \"error\"";
    assert |service| > 0 ==> q == LogText([("job", service)], [errorText], [], ["logfmt", "level = \"error\""]) by {
      if |service| > 0 {
        OneLabel("job", service);
        FilteredLog([("job", service)], errorText, "logfmt", "level = \"error\"");
      }
    }
    q
  }

  lemma TraceOne(a: string)
    ensures TraceText([a]) == "{ " + a + " }"
  {
  }

  lemma TraceTwo(a: string, b: string)
    ensures TraceText([a, b]) == "{ " + a + " && " + b + " }"
  {
    assert Join([a, b], " && ") == a + " && " + Join([b], " && ");
  }

  lemma StatusError()
    ensures TraceText([StatusCondition("error")]) == "{ status = error }"
  {
    var a, b := "status = ", "error";
    TraceOne(a + b);
    assert "{ " + (a + b) + " }" == "{ status = error }";
  }

  lemma StatusErrorAnd(c: string)
    ensures TraceText([StatusCondition("error"), c]) == "{ " + "status = error" + " && " + c + " }"
  {
    var a, b := "status = ", "error";
    assert a + b == "status = error";
    TraceTwo(a + b, c);
  }

  /** `failed_traces(service)`: what `TraceQuery().status("error")`, then `.service(service)` when one is named, builds. */
  function FailedTraces(service: string): (q: string)
    ensures |service| == 0 ==> q == "{ status = error }" && q == TraceText([StatusCondition("error")])
    ensures |service| > 0 ==> q == TraceText([StatusCondition("error"), ServiceCondition(service)])
  {
    if |service| > 0 then
      var named := "resource.service.name = \"" + service + "\"";
      StatusErrorAnd(named);
      "{ " + "status = error" + " && " + named + " }"
    else
      StatusError();
      "{ status = error }"
  }

  lemma SlowerThan(threshold: string)
    ensures DurationCondition(">", threshold) == "duration > " + threshold
  {
    var a, b := "duration ", ">";
    assert a + b + " " == "duration > ";
  }

  /** `slow_traces(threshold, service)`: what `duration(">", threshold)`, then `.service(service)`, builds. */
  function SlowTraces(threshold: string, service: string): (q: string)
    ensures |service| == 0 ==> q == TraceText([DurationCondition(">", threshold)])
    ensures |service| > 0 ==> q == TraceText([DurationCondition(">", threshold), ServiceCondition(service)])
  {
    if |service| > 0 then
      var slow := "duration > " + threshold;
      var named := "resource.service.name = \"" + service + "\"";
      SlowerThan(threshold);
      TraceTwo(slow, named);
      "{ " + slow + " && " + named + " }"
    else
      SlowerThan(threshold);
      TraceOne("duration > " + threshold);
      "{ " + "duration > " + threshold + " }"
  }
}
