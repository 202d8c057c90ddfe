/**
 * Discovery (`init`): every line of the statistics text is given its
 * 0-based index as position; a line is kept when the caller's names
 * pattern matches it, or else when the fallback pattern for the seven
 * well-known names does. Two synthetic positions follow the real lines:
 * `n` for "MemUsed" and `n + 1` for "SwapUsed", each kept (with unit "B")
 * when the caller's names pattern accepts the name.
 */
module Discovery {
  import opened Wrappers
  import opened Chars
  import opened Patterns

  /** `meminfo_t`: a discovered metric, keyed by its position. */
  datatype MetricIdentity = MetricIdentity(lineNr: int, name: string, unit: string)

  /** One alternative of the caller's search list: whether its pattern matches a whole name. */
  type NameFilter = string -> bool

  /** `[a-zA-Z0-9_]+` */
  predicate IsWord(name: string)
  {
    |name| > 0 && forall k :: 0 <= k < |name| ==> IsWordChar(name[k])
  }

  /** The name group `(s1|s2|...)` built from the search list, or `([a-zA-Z0-9_]+)` when the list is empty. */
  predicate FilterAccepts(search: seq<NameFilter>, name: string)
  {
    if |search| == 0 then IsWord(name) else exists i :: 0 <= i < |search| && search[i](name)
  }

  /** The names of the fallback pattern, the raw inputs of the derived metrics. */
  const WELL_KNOWN: set<string> := {"MemTotal", "MemFree", "SwapTotal", "SwapFree", "SwapCached", "Cached", "Buffers"}

  /** Groups 1 and 3 of a discovery match: the name and the unit. */
  datatype Capture = Capture(name: string, unit: string)

  /** The caller's pattern against a whole line; the name is the text before the first colon. */
  function CustomMatch(search: seq<NameFilter>, line: string): (r: Option<Capture>)
    ensures r.Some? ==> |r.value.name| < |line| && line[..|r.value.name|] == r.value.name && line[|r.value.name|] == ':'
    ensures r.Some? ==> ':' !in r.value.name
    ensures r.Some? ==> FilterAccepts(search, r.value.name)
    ensures r.Some? ==> r.value.unit == "" || IsScaleUnit(r.value.unit)
  {
    match FirstColon(line)
    case None => None
    case Some(p) =>
      if FilterAccepts(search, line[..p]) then
        match DiscoveryValue(line, p + 1)
        case Some(u) => Some(Capture(line[..p], u))
        case None => None
      else None
  }

  /** The fallback pattern for the well-known names; its unit group holds only the `b`/`B` letter. */
  function FallbackMatch(line: string): (r: Option<Capture>)
    ensures r.Some? ==> |r.value.name| < |line| && line[..|r.value.name|] == r.value.name && line[|r.value.name|] == ':'
    ensures r.Some? ==> ':' !in r.value.name
    ensures r.Some? ==> r.value.name in WELL_KNOWN
    ensures r.Some? ==> r.value.unit == "" || (|r.value.unit| == 1 && IsByteLetter(r.value.unit[0]))
  {
    match FirstColon(line)
    case None => None
    case Some(p) =>
      if line[..p] in WELL_KNOWN then
        match FallbackValue(line, p + 1)
        case Some(u) => Some(Capture(line[..p], u))
        case None => None
      else None
  }

  /** The caller's pattern first, the fallback second. */
  function IdentifyLine(search: seq<NameFilter>, line: string): (r: Option<Capture>)
    ensures r.Some? <==> CustomMatch(search, line).Some? || FallbackMatch(line).Some?
    ensures CustomMatch(search, line).Some? ==> r == CustomMatch(search, line)
    ensures CustomMatch(search, line).None? ==> r == FallbackMatch(line)
    ensures r.Some? ==> |r.value.name| < |line| && line[..|r.value.name|] == r.value.name && line[|r.value.name|] == ':'
    ensures r.Some? ==> ':' !in r.value.name
    ensures r.Some? ==> FilterAccepts(search, r.value.name) || r.value.name in WELL_KNOWN
  {
    var m := CustomMatch(search, line);
    if m.Some? then m else FallbackMatch(line)
  }

  predicate StrictlyIncreasing(ids: seq<MetricIdentity>)
  {
    forall i, j :: 0 <= i < j < |ids| ==> ids[i].lineNr < ids[j].lineNr
  }

  /** The positions a list of metrics covers. */
  function Positions(ids: seq<MetricIdentity>): set<int>
  {
    set id | id in ids :: id.lineNr
  }

  /** `id` is what discovery reports for one position of `lines`, real or synthetic. */
  predicate IsDiscovered(search: seq<NameFilter>, lines: seq<string>, id: MetricIdentity)
  {
    || (0 <= id.lineNr < |lines| && IdentifyLine(search, lines[id.lineNr]) == Some(Capture(id.name, id.unit)))
    || (id == MetricIdentity(|lines|, "MemUsed", "B") && FilterAccepts(search, "MemUsed"))
    || (id == MetricIdentity(|lines| + 1, "SwapUsed", "B") && FilterAccepts(search, "SwapUsed"))
  }

  /** The matcher `init` applies to each line, as a function value. */
  function Identifier(search: seq<NameFilter>): (identify: string -> Option<Capture>)
    ensures forall line :: identify(line) == IdentifyLine(search, line)
  {
    line => IdentifyLine(search, line)
  }

  /** The metrics the line loop of `init` collects from the first `n` lines, with `identify` as the matcher. */
  function Scanned(identify: string -> Option<Capture>, lines: seq<string>, n: nat): seq<MetricIdentity>
    requires n <= |lines|
    decreases n
  {
    if n == 0 then []
    else
      var before := Scanned(identify, lines, n - 1);
      match identify(lines[n - 1])
      case Some(c) => before + [MetricIdentity(n - 1, c.name, c.unit)]
      case None => before
  }

  /** The line loop keeps the metrics in position order and keeps exactly the lines that match. */
  lemma {:induction false} ScannedSpec(identify: string -> Option<Capture>, lines: seq<string>, n: nat)
    requires n <= |lines|
    ensures StrictlyIncreasing(Scanned(identify, lines, n))
    ensures forall id :: id in Scanned(identify, lines, n) <==>
      0 <= id.lineNr < n && identify(lines[id.lineNr]) == Some(Capture(id.name, id.unit))
    decreases n
  {
    if n > 0 {
      ScannedSpec(identify, lines, n - 1);
      var before := Scanned(identify, lines, n - 1);
      match identify(lines[n - 1])
      case Some(c) =>
        var found := MetricIdentity(n - 1, c.name, c.unit);
        assert forall id :: id in before + [found] <==> id in before || id == found;
      case None =>
    }
  }

  /** The synthetic metric at position `lineNr`, present when the names pattern accepts its name. */
  function Synthetic(search: seq<NameFilter>, lineNr: int, name: string): seq<MetricIdentity>
  {
    if FilterAccepts(search, name) then [MetricIdentity(lineNr, name, "B")] else []
  }

  /** Everything `init` reports: the matching lines, then the two synthetic positions. */
  function Discovered(search: seq<NameFilter>, lines: seq<string>): seq<MetricIdentity>
  {
    Scanned(Identifier(search), lines, |lines|)
      + Synthetic(search, |lines|, "MemUsed") + Synthetic(search, |lines| + 1, "SwapUsed")
  }

  /** A metric above every position of an increasing list keeps it increasing. */
  lemma AppendAbove(ids: seq<MetricIdentity>, more: seq<MetricIdentity>, bound: int)
    requires StrictlyIncreasing(ids) && StrictlyIncreasing(more)
    requires forall k :: 0 <= k < |ids| ==> ids[k].lineNr < bound
    requires forall k :: 0 <= k < |more| ==> bound <= more[k].lineNr
    ensures StrictlyIncreasing(ids + more)
  {
  }

  /** Discovery reports the metrics in strictly increasing position order, so each position at most once. */
  lemma DiscoveredOrdered(search: seq<NameFilter>, lines: seq<string>)
    ensures StrictlyIncreasing(Discovered(search, lines))
  {
    var identify := Identifier(search);
    ScannedSpec(identify, lines, |lines|);
    var scanned := Scanned(identify, lines, |lines|);
    assert forall k :: 0 <= k < |scanned| ==> scanned[k] in scanned;
    var mem := Synthetic(search, |lines|, "MemUsed");
    var swap := Synthetic(search, |lines| + 1, "SwapUsed");
    AppendAbove(scanned, mem, |lines|);
    AppendAbove(scanned + mem, swap, |lines| + 1);
  }

  /** Discovery reports exactly the identities of the matching lines and of the accepted synthetic positions. */
  lemma DiscoveredExactly(search: seq<NameFilter>, lines: seq<string>)
    ensures forall id :: id in Discovered(search, lines) <==> IsDiscovered(search, lines, id)
  {
    var identify := Identifier(search);
    ScannedSpec(identify, lines, |lines|);
    var scanned := Scanned(identify, lines, |lines|);
    var mem := Synthetic(search, |lines|, "MemUsed");
    var swap := Synthetic(search, |lines| + 1, "SwapUsed");
    assert forall id :: id in scanned + mem + swap <==> id in scanned || id in mem || id in swap;
  }

  /** The line loop of `init`: each line `identify` matches yields a metric at the line's 0-based position. */
  method ScanLines(lines: seq<string>, identify: string -> Option<Capture>) returns (results: seq<MetricIdentity>)
    ensures results == Scanned(identify, lines, |lines|)
  {
    results := [];
    var lineNr := 0;
    while lineNr < |lines|
      invariant 0 <= lineNr <= |lines|
      invariant results == Scanned(identify, lines, lineNr)
    {
      var m := identify(lines[lineNr]);
      if m.Some? {
        results := results + [MetricIdentity(lineNr, m.value.name, m.value.unit)];
      }
      lineNr := lineNr + 1;
    }
  }

  /** `init`: the discovered metrics, in position order. */
  method Discover(lines: seq<string>, search: seq<NameFilter>) returns (results: seq<MetricIdentity>)
    ensures results == Discovered(search, lines)
  {
    results := ScanLines(lines, Identifier(search));
    var lineNr := |lines|;
    if FilterAccepts(search, "MemUsed") {
      results := results + [MetricIdentity(lineNr, "MemUsed", "B")];
    }
    lineNr := lineNr + 1;
    if FilterAccepts(search, "SwapUsed") {
      results := results + [MetricIdentity(lineNr, "SwapUsed", "B")];
    }
  }

  /**
   * A stat line whose name has no colon is reported with its full unit when
   * the caller's pattern accepts the name, with only the unit's `b`/`B`
   * letter when just the fallback pattern does, and not at all otherwise.
   */
  lemma IdentifyStatLine(search: seq<NameFilter>, name: string, pad: string, digits: string, unit: string)
    requires IsStatLine(name, pad, digits, unit)
    requires forall k :: 0 <= k < |name| ==> name[k] != ':'
    ensures IdentifyLine(search, StatLine(name, pad, digits, unit)) ==
      if FilterAccepts(search, name) then Some(Capture(name, unit))
      else if name in WELL_KNOWN then Some(Capture(name, if unit == "" then "" else unit[1..]))
      else None
  {
    StatLineFirstColon(name, pad, digits, unit);
    DiscoveryStatLine(name, pad, digits, unit);
    FallbackStatLine(name, pad, digits, unit);
  }
}
