/**
 * The fixed-shape regular expressions of the plugin, written out as
 * matchers that return what their capture groups hold:
 *  - the sampling pattern `.*:[^a-zA-Z0-9]*([0-9]+).?([kKmMgGtT][bB])?.*`,
 *  - the value part `:[^a-zA-Z0-9]*([0-9]+).?([kKmMgGtT][bB])?[^a-zA-Z0-9]*`
 *    of the discovery pattern, and
 *  - the value part `:[^a-zA-Z0-9]*([0-9]+).?[kKmMgGtT]?([bB])?[^a-zA-Z0-9]*`
 *    of the fallback pattern for the well-known names.
 * Alternatives are tried in the order of ECMAScript backtracking (greedy
 * quantifiers first try to take more), so the captures are the ones
 * `std::regex_match` reports. `.` is taken to match any character.
 */
module Patterns {
  import opened Wrappers
  import opened Chars

  predicate IsScalePrefix(c: char)
  {
    c == 'k' || c == 'K' || c == 'm' || c == 'M' || c == 'g' || c == 'G' || c == 't' || c == 'T'
  }

  predicate IsByteLetter(c: char) { c == 'b' || c == 'B' }

  /** What `([kKmMgGtT][bB])` captures. */
  predicate IsScaleUnit(u: string)
  {
    |u| == 2 && IsScalePrefix(u[0]) && IsByteLetter(u[1])
  }

  /** How far `[^a-zA-Z0-9]*` reaches from `j`: the first alphanumeric position, or the end. */
  function SkipSeparators(line: string, j: nat): (q: nat)
    requires j <= |line|
    ensures j <= q <= |line|
    ensures forall k :: j <= k < q ==> !IsAlnum(line[k])
    ensures q < |line| ==> IsAlnum(line[q])
    decreases |line| - j
  {
    if j == |line| || IsAlnum(line[j]) then j else SkipSeparators(line, j + 1)
  }

  /** How far the greedy `[0-9]+` reaches from `j`. */
  function DigitsEnd(line: string, j: nat): (r: nat)
    requires j <= |line|
    ensures j <= r <= |line|
    ensures forall k :: j <= k < r ==> IsDigit(line[k])
    ensures r < |line| ==> !IsDigit(line[r])
    decreases |line| - j
  {
    if j == |line| || !IsDigit(line[j]) then j else DigitsEnd(line, j + 1)
  }

  /** `[^a-zA-Z0-9]*` matches all of `line[i..]`. */
  predicate SeparatorsFrom(line: string, i: nat)
    requires i <= |line|
  {
    forall k :: i <= k < |line| ==> !IsAlnum(line[k])
  }

  /** The two groups of the sampling pattern: the number and the optional unit. */
  datatype Reading = Reading(digits: string, unit: string)

  predicate WellFormedReading(r: Reading)
  {
    |r.digits| > 0 && IsDigits(r.digits) && (r.unit == "" || IsScaleUnit(r.unit))
  }

  /**
   * Groups of `[^a-zA-Z0-9]*([0-9]+).?([kKmMgGtT][bB])?.*` matched against
   * `line[j..]`. Only the digits can fail: `.?` takes one character when
   * there is one, the unit is taken when the next two characters form one,
   * and `.*` swallows the rest.
   */
  function ReadingAfter(line: string, j: nat): (r: Option<Reading>)
    requires j <= |line|
    ensures r.Some? ==> WellFormedReading(r.value)
  {
    var q := SkipSeparators(line, j);
    if q < |line| && IsDigit(line[q]) then
      var e := DigitsEnd(line, q);
      var s := if e < |line| then e + 1 else e;
      var unit := if s + 2 <= |line| && IsScaleUnit(line[s..s + 2]) then line[s..s + 2] else "";
      Some(Reading(line[q..e], unit))
    else None
  }

  /** The greedy leading `.*:` backtracks: the colons before `p` are tried from the last one down. */
  function ReadingBefore(line: string, p: nat): (r: Option<Reading>)
    requires p <= |line|
    ensures r.Some? ==> WellFormedReading(r.value)
    decreases p
  {
    if p == 0 then None
    else if line[p - 1] == ':' && ReadingAfter(line, p).Some? then ReadingAfter(line, p)
    else ReadingBefore(line, p - 1)
  }

  /** The match of the sampling pattern against a whole line; `None` when it does not match. */
  function ParseReading(line: string): (r: Option<Reading>)
    ensures r.Some? ==> WellFormedReading(r.value)
  {
    ReadingBefore(line, |line|)
  }

  /** A colon after which the value part matches: the candidates `.*:` can stop at. */
  predicate ValueColon(line: string, c: nat)
  {
    c < |line| && line[c] == ':' && ReadingAfter(line, c + 1).Some?
  }

  /** The sampling pattern matches exactly when some colon before `p` is followed by the value part. */
  lemma {:induction false} ReadingBeforeMatches(line: string, p: nat)
    requires p <= |line|
    ensures ReadingBefore(line, p).Some? <==> exists c: nat :: c < p && ValueColon(line, c)
    decreases p
  {
    if p > 0 {
      if ValueColon(line, p - 1) {
        var c: nat := p - 1;
        assert c < p && ValueColon(line, c);
      } else {
        ReadingBeforeMatches(line, p - 1);
        forall c: nat | c < p && ValueColon(line, c)
          ensures c < p - 1
        {
        }
      }
    }
  }

  /** The groups reported are those after the last colon that is followed by the value part. */
  lemma {:induction false} ReadingBeforeLastColon(line: string, c: nat, p: nat)
    requires c < p <= |line| && ValueColon(line, c)
    requires forall d: nat :: c < d < p ==> !ValueColon(line, d)
    ensures ReadingBefore(line, p) == ReadingAfter(line, c + 1)
    decreases p
  {
    if c < p - 1 {
      assert !ValueColon(line, p - 1);
      ReadingBeforeLastColon(line, c, p - 1);
    }
  }

  /** The position of the first colon, the end of a name the name alternatives can match. */
  function FirstColon(line: string): (p: Option<nat>)
    ensures p.Some? ==> p.value < |line| && line[p.value] == ':' && forall k :: 0 <= k < p.value ==> line[k] != ':'
    ensures p.None? ==> forall k :: 0 <= k < |line| ==> line[k] != ':'
  {
    if |line| == 0 then None
    else if line[0] == ':' then Some(0)
    else match FirstColon(line[1..])
      case Some(p) => Some(p + 1)
      case None => None
  }

  /**
   * The unit group of `.?([kKmMgGtT][bB])?[^a-zA-Z0-9]*` matched against all
   * of `line[e..]`, trying `.?` with one character first and the unit before
   * leaving it out.
   */
  function DiscoveryUnit(line: string, e: nat): (u: Option<string>)
    requires e <= |line|
    ensures u.Some? ==> u.value == "" || IsScaleUnit(u.value)
  {
    if e + 3 <= |line| && IsScaleUnit(line[e + 1..e + 3]) && SeparatorsFrom(line, e + 3) then Some(line[e + 1..e + 3])
    else if e + 1 <= |line| && SeparatorsFrom(line, e + 1) then Some("")
    else if e + 2 <= |line| && IsScaleUnit(line[e..e + 2]) && SeparatorsFrom(line, e + 2) then Some(line[e..e + 2])
    else if SeparatorsFrom(line, e) then Some("")
    else None
  }

  /** The unit group of `[^a-zA-Z0-9]*([0-9]+).?([kKmMgGtT][bB])?[^a-zA-Z0-9]*` against all of `line[j..]`. */
  function DiscoveryValue(line: string, j: nat): (u: Option<string>)
    requires j <= |line|
    ensures u.Some? ==> u.value == "" || IsScaleUnit(u.value)
  {
    var q := SkipSeparators(line, j);
    if q < |line| && IsDigit(line[q]) then DiscoveryUnit(line, DigitsEnd(line, q)) else None
  }

  /**
   * One way through `.?[kKmMgGtT]?([bB])?[^a-zA-Z0-9]*` from `e`: `dot`,
   * `prefix` and `letter` say which optional items take a character. The
   * result is the capture of `([bB])`.
   */
  function FallbackPath(line: string, e: nat, dot: bool, prefix: bool, letter: bool): (u: Option<string>)
    requires e <= |line|
    ensures u.Some? ==> u.value == "" || (|u.value| == 1 && IsByteLetter(u.value[0]))
  {
    var i1 := if dot then e + 1 else e;
    if i1 > |line| then None
    else if prefix && !(i1 < |line| && IsScalePrefix(line[i1])) then None
    else
      var i2 := if prefix then i1 + 1 else i1;
      if letter && !(i2 < |line| && IsByteLetter(line[i2])) then None
      else
        var i3 := if letter then i2 + 1 else i2;
        if SeparatorsFrom(line, i3) then Some(if letter then line[i2..i3] else "") else None
  }

  /** The first way through the fallback tail, in backtracking order. */
  function FallbackUnit(line: string, e: nat): (u: Option<string>)
    requires e <= |line|
    ensures u.Some? ==> u.value == "" || (|u.value| == 1 && IsByteLetter(u.value[0]))
  {
    var p1 := FallbackPath(line, e, true, true, true);
    var p2 := FallbackPath(line, e, true, true, false);
    var p3 := FallbackPath(line, e, true, false, true);
    var p4 := FallbackPath(line, e, true, false, false);
    var p5 := FallbackPath(line, e, false, true, true);
    var p6 := FallbackPath(line, e, false, true, false);
    var p7 := FallbackPath(line, e, false, false, true);
    var p8 := FallbackPath(line, e, false, false, false);
    if p1.Some? then p1 else if p2.Some? then p2 else if p3.Some? then p3 else if p4.Some? then p4
    else if p5.Some? then p5 else if p6.Some? then p6 else if p7.Some? then p7 else p8
  }

  /** The unit group of the fallback value part `[^a-zA-Z0-9]*([0-9]+).?[kKmMgGtT]?([bB])?[^a-zA-Z0-9]*` from `j`. */
  function FallbackValue(line: string, j: nat): (u: Option<string>)
    requires j <= |line|
    ensures u.Some? ==> u.value == "" || (|u.value| == 1 && IsByteLetter(u.value[0]))
  {
    var q := SkipSeparators(line, j);
    if q < |line| && IsDigit(line[q]) then FallbackUnit(line, DigitsEnd(line, q)) else None
  }

  // ---------------------------------------------------------------------
  // Lines of the shape the memory-statistics file uses

  /** Separator characters that are not colons (the padding after a name). */
  predicate IsPadding(pad: string)
  {
    forall k :: 0 <= k < |pad| ==> !IsAlnum(pad[k]) && pad[k] != ':'
  }

  /** `Name:<padding><digits>` or `Name:<padding><digits> <unit>`. */
  function StatLine(name: string, pad: string, digits: string, unit: string): string
  {
    name + ":" + pad + digits + (if unit == "" then "" else " " + unit)
  }

  predicate IsStatLine(name: string, pad: string, digits: string, unit: string)
  {
    IsPadding(pad) && |digits| > 0 && IsDigits(digits) && (unit == "" || IsScaleUnit(unit))
  }

  /** The offsets of a stat line's value: where the digits start, where they end. */
  lemma StatLineValue(name: string, pad: string, digits: string, unit: string)
    requires IsStatLine(name, pad, digits, unit)
    ensures var line := StatLine(name, pad, digits, unit);
            var q := |name| + 1 + |pad|;
            var e := q + |digits|;
            && SkipSeparators(line, |name| + 1) == q
            && DigitsEnd(line, q) == e
            && line[q..e] == digits
            && (unit == "" ==> e == |line|)
            && (unit != "" ==> e + 3 == |line| && line[e] == ' ' && line[e + 1..e + 3] == unit)
  {
    var line := StatLine(name, pad, digits, unit);
    var q := |name| + 1 + |pad|;
    var e := q + |digits|;
    assert forall k :: |name| + 1 <= k < q ==> line[k] == pad[k - |name| - 1];
    assert forall k :: q <= k < e ==> line[k] == digits[k - q];
    assert line[q] == digits[0];
    if unit != "" {
      assert line[e] == ' ';
    }
    assert line[q..e] == digits;
    if unit != "" {
      assert line[e + 1..e + 3] == unit;
    }
  }

  /** The sampling pattern reads back the digits and the unit of a stat line. */
  lemma ParseStatLine(name: string, pad: string, digits: string, unit: string)
    requires IsStatLine(name, pad, digits, unit)
    ensures ParseReading(StatLine(name, pad, digits, unit)) == Some(Reading(digits, unit))
  {
    var line := StatLine(name, pad, digits, unit);
    var c := |name|;
    StatLineColonless(name, pad, digits, unit);
    ReadingBeforeSkipsColonless(line, c + 1, |line|);
    ReadingAfterStatLine(name, pad, digits, unit);
    assert line[c] == ':';
    assert ReadingBefore(line, c + 1) == ReadingAfter(line, c + 1);
  }

  /** Past the colon after the name, the sampling pattern captures the digits and the unit. */
  lemma ReadingAfterStatLine(name: string, pad: string, digits: string, unit: string)
    requires IsStatLine(name, pad, digits, unit)
    ensures ReadingAfter(StatLine(name, pad, digits, unit), |name| + 1) == Some(Reading(digits, unit))
  {
    StatLineValue(name, pad, digits, unit);
  }

  /** After its name's colon a stat line holds no further colon. */
  lemma StatLineColonless(name: string, pad: string, digits: string, unit: string)
    requires IsStatLine(name, pad, digits, unit)
    ensures var line := StatLine(name, pad, digits, unit);
            forall k :: |name| < k < |line| ==> line[k] != ':'
  {
    var line := StatLine(name, pad, digits, unit);
    var tail := pad + digits + (if unit == "" then "" else " " + unit);
    assert line == name + ":" + tail;
    assert forall k :: 0 <= k < |tail| ==> tail[k] != ':' by {
      forall k | 0 <= k < |tail|
        ensures tail[k] != ':'
      {
        if k < |pad| {
          assert tail[k] == pad[k];
        } else if k < |pad| + |digits| {
          assert tail[k] == digits[k - |pad|];
        } else if k > |pad| + |digits| {
          assert tail[k] == unit[k - |pad| - |digits| - 1];
        }
      }
    }
    assert forall k :: |name| < k < |line| ==> line[k] == tail[k - |name| - 1];
  }

  /** Positions without a colon are passed over by the backtracking of `.*:`. */
  lemma {:induction false} ReadingBeforeSkipsColonless(line: string, lo: nat, p: nat)
    requires lo <= p <= |line|
    requires forall k :: lo <= k < p ==> line[k] != ':'
    ensures ReadingBefore(line, p) == ReadingBefore(line, lo)
    decreases p
  {
    if lo < p {
      assert line[p - 1] != ':';
      ReadingBeforeSkipsColonless(line, lo, p - 1);
    }
  }

  /** The first colon of a stat line is the one after its name, when the name has none. */
  lemma StatLineFirstColon(name: string, pad: string, digits: string, unit: string)
    requires IsStatLine(name, pad, digits, unit)
    requires forall k :: 0 <= k < |name| ==> name[k] != ':'
    ensures FirstColon(StatLine(name, pad, digits, unit)) == Some(|name|)
    ensures StatLine(name, pad, digits, unit)[..|name|] == name
  {
    var line := StatLine(name, pad, digits, unit);
    assert line[|name|] == ':';
    assert forall k :: 0 <= k < |name| ==> line[k] == name[k];
  }

  /** The discovery value part captures the whole unit of a stat line. */
  lemma DiscoveryStatLine(name: string, pad: string, digits: string, unit: string)
    requires IsStatLine(name, pad, digits, unit)
    ensures DiscoveryValue(StatLine(name, pad, digits, unit), |name| + 1) == Some(unit)
  {
    StatLineValue(name, pad, digits, unit);
  }

  /** The fallback value part captures only the `b`/`B` letter of a stat line's unit. */
  lemma FallbackStatLine(name: string, pad: string, digits: string, unit: string)
    requires IsStatLine(name, pad, digits, unit)
    ensures FallbackValue(StatLine(name, pad, digits, unit), |name| + 1) == Some(if unit == "" then "" else unit[1..])
  {
    var line := StatLine(name, pad, digits, unit);
    StatLineValue(name, pad, digits, unit);
    var e := |name| + 1 + |pad| + |digits|;
    assert FallbackValue(line, |name| + 1) == FallbackUnit(line, e);
    if unit == "" {
      // Every path that needs a character after the digits fails at the end of the line.
      assert FallbackPath(line, e, true, true, true).None? && FallbackPath(line, e, true, true, false).None?;
      assert FallbackPath(line, e, true, false, true).None? && FallbackPath(line, e, true, false, false).None?;
      assert FallbackPath(line, e, false, true, true).None? && FallbackPath(line, e, false, true, false).None?;
      assert FallbackPath(line, e, false, false, true).None?;
      assert FallbackPath(line, e, false, false, false) == Some("");
    } else {
      assert line[e + 1] == unit[0] && line[e + 2] == unit[1];
      assert line[e + 2..e + 3] == unit[1..];
      assert FallbackPath(line, e, true, true, true) == Some(unit[1..]);
    }
  }
}
