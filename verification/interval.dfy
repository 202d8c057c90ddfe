/**
 * The sampling interval: the setting is matched in full against
 * `([0-9]+)([mun]?s)`; the digits are read as a count of the unit the
 * suffix names, and a setting that does not match means 10 ms.
 */
module Interval {
  import opened Wrappers
  import opened Chars

  /** The four suffixes the `([mun]?s)` group admits. */
  datatype TimeUnit = Seconds | Millis | Micros | Nanos

  function Suffix(u: TimeUnit): string
  {
    match u
    case Seconds => "s"
    case Millis => "ms"
    case Micros => "us"
    case Nanos => "ns"
  }

  /** Nanoseconds in one `u`: the switch over the suffix's first letter. */
  function NanosPer(u: TimeUnit): nat
  {
    match u
    case Seconds => 1_000_000_000
    case Millis => 1_000_000
    case Micros => 1_000
    case Nanos => 1
  }

  const DEFAULT_INTERVAL: nat := 10_000_000

  /** Length of the longest run of digits at the start of `s` (the greedy `[0-9]+`). */
  function DigitPrefixLength(s: string): (n: nat)
    ensures n <= |s|
    ensures IsDigits(s[..n])
    ensures n < |s| ==> !IsDigit(s[n])
  {
    if |s| == 0 || !IsDigit(s[0]) then 0
    else
      var n := 1 + DigitPrefixLength(s[1..]);
      assert s[..n] == [s[0]] + s[1..][..n - 1];
      n
  }

  function UnitOfSuffix(t: string): Option<TimeUnit>
  {
    if t == "s" then Some(Seconds)
    else if t == "ms" then Some(Millis)
    else if t == "us" then Some(Micros)
    else if t == "ns" then Some(Nanos)
    else None
  }

  /**
   * The two capture groups of a full match of `([0-9]+)([mun]?s)`, if the
   * setting matches: a match splits the setting into a non-empty run of
   * digits and one of the four suffixes.
   */
  function MatchSetting(s: string): (r: Option<(string, TimeUnit)>)
    ensures r.Some? ==> |r.value.0| > 0 && IsDigits(r.value.0) && s == r.value.0 + Suffix(r.value.1)
  {
    var n := DigitPrefixLength(s);
    if n == 0 then None
    else
      match UnitOfSuffix(s[n..])
      case Some(u) =>
        assert s == s[..n] + s[n..];
        Some((s[..n], u))
      case None => None
  }

  /**
   * The interval, in nanoseconds, a setting configures: the 10 ms default,
   * or the count of a `<digits><suffix>` reading of the whole setting
   * scaled to nanoseconds.
   */
  function IntervalNanos(setting: string): (r: nat)
    ensures r == DEFAULT_INTERVAL || exists digits, u :: |digits| > 0 && IsDigits(digits) && setting == digits + Suffix(u) && r == DecimalValue(digits) * NanosPer(u)
  {
    match MatchSetting(setting)
    case Some((digits, u)) => DecimalValue(digits) * NanosPer(u)
    case None => DEFAULT_INTERVAL
  }

  lemma {:induction false} DigitPrefixOfDigitsThenLetter(digits: string, t: string)
    requires IsDigits(digits)
    requires |t| > 0 && !IsDigit(t[0])
    ensures DigitPrefixLength(digits + t) == |digits|
    decreases |digits|
  {
    if |digits| > 0 {
      assert (digits + t)[1..] == digits[1..] + t;
      DigitPrefixOfDigitsThenLetter(digits[1..], t);
    } else {
      assert digits + t == t;
    }
  }

  /** Every `<digits><suffix>` setting is matched with exactly those two groups. */
  lemma MatchSettingComplete(digits: string, u: TimeUnit)
    requires |digits| > 0 && IsDigits(digits)
    ensures MatchSetting(digits + Suffix(u)) == Some((digits, u))
  {
    var s := digits + Suffix(u);
    DigitPrefixOfDigitsThenLetter(digits, Suffix(u));
    assert s[..|digits|] == digits && s[|digits|..] == Suffix(u);
  }

  /** `<digits>s`, `<digits>ms`, `<digits>us`, `<digits>ns` give the count scaled to nanoseconds. */
  lemma IntervalOfWellFormed(digits: string, u: TimeUnit)
    requires |digits| > 0 && IsDigits(digits)
    ensures IntervalNanos(digits + Suffix(u)) == DecimalValue(digits) * NanosPer(u)
  {
    MatchSettingComplete(digits, u);
  }

  /** A setting not of the form `<digits><suffix>` gives the 10 ms default. */
  lemma IntervalOfMalformed(s: string)
    requires forall n :: 0 < n <= |s| && IsDigits(s[..n]) ==> UnitOfSuffix(s[n..]).None?
    ensures IntervalNanos(s) == DEFAULT_INTERVAL
  {
    var n := DigitPrefixLength(s);
    if n > 0 {
      assert UnitOfSuffix(s[n..]).None?;
    }
  }
}
