/** Character classes of the ASCII ranges the plugin's regular expressions use. */
module Chars {

  /** `[0-9]` */
  predicate IsDigit(c: char) { '0' <= c <= '9' }

  /** `[a-zA-Z]` */
  predicate IsAlpha(c: char) { 'a' <= c <= 'z' || 'A' <= c <= 'Z' }

  /** `[a-zA-Z0-9]`; its complement is the `[^a-zA-Z0-9]` separator class. */
  predicate IsAlnum(c: char) { IsDigit(c) || IsAlpha(c) }

  /** `[a-zA-Z0-9_]` */
  predicate IsWordChar(c: char) { IsAlnum(c) || c == '_' }

  /** `std::tolower` on the ASCII letters; every other character is returned as is. */
  function ToLower(c: char): char
  {
    if 'A' <= c <= 'Z' then (c as int + 32) as char else c
  }

  predicate IsDigits(s: string)
  {
    forall i :: 0 <= i < |s| ==> IsDigit(s[i])
  }

  function DigitValue(c: char): nat
    requires IsDigit(c)
  {
    c as int - '0' as int
  }

  /** The number a run of decimal digits denotes (`std::stoll`, `std::stol` without a range limit). */
  function DecimalValue(s: string): nat
    requires IsDigits(s)
  {
    if |s| == 0 then 0 else DecimalValue(s[..|s| - 1]) * 10 + DigitValue(s[|s| - 1])
  }
}
