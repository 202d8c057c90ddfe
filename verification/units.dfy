/**
 * Unit normalisation of a sampled value: the `switch` over the lower-cased
 * first letter of a two-letter unit whose second letter is `b`, where each
 * case multiplies by 1024 and falls through into the next smaller unit.
 */
module Units {
  import opened Chars

  const KIB: nat := 1024
  const MIB: nat := 1048576
  const GIB: nat := 1073741824
  const TIB: nat := 1099511627776

  /** Reference table: the byte multiplier a unit stands for (case-insensitive), 1 when it names none. */
  function UnitFactor(unit: string): nat
  {
    if |unit| == 2 && (unit[1] == 'b' || unit[1] == 'B') then
      match unit[0]
      case 'k' => KIB case 'K' => KIB
      case 'm' => MIB case 'M' => MIB
      case 'g' => GIB case 'G' => GIB
      case 't' => TIB case 'T' => TIB
      case _ => 1
    else 1
  }

  /** Number of `value *= 1024` statements run when the switch is entered at the case for `c`. */
  function EntryDepth(c: char): nat
  {
    match c
    case 't' => 4
    case 'g' => 3
    case 'm' => 2
    case 'k' => 1
    case _ => 0
  }

  /** Runs `depth` fall-through cases, each multiplying the value by 1024. */
  function FallThrough(value: int, depth: nat): int
    decreases depth
  {
    if depth == 0 then value else FallThrough(value * 1024, depth - 1)
  }

  /** 1024 to the power `depth`. */
  function Pow1024(depth: nat): nat
  {
    if depth == 0 then 1 else 1024 * Pow1024(depth - 1)
  }

  lemma {:induction false} FallThroughScales(value: int, depth: nat)
    ensures FallThrough(value, depth) == value * Pow1024(depth)
    decreases depth
  {
    if depth > 0 {
      FallThroughScales(value * 1024, depth - 1);
      assert value * 1024 * Pow1024(depth - 1) == value * (1024 * Pow1024(depth - 1));
    }
  }

  /** The value in bytes of `value` given in `unit`. */
  function Normalize(value: int, unit: string): (r: int)
    ensures r == value * UnitFactor(unit)
    ensures value >= 0 ==> r >= value
  {
    if |unit| == 2 && ToLower(unit[1]) == 'b' then
      var depth := EntryDepth(ToLower(unit[0]));
      FallThroughScales(value, depth);
      assert Pow1024(depth) == UnitFactor(unit) by {
        assert Pow1024(1) == KIB && Pow1024(2) == MIB && Pow1024(3) == GIB && Pow1024(4) == TIB;
      }
      FallThrough(value, depth)
    else value
  }
}
