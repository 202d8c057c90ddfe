/**
 * One sampling tick (`parse`) as a function of the sample map, the role
 * positions and the lines of the statistics text. Lines are visited with
 * a 0-based counter; every position that is a key of the map gets the
 * line's value, scaled to bytes, appended, and the seven raw roles are
 * copied into registers that start at -1. After the lines, the two
 * derived metrics are appended: MemUsed = total - free - buffers - cached
 * and SwapUsed = swapTotal - swapFree - swapCached, or 0 when one of their
 * registers was never set.
 */
module Sampling {
  import opened Wrappers
  import opened Chars
  import Patterns
  import Units

  /** The nine `*_pos` fields: the position given to each role, -1 when none was. */
  datatype Roles = Roles(
    memTotal: int, memFree: int, buffers: int, cached: int,
    swapTotal: int, swapFree: int, swapCached: int,
    memUsed: int, swapUsed: int)

  const UNASSIGNED: int := -1

  /** The roles read from the text, the inputs of the derived metrics. */
  datatype RawRole = MemTotal | MemFree | Buffers | Cached | SwapTotal | SwapFree | SwapCached

  function PositionOf(roles: Roles, role: RawRole): int
  {
    match role
    case MemTotal => roles.memTotal
    case MemFree => roles.memFree
    case Buffers => roles.buffers
    case Cached => roles.cached
    case SwapTotal => roles.swapTotal
    case SwapFree => roles.swapFree
    case SwapCached => roles.swapCached
  }

  /** The seven local registers of a tick. */
  datatype Registers = Registers(
    memTotal: int, memFree: int, buffers: int, cached: int,
    swapTotal: int, swapFree: int, swapCached: int)

  const EMPTY_REGISTERS := Registers(-1, -1, -1, -1, -1, -1, -1)

  function Register(regs: Registers, role: RawRole): int
  {
    match role
    case MemTotal => regs.memTotal
    case MemFree => regs.memFree
    case Buffers => regs.buffers
    case Cached => regs.cached
    case SwapTotal => regs.swapTotal
    case SwapFree => regs.swapFree
    case SwapCached => regs.swapCached
  }

  /** The value a line yields: the number the sampling pattern captures, scaled by its unit. */
  function Sample(line: string): (v: Option<int>)
    ensures v.Some? ==> v.value >= 0
  {
    match Patterns.ParseReading(line)
    case None => None
    case Some(r) => Some(Units.Normalize(DecimalValue(r.digits), r.unit))
  }

  /** A line of the statistics file's shape samples to its digits scaled by the byte multiplier of its unit. */
  lemma SampleStatLine(name: string, pad: string, digits: string, unit: string)
    requires Patterns.IsStatLine(name, pad, digits, unit)
    ensures Sample(Patterns.StatLine(name, pad, digits, unit)) == Some(DecimalValue(digits) * Units.UnitFactor(unit))
  {
    Patterns.ParseStatLine(name, pad, digits, unit);
  }

  /** The seven independent `if (*_pos == line_nr)` assignments at position `pos`. */
  function Stash(regs: Registers, roles: Roles, pos: int, value: int): (r: Registers)
    ensures forall role :: Register(r, role) == if PositionOf(roles, role) == pos then value else Register(regs, role)
  {
    Registers(
      if roles.memTotal == pos then value else regs.memTotal,
      if roles.memFree == pos then value else regs.memFree,
      if roles.buffers == pos then value else regs.buffers,
      if roles.cached == pos then value else regs.cached,
      if roles.swapTotal == pos then value else regs.swapTotal,
      if roles.swapFree == pos then value else regs.swapFree,
      if roles.swapCached == pos then value else regs.swapCached)
  }

  /**
   * The map after a tick, with the final registers; or the map as it was
   * when extraction failed at position `at` (the unguarded `stoll` on a
   * failed match throws there, leaving the appends made so far).
   */
  datatype Outcome =
    | Done(data: map<int, seq<int>>, regs: Registers)
    | Aborted(data: map<int, seq<int>>, at: nat)

  /** The line loop from position `i` on. */
  function Scan(data: map<int, seq<int>>, regs: Registers, roles: Roles, lines: seq<string>, i: nat): (r: Outcome)
    requires i <= |lines|
    ensures r.data.Keys == data.Keys
    decreases |lines| - i
  {
    if i == |lines| then Done(data, regs)
    else if i in data then
      match Sample(lines[i])
      case None => Aborted(data, i)
      case Some(v) => Scan(data[i := data[i] + [v]], Stash(regs, roles, i, v), roles, lines, i + 1)
    else Scan(data, regs, roles, lines, i + 1)
  }

  /**
   * The MemUsed reading: when all four inputs were read, what is left of
   * the total once free, buffers and cached are taken out; 0 otherwise.
   */
  function MemUsedOf(regs: Registers): (r: int)
    ensures regs.memTotal >= 0 && regs.memFree >= 0 && regs.buffers >= 0 && regs.cached >= 0 ==>
      r + regs.memFree + regs.buffers + regs.cached == regs.memTotal
    ensures regs.memTotal < 0 || regs.memFree < 0 || regs.buffers < 0 || regs.cached < 0 ==> r == 0
  {
    if regs.memTotal >= 0 && regs.memFree >= 0 && regs.buffers >= 0 && regs.cached >= 0
    then regs.memTotal - regs.memFree - regs.buffers - regs.cached
    else 0
  }

  /** The SwapUsed reading: the swap total less free and cached swap when all three were read, 0 otherwise. */
  function SwapUsedOf(regs: Registers): (r: int)
    ensures regs.swapTotal >= 0 && regs.swapFree >= 0 && regs.swapCached >= 0 ==>
      r + regs.swapFree + regs.swapCached == regs.swapTotal
    ensures regs.swapTotal < 0 || regs.swapFree < 0 || regs.swapCached < 0 ==> r == 0
  {
    if regs.swapTotal >= 0 && regs.swapFree >= 0 && regs.swapCached >= 0
    then regs.swapTotal - regs.swapFree - regs.swapCached
    else 0
  }

  /** `data.find(key)` then `push_back(v)` when found. */
  function AppendAt(data: map<int, seq<int>>, key: int, v: int): map<int, seq<int>>
  {
    if key in data then data[key := data[key] + [v]] else data
  }

  /** One call of `parse`. */
  function Tick(data: map<int, seq<int>>, roles: Roles, lines: seq<string>): (r: Outcome)
    ensures r.data.Keys == data.Keys
  {
    match Scan(data, EMPTY_REGISTERS, roles, lines, 0)
    case Aborted(d, at) => Aborted(d, at)
    case Done(d, regs) =>
      var withMem := AppendAt(d, roles.memUsed, MemUsedOf(regs));
      Done(AppendAt(withMem, roles.swapUsed, SwapUsedOf(regs)), regs)
  }

  // ---------------------------------------------------------------------
  // Reference definitions, stated on the lines rather than on the loop

  /** What line `k` contributes to a tracked series: its value, if the line exists and parses. */
  function ValueAt(lines: seq<string>, k: int): seq<int>
  {
    if 0 <= k < |lines| then
      match Sample(lines[k])
      case Some(v) => [v]
      case None => []
    else []
  }

  /** The value of a raw role this tick: present when its position is tracked and its line parses. */
  function RoleReading(data: map<int, seq<int>>, roles: Roles, lines: seq<string>, role: RawRole): Option<int>
  {
    var p := PositionOf(roles, role);
    if p in data && 0 <= p < |lines| then Sample(lines[p]) else None
  }

  /** MemUsed as the text defines it: total - free - buffers - cached, or 0 when an input is missing. */
  function ExpectedMemUsed(data: map<int, seq<int>>, roles: Roles, lines: seq<string>): int
  {
    match (RoleReading(data, roles, lines, MemTotal), RoleReading(data, roles, lines, MemFree),
           RoleReading(data, roles, lines, Buffers), RoleReading(data, roles, lines, Cached))
    case (Some(total), Some(free), Some(buffers), Some(cached)) => total - free - buffers - cached
    case _ => 0
  }

  /** SwapUsed as the text defines it: total - free - cached, or 0 when an input is missing. */
  function ExpectedSwapUsed(data: map<int, seq<int>>, roles: Roles, lines: seq<string>): int
  {
    match (RoleReading(data, roles, lines, SwapTotal), RoleReading(data, roles, lines, SwapFree),
           RoleReading(data, roles, lines, SwapCached))
    case (Some(total), Some(free), Some(cached)) => total - free - cached
    case _ => 0
  }

  /** How many values one tick appends to the series at `key` when `n` lines are read. */
  function Appends(key: int, n: nat, roles: Roles): nat
  {
    (if 0 <= key < n then 1 else 0) + (if key == roles.memUsed then 1 else 0) + (if key == roles.swapUsed then 1 else 0)
  }

  /** Every tracked position is exactly one of: a real line, the MemUsed position, the SwapUsed position. */
  predicate Aligned(keys: set<int>, n: nat, roles: Roles)
  {
    forall k :: k in keys ==> Appends(k, n, roles) == 1
  }

  /** Every tracked position that is a line of the text matches the sampling pattern. */
  predicate Readable(keys: set<int>, lines: seq<string>)
  {
    forall k :: k in keys && 0 <= k < |lines| ==> Sample(lines[k]).Some?
  }

  // ---------------------------------------------------------------------
  // The line loop

  lemma {:induction false} ScanDone(data: map<int, seq<int>>, regs: Registers, roles: Roles, lines: seq<string>, i: nat)
    requires i <= |lines|
    requires Scan(data, regs, roles, lines, i).Done?
    ensures var out := Scan(data, regs, roles, lines, i);
      && out.data.Keys == data.Keys
      && (forall k :: k in data && i <= k < |lines| ==> Sample(lines[k]).Some?)
      && (forall k :: k in data ==> out.data[k] == data[k] + (if i <= k then ValueAt(lines, k) else []))
      && (forall role :: Register(out.regs, role) ==
            var p := PositionOf(roles, role);
            if p in data && i <= p < |lines| then Sample(lines[p]).value else Register(regs, role))
    decreases |lines| - i
  {
    if i < |lines| {
      if i in data {
        var v := Sample(lines[i]).value;
        ScanDone(data[i := data[i] + [v]], Stash(regs, roles, i, v), roles, lines, i + 1);
      } else {
        ScanDone(data, regs, roles, lines, i + 1);
      }
    }
  }

  lemma {:induction false} ScanAborted(data: map<int, seq<int>>, regs: Registers, roles: Roles, lines: seq<string>, i: nat)
    requires i <= |lines|
    requires Scan(data, regs, roles, lines, i).Aborted?
    ensures var out := Scan(data, regs, roles, lines, i);
      && i <= out.at < |lines| && out.at in data && Sample(lines[out.at]).None?
      && (forall k :: k in data && i <= k < out.at ==> Sample(lines[k]).Some?)
      && out.data.Keys == data.Keys
      && (forall k :: k in data ==> out.data[k] == data[k] + (if i <= k < out.at then ValueAt(lines, k) else []))
    decreases |lines| - i
  {
    if i < |lines| {
      if i in data && Sample(lines[i]).Some? {
        var v := Sample(lines[i]).value;
        ScanAborted(data[i := data[i] + [v]], Stash(regs, roles, i, v), roles, lines, i + 1);
      } else if i !in data {
        ScanAborted(data, regs, roles, lines, i + 1);
      }
    }
  }

  // ---------------------------------------------------------------------
  // Properties of one tick

  /** A tick completes exactly when every tracked line parses; otherwise it stops at one that does not. */
  lemma TickCompletesIff(data: map<int, seq<int>>, roles: Roles, lines: seq<string>)
    ensures Tick(data, roles, lines).Done? <==> Readable(data.Keys, lines)
    ensures Tick(data, roles, lines).Aborted? ==>
      var at := Tick(data, roles, lines).at;
      at in data && at < |lines| && Sample(lines[at]).None?
  {
    if Scan(data, EMPTY_REGISTERS, roles, lines, 0).Done? {
      ScanDone(data, EMPTY_REGISTERS, roles, lines, 0);
    } else {
      ScanAborted(data, EMPTY_REGISTERS, roles, lines, 0);
    }
  }

  /** Whatever the outcome, no series is added or dropped and every series keeps its old values as a prefix. */
  lemma TickKeepsHistory(data: map<int, seq<int>>, roles: Roles, lines: seq<string>)
    ensures forall k :: k in data ==> data[k] <= Tick(data, roles, lines).data[k]
  {
    if Scan(data, EMPTY_REGISTERS, roles, lines, 0).Done? {
      ScanDone(data, EMPTY_REGISTERS, roles, lines, 0);
    } else {
      ScanAborted(data, EMPTY_REGISTERS, roles, lines, 0);
    }
  }

  /** A completed tick appends to each series once per role it plays: real line, MemUsed, SwapUsed. */
  lemma TickAppendCount(data: map<int, seq<int>>, roles: Roles, lines: seq<string>)
    requires Tick(data, roles, lines).Done?
    ensures forall k :: k in data ==> |Tick(data, roles, lines).data[k]| == |data[k]| + Appends(k, |lines|, roles)
  {
    ScanDone(data, EMPTY_REGISTERS, roles, lines, 0);
  }

  /** The first value a completed tick appends to a tracked real position is that line's value. */
  lemma TickLineValue(data: map<int, seq<int>>, roles: Roles, lines: seq<string>, k: int)
    requires Tick(data, roles, lines).Done?
    requires k in data && 0 <= k < |lines|
    ensures Sample(lines[k]).Some?
    ensures |Tick(data, roles, lines).data[k]| > |data[k]|
    ensures Tick(data, roles, lines).data[k][|data[k]|] == Sample(lines[k]).value
  {
    ScanDone(data, EMPTY_REGISTERS, roles, lines, 0);
  }

  /** After the lines, a register holds its role's value when the role's position is tracked, and -1 otherwise. */
  lemma TickRegisters(data: map<int, seq<int>>, roles: Roles, lines: seq<string>)
    requires Tick(data, roles, lines).Done?
    ensures forall role :: Register(Tick(data, roles, lines).regs, role) == RoleReading(data, roles, lines, role).GetOr(UNASSIGNED)
  {
    ScanDone(data, EMPTY_REGISTERS, roles, lines, 0);
  }

  /** Registers holding the tick's readings (-1 for a missing one) give the derived values of the readings. */
  lemma DerivedOfReadings(regs: Registers, data: map<int, seq<int>>, roles: Roles, lines: seq<string>)
    requires forall role :: Register(regs, role) == RoleReading(data, roles, lines, role).GetOr(UNASSIGNED)
    ensures MemUsedOf(regs) == ExpectedMemUsed(data, roles, lines)
    ensures SwapUsedOf(regs) == ExpectedSwapUsed(data, roles, lines)
  {
    assert regs.memTotal == Register(regs, MemTotal) && regs.memFree == Register(regs, MemFree);
    assert regs.buffers == Register(regs, Buffers) && regs.cached == Register(regs, Cached);
    assert regs.swapTotal == Register(regs, SwapTotal) && regs.swapFree == Register(regs, SwapFree);
    assert regs.swapCached == Register(regs, SwapCached);
  }

  /** The MemUsed series ends with the derived value, or 0 when an input was not read. */
  lemma TickMemUsed(data: map<int, seq<int>>, roles: Roles, lines: seq<string>)
    requires Tick(data, roles, lines).Done?
    requires roles.memUsed in data && roles.memUsed != roles.swapUsed
    ensures var s := Tick(data, roles, lines).data[roles.memUsed];
            |s| > 0 && s[|s| - 1] == ExpectedMemUsed(data, roles, lines)
  {
    TickRegisters(data, roles, lines);
    DerivedOfReadings(Tick(data, roles, lines).regs, data, roles, lines);
  }

  /** The SwapUsed series ends with the derived value, or 0 when an input was not read. */
  lemma TickSwapUsed(data: map<int, seq<int>>, roles: Roles, lines: seq<string>)
    requires Tick(data, roles, lines).Done?
    requires roles.swapUsed in data
    ensures var s := Tick(data, roles, lines).data[roles.swapUsed];
            |s| > 0 && s[|s| - 1] == ExpectedSwapUsed(data, roles, lines)
  {
    TickRegisters(data, roles, lines);
    DerivedOfReadings(Tick(data, roles, lines).regs, data, roles, lines);
  }

  /** With every tracked position playing one role, a completed tick lengthens every series by exactly one. */
  lemma TickAlignedAppendsOne(data: map<int, seq<int>>, roles: Roles, lines: seq<string>)
    requires Tick(data, roles, lines).Done?
    requires Aligned(data.Keys, |lines|, roles)
    ensures forall k :: k in data ==>
      var s := Tick(data, roles, lines).data[k];
      |s| == |data[k]| + 1 && s[..|data[k]|] == data[k]
  {
    TickAppendCount(data, roles, lines);
    TickKeepsHistory(data, roles, lines);
  }
}
