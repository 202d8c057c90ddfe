# meminfo plugin — a Dafny model

This project models the `meminfo_plugin` class of the Score-P memory-statistics
plugin (`include/plugin.hpp`). The plugin reads a `Name: value [unit]` text such
as `/proc/meminfo`. It discovers which lines hold metrics and identifies each
metric by the 0-based position of its line. It then samples those lines
periodically into one integer series per position, scaled to bytes. Two
derived metrics, MemUsed and SwapUsed, sit at the two positions after the
last line.

The modules follow the pieces of the class:

- `Chars`: the character classes the regular expressions use, and decimal digit strings.
- `Units`: the fall-through `switch` that scales a value to bytes.
- `Interval`: the `INTERVAL` setting parsed by the constructor.
- `Schedule`: the drift-correcting deadline loop of `exec`.
- `Patterns`: the three fixed-shape regular expressions, written as concrete
  matchers that return their capture groups and follow ECMAScript backtracking order.
- `Discovery`: `init`, with the caller's name pattern kept abstract.
- `Sampling`: one `parse` pass, written as a function of the sample map. It
  comes with the properties one pass guarantees.
- `Plugin`: the `MemInfoPlugin` class. It has the source's fields: the
  running flag, the sample map, the timestamps, the interval, the next
  deadline and the nine role positions. Its methods update them in place.

Inputs the class gets from outside are parameters:

- the lines of the statistics text;
- the `INTERVAL` setting;
- wall-clock and measurement-clock readings.

`Parse` and `Discover` are loops proved against the reference functions
`Sampling.Tick` and `Discovery.Discovered`. The lemmas beside those functions
state what the source promises about them.

`Discovery.IdentifyStatLine` together with `Sampling.SampleStatLine` shows how
discovery and sampling treat a line such as `MemTotal:  16 kB`:

- When the caller's pattern accepts the name, discovery reports the unit as written (`kB`).
- When only the well-known fallback accepts it, discovery reports just the `B`.
- The samples stored for that line are in bytes in either case (`16 * 1024`).

## Model

| member | source | states |
|---|---|---|
| Units.Normalize | include/plugin.hpp:335-348 | the value times the unit's factor: 1024, 1024², 1024³ or 1024⁴ for k, m, g, t (either case) followed by b/B, and 1 for every other unit; a non-negative value never shrinks |
| Units.FallThroughScales | include/plugin.hpp:336-347 | entering the fall-through switch `depth` cases above the bottom multiplies by 1024^depth |
| Interval.MatchSetting | include/plugin.hpp:48-53 | a match of `([0-9]+)([mun]?s)` splits the setting into a non-empty digit run and one of the four suffixes that rebuild it |
| Interval.IntervalNanos | include/plugin.hpp:48-75 | the configured interval is the 10 ms default or, when the whole setting reads as `<digits><suffix>`, the digits counted in that unit and scaled to nanoseconds |
| Interval.MatchSettingComplete | include/plugin.hpp:48-53 | every `<digits><suffix>` setting matches, with exactly those two groups |
| Interval.IntervalOfWellFormed | include/plugin.hpp:51-67 | `<digits>s`, `ms`, `us`, `ns` configure digits × 10⁹, 10⁶, 10³, 1 nanoseconds |
| Interval.IntervalOfMalformed | include/plugin.hpp:73-75 | a setting with no split into digits and a valid suffix configures 10 ms |
| Interval.DigitPrefixLength | include/plugin.hpp:48 | the greedy `[0-9]+` stops at the first non-digit |
| Schedule.AdvanceDeadline | include/plugin.hpp:180-182 | the new deadline is not before now, lies on the grid last + k·interval (k ≥ 0), and is the first such point: when it moved, one interval earlier was before now |
| Schedule.NextDeadlineIsNext | include/plugin.hpp:180-182 | the reference deadline `NextDeadline` (interval steps from the last deadline until now is reached) is the first grid point not before now |
| Schedule.NextDeadlineUnique | include/plugin.hpp:180-182 | with a positive interval exactly one grid point meets that description |
| Schedule.GridGap | include/plugin.hpp:181 | later grid points lie at least one interval further on |
| Patterns.SkipSeparators | include/plugin.hpp:218 | `[^a-zA-Z0-9]*` stops at the first alphanumeric character |
| Patterns.DigitsEnd | include/plugin.hpp:218 | `([0-9]+)` takes the maximal digit run |
| Patterns.ReadingAfter | include/plugin.hpp:218 | the value part after a colon yields a non-empty digit string and an empty or `[kKmMgGtT][bB]` unit |
| Patterns.ReadingBefore | include/plugin.hpp:218 | the backtracking `.*:` yields only well-formed readings |
| Patterns.ParseReading | include/plugin.hpp:330-333 | a match of the sampling pattern yields a digit string and an optional scale unit |
| Patterns.ReadingBeforeMatches | include/plugin.hpp:218 | the sampling pattern matches exactly when some colon is followed by the value part |
| Patterns.ReadingBeforeLastColon | include/plugin.hpp:218 | the groups reported come from the last colon that is followed by the value part |
| Patterns.FirstColon | include/plugin.hpp:250 | the first colon of the line, or none when the line has no colon |
| Patterns.DiscoveryUnit | include/plugin.hpp:250 | the discovery tail yields an empty or a scale unit |
| Patterns.DiscoveryValue | include/plugin.hpp:250 | the discovery value part yields an empty or a scale unit |
| Patterns.FallbackPath | include/plugin.hpp:268 | one backtracking path of the fallback tail yields an empty unit or a single b/B |
| Patterns.FallbackUnit | include/plugin.hpp:268 | the first successful fallback path yields an empty unit or a single b/B |
| Patterns.FallbackValue | include/plugin.hpp:268 | the fallback value part yields an empty unit or a single b/B |
| Patterns.StatLineValue | include/plugin.hpp:218 | on a stat line the separators end at the digits, the digit run is the value and the unit follows one space |
| Patterns.ParseStatLine | include/plugin.hpp:330-333 | the sampling pattern reads back exactly the digits and the unit of a stat line |
| Patterns.ReadingAfterStatLine | include/plugin.hpp:218 | after a stat line's colon the value part captures its digits and unit |
| Patterns.StatLineColonless | include/plugin.hpp:218 | a stat line has no colon after its name's colon |
| Patterns.ReadingBeforeSkipsColonless | include/plugin.hpp:218 | backtracking of `.*:` passes over positions without a colon |
| Patterns.StatLineFirstColon | include/plugin.hpp:250 | the first colon of a stat line with a colon-free name ends the name |
| Patterns.DiscoveryStatLine | include/plugin.hpp:250 | the discovery value part captures a stat line's whole unit |
| Patterns.FallbackStatLine | include/plugin.hpp:268 | the fallback value part captures only the b/B letter of a stat line's unit, or nothing when it has none |
| Discovery.CustomMatch | include/plugin.hpp:250 | a line the caller's pattern matches yields the text before its first colon as the name, a name the pattern accepts, and an empty or `[kKmMgGtT][bB]` unit |
| Discovery.FallbackMatch | include/plugin.hpp:268 | a line the fallback pattern matches yields the text before its first colon as the name, one of the seven well-known names, and an empty unit or the single b/B letter |
| Discovery.IdentifyLine | include/plugin.hpp:265-270 | a line is kept exactly when one of the two patterns matches it; the caller's pattern wins when both do and the fallback's capture is returned otherwise; the name ends at the first colon and is accepted by the caller's pattern or is well known |
| Discovery.ScanLines | include/plugin.hpp:259-277 | the line loop returns exactly the reference list of matching lines |
| Discovery.ScannedSpec | include/plugin.hpp:259-277 | the line loop reports positions in strictly increasing order, and exactly the lines the matcher accepts, each at its 0-based index with the captured name and unit |
| Discovery.Discover | include/plugin.hpp:220-302 | `init` returns the reference list `Discovered`: matching lines, then MemUsed at n and SwapUsed at n + 1 when the names pattern accepts them |
| Discovery.DiscoveredOrdered | include/plugin.hpp:259-299 | discovery results are in strictly increasing position order |
| Discovery.DiscoveredExactly | include/plugin.hpp:259-299 | an identity is reported exactly when it is a matching real line, or MemUsed at n / SwapUsed at n + 1 with unit "B" and a names pattern that accepts it; the fallback pattern is never tried on the synthetic names |
| Discovery.IdentifyStatLine | include/plugin.hpp:265-274 | the caller's pattern is tried first with the full unit, the well-known fallback second with only the b/B letter, and otherwise the line is skipped |
| Sampling.Sample | include/plugin.hpp:330-348 | a line's sample, when it parses, is non-negative |
| Sampling.SampleStatLine | include/plugin.hpp:330-348 | a line of the statistics file's shape, such as `MemTotal:  16 kB`, samples to its number times the unit's byte multiplier |
| Sampling.Stash | include/plugin.hpp:350-391 | each register whose role sits at the current position takes the value; the others keep theirs |
| Sampling.Scan | include/plugin.hpp:323-396 | the line loop never adds or removes keys |
| Sampling.Tick | include/plugin.hpp:304-429 | one pass never adds or removes keys |
| Sampling.ScanDone | include/plugin.hpp:323-396 | a completed line loop has parsed every tracked line, appended each tracked line's value once and left each register at its role's value or unchanged |
| Sampling.ScanAborted | include/plugin.hpp:329-332 | an aborted line loop stopped at the first tracked line that does not parse; the lines before it were appended and nothing after |
| Sampling.TickCompletesIff | include/plugin.hpp:329-332 | a pass completes exactly when every tracked line parses; otherwise it stops at a tracked line that does not |
| Sampling.TickKeepsHistory | include/plugin.hpp:393-426 | every series only grows at the end: the old values are a prefix of the new ones |
| Sampling.TickAppendCount | include/plugin.hpp:329-428 | a completed pass appends to each series once per role its position plays: a real line, MemUsed, SwapUsed; untracked lines add nothing |
| Sampling.TickLineValue | include/plugin.hpp:332-393 | the value appended for a tracked line is its number scaled by its unit |
| Sampling.TickRegisters | include/plugin.hpp:313-391 | after the lines a register holds its role's reading when the role's position is tracked and its line exists, and -1 otherwise |
| Sampling.MemUsedOf | include/plugin.hpp:400-411 | with all four inputs read, MemUsed, free, buffers and cached add up to the total; with one missing it is 0 |
| Sampling.SwapUsedOf | include/plugin.hpp:417-428 | with all three inputs read, SwapUsed, free swap and cached swap add up to the swap total; with one missing it is 0 |
| Sampling.DerivedOfReadings | include/plugin.hpp:400-428 | registers holding the readings give MemUsed = total − free − buffers − cached and SwapUsed = total − free − cached, or 0 when an input is missing |
| Sampling.TickMemUsed | include/plugin.hpp:400-411 | a tracked MemUsed series ends with the derived value, unclamped, or 0 when an input was not read |
| Sampling.TickSwapUsed | include/plugin.hpp:417-428 | a tracked SwapUsed series ends with the derived value, unclamped, or 0 when an input was not read |
| Sampling.TickAlignedAppendsOne | include/plugin.hpp:323-428 | when each tracked position plays exactly one role, a completed pass lengthens every series by exactly one and keeps its old values |
| Plugin.TickKeepsSynced | include/plugin.hpp:176-178 | on such a text, a pass followed by one timestamp keeps every series as long as the timestamp list |
| Plugin.PassesKeepHistory | include/plugin.hpp:176-177 | a run of completed passes, and the pass after it, keep the keys and only append to each series |
| Plugin.PassesReadable | include/plugin.hpp:329-332 | `n` passes complete exactly when every one of the first `n` texts has all tracked lines parsable, and the next pass completes exactly when its text does |
| Plugin.PassesSynced | include/plugin.hpp:176-178 | on texts where each tracked position plays one role, every pass completes and the series stay as long as the timestamp list |
| Plugin.DeadlineOnGrid | include/plugin.hpp:180-182 | after `n` passes the deadline lies on the grid of the starting deadline, is not before the clock reading of the last pass, and each pass moved it to the next grid point after that pass's reading |
| Plugin.UnregisteredMembers | include/plugin.hpp:85-86 | the metrics kept are exactly those whose positions have no series yet |
| Plugin.UnregisteredOrdered | include/plugin.hpp:85-86 | filtering keeps position order |
| Plugin.RegisteredSpec | include/plugin.hpp:92 | registration adds an empty series at each new position and leaves the existing series alone |
| Plugin.NextPositionIsNew | include/plugin.hpp:86 | the positions registered earlier in the loop never include a later metric's position |
| Plugin.MemInfoPlugin.constructor | include/plugin.hpp:40-76 | the interval is the one the setting configures (default "10ms"); the flag is clear, the map and timestamps are empty and all nine positions are -1 |
| Plugin.MemInfoPlugin.GetMetricProperties | include/plugin.hpp:78-97 | returns, in position order, exactly the discovered metrics whose positions had no series; those get an empty series; existing series are kept as they were |
| Plugin.MemInfoPlugin.RegisterNew | include/plugin.hpp:85-94 | the loop returns the metrics at new positions and registers exactly those |
| Plugin.MemInfoPlugin.AddMetric | include/plugin.hpp:99-139 | exactly the role whose name equals the metric's name (case-sensitive) takes its position; every other role keeps its value, and an unknown name changes nothing |
| Plugin.MemInfoPlugin.Start | include/plugin.hpp:141-161 | the flag is set; the deadline becomes now unless the plugin was already running |
| Plugin.MemInfoPlugin.Stop | include/plugin.hpp:163-172 | the flag is clear |
| Plugin.MemInfoPlugin.Parse | include/plugin.hpp:304-429 | the sample map becomes the reference pass `Tick`; it reports whether the pass completed |
| Plugin.MemInfoPlugin.RunPasses | include/plugin.hpp:176-182 | the loop runs while the flag is set; after it the map is the reference fold `Passes` of `Tick` over the completed texts (or the aborted pass's partial map), the timestamps gain one stamp per completed pass, and the deadline is the fold `Deadline` of the next-grid-point step |
| Plugin.MemInfoPlugin.Exec | include/plugin.hpp:174-186 | passes run while the flag is set: the map is `Tick` folded over the completed texts, with an early stop leaving the stopping pass's partial appends; one timestamp per completed pass; the deadline is unchanged when nothing ran, otherwise not before the last clock reading and on the grid of the old deadline; keys and history kept; an early stop means the next text had an unparsable tracked line; on texts where each position plays one role and parses, series and timestamps stay the same length |
| Plugin.MemInfoPlugin.GetAllValues | include/plugin.hpp:188-196 | writes (times[i], values[i]) for every index of the series, in index order |

## Left out

- Reading `/proc/meminfo`: the lines are a parameter. An unreadable file and an empty one both give no lines.
- Regular-expression engine: the three fixed patterns are written as matchers. The caller's name pattern, spliced into the discovery regex, is an opaque predicate on names. The name it is applied to is taken to be the text before the line's first colon. That is exact for the default `[a-zA-Z0-9_]+` and for the fallback's fixed names. A caller pattern that itself matches a colon, or that contains capture groups (which would shift the group numbers the source reads), is not modelled.
- `.` in the patterns is taken to match every character. Lines containing a line terminator that `.` would refuse are not modelled.
- Lines are taken to be ASCII: the model matches the patterns character by character, while the source matches bytes, so the two can differ on a line holding a multi-byte character.
- Threads, `std::atomic`, `join` and `sleep_until`: `Exec` runs one pass per given input while the flag is set. The flag is not changed concurrently.
- Clocks: the wall-clock and measurement-clock readings are parameters. Time is an integer count of nanoseconds.
- Host framework: `make_handle`, the `metric_property` builder and the `Cursor` sink are left out. `GetMetricProperties` returns the identities the properties are built from, and `GetAllValues` returns the written pairs. The environment lookup becomes an optional setting passed to the constructor.
- Machine integers: values, positions and durations are unbounded. Overflow in the ×1024 chain and in the chrono conversions is not modelled, nor are `stol`/`stoll` range errors or the 32-bit `int` role positions.
- Sampling.Tick: the exception that `stoll` throws on a tracked line that does not match is modelled as an `Aborted` outcome keeping the appends made before it. What the escaping exception does to the sampling thread is not modelled.
- Schedule.AdvanceDeadline: requires a positive interval or a deadline that is already due, because the source loops forever otherwise (a `0s` setting). `Plugin.MemInfoPlugin.RunPasses` and `Plugin.MemInfoPlugin.Exec` require a positive interval: with a zero interval the source completes one pass and then loops forever in the drift loop.
- Plugin.MemInfoPlugin.GetAllValues: requires the metric's position to have a series and the series to be no longer than the timestamp list. Otherwise the source dereferences an end iterator or reads past `times_`.
- Plugin.MemInfoPlugin.Exec: proves that series and timestamps stay the same length only for texts in which each tracked position plays exactly one role. A synthetic position that later coincides with a real line gets two values per pass.
- Plugin.MemInfoPlugin.GetMetricProperties: `init` is always called with a one-element search list, so the default-pattern branch is modelled in `Discovery` but never reached from here.
- Debug output under `DEBUG` is not modelled.
