/**
 * The `meminfo_plugin` object: the sample map keyed by position, the
 * shared timestamp list, the configured interval, the next deadline and
 * the nine role positions, with the operations the host calls on it.
 */
module Plugin {
  import opened Wrappers
  import opened Chars
  import Interval
  import Patterns
  import Units
  import Discovery
  import Sampling
  import Schedule

  /**
   * What one pass of the sampling loop gets from outside: the lines read,
   * the measurement-clock stamp, and the wall-clock reading the drift loop
   * compares the deadline with. The source reads the clock again on every
   * step of that loop; one reading per pass gives the same deadline when
   * the clock is monotone and `now` is the reading taken at the loop's
   * last comparison.
   */
  datatype TickInput = TickInput(lines: seq<string>, stamp: int, now: int)

  /** Every series has as many values as there are timestamps. */
  predicate Synced(data: map<int, seq<int>>, stamps: nat)
  {
    forall k :: k in data ==> |data[k]| == stamps
  }

  /** The stamps of the first `n` passes. */
  function Stamps(inputs: seq<TickInput>, n: nat): (stamps: seq<int>)
    requires n <= |inputs|
    ensures |stamps| == n
  {
    if n == 0 then [] else Stamps(inputs, n - 1) + [inputs[n - 1].stamp]
  }

  /** Every pass reads a text in which each tracked position plays one role and each tracked line parses. */
  predicate SteadyInputs(keys: set<int>, roles: Sampling.Roles, inputs: seq<TickInput>)
  {
    forall i :: 0 <= i < |inputs| ==> Sampling.Aligned(keys, |inputs[i].lines|, roles) && Sampling.Readable(keys, inputs[i].lines)
  }

  /** On such a text a tick completes and keeps the series in step with the timestamps. */
  lemma TickKeepsSynced(data: map<int, seq<int>>, roles: Sampling.Roles, lines: seq<string>, stamps: nat)
    requires Synced(data, stamps)
    requires Sampling.Aligned(data.Keys, |lines|, roles) && Sampling.Readable(data.Keys, lines)
    ensures Sampling.Tick(data, roles, lines).Done?
    ensures Synced(Sampling.Tick(data, roles, lines).data, stamps + 1)
  {
    Sampling.TickCompletesIff(data, roles, lines);
    Sampling.TickAlignedAppendsOne(data, roles, lines);
  }

  /**
   * The sample map after the first `n` passes of the sampling loop, each
   * applied to the map the one before left; None when one of them throws.
   */
  function Passes(data: map<int, seq<int>>, roles: Sampling.Roles, inputs: seq<TickInput>, n: nat): Option<map<int, seq<int>>>
    requires n <= |inputs|
  {
    if n == 0 then Some(data)
    else
      match Passes(data, roles, inputs, n - 1)
      case None => None
      case Some(m) =>
        var t := Sampling.Tick(m, roles, inputs[n - 1].lines);
        if t.Done? then Some(t.data) else None
  }

  /**
   * Completed passes, and the pass after them whatever its outcome, never
   * add or drop a series, and every series keeps its old values as a prefix.
   */
  lemma {:induction false} PassesKeepHistory(data: map<int, seq<int>>, roles: Sampling.Roles, inputs: seq<TickInput>, n: nat)
    requires n <= |inputs|
    requires Passes(data, roles, inputs, n).Some?
    ensures var m := Passes(data, roles, inputs, n).value;
      m.Keys == data.Keys && forall k :: k in data ==> data[k] <= m[k]
    ensures n < |inputs| ==>
      var next := Sampling.Tick(Passes(data, roles, inputs, n).value, roles, inputs[n].lines).data;
      next.Keys == data.Keys && forall k :: k in data ==> data[k] <= next[k]
  {
    if n > 0 {
      PassesKeepHistory(data, roles, inputs, n - 1);
    }
    if n < |inputs| {
      Sampling.TickKeepsHistory(Passes(data, roles, inputs, n).value, roles, inputs[n].lines);
    }
  }

  /** The first `n` passes complete exactly when their texts parse at every tracked position; likewise the next one. */
  lemma {:induction false} PassesReadable(data: map<int, seq<int>>, roles: Sampling.Roles, inputs: seq<TickInput>, n: nat)
    requires n <= |inputs|
    ensures Passes(data, roles, inputs, n).Some? <==> forall i :: 0 <= i < n ==> Sampling.Readable(data.Keys, inputs[i].lines)
    ensures Passes(data, roles, inputs, n).Some? && n < |inputs| ==>
      (Sampling.Tick(Passes(data, roles, inputs, n).value, roles, inputs[n].lines).Done? <==> Sampling.Readable(data.Keys, inputs[n].lines))
  {
    if n > 0 {
      PassesReadable(data, roles, inputs, n - 1);
      if Passes(data, roles, inputs, n - 1).Some? {
        PassesKeepHistory(data, roles, inputs, n - 1);
        Sampling.TickCompletesIff(Passes(data, roles, inputs, n - 1).value, roles, inputs[n - 1].lines);
      }
    }
    if Passes(data, roles, inputs, n).Some? && n < |inputs| {
      PassesKeepHistory(data, roles, inputs, n);
      Sampling.TickCompletesIff(Passes(data, roles, inputs, n).value, roles, inputs[n].lines);
    }
  }

  /** On steady texts every pass completes and lengthens every series by one. */
  lemma {:induction false} PassesSynced(data: map<int, seq<int>>, roles: Sampling.Roles, inputs: seq<TickInput>, stamps: nat, n: nat)
    requires n <= |inputs|
    requires Synced(data, stamps) && SteadyInputs(data.Keys, roles, inputs)
    ensures Passes(data, roles, inputs, n).Some?
    ensures Synced(Passes(data, roles, inputs, n).value, stamps + n)
  {
    if n > 0 {
      PassesSynced(data, roles, inputs, stamps, n - 1);
      PassesKeepHistory(data, roles, inputs, n - 1);
      TickKeepsSynced(Passes(data, roles, inputs, n - 1).value, roles, inputs[n - 1].lines, stamps + n - 1);
    }
  }

  /** The deadline after the first `n` passes of the sampling loop. */
  function Deadline(last: int, interval: nat, inputs: seq<TickInput>, n: nat): int
    requires interval > 0 && n <= |inputs|
  {
    if n == 0 then last
    else Schedule.NextDeadline(Deadline(last, interval, inputs, n - 1), inputs[n - 1].now, interval)
  }

  /** However many passes ran, the deadline stays on the grid of the first one and is not before the last pass's `now`. */
  lemma {:induction false} DeadlineOnGrid(last: int, interval: nat, inputs: seq<TickInput>, n: nat)
    requires interval > 0 && n <= |inputs|
    ensures exists k: nat :: Deadline(last, interval, inputs, n) == Schedule.GridPoint(last, interval, k)
    ensures n > 0 ==> inputs[n - 1].now <= Deadline(last, interval, inputs, n)
    ensures n > 0 ==> Schedule.IsNextDeadline(Deadline(last, interval, inputs, n - 1), inputs[n - 1].now, interval, Deadline(last, interval, inputs, n))
  {
    if n == 0 {
      assert last == Schedule.GridPoint(last, interval, 0);
    } else {
      DeadlineOnGrid(last, interval, inputs, n - 1);
      var prev := Deadline(last, interval, inputs, n - 1);
      var k: nat :| prev == Schedule.GridPoint(last, interval, k);
      Schedule.NextDeadlineIsNext(prev, inputs[n - 1].now, interval);
      var j: nat :| Deadline(last, interval, inputs, n) == Schedule.GridPoint(prev, interval, j);
      Schedule.GridCompose(last, interval, k, j);
    }
  }

  /** The metrics of `found` whose positions are not among `known`, in order. */
  function Unregistered(found: seq<Discovery.MetricIdentity>, known: set<int>): seq<Discovery.MetricIdentity>
  {
    if |found| == 0 then []
    else
      var last := found[|found| - 1];
      Unregistered(found[..|found| - 1], known) + (if last.lineNr in known then [] else [last])
  }

  /** Filtering keeps exactly the metrics at unknown positions. */
  lemma {:induction false} UnregisteredMembers(found: seq<Discovery.MetricIdentity>, known: set<int>)
    ensures forall id :: id in Unregistered(found, known) <==> id in found && id.lineNr !in known
  {
    if |found| > 0 {
      var init := found[..|found| - 1];
      var last := found[|found| - 1];
      UnregisteredMembers(init, known);
      assert found == init + [last];
    }
  }

  /** Filtering keeps the order. */
  lemma {:induction false} UnregisteredOrdered(found: seq<Discovery.MetricIdentity>, known: set<int>)
    requires Discovery.StrictlyIncreasing(found)
    ensures Discovery.StrictlyIncreasing(Unregistered(found, known))
  {
    if |found| > 0 {
      var init := found[..|found| - 1];
      var last := found[|found| - 1];
      UnregisteredOrdered(init, known);
      UnregisteredMembers(init, known);
      var kept := Unregistered(init, known);
      forall id | id in kept
        ensures id.lineNr < last.lineNr
      {
        var j :| 0 <= j < |init| && init[j] == id;
      }
    }
  }

  /** The sample map after an empty series is emplaced at each position of `ids`. */
  function Registered(data: map<int, seq<int>>, ids: seq<Discovery.MetricIdentity>): map<int, seq<int>>
  {
    if |ids| == 0 then data
    else Registered(data, ids[..|ids| - 1])[ids[|ids| - 1].lineNr := []]
  }

  /** Registration adds the positions of `ids` with empty series and leaves the other series alone. */
  lemma {:induction false} RegisteredSpec(data: map<int, seq<int>>, ids: seq<Discovery.MetricIdentity>)
    requires forall id :: id in ids ==> id.lineNr !in data
    ensures Registered(data, ids).Keys == data.Keys + Discovery.Positions(ids)
    ensures forall k :: k in data ==> Registered(data, ids)[k] == data[k]
    ensures forall k :: k in Registered(data, ids) && k !in data ==> Registered(data, ids)[k] == []
  {
    if |ids| > 0 {
      var init := ids[..|ids| - 1];
      RegisteredSpec(data, init);
      assert ids == init + [ids[|ids| - 1]];
      assert Discovery.Positions(ids) == Discovery.Positions(init) + {ids[|ids| - 1].lineNr};
    }
  }

  /** Registering the earlier metrics of a position-ordered list never creates the position of a later one. */
  lemma NextPositionIsNew(data: map<int, seq<int>>, found: seq<Discovery.MetricIdentity>, i: nat)
    requires Discovery.StrictlyIncreasing(found) && i < |found|
    ensures found[i].lineNr in Registered(data, Unregistered(found[..i], data.Keys)) <==> found[i].lineNr in data
  {
    var props := Unregistered(found[..i], data.Keys);
    UnregisteredMembers(found[..i], data.Keys);
    RegisteredSpec(data, props);
    forall id | id in props
      ensures id.lineNr != found[i].lineNr
    {
      var j :| 0 <= j < i && found[j] == id;
    }
  }

  class MemInfoPlugin {
    var running: bool
    var valuesById: map<int, seq<int>>
    var times: seq<int>
    /** In nanoseconds. */
    var interval: nat
    var lastMeasurement: int

    var memTotalPos: int
    var memFreePos: int
    var buffersPos: int
    var cachedPos: int
    var swapTotalPos: int
    var swapFreePos: int
    var swapCachedPos: int
    var memUsedPos: int
    var swapUsedPos: int

    function Roles(): Sampling.Roles
      reads this`memTotalPos, this`memFreePos, this`buffersPos, this`cachedPos, this`swapTotalPos,
        this`swapFreePos, this`swapCachedPos, this`memUsedPos, this`swapUsedPos
    {
      Sampling.Roles(memTotalPos, memFreePos, buffersPos, cachedPos, swapTotalPos, swapFreePos, swapCachedPos,
                     memUsedPos, swapUsedPos)
    }

    /** `intervalSetting` is the INTERVAL setting if there is one; `now` the wall-clock time at construction. */
    constructor (intervalSetting: Option<string>, now: int)
      ensures interval == Interval.IntervalNanos(intervalSetting.GetOr("10ms"))
      ensures !running && valuesById == map[] && times == [] && lastMeasurement == now
      ensures Roles() == Sampling.Roles(-1, -1, -1, -1, -1, -1, -1, -1, -1)
    {
      running := false;
      valuesById := map[];
      times := [];
      lastMeasurement := now;
      memTotalPos, memFreePos, buffersPos, cachedPos := -1, -1, -1, -1;
      swapTotalPos, swapFreePos, swapCachedPos := -1, -1, -1;
      memUsedPos, swapUsedPos := -1, -1;
      interval := Interval.IntervalNanos(intervalSetting.GetOr("10ms"));
    }

    /**
     * `get_metric_properties`: discovers the metrics matching `pattern` and
     * registers each one whose position is new, with an empty series.
     * Returns the newly registered metrics (each one's name and unit make
     * its property), in position order.
     */
    method GetMetricProperties(lines: seq<string>, pattern: Discovery.NameFilter) returns (props: seq<Discovery.MetricIdentity>)
      modifies this`valuesById
      ensures Discovery.StrictlyIncreasing(props)
      ensures forall id :: id in props <==> Discovery.IsDiscovered([pattern], lines, id) && id.lineNr !in old(valuesById)
      ensures valuesById.Keys == old(valuesById).Keys + Discovery.Positions(props)
      ensures forall k :: k in old(valuesById) ==> valuesById[k] == old(valuesById)[k]
      ensures forall k :: k in valuesById && k !in old(valuesById) ==> valuesById[k] == []
    {
      var found := Discovery.Discover(lines, [pattern]);
      Discovery.DiscoveredOrdered([pattern], lines);
      props := RegisterNew(found);
      UnregisteredMembers(found, old(valuesById).Keys);
      UnregisteredOrdered(found, old(valuesById).Keys);
      RegisteredSpec(old(valuesById), props);
      Discovery.DiscoveredExactly([pattern], lines);
    }

    /**
     * The loop of `get_metric_properties`: each metric of `found` whose
     * position has no series yet gets an empty one and is returned.
     */
    method RegisterNew(found: seq<Discovery.MetricIdentity>) returns (props: seq<Discovery.MetricIdentity>)
      requires Discovery.StrictlyIncreasing(found)
      modifies this`valuesById
      ensures props == Unregistered(found, old(valuesById).Keys)
      ensures valuesById == Registered(old(valuesById), props)
    {
      ghost var known := valuesById.Keys;
      props := [];
      var i := 0;
      while i < |found|
        invariant 0 <= i <= |found|
        invariant props == Unregistered(found[..i], known)
        invariant valuesById == Registered(old(valuesById), props)
      {
        var m := found[i];
        NextPositionIsNew(old(valuesById), found, i);
        assert found[..i + 1][..i] == found[..i];
        assert Unregistered(found[..i + 1], known) == props + (if m.lineNr in known then [] else [m]);
        if m.lineNr !in valuesById {
          props := props + [m];
          valuesById := valuesById[m.lineNr := []];
        }
        i := i + 1;
      }
      assert found[..i] == found;
    }

    /** `add_metric`: the role whose name equals the metric's name (case-sensitive) takes its position. */
    method AddMetric(id: Discovery.MetricIdentity)
      modifies this`memTotalPos, this`memFreePos, this`buffersPos, this`cachedPos, this`swapTotalPos,
        this`swapFreePos, this`swapCachedPos, this`memUsedPos, this`swapUsedPos
      ensures memTotalPos == if id.name == "MemTotal" then id.lineNr else old(memTotalPos)
      ensures memFreePos == if id.name == "MemFree" then id.lineNr else old(memFreePos)
      ensures buffersPos == if id.name == "Buffers" then id.lineNr else old(buffersPos)
      ensures cachedPos == if id.name == "Cached" then id.lineNr else old(cachedPos)
      ensures swapTotalPos == if id.name == "SwapTotal" then id.lineNr else old(swapTotalPos)
      ensures swapFreePos == if id.name == "SwapFree" then id.lineNr else old(swapFreePos)
      ensures swapCachedPos == if id.name == "SwapCached" then id.lineNr else old(swapCachedPos)
      ensures memUsedPos == if id.name == "MemUsed" then id.lineNr else old(memUsedPos)
      ensures swapUsedPos == if id.name == "SwapUsed" then id.lineNr else old(swapUsedPos)
    {
      if id.name == "MemTotal" { memTotalPos := id.lineNr; }
      if id.name == "MemFree" { memFreePos := id.lineNr; }
      if id.name == "Buffers" { buffersPos := id.lineNr; }
      if id.name == "Cached" { cachedPos := id.lineNr; }
      if id.name == "SwapTotal" { swapTotalPos := id.lineNr; }
      if id.name == "SwapFree" { swapFreePos := id.lineNr; }
      if id.name == "SwapCached" { swapCachedPos := id.lineNr; }
      if id.name == "MemUsed" { memUsedPos := id.lineNr; }
      if id.name == "SwapUsed" { swapUsedPos := id.lineNr; }
    }

    /** `start`: a no-op while running; otherwise sets the flag and takes `now` as the first deadline. */
    method Start(now: int)
      modifies this`running, this`lastMeasurement
      ensures running
      ensures lastMeasurement == if old(running) then old(lastMeasurement) else now
    {
      if running {
        return;
      }
      running := true;
      lastMeasurement := now;
    }

    /** `stop`: clears the flag (a no-op when it is already clear). */
    method Stop()
      modifies this`running
      ensures !running
    {
      if !running {
        return;
      }
      running := false;
    }

    /**
     * `parse`: one pass over the lines, appending to the tracked series.
     * `completed` is false when a tracked line did not match the sampling
     * pattern; the source throws there, and the appends made before stay.
     */
    method Parse(lines: seq<string>) returns (completed: bool)
      modifies this`valuesById
      ensures completed == Sampling.Tick(old(valuesById), Roles(), lines).Done?
      ensures valuesById == Sampling.Tick(old(valuesById), Roles(), lines).data
    {
      var roles := Roles();
      var memTotal, memFree, buffers, cached := -1, -1, -1, -1;
      var swapTotal, swapFree, swapCached := -1, -1, -1;
      var lineNr := 0;
      while lineNr < |lines|
        invariant 0 <= lineNr <= |lines|
        invariant Sampling.Scan(old(valuesById), Sampling.EMPTY_REGISTERS, roles, lines, 0)
          == Sampling.Scan(valuesById, Sampling.Registers(memTotal, memFree, buffers, cached, swapTotal, swapFree, swapCached), roles, lines, lineNr)
      {
        if lineNr in valuesById {
          var reading := Patterns.ParseReading(lines[lineNr]);
          if reading.None? {
            return false;
          }
          var value := Units.Normalize(DecimalValue(reading.value.digits), reading.value.unit);
          ghost var stashed := Sampling.Stash(Sampling.Registers(memTotal, memFree, buffers, cached, swapTotal, swapFree, swapCached), roles, lineNr, value);
          if memTotalPos == lineNr { memTotal := value; }
          if memFreePos == lineNr { memFree := value; }
          if buffersPos == lineNr { buffers := value; }
          if cachedPos == lineNr { cached := value; }
          if swapTotalPos == lineNr { swapTotal := value; }
          if swapFreePos == lineNr { swapFree := value; }
          if swapCachedPos == lineNr { swapCached := value; }
          assert Sampling.Registers(memTotal, memFree, buffers, cached, swapTotal, swapFree, swapCached) == stashed;
          valuesById := valuesById[lineNr := valuesById[lineNr] + [value]];
        }
        lineNr := lineNr + 1;
      }
      ghost var regs := Sampling.Registers(memTotal, memFree, buffers, cached, swapTotal, swapFree, swapCached);
      ghost var scanned := valuesById;
      assert Sampling.Scan(old(valuesById), Sampling.EMPTY_REGISTERS, roles, lines, 0) == Sampling.Done(scanned, regs);

      if memUsedPos in valuesById {
        if memTotal >= 0 && memFree >= 0 && buffers >= 0 && cached >= 0 {
          valuesById := valuesById[memUsedPos := valuesById[memUsedPos] + [memTotal - memFree - buffers - cached]];
        } else {
          valuesById := valuesById[memUsedPos := valuesById[memUsedPos] + [0]];
        }
      }
      assert valuesById == Sampling.AppendAt(scanned, memUsedPos, Sampling.MemUsedOf(regs));
      ghost var withMemUsed := valuesById;

      if swapUsedPos in valuesById {
        if swapTotal >= 0 && swapFree >= 0 && swapCached >= 0 {
          valuesById := valuesById[swapUsedPos := valuesById[swapUsedPos] + [swapTotal - swapFree - swapCached]];
        } else {
          valuesById := valuesById[swapUsedPos := valuesById[swapUsedPos] + [0]];
        }
      }
      assert valuesById == Sampling.AppendAt(withMemUsed, swapUsedPos, Sampling.SwapUsedOf(regs));
      completed := true;
    }

    /**
     * The `while (running)` loop of `exec`, one pass per input (the inputs
     * stand for the passes made before the flag is cleared). It ends when
     * the flag is clear, the inputs run out, or a pass throws; `ticks`
     * counts the passes that completed.
     */
    method RunPasses(inputs: seq<TickInput>) returns (ticks: nat)
      requires interval > 0
      modifies this`valuesById, this`times, this`lastMeasurement
      ensures ticks <= |inputs|
      ensures !running ==> ticks == 0
      ensures Passes(old(valuesById), Roles(), inputs, ticks).Some?
      ensures var done := Passes(old(valuesById), Roles(), inputs, ticks).value;
        if running && ticks < |inputs|
        then
          var thrown := Sampling.Tick(done, Roles(), inputs[ticks].lines);
          thrown.Aborted? && valuesById == thrown.data
        else valuesById == done
      ensures times == old(times) + Stamps(inputs, ticks)
      ensures lastMeasurement == Deadline(old(lastMeasurement), interval, inputs, ticks)
    {
      ticks := 0;
      ghost var roles := Roles();
      ghost var data := valuesById;
      while running && ticks < |inputs|
        invariant ticks <= |inputs|
        invariant !running ==> ticks == 0
        invariant Passes(data, roles, inputs, ticks) == Some(valuesById)
        invariant times == old(times) + Stamps(inputs, ticks)
        invariant lastMeasurement == Deadline(old(lastMeasurement), interval, inputs, ticks)
      {
        var completed := Parse(inputs[ticks].lines);
        assert Roles() == roles;
        if !completed {
          break;
        }
        times := times + [inputs[ticks].stamp];
        lastMeasurement := Schedule.AdvanceDeadline(lastMeasurement, inputs[ticks].now, interval);
        ticks := ticks + 1;
      }
    }

    /**
     * `exec`: the sampling loop, with what its passes amount to. The passes
     * that complete are those whose texts parse at every tracked position;
     * each appends to the series as `parse` does, adds one timestamp and
     * moves the deadline once. A pass that throws keeps its partial appends
     * and ends the loop.
     */
    method Exec(inputs: seq<TickInput>) returns (ticks: nat)
      requires interval > 0
      modifies this`valuesById, this`times, this`lastMeasurement
      ensures ticks <= |inputs|
      ensures !running ==> ticks == 0
      ensures forall i :: 0 <= i < ticks ==> Sampling.Readable(old(valuesById).Keys, inputs[i].lines)
      ensures running && ticks < |inputs| ==> !Sampling.Readable(old(valuesById).Keys, inputs[ticks].lines)
      ensures Passes(old(valuesById), Roles(), inputs, ticks).Some?
      ensures var done := Passes(old(valuesById), Roles(), inputs, ticks).value;
        valuesById == if running && ticks < |inputs| then Sampling.Tick(done, Roles(), inputs[ticks].lines).data else done
      ensures times == old(times) + Stamps(inputs, ticks)
      ensures lastMeasurement == Deadline(old(lastMeasurement), interval, inputs, ticks)
      ensures ticks == 0 ==> lastMeasurement == old(lastMeasurement)
      ensures ticks > 0 ==> inputs[ticks - 1].now <= lastMeasurement
      ensures exists k: nat :: lastMeasurement == Schedule.GridPoint(old(lastMeasurement), interval, k)
      ensures valuesById.Keys == old(valuesById).Keys
      ensures forall k :: k in old(valuesById) ==> old(valuesById)[k] <= valuesById[k]
      ensures Synced(old(valuesById), old(|times|)) && SteadyInputs(old(valuesById).Keys, Roles(), inputs)
        ==> Synced(valuesById, |times|)
    {
      ghost var roles := Roles();
      ghost var data := valuesById;
      ticks := RunPasses(inputs);
      DeadlineOnGrid(old(lastMeasurement), interval, inputs, ticks);
      PassesReadable(data, roles, inputs, ticks);
      PassesKeepHistory(data, roles, inputs, ticks);
      if !(running && ticks < |inputs|) && Synced(data, old(|times|)) && SteadyInputs(data.Keys, roles, inputs) {
        PassesSynced(data, roles, inputs, old(|times|), ticks);
      }
    }

    /** `get_all_values`: the series of one metric paired, index by index, with the timestamps. */
    method GetAllValues(id: Discovery.MetricIdentity) returns (written: seq<(int, int)>)
      requires id.lineNr in valuesById
      requires |valuesById[id.lineNr]| <= |times|
      ensures |written| == |valuesById[id.lineNr]|
      ensures forall i :: 0 <= i < |written| ==> written[i] == (times[i], valuesById[id.lineNr][i])
    {
      var values := valuesById[id.lineNr];
      written := [];
      var i := 0;
      while i < |values|
        invariant 0 <= i <= |values|
        invariant |written| == i
        invariant forall j :: 0 <= j < i ==> written[j] == (times[j], values[j])
      {
        written := written + [(times[i], values[i])];
        i := i + 1;
      }
    }
  }
}
