/** The sampling driver: on every tick of a clock it merges the records of
    the enabled collectors into one sample, stamps it with the time elapsed
    since start, and appends it as a row to the current chunk of the
    ancillary store; a chunk holds at most a fixed number of rows before the
    next chunk id is used. At the end the chunks are concatenated, in id
    order, into the destination report.

    The collectors' own outputs (what `OrganizeProcessInfo`,
    `OrganizeMemoryInfo`, `GetDiskInfo` and `GetSystemLoadInfo` return) are
    inputs here, as are the readings of the wall clock. Times are whole
    seconds. The ancillary files are a map from chunk name to rows; the
    destination file is an optional sequence of rows. */
module Driver {
  import opened Outcomes
  import opened Text
  import opened Records
  import opened TimeDeltas
  import opened FileNames

  /** One row of a report table: its time index and its sample. */
  datatype Row = Row(time: int, sample: Dict<Value>)

  type Chunk = seq<Row>

  // ---------------------------------------------------------------------------
  // Frequency and period

  /** The sampling frequency and the analysis period, as texts and in
      seconds. */
  datatype Cadence = Cadence(frequencyText: string, frequency: nat, periodText: string, period: nat)

  /** How the configured frequency and period are prepared: a missing count
      is filled in, the frequency is raised to at least two seconds and the
      period lowered to at most one hour, and each is read as a duration.
      A missing frequency or period takes its bound. */
  function Cadences(frequency: Option<string>, period: Option<string>): (r: Result<Cadence>)
    ensures r.Ok? ==> r.value.frequency >= 2 && r.value.period <= 3600
    ensures r.Ok? && frequency.None? ==> r.value.frequency == 2
    ensures r.Ok? && period.None? ==> r.value.period == 3600
  {
    var f :- Bounded(frequency, Some("2s"), None);
    var p :- Bounded(period, None, Some("1h"));
    FrequencyBound(frequency);
    PeriodBound(period);
    Ok(Cadence(f.0, f.1, p.0, p.1))
  }

  /** One duration filled in, kept within its limits, and read in seconds. */
  function Bounded(text: Option<string>, lower: Option<string>, upper: Option<string>): Result<(string, nat)>
  {
    var filled :- FillTimeDeltaParts(text);
    var limited :- CheckTimeDeltaLimits(filled, lower, upper);
    var seconds :- TotalSeconds(limited);
    Ok((limited, seconds))
  }

  lemma TwoSecondsOneHour()
    ensures TotalSeconds("2s") == Ok(2) && TotalSeconds("1h") == Ok(3600)
    ensures FillText("2s") == Ok("2s") && FillText("1h") == Ok("1h")
  {
    assert NatToString(2) + "s" == "2s";
    TotalSecondsOf(2, "s");
    DayHours();
  }

  lemma FrequencyBound(frequency: Option<string>)
    requires Bounded(frequency, Some("2s"), None).Ok?
    ensures Bounded(frequency, Some("2s"), None).value.1 >= 2
    ensures frequency.None? ==> Bounded(frequency, Some("2s"), None).value.1 == 2
  {
    TwoSecondsOneHour();
    var b := Bounded(frequency, Some("2s"), None).value;
    if frequency.Some? {
      var t := FillText(frequency.value).value;
      LowerBoundHolds(t, "2s");
      assert FillText(b.0) == Ok(b.0);
    }
  }

  lemma PeriodBound(period: Option<string>)
    requires Bounded(period, None, Some("1h")).Ok?
    ensures Bounded(period, None, Some("1h")).value.1 <= 3600
    ensures period.None? ==> Bounded(period, None, Some("1h")).value.1 == 3600
  {
    TwoSecondsOneHour();
    var b := Bounded(period, None, Some("1h")).value;
    if period.Some? {
      var t := FillText(period.value).value;
      UpperBoundHolds(t, "1h");
      assert FillText(b.0) == Ok(b.0);
    }
  }

  // ---------------------------------------------------------------------------
  // Configuration

  /** What the driver is configured with: its cadence, the chunk size and
      first chunk id, the names of the enabled collectors, the attributes
      of each configured collector, the flags, and the clock reading at
      start. */
  datatype Config = Config(frequency: nat, period: Option<nat>, rowMax: int, idStart: int,
                           listed: seq<string>, tools: Dict<Dict<Value>>,
                           organizeOn: bool, dumpOn: bool, cleanDestination: bool, startedAt: int)

  const ProcessTool := "tool_info_process"
  const MemoryTool := "tool_info_memory"
  const DiskTool := "tool_info_disk"
  const LoadTool := "tool_info_system_load"

  /** `define_tool_attributes`: the attributes configured for a collector,
      if any. */
  function ToolAttributes<A>(name: string, tools: Dict<A>): (r: Option<A>)
    ensures r.Some? <==> name in Keys(tools)
    ensures r.Some? ==> Entry(name, r.value) in tools
  {
    Get(tools, name)
  }

  // ---------------------------------------------------------------------------
  // One sample

  /** What one collector gave on this tick. */
  datatype Collected = Collected(process: Result<Dict<Value>>, memory: Result<Dict<Value>>,
                                 disk: Result<Dict<Value>>, load: Result<Dict<Value>>)

  /** A collector contributes only when it is enabled; an enabled collector
      without attributes cannot be called with them. */
  function ToolRecord(cfg: Config, name: string, got: Result<Dict<Value>>): Result<Dict<Value>>
  {
    if name !in cfg.listed then Ok([])
    else if ToolAttributes(name, cfg.tools).None? then Err(TypeFailure)
    else got
  }

  /** The records of process, memory, disk and system load merged in that
      order, a later one winning on a shared key. */
  function Merged(cfg: Config, c: Collected): (r: Result<Dict<Value>>)
    ensures r.Ok? ==> UniqueKeys(r.value)
  {
    var p :- ToolRecord(cfg, ProcessTool, c.process);
    var m :- ToolRecord(cfg, MemoryTool, c.memory);
    var d :- ToolRecord(cfg, DiskTool, c.disk);
    var l :- ToolRecord(cfg, LoadTool, c.load);
    PutAllKeepsUnique([], p);
    PutAllKeepsUnique(PutAll([], p), m);
    PutAllKeepsUnique(PutAll(PutAll([], p), m), d);
    PutAllKeepsUnique(PutAll(PutAll(PutAll([], p), m), d), l);
    Ok(PutAll(PutAll(PutAll(PutAll([], p), m), d), l))
  }

  /** An empty merge is no sample; any other gains the time elapsed. */
  function Sample(merged: Dict<Value>, elapsed: int): Option<Dict<Value>>
  {
    if merged == [] then None else Some(Put(merged, "time_elapsed", Number(elapsed as real)))
  }

  /** `execute_report_analysis` on the collected records and the clock
      reading `now`. */
  function Execute(cfg: Config, c: Collected, now: int): (r: Result<Option<Dict<Value>>>)
    ensures r.Ok? && r.value.None? ==> Merged(cfg, c) == Ok([])
    ensures r.Ok? && r.value.Some? ==> Get(r.value.value, "time_elapsed") == Some(Number((now - cfg.startedAt) as real))
  {
    var merged :- Merged(cfg, c);
    var elapsed := now - cfg.startedAt;
    if merged == [] then Ok(None)
    else
      var sample := Sample(merged, elapsed);
      SampleAddsElapsed(merged, elapsed, "time_elapsed");
      assert Get(sample.value, "time_elapsed") == Some(Number(elapsed as real));
      Ok(sample)
  }

  /** The keys of a sample are the keys of the enabled collectors'
      records. */
  lemma MergedKeys(cfg: Config, c: Collected)
    requires Merged(cfg, c).Ok?
    ensures var p, m := ToolRecord(cfg, ProcessTool, c.process).value, ToolRecord(cfg, MemoryTool, c.memory).value;
      var d, l := ToolRecord(cfg, DiskTool, c.disk).value, ToolRecord(cfg, LoadTool, c.load).value;
      Keys(Merged(cfg, c).value) == Keys(p) + Keys(m) + Keys(d) + Keys(l)
  {
    var p, m := ToolRecord(cfg, ProcessTool, c.process).value, ToolRecord(cfg, MemoryTool, c.memory).value;
    var d, l := ToolRecord(cfg, DiskTool, c.disk).value, ToolRecord(cfg, LoadTool, c.load).value;
    MergedValue(cfg, c);
    PutAllKeys([], p);
    PutAllKeys(PutAll([], p), m);
    PutAllKeys(PutAll(PutAll([], p), m), d);
    PutAllKeys(PutAll(PutAll(PutAll([], p), m), d), l);
  }

  /** A merge that succeeds is the enabled collectors' records put one
      after the other. */
  lemma MergedValue(cfg: Config, c: Collected)
    requires Merged(cfg, c).Ok?
    ensures var p, m := ToolRecord(cfg, ProcessTool, c.process), ToolRecord(cfg, MemoryTool, c.memory);
      var d, l := ToolRecord(cfg, DiskTool, c.disk), ToolRecord(cfg, LoadTool, c.load);
      p.Ok? && m.Ok? && d.Ok? && l.Ok? &&
      Merged(cfg, c).value == PutAll(PutAll(PutAll(PutAll([], p.value), m.value), d.value), l.value)
  {
  }

  /** A shared key takes its value from the last enabled collector that
      has it, in the order process, memory, disk, system load. */
  lemma MergedLaterWins(cfg: Config, c: Collected, k: string)
    requires Merged(cfg, c).Ok?
    requires var p, m := ToolRecord(cfg, ProcessTool, c.process).value, ToolRecord(cfg, MemoryTool, c.memory).value;
      var d, l := ToolRecord(cfg, DiskTool, c.disk).value, ToolRecord(cfg, LoadTool, c.load).value;
      UniqueKeys(p) && UniqueKeys(m) && UniqueKeys(d) && UniqueKeys(l)
    ensures var p, m := ToolRecord(cfg, ProcessTool, c.process).value, ToolRecord(cfg, MemoryTool, c.memory).value;
      var d, l := ToolRecord(cfg, DiskTool, c.disk).value, ToolRecord(cfg, LoadTool, c.load).value;
      Get(Merged(cfg, c).value, k) ==
        if k in Keys(l) then Get(l, k) else if k in Keys(d) then Get(d, k)
        else if k in Keys(m) then Get(m, k) else Get(p, k)
  {
    var p, m := ToolRecord(cfg, ProcessTool, c.process).value, ToolRecord(cfg, MemoryTool, c.memory).value;
    var d, l := ToolRecord(cfg, DiskTool, c.disk).value, ToolRecord(cfg, LoadTool, c.load).value;
    GetPutAll([], p, k);
    GetPutAll(PutAll([], p), m, k);
    GetPutAll(PutAll(PutAll([], p), m), d, k);
    GetPutAll(PutAll(PutAll(PutAll([], p), m), d), l, k);
    PutAllIntoEmpty(p);
  }

  /** A collector that is not enabled is not consulted: whatever it would
      have given, the sample is the same. */
  lemma UnlistedToolIgnored(cfg: Config, c: Collected, other: Result<Dict<Value>>)
    ensures ProcessTool !in cfg.listed ==> Merged(cfg, c) == Merged(cfg, c.(process := other))
    ensures MemoryTool !in cfg.listed ==> Merged(cfg, c) == Merged(cfg, c.(memory := other))
    ensures DiskTool !in cfg.listed ==> Merged(cfg, c) == Merged(cfg, c.(disk := other))
    ensures LoadTool !in cfg.listed ==> Merged(cfg, c) == Merged(cfg, c.(load := other))
  {
  }

  /** No collector enabled, no sample. */
  lemma NothingListed(cfg: Config, c: Collected, now: int)
    requires cfg.listed == []
    ensures Execute(cfg, c, now) == Ok(None)
  {
  }

  /** A sample is the merge plus exactly one key, `time_elapsed`, holding
      the seconds since start; every other key keeps its merged value. */
  lemma SampleAddsElapsed(merged: Dict<Value>, elapsed: int, k: string)
    requires merged != []
    ensures Sample(merged, elapsed).Some?
    ensures Keys(Sample(merged, elapsed).value) == Keys(merged) + {"time_elapsed"}
    ensures Get(Sample(merged, elapsed).value, "time_elapsed") == Some(Number(elapsed as real))
    ensures k != "time_elapsed" ==> Get(Sample(merged, elapsed).value, k) == Get(merged, k)
  {
    PutKeys(merged, "time_elapsed", Number(elapsed as real));
    PutGet(merged, "time_elapsed", Number(elapsed as real), k);
    PutGet(merged, "time_elapsed", Number(elapsed as real), "time_elapsed");
  }

  // ---------------------------------------------------------------------------
  // Chunks

  /** The row in the current chunk and the current chunk id. */
  datatype Counters = Counters(row: int, id: int)

  /** One more row: a full chunk moves on to the next id. With a positive
      chunk size the row stays in range, the id moves by at most one, and
      it moves exactly when the chunk is full. */
  function Advance(c: Counters, max: int): (r: Counters)
    ensures 1 <= max && 0 <= c.row < max ==> 0 <= r.row < max
    ensures r.id == c.id || r.id == c.id + 1
    ensures r.id == c.id + 1 <==> c.row == max - 1
    ensures r.id == c.id ==> r.row == c.row + 1
  {
    if c.row + 1 == max then Counters(0, c.id + 1) else Counters(c.row + 1, c.id)
  }

  /** The chunk ids that receive the next `n` rows. */
  function Targets(c: Counters, max: int, n: nat): (ids: seq<int>)
    ensures |ids| == n
    decreases n
  {
    if n == 0 then [] else [c.id] + Targets(Advance(c, max), max, n - 1)
  }

  /** Counters after `n` rows. */
  function AdvanceBy(c: Counters, max: int, n: nat): Counters
    decreases n
  {
    if n == 0 then c else AdvanceBy(Advance(c, max), max, n - 1)
  }

  /** No chunk receives more rows than its size: the current one at most
      what it has left, a later one at most the size, an earlier one
      none. */
  lemma {:induction false} TargetsBound(c: Counters, max: int, n: nat, k: int)
    requires 1 <= max && 0 <= c.row < max
    ensures multiset(Targets(c, max, n))[k] <=
      if k == c.id then max - c.row else if k > c.id then max else 0
    decreases n
  {
    if n > 0 {
      var next := Advance(c, max);
      TargetsBound(next, max, n - 1, k);
      assert Targets(c, max, n) == [c.id] + Targets(next, max, n - 1);
    }
  }

  /** Chunk ids never go down, and only ever by one step at a time. */
  lemma {:induction false} TargetsAscend(c: Counters, max: int, n: nat, j: nat)
    requires j + 1 < n
    ensures var ids := Targets(c, max, n); ids[j] <= ids[j + 1] <= ids[j] + 1
    decreases j
  {
    var next := Advance(c, max);
    if j == 0 {
      if n > 2 {
        assert Targets(next, max, n - 1)[0] == next.id;
      }
    } else {
      TargetsAscend(next, max, n - 1, j - 1);
    }
  }

  /** The ancillary store: chunk name to rows, the counters, and the time
      elapsed at the last sample. */
  datatype Store = Store(chunks: map<string, Chunk>, counters: Counters, elapsed: Option<int>)

  /** `freeze_report_analysis`: the row goes to the end of the current
      chunk, a new chunk when there is none yet; then the counters
      advance. */
  function Frozen(s: Store, max: int, time: int, sample: Dict<Value>): (r: Store)
    ensures r.counters == Advance(s.counters, max) && r.elapsed == s.elapsed
    ensures r.chunks.Keys == s.chunks.Keys + {ChunkName(s.counters.id)}
    ensures var rows := r.chunks[ChunkName(s.counters.id)]; rows != [] && rows[|rows| - 1] == Row(time, sample)
  {
    var name := ChunkName(s.counters.id);
    var rows := if name in s.chunks then s.chunks[name] else [];
    Store(s.chunks[name := rows + [Row(time, sample)]], Advance(s.counters, max), s.elapsed)
  }

  /** A row frozen into a missing chunk makes a one-row chunk; into an
      existing chunk it follows the old rows; no other chunk changes. */
  lemma FrozenChunks(s: Store, max: int, time: int, sample: Dict<Value>, other: int)
    ensures var after := Frozen(s, max, time, sample).chunks; var name := ChunkName(s.counters.id);
      (name !in s.chunks ==> after[name] == [Row(time, sample)]) &&
      (name in s.chunks ==> after[name] == s.chunks[name] + [Row(time, sample)]) &&
      (other != s.counters.id ==>
         (ChunkName(other) in after <==> ChunkName(other) in s.chunks) &&
         (ChunkName(other) in s.chunks ==> after[ChunkName(other)] == s.chunks[ChunkName(other)]))
  {
    if other != s.counters.id {
      ChunkNamesDistinct(other, s.counters.id);
    }
  }

  // ---------------------------------------------------------------------------
  // The clock

  /** The window being sampled: the current tick, the end, and whether the
      next call starts a new window. */
  datatype Clock = Clock(start: int, end: int, update: bool)

  /** `define_clock_execution`. A new window starts at the clock reading
      `now` and lasts the period (or, without one, a single frequency,
      after which a new window starts again); otherwise the tick moves on
      by one frequency and the end stays. */
  function NextClock(cfg: Config, now: int, c: Clock): (r: Clock)
    ensures c.update ==> r.start == now
    ensures c.update && cfg.period.Some? ==> r.end - r.start == cfg.period.value && !r.update
    ensures !c.update ==> r.start - c.start == cfg.frequency && r.end == c.end && !r.update
  {
    if c.update then
      if cfg.period.Some? then Clock(now, now + cfg.period.value, false)
      else Clock(now, now + cfg.frequency, true)
    else Clock(c.start + cfg.frequency, c.end, false)
  }

  // ---------------------------------------------------------------------------
  // The organize loop

  /** What one tick reads: the collectors' records, the clock when the
      elapsed time is taken, and the clock when the next window would
      start. */
  datatype Tick = Tick(collected: Collected, elapsedAt: int, clockAt: int)

  /** Where the loop ends: the store, how it ended, and the ticks whose
      samples were frozen. */
  datatype Run = Run(store: Store, outcome: Outcome, sampled: seq<int>)

  /** What one tick does to the store: it stops the loop, or it freezes a
      sample and the loop goes on. */
  datatype Step = Stop(store: Store, outcome: Outcome) | Go(store: Store)

  /** One tick at time `tick`: a failing collector stops the loop with the
      failure and before the elapsed time is taken; an empty sample stops
      it without a row; otherwise the sample is frozen at the tick. */
  function TickStep(cfg: Config, s: Store, tick: int, t: Tick): (r: Step)
    ensures r.Go? ==> r.store.counters == Advance(s.counters, cfg.rowMax)
    ensures r.Stop? ==> r.store.counters == s.counters && r.store.chunks == s.chunks
  {
    match Execute(cfg, t.collected, t.elapsedAt)
    case Err(e) => Stop(s, Fail(e))
    case Ok(None) => Stop(s.(elapsed := Some(t.elapsedAt - cfg.startedAt)), Pass)
    case Ok(Some(sample)) => Go(Frozen(s.(elapsed := Some(t.elapsedAt - cfg.startedAt)), cfg.rowMax, tick, sample))
  }

  /** The loop from clock `c` over the readings `ticks`: a tick past the
      end stops it, and so does a tick that does not freeze a sample;
      otherwise the clock moves on. The readings are finite: when they run
      out the loop stops. */
  function Loop(cfg: Config, s: Store, c: Clock, ticks: seq<Tick>): (r: Run)
    ensures |r.sampled| <= |ticks|
    ensures r.sampled != [] ==> r.sampled[0] == c.start && c.start <= c.end
    decreases |ticks|
  {
    if c.start > c.end || ticks == [] then Run(s, Pass, [])
    else
      match TickStep(cfg, s, c.start, ticks[0])
      case Stop(st, outcome) => Run(st, outcome, [])
      case Go(st) =>
        var rest := Loop(cfg, st, NextClock(cfg, ticks[0].clockAt, c), ticks[1..]);
        Run(rest.store, rest.outcome, [c.start] + rest.sampled)
  }

  /** Two runs end in the same store and the same way. */
  predicate Ends(a: Run, b: Run)
  {
    a.store == b.store && a.outcome == b.outcome
  }

  /** A tick that freezes a sample hands the loop on to the next clock. */
  lemma LoopStep(cfg: Config, s: Store, c: Clock, ticks: seq<Tick>)
    requires c.start <= c.end && ticks != []
    ensures var step := TickStep(cfg, s, c.start, ticks[0]);
      step.Go? ==> Ends(Loop(cfg, s, c, ticks), Loop(cfg, step.store, NextClock(cfg, ticks[0].clockAt, c), ticks[1..]))
    ensures var step := TickStep(cfg, s, c.start, ticks[0]);
      step.Stop? ==> Loop(cfg, s, c, ticks) == Run(step.store, step.outcome, [])
  {
  }

  /** `organize`: nothing unless enabled; otherwise a first window from the
      clock reading `now`, then the loop. */
  function Organized(cfg: Config, s: Store, now: int, ticks: seq<Tick>): Run
  {
    if !cfg.organizeOn then Run(s, Pass, [])
    else Loop(cfg, s, NextClock(cfg, now, Clock(now, now, true)), ticks)
  }

  /** Within one window, the sampled ticks are the start and then one
      frequency apart, none past the end. */
  lemma {:induction false} LoopTicks(cfg: Config, s: Store, c: Clock, ticks: seq<Tick>, j: nat)
    requires !c.update
    requires j < |Loop(cfg, s, c, ticks).sampled|
    ensures Loop(cfg, s, c, ticks).sampled[j] == c.start + j * cfg.frequency
    ensures Loop(cfg, s, c, ticks).sampled[j] <= c.end
    decreases |ticks|
  {
    LoopSampled(cfg, s, c, ticks);
    var next := NextClock(cfg, ticks[0].clockAt, c);
    var st :| Loop(cfg, s, c, ticks).sampled == [c.start] + Loop(cfg, st, next, ticks[1..]).sampled;
    var sampled := Loop(cfg, s, c, ticks).sampled;
    var rest := Loop(cfg, st, next, ticks[1..]).sampled;
    if j > 0 {
      LoopTicks(cfg, st, next, ticks[1..], j - 1);
    }
    SpacedAfter(sampled, rest, c.start, next.start, cfg.frequency, c.end, j);
  }

  /** The first tick followed by ticks one frequency apart from the next
      one are one frequency apart from the first. */
  lemma SpacedAfter(sampled: seq<int>, rest: seq<int>, start: int, next: int, f: int, end: int, j: nat)
    requires sampled == [start] + rest && j < |sampled| && start <= end && next == start + f
    requires 0 < j ==> rest[j - 1] == next + (j - 1) * f && rest[j - 1] <= end
    ensures sampled[j] == start + j * f && sampled[j] <= end
  {
    if 0 < j {
      assert sampled[j] == rest[j - 1];
      assert (j - 1) * f + f == j * f;
    }
  }

  /** A run that samples anything sampled its first tick and went on from
      the next clock. */
  lemma LoopSampled(cfg: Config, s: Store, c: Clock, ticks: seq<Tick>)
    requires Loop(cfg, s, c, ticks).sampled != []
    ensures c.start <= c.end && ticks != []
    ensures exists st :: Loop(cfg, s, c, ticks).sampled == [c.start] + Loop(cfg, st, NextClock(cfg, ticks[0].clockAt, c), ticks[1..]).sampled
  {
    var step := TickStep(cfg, s, c.start, ticks[0]);
    assert Loop(cfg, s, c, ticks).sampled == [c.start] + Loop(cfg, step.store, NextClock(cfg, ticks[0].clockAt, c), ticks[1..]).sampled;
  }

  /** A tick equal to the end is still sampled: the comparison is
      strict. */
  lemma TickAtEndSampled(cfg: Config, s: Store, c: Clock, ticks: seq<Tick>)
    requires c.start == c.end && ticks != []
    requires Merged(cfg, ticks[0].collected).Ok? && Merged(cfg, ticks[0].collected).value != []
    ensures Loop(cfg, s, c, ticks).sampled != [] && Loop(cfg, s, c, ticks).sampled[0] == c.end
  {
  }

  /** An empty sample ends the loop without a row: the chunks and counters
      are those before the tick. */
  lemma EmptySampleStops(cfg: Config, s: Store, c: Clock, ticks: seq<Tick>)
    requires c.start <= c.end && ticks != []
    requires Merged(cfg, ticks[0].collected) == Ok([])
    ensures var r := Loop(cfg, s, c, ticks);
      r.outcome == Pass && r.sampled == [] && r.store.chunks == s.chunks && r.store.counters == s.counters
  {
  }

  /** The counters after the loop have advanced once per frozen row. */
  lemma {:induction false} LoopCounters(cfg: Config, s: Store, c: Clock, ticks: seq<Tick>)
    ensures var r := Loop(cfg, s, c, ticks); r.store.counters == AdvanceBy(s.counters, cfg.rowMax, |r.sampled|)
    decreases |ticks|
  {
    if !(c.start > c.end || ticks == []) {
      var step := TickStep(cfg, s, c.start, ticks[0]);
      if step.Go? {
        LoopCounters(cfg, step.store, NextClock(cfg, ticks[0].clockAt, c), ticks[1..]);
      }
    }
  }

  // ---------------------------------------------------------------------------
  // Dump

  /** The chunk ids from `lo` to `hi`, both included, ascending. */
  function Ids(lo: int, hi: int): (ids: seq<int>)
    ensures |ids| == if hi < lo then 0 else hi - lo + 1
    ensures forall j :: 0 <= j < |ids| ==> ids[j] == lo + j
    decreases if hi < lo then 0 else hi - lo + 1
  {
    if hi < lo then [] else Ids(lo, hi - 1) + [hi]
  }

  /** The present chunks of `ids` concatenated in that order; none when no
      chunk is present. */
  function Collect(chunks: map<string, Chunk>, ids: seq<int>): Option<Chunk>
  {
    if ids == [] then None
    else
      var front := Collect(chunks, ids[..|ids| - 1]);
      var name := ChunkName(ids[|ids| - 1]);
      if name !in chunks then front
      else Some((if front.None? then [] else front.value) + chunks[name])
  }

  /** `dump`: the destination as it is afterwards. An existing destination
      is kept unless it is to be cleaned; otherwise the chunks from the
      first id to the current one are collected, and nothing is written
      when there is nothing to write. */
  function Dumped(cfg: Config, chunks: map<string, Chunk>, id: int, destination: Option<Chunk>): Option<Chunk>
  {
    if !cfg.dumpOn then destination
    else
      var dst := if cfg.cleanDestination then None else destination;
      if dst.Some? then dst else Collect(chunks, Ids(cfg.idStart, id))
  }

  /** A row is in the collection exactly when it is in the chunk of one of
      the ids; no chunk present, no collection. */
  lemma {:induction false} CollectRows(chunks: map<string, Chunk>, ids: seq<int>, x: Row)
    ensures Collect(chunks, ids).None? <==> forall j :: 0 <= j < |ids| ==> ChunkName(ids[j]) !in chunks
    ensures Collect(chunks, ids).Some? ==>
      (x in Collect(chunks, ids).value <==>
         exists j :: 0 <= j < |ids| && ChunkName(ids[j]) in chunks && x in chunks[ChunkName(ids[j])])
  {
    CollectNone(chunks, ids);
    CollectMembers(chunks, ids, x);
  }

  /** Nothing is collected exactly when none of the ids has a chunk. */
  lemma {:induction false} CollectNone(chunks: map<string, Chunk>, ids: seq<int>)
    ensures Collect(chunks, ids).None? <==> forall j :: 0 <= j < |ids| ==> ChunkName(ids[j]) !in chunks
  {
    if ids != [] {
      var front := ids[..|ids| - 1];
      CollectNone(chunks, front);
      assert forall j :: 0 <= j < |front| ==> front[j] == ids[j];
    }
  }

  lemma {:induction false} CollectMembers(chunks: map<string, Chunk>, ids: seq<int>, x: Row)
    ensures Collect(chunks, ids).Some? ==>
      (x in Collect(chunks, ids).value <==>
         exists j :: 0 <= j < |ids| && ChunkName(ids[j]) in chunks && x in chunks[ChunkName(ids[j])])
  {
    if ids != [] {
      var front := ids[..|ids| - 1];
      CollectMembers(chunks, front, x);
      CollectNone(chunks, front);
      assert forall j :: 0 <= j < |front| ==> front[j] == ids[j];
    }
  }

  /** Collecting depends only on the chunks of the ids visited. */
  lemma {:induction false} CollectFrame(a: map<string, Chunk>, b: map<string, Chunk>, ids: seq<int>)
    requires forall j :: 0 <= j < |ids| ==> (ChunkName(ids[j]) in a <==> ChunkName(ids[j]) in b)
    requires forall j :: 0 <= j < |ids| && ChunkName(ids[j]) in a ==> a[ChunkName(ids[j])] == b[ChunkName(ids[j])]
    ensures Collect(a, ids) == Collect(b, ids)
  {
    if ids != [] {
      var front := ids[..|ids| - 1];
      assert forall j :: 0 <= j < |front| ==> front[j] == ids[j];
      CollectFrame(a, b, front);
    }
  }

  /** The rows of a collection, none when there is none. */
  function Flat(o: Option<Chunk>): Chunk
  {
    if o.None? then [] else o.value
  }

  /** An id whose chunk is absent is skipped. */
  lemma CollectSkipsAbsent(chunks: map<string, Chunk>, ids: seq<int>, e: int)
    requires ChunkName(e) !in chunks
    ensures Collect(chunks, ids + [e]) == Collect(chunks, ids)
  {
    assert (ids + [e])[..|ids|] == ids;
  }

  /** One more id adds its chunk, when there is one, behind the rows so far. */
  lemma CollectLast(chunks: map<string, Chunk>, ids: seq<int>, d: int)
    ensures Collect(chunks, ids + [d]) ==
      if ChunkName(d) !in chunks then Collect(chunks, ids) else Some(Flat(Collect(chunks, ids)) + chunks[ChunkName(d)])
  {
    assert (ids + [d])[..|ids|] == ids && (ids + [d])[|ids|] == d;
  }

  /** A row appended to the chunk of the last id visited comes last in the
      collection. */
  lemma CollectExtend(chunks: map<string, Chunk>, before: seq<int>, d: int, x: Row)
    requires forall j :: 0 <= j < |before| ==> before[j] != d
    ensures var name := ChunkName(d);
      var after := chunks[name := (if name in chunks then chunks[name] else []) + [x]];
      Collect(after, before + [d]) == Some(Flat(Collect(chunks, before + [d])) + [x])
  {
    var name := ChunkName(d);
    var after := chunks[name := (if name in chunks then chunks[name] else []) + [x]];
    var old_d := if name in chunks then chunks[name] else [];
    CollectUpdateElsewhere(chunks, before, d, old_d + [x]);
    var prev := Flat(Collect(chunks, before));
    CollectLast(after, before, d);
    CollectLast(chunks, before, d);
    assert Flat(Collect(chunks, before + [d])) == prev + old_d;
    assert prev + (old_d + [x]) == prev + old_d + [x];
  }

  /** Replacing the chunk of an id not among `ids` collects the same. */
  lemma CollectUpdateElsewhere(chunks: map<string, Chunk>, ids: seq<int>, d: int, c: Chunk)
    requires forall j :: 0 <= j < |ids| ==> ids[j] != d
    ensures Collect(chunks[ChunkName(d) := c], ids) == Collect(chunks, ids)
  {
    forall j | 0 <= j < |ids| ensures ChunkName(ids[j]) != ChunkName(d) {
      ChunkNamesDistinct(ids[j], d);
    }
    CollectFrame(chunks, chunks[ChunkName(d) := c], ids);
  }

  /** Rows frozen one after the other. */
  function FrozenAll(s: Store, max: int, rows: seq<Row>): Store
  {
    if rows == [] then s
    else
      var last := rows[|rows| - 1];
      Frozen(FrozenAll(s, max, rows[..|rows| - 1]), max, last.time, last.sample)
  }

  /** What freezing into an empty store keeps true: no chunk beyond the
      current id, and the chunks from the first id to the current one
      holding every row frozen so far, in order. */
  ghost predicate Collects(s: Store, start: int, rows: seq<Row>)
  {
    start <= s.counters.id &&
    (forall i :: s.counters.id < i ==> ChunkName(i) !in s.chunks) &&
    Collect(s.chunks, Ids(start, s.counters.id)) == if rows == [] then None else Some(rows)
  }

  /** Freezing one more row keeps `Collects`. */
  lemma FrozenCollects(s: Store, max: int, start: int, rows: seq<Row>, x: Row)
    requires Collects(s, start, rows)
    ensures Collects(Frozen(s, max, x.time, x.sample), start, rows + [x])
  {
    FrozenNoneBeyond(s, max, x);
    FrozenCollectsRows(s, max, start, rows, x);
  }

  /** After freezing, still no chunk lies beyond the current id. */
  lemma FrozenNoneBeyond(s: Store, max: int, x: Row)
    requires forall i :: s.counters.id < i ==> ChunkName(i) !in s.chunks
    ensures var s2 := Frozen(s, max, x.time, x.sample);
      forall i :: s2.counters.id < i ==> ChunkName(i) !in s2.chunks
  {
    var d := s.counters.id;
    var s2 := Frozen(s, max, x.time, x.sample);
    forall i | s2.counters.id < i ensures ChunkName(i) !in s2.chunks {
      ChunkNamesDistinct(i, d);
    }
  }

  /** After freezing, the chunks up to the new current id collect the rows
      so far followed by the frozen one. */
  lemma FrozenCollectsRows(s: Store, max: int, start: int, rows: seq<Row>, x: Row)
    requires Collects(s, start, rows)
    ensures var s2 := Frozen(s, max, x.time, x.sample);
      Collect(s2.chunks, Ids(start, s2.counters.id)) == Some(rows + [x])
  {
    var d := s.counters.id;
    var s2 := Frozen(s, max, x.time, x.sample);
    FrozenIntoCurrent(s, max, start, rows, x);
    if s2.counters.id != d {
      FrozenNextAbsent(s, max, x);
      FrozenSkipsNext(s2.chunks, start, d);
    }
  }

  /** When freezing moves on to the next id, that id has no chunk yet. */
  lemma FrozenNextAbsent(s: Store, max: int, x: Row)
    requires forall i :: s.counters.id < i ==> ChunkName(i) !in s.chunks
    ensures var s2 := Frozen(s, max, x.time, x.sample);
      s2.counters.id != s.counters.id ==> s2.counters.id == s.counters.id + 1 && ChunkName(s2.counters.id) !in s2.chunks
  {
    var d := s.counters.id;
    assert ChunkName(d + 1) !in s.chunks;
    ChunkNamesDistinct(d + 1, d);
  }

  /** The frozen row comes last in the chunks up to the current id. */
  lemma FrozenIntoCurrent(s: Store, max: int, start: int, rows: seq<Row>, x: Row)
    requires Collects(s, start, rows)
    ensures Collect(Frozen(s, max, x.time, x.sample).chunks, Ids(start, s.counters.id)) == Some(rows + [x])
  {
    var d := s.counters.id;
    var before := Ids(start, d - 1);
    assert Ids(start, d) == before + [d];
    CollectExtend(s.chunks, before, d, x);
  }

  /** Moving on to a next id whose chunk is still absent collects the
      same. */
  lemma FrozenSkipsNext(chunks: map<string, Chunk>, start: int, d: int)
    requires start <= d && ChunkName(d + 1) !in chunks
    ensures Collect(chunks, Ids(start, d + 1)) == Collect(chunks, Ids(start, d))
  {
    assert Ids(start, d + 1) == Ids(start, d) + [d + 1];
    CollectSkipsAbsent(chunks, Ids(start, d), d + 1);
  }

  /** Freezing rows into an empty store and dumping the chunks from the
      first id to the current one gives back every row, in the order they
      were frozen. */
  lemma {:induction false} FreezeThenCollect(max: int, start: int, rows: seq<Row>)
    ensures var s := FrozenAll(Store(map[], Counters(0, start), None), max, rows);
      Collect(s.chunks, Ids(start, s.counters.id)) == if rows == [] then None else Some(rows)
    ensures Collects(FrozenAll(Store(map[], Counters(0, start), None), max, rows), start, rows)
  {
    var s0 := Store(map[], Counters(0, start), None);
    if rows == [] {
      assert Ids(start, start) == [] + [start];
    } else {
      var front, x := rows[..|rows| - 1], rows[|rows| - 1];
      assert front + [x] == rows;
      FreezeThenCollect(max, start, front);
      var s := FrozenAll(s0, max, front);
      assert FrozenAll(s0, max, rows) == Frozen(s, max, x.time, x.sample);
      FrozenCollects(s, max, start, front, x);
    }
  }

  // ---------------------------------------------------------------------------
  // The driver object

  /** `DriverAnalysis`: the configuration, the ancillary store, the
      counters and the destination report. */
  class DriverAnalysis {
    const cfg: Config
    var chunks: map<string, Chunk>
    var rowStep: int
    var idStep: int
    var elapsed: Option<int>
    var destination: Option<Chunk>

    /** The store as the pure model sees it. */
    function Snapshot(): Store
      reads this
    {
      Store(chunks, Counters(rowStep, idStep), elapsed)
    }

    /** A driver over the existing ancillary files and destination. Old
        ancillary chunks are removed when cleaning is asked and organizing
        is on; an old destination when cleaning is asked and dumping is
        on. */
    constructor (cadence: Cadence, rowMax: int, idStart: int, listed: seq<string>, tools: Dict<Dict<Value>>,
                 organizeOn: bool, dumpOn: bool, cleanAncillary: bool, cleanDestination: bool, startedAt: int,
                 ancillary: map<string, Chunk>, existing: Option<Chunk>)
      ensures cfg == Config(cadence.frequency, Some(cadence.period), rowMax, idStart, listed, tools,
                            organizeOn, dumpOn, cleanDestination, startedAt)
      ensures chunks == if cleanAncillary && organizeOn then map[] else ancillary
      ensures destination == if cleanDestination && dumpOn then None else existing
      ensures rowStep == 0 && idStep == idStart && elapsed == None
    {
      cfg := Config(cadence.frequency, Some(cadence.period), rowMax, idStart, listed, tools,
                    organizeOn, dumpOn, cleanDestination, startedAt);
      chunks := if cleanAncillary && organizeOn then map[] else ancillary;
      destination := if cleanDestination && dumpOn then None else existing;
      rowStep := 0;
      idStep := idStart;
      elapsed := None;
    }

    /** `execute_report_analysis`: the sample of this tick; the elapsed
        time is recorded once every collector has answered. */
    method ExecuteReportAnalysis(c: Collected, now: int) returns (r: Result<Option<Dict<Value>>>)
      modifies this`elapsed
      ensures r == Execute(cfg, c, now)
      ensures elapsed == if r.Ok? then Some(now - cfg.startedAt) else old(elapsed)
    {
      var merged := Merged(cfg, c);
      if merged.Err? {
        return Err(merged.error);
      }
      elapsed := Some(now - cfg.startedAt);
      var collections := merged.value;
      if collections == [] {
        return Ok(None);
      }
      collections := Put(collections, "time_elapsed", Number((now - cfg.startedAt) as real));
      return Ok(Some(collections));
    }

    /** `freeze_report_analysis`. */
    method FreezeReportAnalysis(time: int, sample: Dict<Value>)
      modifies this`chunks, this`rowStep, this`idStep
      ensures Snapshot() == Frozen(old(Snapshot()), cfg.rowMax, time, sample)
    {
      var name := ChunkName(idStep);
      if name !in chunks {
        assert [] + [Row(time, sample)] == [Row(time, sample)];
        chunks := chunks[name := [Row(time, sample)]];
      } else {
        chunks := chunks[name := chunks[name] + [Row(time, sample)]];
      }
      rowStep := rowStep + 1;
      if rowStep == cfg.rowMax {
        rowStep := 0;
        idStep := idStep + 1;
      }
    }

    /** `organize` over the clock reading `now` and the readings of the
        ticks. */
    method Organize(now: int, ticks: seq<Tick>) returns (r: Outcome)
      modifies this`chunks, this`rowStep, this`idStep, this`elapsed
      ensures var run := Organized(cfg, old(Snapshot()), now, ticks); Snapshot() == run.store && r == run.outcome
    {
      if !cfg.organizeOn {
        return Pass;
      }
      var clock := NextClock(cfg, now, Clock(now, now, true));
      ghost var run := Loop(cfg, Snapshot(), clock, ticks);
      var i := 0;
      while i < |ticks|
        invariant 0 <= i <= |ticks|
        invariant Ends(Loop(cfg, Snapshot(), clock, ticks[i..]), run)
        decreases |ticks| - i
      {
        var tick := clock.start;
        if tick > clock.end {
          return Pass;
        }
        assert ticks[i..][0] == ticks[i] && ticks[i..][1..] == ticks[i + 1..];
        LoopStep(cfg, Snapshot(), clock, ticks[i..]);
        var go, outcome := OrganizeTick(tick, ticks[i]);
        if !go {
          return outcome;
        }
        clock := NextClock(cfg, ticks[i].clockAt, clock);
        i := i + 1;
      }
      return Pass;
    }

    /** One pass of the `organize` loop after the clock check: sample, and
        freeze the sample when there is one. */
    method OrganizeTick(tick: int, t: Tick) returns (go: bool, outcome: Outcome)
      modifies this`chunks, this`rowStep, this`idStep, this`elapsed
      ensures var step := TickStep(cfg, old(Snapshot()), tick, t);
        Snapshot() == step.store && go == step.Go? && (!go ==> outcome == step.outcome)
    {
      ghost var before := Snapshot();
      var info := ExecuteReportAnalysis(t.collected, t.elapsedAt);
      ghost var sampled := before.(elapsed := Some(t.elapsedAt - cfg.startedAt));
      if info.Err? {
        assert Snapshot() == before;
        return false, Fail(info.error);
      }
      assert Snapshot() == sampled;
      if info.value.None? {
        return false, Pass;
      }
      FreezeReportAnalysis(tick, info.value.value);
      assert Snapshot() == Frozen(sampled, cfg.rowMax, tick, info.value.value);
      return true, Pass;
    }

    /** `dump`. */
    method Dump()
      modifies this`destination
      ensures destination == Dumped(cfg, chunks, idStep, old(destination))
    {
      if !cfg.dumpOn {
        return;
      }
      if cfg.cleanDestination {
        destination := None;
      }
      if destination.None? {
        destination := CollectChunks(chunks, Ids(cfg.idStart, idStep));
      }
    }
  }

  /** The loop over the chunk ids, concatenating the chunks present. */
  method CollectChunks(chunks: map<string, Chunk>, ids: seq<int>) returns (collections: Option<Chunk>)
    ensures collections == Collect(chunks, ids)
  {
    collections := None;
    var i := 0;
    while i < |ids|
      invariant 0 <= i <= |ids|
      invariant collections == Collect(chunks, ids[..i])
    {
      assert ids[..i + 1][..i] == ids[..i] && ids[..i + 1][i] == ids[i];
      var name := ChunkName(ids[i]);
      if name in chunks {
        if collections.None? {
          assert [] + chunks[name] == chunks[name];
          collections := Some(chunks[name]);
        } else {
          collections := Some(collections.value + chunks[name]);
        }
      }
      i := i + 1;
    }
    assert ids[..i] == ids;
  }
}
