/** The pre-allocated measurement arena of one macro endpoint: one flat array cut into a window per
    measured run, filled in place by the runs and finally written out as labelled rows. */
module ResultArena {
  import opened Wrappers
  import opened RoundArithmetic
  import opened Protocol
  import opened Grouping

  /** A measurement cell; `None` is the zero UUID and a time of -1 marks a cell touched but not measured. */
  datatype Cell = Cell(id: Option<Message>, time: int)

  const TOUCHED := Cell(None, -1)

  /** A Go slice of the arena. */
  datatype Slice = Slice(start: nat, end: nat)

  datatype Slot = Slot(measurements: Slice, cycles: nat)

  /** A slot with its window read out. */
  datatype RunResult = RunResult(window: seq<Cell>, cycles: nat)

  /** What the benchmark run of one round did; a failing run may have taken some samples before. */
  datatype RoundOutcome = RoundFailed(samples: seq<Sample>) | RoundDone(samples: seq<Sample>, cycles: nat)

  function Recorded(samples: seq<Sample>): seq<Cell> {
    seq(|samples|, i requires 0 <= i < |samples| => Cell(Some(samples[i].id), samples[i].time))
  }

  // ---- windows -----------------------------------------------------------------------------

  function WindowOf(c: Config, slot: nat): Slice {
    Slice(slot * c.messageCount, slot * c.messageCount + c.messageCount)
  }

  lemma WindowInside(c: Config, slot: nat)
    requires slot < c.Slots()
    ensures WindowOf(c, slot).end <= c.Slots() * c.messageCount
  {
    LaterRow(c.messageCount, slot, c.Slots());
  }

  /** Windows do not overlap. */
  lemma WindowsDisjoint(c: Config, slot: nat, other: nat)
    requires slot != other
    ensures WindowOf(c, slot).end <= WindowOf(c, other).start || WindowOf(c, other).end <= WindowOf(c, slot).start
  {
    if slot < other {
      LaterRow(c.messageCount, slot, other);
    } else {
      LaterRow(c.messageCount, other, slot);
    }
  }

  /** Every cell of the arena belongs to a window, and to no other. */
  lemma WindowsCover(c: Config, cell: nat)
    requires cell < c.Slots() * c.messageCount
    ensures c.messageCount > 0 && cell / c.messageCount < c.Slots()
    ensures WindowOf(c, cell / c.messageCount).start <= cell < WindowOf(c, cell / c.messageCount).end
    ensures forall slot: nat :: WindowOf(c, slot).start <= cell < WindowOf(c, slot).end ==> slot == cell / c.messageCount
  {
    hide Config.Slots;
    RowOf(c.messageCount, c.Slots(), cell);
    forall slot: nat | WindowOf(c, slot).start <= cell < WindowOf(c, slot).end
      ensures slot == cell / c.messageCount
    {
      DivModOf(c.messageCount, slot, cell - slot * c.messageCount);
    }
  }

  // ---- the arena ---------------------------------------------------------------------------

  /** `length` cells are cut into consecutive windows of `size` cells. */
  ghost predicate Partitioned(slots: seq<Slot>, size: nat, length: nat) {
    && (forall k :: 0 <= k < |slots| ==>
          slots[k].measurements.end == slots[k].measurements.start + size && slots[k].measurements.end <= length)
    && (forall j, k :: 0 <= j < k < |slots| ==> slots[j].measurements.end <= slots[k].measurements.start)
  }

  ghost predicate LaidOut(c: Config, slots: seq<Slot>) {
    forall k :: 0 <= k < |slots| ==> slots[k].measurements == WindowOf(c, k)
  }

  lemma LaidOutIsPartitioned(c: Config, slots: seq<Slot>, length: nat)
    requires LaidOut(c, slots) && |slots| == c.Slots() && length == c.Slots() * c.messageCount
    ensures Partitioned(slots, c.messageCount, length)
  {
    forall k | 0 <= k < |slots|
      ensures slots[k].measurements.end <= length
    {
      WindowInside(c, k);
    }
    forall j, k | 0 <= j < k < |slots|
      ensures slots[j].measurements.end <= slots[k].measurements.start
    {
      LaterRow(c.messageCount, j, k);
    }
  }

  class Arena {
    const size: nat
    const cells: array<Cell>
    const results: array<Slot>

    ghost predicate Valid()
      reads results
    {
      Partitioned(results[..], size, cells.Length)
    }

    /** The content of a slot's window. */
    ghost function Window(slot: nat): (window: seq<Cell>)
      requires Valid() && slot < results.Length
      reads results, cells
      ensures |window| == size
    {
      cells[results[slot].measurements.start..results[slot].measurements.end]
    }

    /** What the results refer to, slot by slot. */
    ghost function Contents(): (contents: seq<RunResult>)
      requires Valid()
      reads results, cells
      ensures |contents| == results.Length
      ensures forall k :: 0 <= k < results.Length ==> contents[k] == RunResult(Window(k), results[k].cycles)
    {
      seq(results.Length, k requires 0 <= k < results.Length && Valid() reads results, cells =>
        RunResult(Window(k), results[k].cycles))
    }

    lemma ContentsAt(k: nat)
      requires Valid() && k < results.Length
      ensures var window := results[k].measurements;
              && window.start <= window.end <= cells.Length
              && Contents()[k] == RunResult(cells[window.start..window.end], results[k].cycles)
    {
      assert results[k] == results[..][k];
    }

    constructor (c: Config)
      ensures Valid() && LaidOut(c, results[..]) && fresh(cells) && fresh(results)
      ensures size == c.messageCount && results.Length == c.Slots() && cells.Length == c.Slots() * c.messageCount
      ensures forall k :: 0 <= k < results.Length ==> Contents()[k] == Untouched(c)
    {
      size := c.messageCount;
      results := new Slot[c.Slots()](_ => Slot(Slice(0, 0), 0));
      cells := new Cell[c.Slots() * c.messageCount](_ => Cell(None, 0));
      new;
      Touch();
      hide Config.Slots;
      for run := 0 to results.Length
        invariant forall k :: 0 <= k < run ==> results[k].measurements == WindowOf(c, k)
        invariant forall k :: 0 <= k < results.Length ==> results[k].cycles == 0
        invariant forall i :: 0 <= i < cells.Length ==> cells[i] == TOUCHED
      {
        var start := run * c.messageCount;
        var end := start + c.messageCount;
        results[run] := results[run].(measurements := Slice(start, end));
      }
      LaidOutIsPartitioned(c, results[..], cells.Length);
    }

    /** Writes the sentinel into every cell. */
    method Touch()
      modifies cells
      ensures forall i :: 0 <= i < cells.Length ==> cells[i] == old(cells[i]).(time := -1)
    {
      for index := 0 to cells.Length
        invariant forall i :: 0 <= i < index ==> cells[i] == old(cells[i]).(time := -1)
        invariant forall i :: index <= i < cells.Length ==> cells[i] == old(cells[i])
      {
        cells[index] := cells[index].(time := -1);
      }
    }

    /** The measurement writes of one run, through the slice it was handed. */
    method Fill(window: Slice, samples: seq<Sample>)
      requires window.start + |samples| <= window.end <= cells.Length
      modifies cells
      ensures cells[..] == old(cells[..window.start]) + Recorded(samples) + old(cells[window.start + |samples|..])
    {
      var messageIndex := 0;
      while messageIndex < |samples|
        invariant 0 <= messageIndex <= |samples|
        invariant forall i :: 0 <= i < messageIndex ==> cells[window.start + i] == Recorded(samples)[i]
        invariant forall i :: 0 <= i < cells.Length && !(window.start <= i < window.start + messageIndex) ==>
                    cells[i] == old(cells[i])
      {
        cells[window.start + messageIndex] := Cell(Some(samples[messageIndex].id), samples[messageIndex].time);
        messageIndex := messageIndex + 1;
      }
    }

    /** The measurement writes of a run that takes some samples: the start of the slot's own window changes, and
        no other slot's window. */
    method WriteSamples(slot: nat, samples: seq<Sample>)
      requires Valid() && slot < results.Length && |samples| <= size
      modifies cells
      ensures Valid()
      ensures Contents() == old(Contents())[slot := Overwritten(old(Contents()[slot]), samples)]
    {
      ghost var slots, flat, before := results[..], cells[..], Contents();
      assert results[slot] == slots[slot];
      Fill(results[slot].measurements, samples);
      hide WindowOf;
      forall k | 0 <= k < results.Length
        ensures Contents()[k] == before[slot := Overwritten(before[slot], samples)][k]
      {
        assert results[k] == slots[k];
        SliceAfterFill(slots, size, flat, slot, samples, cells[..], k);
        WindowOverwritten(slots, flat, slot, samples, k, results[k].cycles);
      }
    }

    /** One measured run: the samples go into the run's own window, and the result that refers to that
        window is stored under the run's index.  No other result changes. */
    method Record(slot: nat, samples: seq<Sample>, cycles: nat)
      requires Valid() && slot < results.Length && |samples| == size
      modifies cells, results
      ensures results[..] == old(results[..])[slot := Slot(old(results[slot].measurements), cycles)]
      ensures Valid() && Contents() == old(Contents())[slot := RunResult(Recorded(samples), cycles)]
    {
      WriteSamples(slot, samples);
      StoreCycles(slot, cycles);
      WholeWindow(old(Contents()[slot]), samples);
    }

    /** The result is stored: its window stays where it is. */
    method StoreCycles(slot: nat, cycles: nat)
      requires Valid() && slot < results.Length
      modifies results
      ensures results[..] == old(results[..])[slot := Slot(old(results[slot].measurements), cycles)]
      ensures Valid() && Contents() == old(Contents())[slot := RunResult(old(Contents()[slot].window), cycles)]
    {
      ghost var slots := results[..];
      results[slot] := Slot(results[slot].measurements, cycles);
      assert results[..] == slots[slot := Slot(slots[slot].measurements, cycles)];
      forall k | 0 <= k < results.Length
        ensures results[k].measurements == slots[k].measurements
      {
        assert results[k] == results[..][k];
      }
    }
  }

  lemma WholeWindow(result: RunResult, samples: seq<Sample>)
    requires |samples| == |result.window|
    ensures Overwritten(result, samples) == RunResult(Recorded(samples), result.cycles)
  {
  }

  /** A result whose window starts with some samples; the rest of the window is what it was. */
  function Overwritten(result: RunResult, samples: seq<Sample>): RunResult
    requires |samples| <= |result.window|
  {
    RunResult(Recorded(samples) + result.window[|samples|..], result.cycles)
  }

  /** A slot's window after samples were written to the start of one slot's window. */
  ghost function WindowAfter(slots: seq<Slot>, before: seq<Cell>, slot: nat, samples: seq<Sample>, k: nat): seq<Cell>
    requires slot < |slots| && k < |slots|
    requires slots[k].measurements.start <= slots[k].measurements.end <= |before|
    requires slots[slot].measurements.start + |samples| <= slots[slot].measurements.end <= |before|
  {
    var w := slots[k].measurements;
    if k == slot then Recorded(samples) + before[w.start + |samples|..w.end] else before[w.start..w.end]
  }

  lemma WindowOverwritten(slots: seq<Slot>, before: seq<Cell>, slot: nat, samples: seq<Sample>, k: nat, cycles: nat)
    requires slot < |slots| && k < |slots|
    requires slots[k].measurements.start <= slots[k].measurements.end <= |before|
    requires slots[slot].measurements.start + |samples| <= slots[slot].measurements.end <= |before|
    ensures var w := slots[k].measurements;
            RunResult(WindowAfter(slots, before, slot, samples, k), cycles) ==
            if k == slot then Overwritten(RunResult(before[w.start..w.end], cycles), samples)
            else RunResult(before[w.start..w.end], cycles)
  {
  }

  /** Overwriting a stretch of a sequence changes no slice that ends before it or starts behind it, and changes the
      start of a slice that starts with it. */
  lemma SliceBefore<T>(before: seq<T>, at: nat, mid: seq<T>, lo: nat, hi: nat)
    requires lo <= hi <= at && at + |mid| <= |before|
    ensures (before[..at] + mid + before[at + |mid|..])[lo..hi] == before[lo..hi]
  {
  }

  lemma SliceBehind<T>(before: seq<T>, at: nat, mid: seq<T>, lo: nat, hi: nat)
    requires at + |mid| <= lo <= hi <= |before|
    ensures (before[..at] + mid + before[at + |mid|..])[lo..hi] == before[lo..hi]
  {
  }

  lemma SliceItself<T>(before: seq<T>, at: nat, mid: seq<T>, hi: nat)
    requires at + |mid| <= hi <= |before|
    ensures (before[..at] + mid + before[at + |mid|..])[at..hi] == mid + before[at + |mid|..hi]
  {
  }

  /** Writing into one window leaves every other window's slice as it was. */
  lemma SliceAfterFill(slots: seq<Slot>, size: nat, before: seq<Cell>, slot: nat, samples: seq<Sample>,
                       after: seq<Cell>, k: nat)
    requires Partitioned(slots, size, |before|) && slot < |slots| && k < |slots| && |samples| <= size
    requires var w := slots[slot].measurements; after == before[..w.start] + Recorded(samples) + before[w.start + |samples|..]
    ensures |after| == |before|
    ensures var w := slots[k].measurements; after[w.start..w.end] == WindowAfter(slots, before, slot, samples, k)
  {
    var w, own := slots[k].measurements, slots[slot].measurements;
    if k < slot {
      SliceBefore(before, own.start, Recorded(samples), w.start, w.end);
    } else if slot < k {
      SliceBehind(before, own.start, Recorded(samples), w.start, w.end);
    } else {
      SliceItself(before, own.start, Recorded(samples), own.end);
    }
  }

  // ---- an endpoint's run -------------------------------------------------------------------

  function Untouched(c: Config): RunResult {
    RunResult(seq(c.messageCount, _ => TOUCHED), 0)
  }

  /** One outcome per round, in the order the loops visit them: a full set of samples, or a failure after some. */
  ghost predicate Outcomes(c: Config, outcomes: seq<RoundOutcome>) {
    && |outcomes| == c.Rounds()
    && forall r :: 0 <= r < |outcomes| ==>
         if outcomes[r].RoundDone? then |outcomes[r].samples| == c.messageCount else |outcomes[r].samples| <= c.messageCount
  }

  /** Slots of the first `stored` rounds hold their rounds, all others are untouched. */
  ghost predicate FilledUpTo(c: Config, contents: seq<RunResult>, outcomes: seq<RoundOutcome>, stored: nat) {
    && |contents| == c.Slots()
    && stored <= |outcomes|
    && (forall r :: 0 <= r < stored ==> outcomes[r].RoundDone?)
    && forall slot :: 0 <= slot < |contents| && c.runs > 0 ==>
         contents[slot] ==
         if c.RoundOf(slot) < stored
         then RunResult(Recorded(outcomes[c.RoundOf(slot)].samples), outcomes[c.RoundOf(slot)].cycles)
         else Untouched(c)
  }

  /** What an endpoint leaves that failed in round `stopped`, or in none: earlier rounds whole, the failing round's
      own slot with the samples it took and no cycle total, all others untouched. */
  ghost predicate StoppedAt(c: Config, contents: seq<RunResult>, outcomes: seq<RoundOutcome>, stopped: nat) {
    && |contents| == c.Slots()
    && stopped <= |outcomes|
    && (forall r :: 0 <= r < stopped ==> outcomes[r].RoundDone?)
    && (stopped < |outcomes| ==> outcomes[stopped].RoundFailed? && |outcomes[stopped].samples| <= c.messageCount)
    && forall slot :: 0 <= slot < |contents| && c.runs > 0 ==>
         contents[slot] ==
         if c.RoundOf(slot) < stopped
         then RunResult(Recorded(outcomes[c.RoundOf(slot)].samples), outcomes[c.RoundOf(slot)].cycles)
         else if c.RoundOf(slot) == stopped < |outcomes| then Overwritten(Untouched(c), outcomes[stopped].samples)
         else Untouched(c)
  }

  lemma FillNext(c: Config, contents: seq<RunResult>, outcomes: seq<RoundOutcome>, at: Cursor)
    requires at.payload < |c.payloadSizes| && at.run < c.PerPayload() && Outcomes(c, outcomes)
    requires FilledUpTo(c, contents, outcomes, c.Done(at))
    ensures c.Done(at) < |outcomes| && c.Done(Cursor(at.payload, at.run + 1)) == c.Done(at) + 1
    ensures c.Measured(at) ==> 0 <= c.Slot(at) < |contents|
    ensures var o := outcomes[c.Done(at)];
            o.RoundDone? ==>
              var result := RunResult(Recorded(o.samples), o.cycles);
              FilledUpTo(c, if c.Measured(at) then contents[c.Slot(at) := result] else contents,
                         outcomes, c.Done(at) + 1)
  {
    LoopPosition(c, at);
    if c.Measured(at) {
      SlotOfRun(c, at);
    }
    forall slot | 0 <= slot < |contents| && c.runs > 0 && c.RoundOf(slot) == c.Done(at)
      ensures c.Measured(at) && slot == c.Slot(at)
    {
      SlotUnique(c, at, slot);
    }
  }

  ghost predicate ReadyFor(c: Config, arena: Arena)
    reads arena.results
  {
    arena.Valid() && LaidOut(c, arena.results[..]) && arena.size == c.messageCount
  }

  /** One iteration of the run loop after a successful benchmark run: measured runs are recorded. */
  method FinishRun(c: Config, arena: Arena, outcomes: seq<RoundOutcome>, payloadIndex: nat, run: nat)
    requires payloadIndex < |c.payloadSizes| && run < c.PerPayload() && Outcomes(c, outcomes)
    requires ReadyFor(c, arena) && FilledUpTo(c, arena.Contents(), outcomes, c.Done(Cursor(payloadIndex, run)))
    requires c.Done(Cursor(payloadIndex, run)) < |outcomes| && outcomes[c.Done(Cursor(payloadIndex, run))].RoundDone?
    modifies arena.cells, arena.results
    ensures ReadyFor(c, arena) && FilledUpTo(c, arena.Contents(), outcomes, c.Done(Cursor(payloadIndex, run)) + 1)
  {
    FillNext(c, arena.Contents(), outcomes, Cursor(payloadIndex, run));
    hide FilledUpTo, Outcomes, Config.RoundOf, Config.Slots, Config.Done, Partitioned, WindowOf;
    if run >= c.warmupRuns {
      var outcome := outcomes[c.Done(Cursor(payloadIndex, run))];
      var resultIndex := payloadIndex * c.runs + run - c.warmupRuns;
      arena.Record(resultIndex, outcome.samples, outcome.cycles);
    }
  }

  lemma StopHere(c: Config, contents: seq<RunResult>, outcomes: seq<RoundOutcome>, at: Cursor)
    requires at.payload < |c.payloadSizes| && at.run < c.PerPayload() && Outcomes(c, outcomes)
    requires FilledUpTo(c, contents, outcomes, c.Done(at))
    ensures c.Done(at) < |outcomes|
    ensures c.Measured(at) ==> 0 <= c.Slot(at) < |contents| && contents[c.Slot(at)] == Untouched(c)
    ensures outcomes[c.Done(at)].RoundFailed? ==>
              var samples := outcomes[c.Done(at)].samples;
              |samples| <= c.messageCount
              && StoppedAt(c, if c.Measured(at) then contents[c.Slot(at) := Overwritten(Untouched(c), samples)] else contents,
                           outcomes, c.Done(at))
  {
    LoopPosition(c, at);
    if c.Measured(at) {
      SlotOfRun(c, at);
    }
    forall slot | 0 <= slot < |contents| && c.runs > 0 && c.RoundOf(slot) == c.Done(at)
      ensures c.Measured(at) && slot == c.Slot(at)
    {
      SlotUnique(c, at, slot);
    }
  }

  /** A failing benchmark run: what a measured run had written into its window stays there. */
  method FailRun(c: Config, arena: Arena, outcomes: seq<RoundOutcome>, payloadIndex: nat, run: nat)
    requires payloadIndex < |c.payloadSizes| && run < c.PerPayload() && Outcomes(c, outcomes)
    requires ReadyFor(c, arena) && FilledUpTo(c, arena.Contents(), outcomes, c.Done(Cursor(payloadIndex, run)))
    requires c.Done(Cursor(payloadIndex, run)) < |outcomes| && outcomes[c.Done(Cursor(payloadIndex, run))].RoundFailed?
    modifies arena.cells
    ensures ReadyFor(c, arena) && StoppedAt(c, arena.Contents(), outcomes, c.Done(Cursor(payloadIndex, run)))
  {
    ghost var at, before := Cursor(payloadIndex, run), arena.Contents();
    StopHere(c, before, outcomes, at);
    hide FilledUpTo, StoppedAt, Outcomes, Overwritten, Untouched, Config.RoundOf, Config.Slots, Config.Done, Partitioned,
         WindowOf;
    var outcome := outcomes[c.Done(Cursor(payloadIndex, run))];
    if run >= c.warmupRuns {
      var resultIndex := payloadIndex * c.runs + run - c.warmupRuns;
      arena.WriteSamples(resultIndex, outcome.samples);
      assert arena.Contents() == before[c.Slot(at) := Overwritten(Untouched(c), outcome.samples)];
    }
  }

  /** The nested loops of an endpoint.  `stopped` is the number of rounds that succeeded: all of them,
      or the ones before the first failure, which ends the endpoint at once. */
  method RunEndpoint(c: Config, outcomes: seq<RoundOutcome>) returns (arena: Arena, stopped: nat)
    requires Outcomes(c, outcomes)
    ensures ReadyFor(c, arena) && StoppedAt(c, arena.Contents(), outcomes, stopped)
    ensures stopped == c.Rounds() ==> FilledUpTo(c, arena.Contents(), outcomes, stopped)
  {
    arena := new Arena(c);
    var payloadIndex := 0;
    LoopPosition(c, Cursor(0, 0));
    hide Config.RoundOf, Config.Slots;
    while payloadIndex < |c.payloadSizes|
      invariant 0 <= payloadIndex <= |c.payloadSizes| && fresh(arena.cells) && fresh(arena.results)
      invariant ReadyFor(c, arena)
      invariant FilledUpTo(c, arena.Contents(), outcomes, c.Done(Cursor(payloadIndex, 0)))
    {
      var run := 0;
      while run < c.warmupRuns + c.runs
        invariant 0 <= run <= c.PerPayload() && fresh(arena.cells) && fresh(arena.results)
        invariant ReadyFor(c, arena)
        invariant FilledUpTo(c, arena.Contents(), outcomes, c.Done(Cursor(payloadIndex, run)))
      {
        LoopPosition(c, Cursor(payloadIndex, run));
        var round := c.Done(Cursor(payloadIndex, run));
        if outcomes[round].RoundFailed? {
          FailRun(c, arena, outcomes, payloadIndex, run);
          stopped := round;
          return;
        }
        FinishRun(c, arena, outcomes, payloadIndex, run);
        run := run + 1;
      }
      LoopPosition(c, Cursor(payloadIndex, run));
      payloadIndex := payloadIndex + 1;
    }
    stopped := c.Rounds();
    LoopPosition(c, Cursor(payloadIndex, 0));
    AllFilled(c, arena.Contents(), outcomes);
  }

  lemma AllFilled(c: Config, contents: seq<RunResult>, outcomes: seq<RoundOutcome>)
    requires Outcomes(c, outcomes) && FilledUpTo(c, contents, outcomes, c.Rounds())
    ensures StoppedAt(c, contents, outcomes, c.Rounds())
  {
  }

  /** After a run in which every round succeeded, no sentinel and no zero UUID is left anywhere. */
  lemma NoSentinelLeft(c: Config, contents: seq<RunResult>, outcomes: seq<RoundOutcome>)
    requires Outcomes(c, outcomes) && FilledUpTo(c, contents, outcomes, c.Rounds())
    ensures forall slot, i :: 0 <= slot < |contents| && 0 <= i < |contents[slot].window| ==>
              contents[slot].window[i].time >= 0 && contents[slot].window[i].id.Some?
    ensures forall slot :: 0 <= slot < |contents| ==> |contents[slot].window| == c.messageCount
  {
    forall slot | 0 <= slot < |contents|
      ensures c.runs > 0 && c.RoundOf(slot) < c.Rounds()
    {
      RunOfSlot(c, slot);
    }
  }
}
