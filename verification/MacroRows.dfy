/** The result rows of a macro endpoint: written flatly, slot by slot, with labels computed by
    division and modulo, and shown to be the rows of the nested payload/repetition structure. */
module MacroRows {
  import opened Wrappers
  import opened RoundArithmetic
  import opened Protocol
  import opened Grouping
  import opened ResultArena

  /** The columns after payload_size and repetition: message_id, timestamp and cycle total. */
  datatype Entry = Entry(id: Option<Message>, time: int, cycles: nat)

  /** One CSV row: payload_size, repetition and the rest. */
  type MacroRow = (int, (nat, Entry))

  function Entries(result: RunResult): seq<Entry> {
    seq(|result.window|, i requires 0 <= i < |result.window| =>
      Entry(result.window[i].id, result.window[i].time, result.cycles))
  }

  function LabelledRows(payloadSize: int, repetition: nat, result: RunResult): seq<MacroRow> {
    Tagged(payloadSize, Tagged(repetition, Entries(result)))
  }

  /** The labels the writer computes from a flat result index. */
  function PayloadSizeOf(c: Config, slot: nat): int
    requires slot < c.Slots()
  {
    RunOfSlot(c, slot);
    c.payloadSizes[slot / c.runs]
  }

  function RepetitionOf(c: Config, slot: nat): nat
    requires slot < c.Slots()
  {
    RunOfSlot(c, slot);
    slot % c.runs + 1
  }

  function SlotRows(c: Config, slot: nat, result: RunResult): seq<MacroRow>
    requires slot < c.Slots()
  {
    LabelledRows(PayloadSizeOf(c, slot), RepetitionOf(c, slot), result)
  }

  /** The rows of the first `n` slots. */
  function Written(c: Config, contents: seq<RunResult>, n: nat): seq<MacroRow>
    requires n <= |contents| == c.Slots()
  {
    if n == 0 then [] else Written(c, contents, n - 1) + SlotRows(c, n - 1, contents[n - 1])
  }

  /** The inner loop of the writer: one row per measurement of a window. */
  method WriteWindow(before: seq<MacroRow>, payloadSize: int, repetition: nat, cells: array<Cell>, window: Slice,
                     cycles: nat)
    returns (rows: seq<MacroRow>)
    requires window.start <= window.end <= cells.Length
    ensures rows == before + LabelledRows(payloadSize, repetition, RunResult(cells[window.start..window.end], cycles))
  {
    rows := before;
    ghost var entries := Entries(RunResult(cells[window.start..window.end], cycles));
    var i := window.start;
    while i < window.end
      invariant window.start <= i <= window.end
      invariant rows == before + Tagged(payloadSize, Tagged(repetition, entries[..i - window.start]))
    {
      var measurement := cells[i];
      rows := rows + [(payloadSize, (repetition, Entry(measurement.id, measurement.time, cycles)))];
      ghost var n := i - window.start;
      assert entries[..n + 1][..n] == entries[..n];
      i := i + 1;
    }
    assert entries[..|entries|] == entries;
  }

  /** The writer of an endpoint's result file. */
  method WriteResults(c: Config, arena: Arena) returns (rows: seq<MacroRow>)
    requires arena.Valid() && arena.results.Length == c.Slots()
    ensures rows == Written(c, arena.Contents(), c.Slots())
  {
    hide PayloadSizeOf, RepetitionOf, LabelledRows, Config.Slots, Arena.Valid, Arena.Contents;
    ghost var contents := arena.Contents();
    rows := [];
    var resultIndex := 0;
    while resultIndex < arena.results.Length
      invariant 0 <= resultIndex <= arena.results.Length
      invariant rows == Written(c, contents, resultIndex)
    {
      arena.ContentsAt(resultIndex);
      var result := arena.results[resultIndex];
      rows := WriteWindow(rows, PayloadSizeOf(c, resultIndex), RepetitionOf(c, resultIndex), arena.cells,
                          result.measurements, result.cycles);
      resultIndex := resultIndex + 1;
    }
  }

  // ---- the nested structure ----------------------------------------------------------------

  /** The first slot of a payload, counted up run by run. */
  function FirstSlot(c: Config, payload: nat): nat {
    if payload == 0 then 0 else FirstSlot(c, payload - 1) + c.runs
  }

  lemma {:induction false} FirstSlotIsProduct(c: Config, payload: nat)
    ensures FirstSlot(c, payload) == payload * c.runs
  {
    if payload > 0 {
      FirstSlotIsProduct(c, payload - 1);
      assert (payload - 1) * c.runs + c.runs == payload * c.runs;
    }
  }

  function SlotIndex(c: Config, payload: nat, repetition: nat): (slot: nat)
    requires payload < |c.payloadSizes| && repetition < c.runs
    ensures slot < c.Slots()
  {
    InsideTable(|c.payloadSizes|, c.runs, payload, repetition);
    FirstSlotIsProduct(c, payload);
    FirstSlot(c, payload) + repetition
  }

  /** The first `n` repetitions of one payload. */
  function Repetitions(c: Config, contents: seq<RunResult>, payload: nat, n: nat): seq<Group<nat, Entry>>
    requires |contents| == c.Slots() && payload < |c.payloadSizes| && n <= c.runs
  {
    if n == 0 then []
    else Repetitions(c, contents, payload, n - 1) + [Group(n, Entries(contents[SlotIndex(c, payload, n - 1)]))]
  }

  /** One group per payload, holding one group per repetition, holding that run's measurements. */
  function Nested(c: Config, contents: seq<RunResult>): seq<Group<int, Group<nat, Entry>>>
    requires |contents| == c.Slots()
  {
    seq(|c.payloadSizes|, p requires 0 <= p < |c.payloadSizes| =>
      Group(c.payloadSizes[p], Repetitions(c, contents, p, c.runs)))
  }

  lemma {:induction false} RepetitionsShape(c: Config, contents: seq<RunResult>, p: nat, n: nat)
    requires |contents| == c.Slots() && p < |c.payloadSizes| && n <= c.runs
    ensures |Repetitions(c, contents, p, n)| == n
    ensures forall r :: 0 <= r < n ==>
              Repetitions(c, contents, p, n)[r] == Group(r + 1, Entries(contents[SlotIndex(c, p, r)]))
  {
    if n > 0 {
      RepetitionsShape(c, contents, p, n - 1);
    }
  }

  lemma SlotRowsAt(c: Config, p: nat, r: nat, result: RunResult)
    requires p < |c.payloadSizes| && r < c.runs
    ensures SlotRows(c, SlotIndex(c, p, r), result) == LabelledRows(c.payloadSizes[p], r + 1, result)
  {
    DivModOf(c.runs, p, r);
    FirstSlotIsProduct(c, p);
  }

  /** The rows of the first `p` payloads, one repetition after another. */
  function PayloadRows(c: Config, contents: seq<RunResult>, p: nat): seq<MacroRow>
    requires |contents| == c.Slots() && p <= |c.payloadSizes|
  {
    if p == 0 then []
    else
      PayloadRows(c, contents, p - 1) + Tagged(c.payloadSizes[p - 1], Flatten(Repetitions(c, contents, p - 1, c.runs)))
  }

  lemma RepetitionsGrow(c: Config, contents: seq<RunResult>, p: nat, r: nat)
    requires |contents| == c.Slots() && p < |c.payloadSizes| && 0 < r <= c.runs
    ensures Tagged(c.payloadSizes[p], Flatten(Repetitions(c, contents, p, r))) ==
            Tagged(c.payloadSizes[p], Flatten(Repetitions(c, contents, p, r - 1)))
            + LabelledRows(c.payloadSizes[p], r, contents[SlotIndex(c, p, r - 1)])
  {
    RepetitionsShape(c, contents, p, r);
    var reps := Repetitions(c, contents, p, r);
    assert reps[..r - 1] == Repetitions(c, contents, p, r - 1);
    TaggedAppend(c.payloadSizes[p], Flatten(reps[..r - 1]), Tagged(r, reps[r - 1].items));
  }

  lemma AppendTail<T>(head: seq<T>, tail: seq<T>, more: seq<T>, before: seq<T>, after: seq<T>, longer: seq<T>)
    requires before == head + tail && after == before + more && longer == tail + more
    ensures after == head + longer
  {
  }

  lemma WrittenNext(c: Config, contents: seq<RunResult>, p: nat, r: nat, n: nat)
    requires |contents| == c.Slots() && p < |c.payloadSizes| && 0 < r <= c.runs
    requires n == FirstSlot(c, p) + r <= |contents|
    ensures Written(c, contents, n) == Written(c, contents, n - 1) + LabelledRows(c.payloadSizes[p], r, contents[n - 1])
    ensures Tagged(c.payloadSizes[p], Flatten(Repetitions(c, contents, p, r))) ==
            Tagged(c.payloadSizes[p], Flatten(Repetitions(c, contents, p, r - 1)))
            + LabelledRows(c.payloadSizes[p], r, contents[n - 1])
  {
    hide Config.Slots, PayloadSizeOf, RepetitionOf, LabelledRows, Tagged;
    SlotRowsAt(c, p, r - 1, contents[n - 1]);
    RepetitionsGrow(c, contents, p, r);
  }

  /** The rows written before repetition `r` of payload `p`. */
  ghost predicate InPlace(c: Config, contents: seq<RunResult>, p: nat, r: nat, n: nat)
    requires |contents| == c.Slots() && p < |c.payloadSizes| && r <= c.runs && n <= |contents|
  {
    Written(c, contents, n) ==
    PayloadRows(c, contents, p) + Tagged(c.payloadSizes[p], Flatten(Repetitions(c, contents, p, r)))
  }

  lemma NextRepetition(c: Config, contents: seq<RunResult>, p: nat, r: nat, n: nat)
    requires |contents| == c.Slots() && p < |c.payloadSizes| && 0 < r <= c.runs
    requires n == FirstSlot(c, p) + r <= |contents| && InPlace(c, contents, p, r - 1, n - 1)
    ensures InPlace(c, contents, p, r, n)
  {
    WrittenNext(c, contents, p, r, n);
    AppendTail(PayloadRows(c, contents, p), Tagged(c.payloadSizes[p], Flatten(Repetitions(c, contents, p, r - 1))),
               LabelledRows(c.payloadSizes[p], r, contents[n - 1]), Written(c, contents, n - 1),
               Written(c, contents, n), Tagged(c.payloadSizes[p], Flatten(Repetitions(c, contents, p, r))));
  }

  lemma NextPayload(c: Config, contents: seq<RunResult>, p: nat, n: nat)
    requires |contents| == c.Slots() && p < |c.payloadSizes| && n <= |contents|
    requires if p == 0 then n == 0 else InPlace(c, contents, p - 1, c.runs, n)
    ensures InPlace(c, contents, p, 0, n)
  {
    AppendNothing(PayloadRows(c, contents, p));
  }

  lemma {:induction false} WrittenUpTo(c: Config, contents: seq<RunResult>, p: nat, r: nat, n: nat)
    requires |contents| == c.Slots() && p < |c.payloadSizes| && r <= c.runs
    requires n == FirstSlot(c, p) + r <= |contents|
    ensures InPlace(c, contents, p, r, n)
    decreases p, r
  {
    hide InPlace;
    if r > 0 {
      WrittenUpTo(c, contents, p, r - 1, n - 1);
      NextRepetition(c, contents, p, r, n);
    } else {
      if p > 0 {
        WrittenUpTo(c, contents, p - 1, c.runs, n);
      }
      NextPayload(c, contents, p, n);
    }
  }

  lemma {:induction false} PayloadRowsAreNested(c: Config, contents: seq<RunResult>, p: nat)
    requires |contents| == c.Slots() && p <= |c.payloadSizes|
    ensures PayloadRows(c, contents, p) == FlattenNested(Nested(c, contents)[..p])
  {
    if p > 0 {
      PayloadRowsAreNested(c, contents, p - 1);
      FlattenNestedStep(Nested(c, contents), p);
      assert Nested(c, contents)[p - 1] == Group(c.payloadSizes[p - 1], Repetitions(c, contents, p - 1, c.runs));
      hide Nested, FlattenNested, Tagged, Repetitions, Flatten, Config.Slots;
    }
  }

  /** The flat div/mod labelling writes exactly the nested structure. */
  lemma WrittenIsNested(c: Config, contents: seq<RunResult>)
    requires |contents| == c.Slots()
    ensures Written(c, contents, c.Slots()) == FlattenNested(Nested(c, contents))
  {
    var p := |c.payloadSizes|;
    if p > 0 {
      FirstSlotIsProduct(c, p);
      WrittenUpTo(c, contents, p - 1, c.runs, c.Slots());
    }
    PayloadRowsAreNested(c, contents, p);
    assert Nested(c, contents)[..p] == Nested(c, contents);
  }
}
