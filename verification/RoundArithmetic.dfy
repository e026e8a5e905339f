/** The configuration both endpoints share, and the arithmetic of their nested payload/run
    loops: the coordinator counts rounds flatly, the endpoints count payloads and runs, and the
    results live in a flat list of slots. */
module RoundArithmetic {
  /** Position of an endpoint's nested loop: `payload` payloads and then `run` runs are finished. */
  datatype Cursor = Cursor(payload: nat, run: nat)

  datatype Config = Config(payloadSizes: seq<int>, warmupRuns: nat, runs: nat, messageCount: nat) {
    function PerPayload(): nat { warmupRuns + runs }

    /** The repetition count the coordinator is given. */
    function Rounds(): nat { |payloadSizes| * PerPayload() }

    function Slots(): nat { |payloadSizes| * runs }

    predicate Measured(at: Cursor) { at.run >= warmupRuns }

    /** Rounds an endpoint has finished when its loop stands at `at`. */
    function Done(at: Cursor): nat { at.payload * PerPayload() + at.run }

    /** The result index of the run at `at`. */
    function Slot(at: Cursor): int { at.payload * runs + at.run - warmupRuns }

    /** The round that fills a result slot. */
    function RoundOf(slot: nat): nat
      requires runs > 0
    {
      (slot / runs) * PerPayload() + warmupRuns + slot % runs
    }
  }

  /** Moving to a later row moves by at least one whole row. */
  lemma {:induction false} LaterRow(d: nat, q: nat, q': nat)
    requires q < q'
    ensures q * d + d <= q' * d
    decreases q'
  {
    if q + 1 < q' {
      LaterRow(d, q, q' - 1);
    }
    assert q' * d == (q' - 1) * d + d;
  }

  /** A quotient and a remainder are determined by the number they make up. */
  lemma DivModUnique(d: nat, q: nat, r: nat, q': nat, r': nat)
    requires r < d && r' < d && q * d + r == q' * d + r'
    ensures q == q' && r == r'
  {
    if q < q' {
      LaterRow(d, q, q');
    } else if q' < q {
      LaterRow(d, q', q);
    }
  }

  lemma DivModOf(d: nat, q: nat, r: nat)
    requires r < d
    ensures (q * d + r) / d == q && (q * d + r) % d == r
  {
    var n := q * d + r;
    assert n == (n / d) * d + n % d;
    DivModUnique(d, q, r, n / d, n % d);
  }

  /** The row of a row-major index. */
  lemma RowOf(d: nat, rows: nat, n: nat)
    requires n < rows * d
    ensures d > 0 && n / d < rows && (n / d) * d <= n < (n / d) * d + d
  {
    var q := n / d;
    assert n == q * d + n % d;
    if rows < q {
      LaterRow(d, rows, q);
    }
  }

  /** A row-major index stays inside its table. */
  lemma InsideTable(rows: nat, d: nat, q: nat, r: nat)
    requires q < rows && r < d
    ensures q * d + r < rows * d
  {
    LaterRow(d, q, rows);
  }

  /** An endpoint inside its loops has finished fewer rounds than the coordinator was told to run;
      one whose payload loop ended has finished at least that many. */
  lemma LoopPosition(c: Config, at: Cursor)
    ensures at.payload < |c.payloadSizes| && at.run < c.PerPayload() ==> c.Done(at) < c.Rounds()
    ensures at.payload >= |c.payloadSizes| ==> c.Done(at) >= c.Rounds()
    ensures at.run == c.PerPayload() ==> c.Done(Cursor(at.payload + 1, 0)) == c.Done(at)
    ensures c.Done(Cursor(at.payload, at.run + 1)) == c.Done(at) + 1
  {
    if at.payload < |c.payloadSizes| && at.run < c.PerPayload() {
      InsideTable(|c.payloadSizes|, c.PerPayload(), at.payload, at.run);
    }
    if at.payload >= |c.payloadSizes| {
      assert at.payload * c.PerPayload() ==
             (at.payload - |c.payloadSizes|) * c.PerPayload() + |c.payloadSizes| * c.PerPayload();
    }
    assert (at.payload + 1) * c.PerPayload() == at.payload * c.PerPayload() + c.PerPayload();
  }

  /** A measured run has a slot of its own, and that slot's round is the run. */
  lemma SlotOfRun(c: Config, at: Cursor)
    requires at.payload < |c.payloadSizes| && at.run < c.PerPayload() && c.Measured(at)
    ensures c.runs > 0 && 0 <= c.Slot(at) < c.Slots() && c.RoundOf(c.Slot(at)) == c.Done(at)
  {
    var r := at.run - c.warmupRuns;
    InsideTable(|c.payloadSizes|, c.runs, at.payload, r);
    DivModOf(c.runs, at.payload, r);
    assert c.Slot(at) == at.payload * c.runs + r;
  }

  /** No other slot belongs to a run, and a warm-up run has none. */
  lemma SlotUnique(c: Config, at: Cursor, slot: nat)
    requires at.run < c.PerPayload() && c.runs > 0 && c.RoundOf(slot) == c.Done(at)
    ensures c.Measured(at) && slot == c.Slot(at)
  {
    DivModUnique(c.PerPayload(), slot / c.runs, c.warmupRuns + slot % c.runs, at.payload, at.run);
    assert slot == (slot / c.runs) * c.runs + slot % c.runs;
  }

  /** Every slot is filled by exactly one measured run of the loops. */
  lemma RunOfSlot(c: Config, slot: nat)
    requires slot < c.Slots()
    ensures c.runs > 0
    ensures var at := Cursor(slot / c.runs, c.warmupRuns + slot % c.runs);
            && at.payload < |c.payloadSizes| && at.run < c.PerPayload() && c.Measured(at)
            && c.Slot(at) == slot && c.RoundOf(slot) < c.Rounds()
  {
    RowOf(c.runs, |c.payloadSizes|, slot);
    var q, r := slot / c.runs, slot % c.runs;
    assert slot == q * c.runs + r;
    InsideTable(|c.payloadSizes|, c.PerPayload(), q, c.warmupRuns + r);
  }
}
