/** The subscriber's delivery callback: it writes into the slice of the arena it was handed, counts, and
    reports through a channel of capacity one.  It refines the protocol's handler. */
module DeliveryCallback {
  import opened Wrappers
  import opened RoundArithmetic
  import opened Protocol
  import opened ProtocolInvariant
  import opened ProtocolSafety
  import opened ResultArena

  class Callback {
    const c: Config
    const isWarmup: bool
    const cells: array<Cell>
    const window: Slice
    var messageIndex: nat
    var benchmarkResult: seq<Outcome>
    ghost var handler: Handler

    constructor (c: Config, round: nat, isWarmup: bool, cells: array<Cell>, window: Slice)
      requires window.start + c.messageCount == window.end <= cells.Length
      ensures Valid() && handler == Handler(round, [], [], 0)
      ensures this.c == c && this.isWarmup == isWarmup && this.cells == cells && this.window == window
    {
      this.c, this.isWarmup, this.cells, this.window := c, isWarmup, cells, window;
      messageIndex, benchmarkResult := 0, [];
      handler := Handler(round, [], [], 0);
    }

    /** The captured variables are the protocol's handler, and the window starts with what it handled. */
    ghost predicate Valid()
      reads this, cells
    {
      && window.start + c.messageCount == window.end <= cells.Length
      && messageIndex == |handler.handled| && benchmarkResult == handler.channel && |benchmarkResult| <= 1
      && (!isWarmup ==> messageIndex <= c.messageCount
                        && cells[window.start..window.start + messageIndex] == Recorded(handler.handled))
    }

    /** A delivery the protocol allows does not write outside the slice and does not block on the channel; the
        handler moves as in the protocol, and no cell outside the slice changes. */
    method OnDelivery(message: Option<Message>, endTime: nat)
      requires Valid()
      requires message.Some? ==> |handler.handled| < c.messageCount
      requires benchmarkResult == [] || (message.Some? && messageIndex + 1 != c.messageCount)
      modifies this, cells
      ensures Valid()
      ensures handler == match message
                         case Some(m) => Receive(c, old(handler), m, endTime)
                         case None => old(handler).(channel := old(handler).channel + [ConsumeError])
      ensures forall i :: 0 <= i < cells.Length && !(window.start <= i < window.end && message.Some? && !isWarmup) ==>
                cells[i] == old(cells[i])
    {
      if message.None? {
        benchmarkResult := benchmarkResult + [ConsumeError];
        handler := handler.(channel := handler.channel + [ConsumeError]);
        return;
      }
      ghost var before := cells[window.start..window.start + messageIndex];
      if !isWarmup {
        cells[window.start + messageIndex] := Cell(Some(message.value), endTime);
        assert cells[window.start..window.start + messageIndex] == before;
      }
      messageIndex := messageIndex + 1;
      handler := Receive(c, handler, message.value, endTime);
      if messageIndex == c.messageCount {
        benchmarkResult := benchmarkResult + [Completed];
      }
    }
  }

  /** Every delivery of a protocol run can be handed to the callback: it is the callback of the message's own
      round with a cell left for it, it does not block, and it moves as the protocol does. */
  method HandleDelivery(callback: Callback, m: Message, endTime: nat, consumed: bool, ghost run: seq<Action>,
                        ghost s: State)
    requires callback.Valid() && s.subscriber.handler == Some(callback.handler)
    requires Execute(callback.c, run) == Some(s) && DeliverEnabled(callback.c, s, m, consumed)
    modifies callback, callback.cells
    ensures callback.Valid() && old(callback.handler).round == m.round
    ensures Apply(callback.c, s, Deliver(m, endTime, consumed)).subscriber.handler == Some(callback.handler)
    ensures forall i :: 0 <= i < callback.cells.Length && !(callback.window.start <= i < callback.window.end) ==>
              callback.cells[i] == old(callback.cells[i])
  {
    RoundIsolation(callback.c, run, s, m, consumed);
    hide Execute;
    callback.OnDelivery(if consumed then Some(m) else None, endTime);
  }
}
