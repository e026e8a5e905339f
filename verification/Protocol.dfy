/** The macrobenchmark coordination protocol as a labelled transition system.

    Three processes run concurrently: the coordinator loop of orchestrate_macro.go and the
    publisher and subscriber loops of the two macro runners.  They exchange one-line signals
    over four FIFO pipes, while a broker delivers the published messages to the callback the
    subscriber has installed.  Every action is one effect of one process or of the broker, and
    a run is any sequence of enabled actions, so every interleaving is covered.
  */
module Protocol {
  import opened Wrappers
  import opened RoundArithmetic

  datatype Signal = Go | Ready | Done | Finish

  /** `index` is the position in the round's message list; distinct messages stand for distinct UUIDs. */
  datatype Message = Message(round: nat, index: nat)

  datatype Sample = Sample(id: Message, time: nat)

  datatype Counter = Absent | Created | Enabled

  /** What the callback reports through the result channel. */
  datatype Outcome = Completed | ConsumeError

  datatype CoordinatorPC =
    | RoundHead | WriteSubscriberGo | ReadReady | WritePublisherGo | ReadPublisherDone | ReadSubscriberDone
    | WritePublisherFinish | WriteSubscriberFinish | WaitPublisher | WaitSubscriber | CoordinatorReturned

  datatype PublisherPC =
    | PubConnect | PubHead | PubReadGo | PubNewCounter | PubEnable | PubPublish | PubAwait | PubStop
    | PubWriteDone | PubReadFinish | PubDisconnect | PubWriteResults | PubReturned

  datatype SubscriberPC =
    | SubConnect | SubHead | SubReadGo | SubNewCounter | SubSubscribe | SubEnable | SubWriteReady | SubWait
    | SubStop | SubWriteDone | SubReadFinish | SubDisconnect | SubWriteResults | SubReturned

  datatype Coordinator = Coordinator(pc: CoordinatorPC, round: nat, failed: bool)

  /** `tokens` holds the indices of the publish tokens that have completed. */
  datatype Publisher = Publisher(
    pc: PublisherPC, at: Cursor, sent: nat, awaited: nat, tokens: set<nat>,
    window: seq<Sample>, counter: Counter, results: seq<seq<Sample>>, failed: bool)

  /** An installed callback with the variables it captured: `|handled|` is its messageIndex,
      `channel` its capacity-one result channel, `completions` the number of nil sends so far. */
  datatype Handler = Handler(round: nat, handled: seq<Sample>, channel: seq<Outcome>, completions: nat)

  datatype Subscriber = Subscriber(
    pc: SubscriberPC, at: Cursor, handler: Option<Handler>, counter: Counter,
    results: seq<seq<Sample>>, failed: bool)

  /** A dropped message is one the network lost or the callback could not consume. */
  datatype State = State(
    coordinator: Coordinator, publisher: Publisher, subscriber: Subscriber,
    toPublisher: seq<Signal>, fromPublisher: seq<Signal>,
    toSubscriber: seq<Signal>, fromSubscriber: seq<Signal>,
    inFlight: set<Message>, dropped: set<Message>)

  datatype Process = CoordinatorProcess | PublisherProcess | SubscriberProcess

  /** Failing covers any error return of the current operation, including an end of file. */
  datatype Action =
    | CoordinatorStep
    | PublisherStep(startTime: nat)
    | SubscriberStep
    | Fail(process: Process)
    | Deliver(delivered: Message, endTime: nat, consumed: bool)
    | Lose(lost: Message)
    | CompleteToken(token: nat)

  function Initial(c: Config): State {
    State(
      Coordinator(RoundHead, 0, false),
      Publisher(PubConnect, Cursor(0, 0), 0, 0, {}, [], Absent, seq(c.Slots(), _ => []), false),
      Subscriber(SubConnect, Cursor(0, 0), None, Absent, seq(c.Slots(), _ => []), false),
      [], [], [], [], {}, {})
  }

  // ---- coordinator -------------------------------------------------------------------------

  predicate CoordinatorEnabled(s: State) {
    && !s.coordinator.failed
    && match s.coordinator.pc
       case ReadReady | ReadSubscriberDone => s.fromSubscriber != []
       case ReadPublisherDone => s.fromPublisher != []
       case WaitPublisher => s.publisher.pc == PubReturned || s.publisher.failed
       case WaitSubscriber => s.subscriber.pc == SubReturned || s.subscriber.failed
       case CoordinatorReturned => false
       case _ => true
  }

  function Goto(s: State, pc: CoordinatorPC): State {
    s.(coordinator := s.coordinator.(pc := pc))
  }

  function CoordinatorFails(s: State): State {
    s.(coordinator := s.coordinator.(failed := true))
  }

  function CoordinatorNext(c: Config, s: State): State
    requires CoordinatorEnabled(s)
  {
    match s.coordinator.pc
    case RoundHead => Goto(s, if s.coordinator.round < c.Rounds() then WriteSubscriberGo else WritePublisherFinish)
    case WriteSubscriberGo => Goto(s, ReadReady).(toSubscriber := s.toSubscriber + [Go])
    case ReadReady =>
      var t := s.(fromSubscriber := s.fromSubscriber[1..]);
      if s.fromSubscriber[0] == Ready then Goto(t, WritePublisherGo) else CoordinatorFails(t)
    case WritePublisherGo => Goto(s, ReadPublisherDone).(toPublisher := s.toPublisher + [Go])
    case ReadPublisherDone =>
      var t := s.(fromPublisher := s.fromPublisher[1..]);
      if s.fromPublisher[0] == Done then Goto(t, ReadSubscriberDone) else CoordinatorFails(t)
    case ReadSubscriberDone =>
      var t := s.(fromSubscriber := s.fromSubscriber[1..]);
      if s.fromSubscriber[0] == Done
      then t.(coordinator := s.coordinator.(pc := RoundHead, round := s.coordinator.round + 1))
      else CoordinatorFails(t)
    case WritePublisherFinish => Goto(s, WriteSubscriberFinish).(toPublisher := s.toPublisher + [Finish])
    case WriteSubscriberFinish => Goto(s, WaitPublisher).(toSubscriber := s.toSubscriber + [Finish])
    case WaitPublisher => if s.publisher.failed then CoordinatorFails(s) else Goto(s, WaitSubscriber)
    case WaitSubscriber => if s.subscriber.failed then CoordinatorFails(s) else Goto(s, CoordinatorReturned)
  }

  // ---- publisher ---------------------------------------------------------------------------

  predicate PublisherEnabled(c: Config, s: State) {
    && !s.publisher.failed
    && match s.publisher.pc
       case PubReadGo | PubReadFinish => s.toPublisher != []
       case PubAwait => s.publisher.awaited < c.messageCount ==> s.publisher.awaited in s.publisher.tokens
       case PubReturned => false
       case _ => true
  }

  function PublisherFails(s: State): State {
    s.(publisher := s.publisher.(failed := true, counter := Absent))
  }

  function PublisherNext(c: Config, s: State, startTime: nat): State
    requires PublisherEnabled(c, s)
  {
    var p := s.publisher;
    var measured := c.Measured(p.at);
    match p.pc
    case PubConnect => s.(publisher := p.(pc := PubHead))
    case PubHead =>
      s.(publisher :=
        if p.at.payload >= |c.payloadSizes| then p.(pc := PubReadFinish)
        else if p.at.run < c.PerPayload() then p.(pc := PubReadGo)
        else p.(at := Cursor(p.at.payload + 1, 0)))
    case PubReadGo =>
      var t := s.(toPublisher := s.toPublisher[1..]);
      if s.toPublisher[0] != Go then PublisherFails(t)
      else t.(publisher := p.(pc := if measured then PubNewCounter else PubPublish,
                              sent := 0, awaited := 0, tokens := {}, window := []))
    case PubNewCounter => s.(publisher := p.(pc := PubEnable, counter := Created))
    case PubEnable => s.(publisher := p.(pc := PubPublish, counter := Enabled))
    case PubPublish =>
      if p.sent < c.messageCount then
        var m := Message(c.Done(p.at), p.sent);
        s.(inFlight := s.inFlight + {m},
           publisher := p.(sent := p.sent + 1,
                           window := if measured then p.window + [Sample(m, startTime)] else p.window))
      else s.(publisher := p.(pc := PubAwait))
    case PubAwait =>
      s.(publisher :=
        if p.awaited < c.messageCount then p.(awaited := p.awaited + 1)
        else p.(pc := if measured then PubStop else PubWriteDone))
    case PubStop =>
      var slot := c.Slot(p.at);
      if 0 <= slot < |p.results|
      then s.(publisher := p.(pc := PubWriteDone, counter := Absent, results := p.results[slot := p.window]))
      else PublisherFails(s)
    case PubWriteDone =>
      s.(fromPublisher := s.fromPublisher + [Done],
         publisher := p.(pc := PubHead, at := Cursor(p.at.payload, p.at.run + 1)))
    case PubReadFinish =>
      var t := s.(toPublisher := s.toPublisher[1..]);
      if s.toPublisher[0] != Finish then PublisherFails(t)
      else t.(publisher := p.(pc := PubDisconnect))
    case PubDisconnect => s.(publisher := p.(pc := PubWriteResults))
    case PubWriteResults => s.(publisher := p.(pc := PubReturned))
  }

  // ---- subscriber --------------------------------------------------------------------------

  predicate SubscriberEnabled(s: State) {
    && !s.subscriber.failed
    && match s.subscriber.pc
       case SubReadGo | SubReadFinish => s.toSubscriber != []
       case SubWait => s.subscriber.handler.Some? && s.subscriber.handler.value.channel != []
       case SubReturned => false
       case _ => true
  }

  function SubscriberFails(s: State): State {
    s.(subscriber := s.subscriber.(failed := true, counter := Absent))
  }

  function SubscriberNext(c: Config, s: State): State
    requires SubscriberEnabled(s)
  {
    var b := s.subscriber;
    var measured := c.Measured(b.at);
    match b.pc
    case SubConnect => s.(subscriber := b.(pc := SubHead))
    case SubHead =>
      s.(subscriber :=
        if b.at.payload >= |c.payloadSizes| then b.(pc := SubReadFinish)
        else if b.at.run < c.PerPayload() then b.(pc := SubReadGo)
        else b.(at := Cursor(b.at.payload + 1, 0)))
    case SubReadGo =>
      var t := s.(toSubscriber := s.toSubscriber[1..]);
      if s.toSubscriber[0] != Go then SubscriberFails(t)
      else t.(subscriber := b.(pc := if measured then SubNewCounter else SubSubscribe))
    case SubNewCounter => s.(subscriber := b.(pc := SubSubscribe, counter := Created))
    case SubSubscribe =>
      s.(subscriber := b.(pc := if measured then SubEnable else SubWriteReady,
                          handler := Some(Handler(c.Done(b.at), [], [], 0))))
    case SubEnable => s.(subscriber := b.(pc := SubWriteReady, counter := Enabled))
    case SubWriteReady =>
      s.(fromSubscriber := s.fromSubscriber + [Ready], subscriber := b.(pc := SubWait))
    case SubWait =>
      var h := b.handler.value;
      var t := s.(subscriber := b.(handler := Some(h.(channel := h.channel[1..]))));
      if h.channel[0] == Completed
      then t.(subscriber := t.subscriber.(pc := if measured then SubStop else SubWriteDone))
      else SubscriberFails(t)
    case SubStop =>
      var slot := c.Slot(b.at);
      if 0 <= slot < |b.results| && b.handler.Some?
      then s.(subscriber := b.(pc := SubWriteDone, counter := Absent,
                               results := b.results[slot := b.handler.value.handled]))
      else SubscriberFails(s)
    case SubWriteDone =>
      s.(fromSubscriber := s.fromSubscriber + [Done],
         subscriber := b.(pc := SubHead, at := Cursor(b.at.payload, b.at.run + 1)))
    case SubReadFinish =>
      var t := s.(toSubscriber := s.toSubscriber[1..]);
      if s.toSubscriber[0] != Finish then SubscriberFails(t)
      else t.(subscriber := b.(pc := SubDisconnect))
    case SubDisconnect => s.(subscriber := b.(pc := SubWriteResults, handler := None))
    case SubWriteResults => s.(subscriber := b.(pc := SubReturned))
  }

  // ---- broker and callback -----------------------------------------------------------------

  /** The callback's reaction to one delivery it could consume. */
  function Receive(c: Config, h: Handler, m: Message, endTime: nat): Handler {
    var handled := h.handled + [Sample(m, endTime)];
    if |handled| == c.messageCount
    then h.(handled := handled, channel := h.channel + [Completed], completions := h.completions + 1)
    else h.(handled := handled)
  }

  /** Callbacks run one at a time, and one whose send would block is delivered later. */
  predicate DeliverEnabled(c: Config, s: State, m: Message, consumed: bool) {
    && m in s.inFlight
    && !s.subscriber.failed
    && s.subscriber.handler.Some?
    && (s.subscriber.handler.value.channel == []
        || (consumed && |s.subscriber.handler.value.handled| + 1 != c.messageCount))
  }

  function DeliverNext(c: Config, s: State, m: Message, endTime: nat, consumed: bool): State
    requires DeliverEnabled(c, s, m, consumed)
  {
    var h := s.subscriber.handler.value;
    if consumed then
      s.(inFlight := s.inFlight - {m}, subscriber := s.subscriber.(handler := Some(Receive(c, h, m, endTime))))
    else
      s.(inFlight := s.inFlight - {m}, dropped := s.dropped + {m},
         subscriber := s.subscriber.(handler := Some(h.(channel := h.channel + [ConsumeError]))))
  }

  // ---- runs --------------------------------------------------------------------------------

  predicate ActionEnabled(c: Config, s: State, a: Action) {
    match a
    case CoordinatorStep => CoordinatorEnabled(s)
    case PublisherStep(_) => PublisherEnabled(c, s)
    case SubscriberStep => SubscriberEnabled(s)
    case Fail(CoordinatorProcess) => !s.coordinator.failed && s.coordinator.pc != CoordinatorReturned
    case Fail(PublisherProcess) => !s.publisher.failed && s.publisher.pc != PubReturned
    case Fail(SubscriberProcess) => !s.subscriber.failed && s.subscriber.pc != SubReturned
    case Deliver(m, _, consumed) => DeliverEnabled(c, s, m, consumed)
    case Lose(m) => m in s.inFlight
    case CompleteToken(i) => i < s.publisher.sent && i !in s.publisher.tokens
  }

  function Apply(c: Config, s: State, a: Action): State
    requires ActionEnabled(c, s, a)
  {
    match a
    case CoordinatorStep => CoordinatorNext(c, s)
    case PublisherStep(startTime) => PublisherNext(c, s, startTime)
    case SubscriberStep => SubscriberNext(c, s)
    case Fail(CoordinatorProcess) => CoordinatorFails(s)
    case Fail(PublisherProcess) => PublisherFails(s)
    case Fail(SubscriberProcess) => SubscriberFails(s)
    case Deliver(m, endTime, consumed) => DeliverNext(c, s, m, endTime, consumed)
    case Lose(m) => s.(inFlight := s.inFlight - {m}, dropped := s.dropped + {m})
    case CompleteToken(i) => s.(publisher := s.publisher.(tokens := s.publisher.tokens + {i}))
  }

  /** The state after performing `run` from the initial state, if every action in it was enabled. */
  function Execute(c: Config, run: seq<Action>): Option<State> {
    if run == [] then Some(Initial(c))
    else
      match Execute(c, run[..|run| - 1])
      case None => None
      case Some(s) =>
        var a := run[|run| - 1];
        if ActionEnabled(c, s, a) then Some(Apply(c, s, a)) else None
  }
}
