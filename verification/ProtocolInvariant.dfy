/** The inductive invariant of the protocol and its preservation by every action. */
module ProtocolInvariant {
  import opened Wrappers
  import opened RoundArithmetic
  import opened Protocol

  // ---- vocabulary --------------------------------------------------------------------------

  /** Idle: before the next GO or FINISH.  Preparing: up to READY.  Working: up to DONE.
      Closing: after FINISH. */
  datatype Phase = Idle | Preparing | Working | Closing

  function PublisherPhase(pc: PublisherPC): Phase {
    match pc
    case PubConnect | PubHead | PubReadGo | PubReadFinish => Idle
    case PubDisconnect | PubWriteResults | PubReturned => Closing
    case _ => Working
  }

  function SubscriberPhase(pc: SubscriberPC): Phase {
    match pc
    case SubConnect | SubHead | SubReadGo | SubReadFinish => Idle
    case SubNewCounter | SubSubscribe | SubEnable | SubWriteReady => Preparing
    case SubDisconnect | SubWriteResults | SubReturned => Closing
    case _ => Working
  }

  /** The coordinator has released the publisher and has not yet closed the round. */
  predicate Broadcasting(s: State) {
    s.coordinator.pc == ReadPublisherDone || s.coordinator.pc == ReadSubscriberDone
  }

  function Published(round: nat, n: nat): set<Message> {
    set i | 0 <= i < n :: Message(round, i)
  }

  function Ids(samples: seq<Sample>): set<Message> {
    set x | x in samples :: x.id
  }

  predicate DistinctIds(samples: seq<Sample>) {
    forall i, j :: 0 <= i < j < |samples| ==> samples[i].id != samples[j].id
  }

  /** Exactly the round's messages, in the order they were published. */
  predicate InOrder(window: seq<Sample>, round: nat, n: nat) {
    |window| == n && forall i :: 0 <= i < n ==> window[i].id == Message(round, i)
  }

  /** Exactly the round's messages, each once, in some order. */
  predicate Arrangement(window: seq<Sample>, round: nat, n: nat) {
    |window| == n && DistinctIds(window) && Ids(window) == Published(round, n)
  }

  // ---- invariant ---------------------------------------------------------------------------

  predicate InBounds(c: Config, at: Cursor) {
    at.payload <= |c.payloadSizes| && at.run <= c.PerPayload() && (at.payload == |c.payloadSizes| ==> at.run == 0)
  }

  predicate InsideRound(c: Config, at: Cursor) {
    at.payload < |c.payloadSizes| && at.run < c.PerPayload()
  }

  predicate CoordinatorPositioned(c: Config, o: Coordinator) {
    && o.round <= c.Rounds()
    && match o.pc
       case RoundHead => true
       case WriteSubscriberGo | ReadReady | WritePublisherGo | ReadPublisherDone | ReadSubscriberDone =>
         o.round < c.Rounds()
       case _ => o.round == c.Rounds()
  }

  predicate PublisherPositioned(c: Config, p: Publisher) {
    && InBounds(c, p.at)
    && (PublisherPhase(p.pc) == Working || p.pc == PubReadGo ==> InsideRound(c, p.at))
    && (PublisherPhase(p.pc) == Closing || p.pc == PubReadFinish ==> p.at.payload == |c.payloadSizes|)
    && (p.pc == PubNewCounter || p.pc == PubEnable || p.pc == PubStop ==> c.Measured(p.at))
    && (p.failed || p.counter == if p.pc == PubEnable then Created
                                 else if c.Measured(p.at) && (p.pc == PubPublish || p.pc == PubAwait || p.pc == PubStop)
                                 then Enabled else Absent)
  }

  predicate SubscriberPositioned(c: Config, b: Subscriber) {
    && InBounds(c, b.at)
    && (SubscriberPhase(b.pc) in {Preparing, Working} || b.pc == SubReadGo ==> InsideRound(c, b.at))
    && (SubscriberPhase(b.pc) == Closing || b.pc == SubReadFinish ==> b.at.payload == |c.payloadSizes|)
    && (b.pc == SubNewCounter || b.pc == SubEnable || b.pc == SubStop ==> c.Measured(b.at))
    && (b.failed || b.counter == if c.Measured(b.at) && (b.pc == SubSubscribe || b.pc == SubEnable) then Created
                                 else if c.Measured(b.at) && (b.pc == SubWriteReady || b.pc == SubWait || b.pc == SubStop)
                                 then Enabled else Absent)
  }

  /** Where the publisher and its two pipes are, given where the coordinator is in round `k`. */
  predicate PublisherFollows(at: CoordinatorPC, k: nat, done: nat, pc: PublisherPC, to: seq<Signal>, from: seq<Signal>) {
    var phase := PublisherPhase(pc);
    match at
    case ReadPublisherDone =>
      || (done == k && phase == Idle && to == [Go] && from == [])
      || (done == k && phase == Working && to == [] && from == [])
      || (done == k + 1 && phase == Idle && to == [] && from == [Done])
    case ReadSubscriberDone => done == k + 1 && phase == Idle && to == [] && from == []
    case WriteSubscriberFinish | WaitPublisher =>
      done == k && from == [] && ((phase == Idle && to == [Finish]) || (phase == Closing && to == []))
    case WaitSubscriber | CoordinatorReturned => done == k && pc == PubReturned && to == [] && from == []
    case _ => done == k && phase == Idle && to == [] && from == []
  }

  /** Where the subscriber and its two pipes are, given where the coordinator is in round `k`. */
  predicate SubscriberFollows(at: CoordinatorPC, k: nat, done: nat, pc: SubscriberPC, to: seq<Signal>, from: seq<Signal>) {
    var phase := SubscriberPhase(pc);
    match at
    case ReadReady =>
      && done == k
      && (|| (phase == Idle && to == [Go] && from == [])
          || (phase == Preparing && to == [] && from == [])
          || (pc == SubWait && to == [] && from == [Ready]))
    case WritePublisherGo => done == k && pc == SubWait && to == [] && from == []
    case ReadPublisherDone | ReadSubscriberDone =>
      to == [] && ((done == k && phase == Working && from == []) || (done == k + 1 && phase == Idle && from == [Done]))
    case WaitPublisher | WaitSubscriber =>
      done == k && from == [] && ((phase == Idle && to == [Finish]) || (phase == Closing && to == []))
    case CoordinatorReturned => done == k && pc == SubReturned && to == [] && from == []
    case _ => done == k && phase == Idle && to == [] && from == []
  }

  predicate PublisherInStep(c: Config, s: State) {
    PublisherFollows(s.coordinator.pc, s.coordinator.round, c.Done(s.publisher.at), s.publisher.pc,
                     s.toPublisher, s.fromPublisher)
  }

  predicate SubscriberInStep(c: Config, s: State) {
    SubscriberFollows(s.coordinator.pc, s.coordinator.round, c.Done(s.subscriber.at), s.subscriber.pc,
                      s.toSubscriber, s.fromSubscriber)
  }

  /** Messages of the coordinator's round that have been published so far. */
  function SentThisRound(c: Config, s: State): nat {
    if PublisherPhase(s.publisher.pc) == Idle && c.Done(s.publisher.at) == s.coordinator.round then 0
    else s.publisher.sent
  }

  /** Every published message is in flight, dropped or handled, and in only one of the three. */
  predicate Accounted(round: nat, sent: nat, inFlight: set<Message>, dropped: set<Message>, handled: seq<Sample>) {
    && DistinctIds(handled)
    && Published(round, sent) == inFlight + dropped + Ids(handled)
    && inFlight !! dropped
    && inFlight + dropped !! Ids(handled)
  }

  predicate ChannelInStep(messageCount: nat, pc: SubscriberPC, h: Handler, dropped: set<Message>) {
    var full := |h.handled| == messageCount && messageCount > 0;
    && h.completions == (if full then 1 else 0)
    && if pc == SubWait then
         if full then h.channel == [Completed]
         else h.channel == [] || (h.channel == [ConsumeError] && dropped != {})
       else full && h.channel == []
  }

  predicate HandlerInStep(messageCount: nat, round: nat, sent: nat, pc: SubscriberPC, h: Handler,
                          inFlight: set<Message>, dropped: set<Message>)
  {
    && h.round == round
    && Accounted(round, sent, inFlight, dropped, h.handled)
    && ChannelInStep(messageCount, pc, h, dropped)
  }

  predicate MessagesInStep(c: Config, s: State) {
    var k := s.coordinator.round;
    var b := s.subscriber;
    if Broadcasting(s) then
      && b.handler.Some?
      && HandlerInStep(c.messageCount, k, SentThisRound(c, s), b.pc, b.handler.value, s.inFlight, s.dropped)
      && (c.Done(s.publisher.at) == k + 1 ==> s.publisher.sent == c.messageCount)
    else
      && s.inFlight == {} && s.dropped == {}
      && (b.pc == SubEnable || b.pc == SubWriteReady || SubscriberPhase(b.pc) == Working
          ==> b.handler == Some(Handler(k, [], [], 0)))
  }

  /** The publisher's measurements of the round it works on are the messages it has published, in order. */
  predicate WindowInStep(c: Config, p: Publisher) {
    PublisherPhase(p.pc) == Working && c.Measured(p.at) ==> InOrder(p.window, c.Done(p.at), p.sent)
  }

  predicate PublisherSending(c: Config, p: Publisher) {
    && p.sent <= c.messageCount && p.awaited <= c.messageCount
    && (forall i :: i in p.tokens ==> i < p.sent)
    && (p.pc == PubNewCounter || p.pc == PubEnable ==> p.sent == 0)
    && (p.pc == PubNewCounter || p.pc == PubEnable || p.pc == PubPublish ==> p.awaited == 0)
    && (p.pc == PubAwait || p.pc == PubStop || p.pc == PubWriteDone ==>
        p.sent == c.messageCount && forall i :: 0 <= i < p.awaited ==> i in p.tokens)
    && (p.pc == PubStop || p.pc == PubWriteDone ==> p.awaited == c.messageCount)
    && WindowInStep(c, p)
  }

  /** Rounds whose results the publisher has stored. */
  function PublisherStored(c: Config, p: Publisher): nat {
    c.Done(p.at) + if p.pc == PubWriteDone then 1 else 0
  }

  function SubscriberStored(c: Config, b: Subscriber): nat {
    c.Done(b.at) + if b.pc == SubWriteDone then 1 else 0
  }

  /** The publisher's windows keep publication order; the subscriber's are in delivery order. */
  predicate Whole(ordered: bool, window: seq<Sample>, round: nat, n: nat) {
    if ordered then InOrder(window, round, n) else Arrangement(window, round, n)
  }

  predicate ResultsUpTo(c: Config, ordered: bool, results: seq<seq<Sample>>, stored: nat) {
    && |results| == c.Slots()
    && forall slot :: 0 <= slot < |results| && c.runs > 0 ==>
         if c.RoundOf(slot) < stored then Whole(ordered, results[slot], c.RoundOf(slot), c.messageCount)
         else results[slot] == []
  }

  predicate Inv(c: Config, s: State) {
    && CoordinatorPositioned(c, s.coordinator)
    && PublisherPositioned(c, s.publisher)
    && SubscriberPositioned(c, s.subscriber)
    && PublisherInStep(c, s)
    && SubscriberInStep(c, s)
    && MessagesInStep(c, s)
    && PublisherSending(c, s.publisher)
    && ResultsUpTo(c, true, s.publisher.results, PublisherStored(c, s.publisher))
    && ResultsUpTo(c, false, s.subscriber.results, SubscriberStored(c, s.subscriber))
  }

  // ---- sets of messages --------------------------------------------------------------------

  lemma {:induction false} PublishedSize(round: nat, n: nat)
    ensures |Published(round, n)| == n
  {
    if n > 0 {
      PublishedSize(round, n - 1);
      assert Published(round, n) == Published(round, n - 1) + {Message(round, n - 1)};
    }
  }

  lemma IdsAppend(samples: seq<Sample>, x: Sample)
    ensures Ids(samples + [x]) == Ids(samples) + {x.id}
  {
    assert x in samples + [x];
    forall y | y in samples
      ensures y in samples + [x]
    {
      var i :| 0 <= i < |samples| && samples[i] == y;
      assert (samples + [x])[i] == y;
    }
  }

  lemma {:induction false} IdsSize(samples: seq<Sample>)
    requires DistinctIds(samples)
    ensures |Ids(samples)| == |samples|
  {
    if samples != [] {
      var rest, x := samples[..|samples| - 1], samples[|samples| - 1];
      assert samples == rest + [x];
      IdsSize(rest);
      IdsAppend(rest, x);
      assert x.id !in Ids(rest);
    }
  }

  lemma SubsetOfSameSize<T>(a: set<T>, b: set<T>)
    requires a <= b && |a| == |b|
    ensures a == b
  {
    assert |b - a| == |b| - |a|;
    assert b == a + (b - a);
  }

  /** A callback sees at most the published messages; one that saw them all leaves none outstanding. */
  lemma HandledAll(round: nat, sent: nat, inFlight: set<Message>, dropped: set<Message>, handled: seq<Sample>)
    requires Accounted(round, sent, inFlight, dropped, handled)
    ensures |handled| + |inFlight| + |dropped| == sent
    ensures |handled| == sent ==> inFlight == {} && dropped == {} && Arrangement(handled, round, sent)
  {
    PublishedSize(round, sent);
    IdsSize(handled);
  }

  lemma PublishOne(round: nat, sent: nat, inFlight: set<Message>, dropped: set<Message>, handled: seq<Sample>)
    requires Accounted(round, sent, inFlight, dropped, handled)
    ensures Accounted(round, sent + 1, inFlight + {Message(round, sent)}, dropped, handled)
  {
    var m := Message(round, sent);
    assert Published(round, sent + 1) == Published(round, sent) + {m};
    assert m !in Published(round, sent);
  }

  lemma HandleOne(round: nat, sent: nat, inFlight: set<Message>, dropped: set<Message>, handled: seq<Sample>,
                  x: Sample)
    requires Accounted(round, sent, inFlight, dropped, handled) && x.id in inFlight
    ensures Accounted(round, sent, inFlight - {x.id}, dropped, handled + [x])
    ensures |handled| < sent
  {
    IdsAppend(handled, x);
    forall i | 0 <= i < |handled|
      ensures handled[i].id != x.id
    {
      assert handled[i].id in Ids(handled);
    }
    HandledAll(round, sent, inFlight - {x.id}, dropped, handled + [x]);
  }

  /** Storing a whole window completes its own slot and touches no other. */
  lemma StoreWindow(c: Config, ordered: bool, results: seq<seq<Sample>>, at: Cursor, window: seq<Sample>)
    requires InsideRound(c, at) && c.Measured(at) && ResultsUpTo(c, ordered, results, c.Done(at))
    requires Whole(ordered, window, c.Done(at), c.messageCount)
    ensures 0 <= c.Slot(at) < |results|
    ensures ResultsUpTo(c, ordered, results[c.Slot(at) := window], c.Done(at) + 1)
  {
    SlotOfRun(c, at);
    forall slot | 0 <= slot < |results| && c.RoundOf(slot) == c.Done(at)
      ensures slot == c.Slot(at)
    {
      SlotUnique(c, at, slot);
    }
  }

  /** A warm-up round has no slot, so finishing it completes none. */
  lemma SkipWarmup(c: Config, ordered: bool, results: seq<seq<Sample>>, at: Cursor)
    requires InsideRound(c, at) && !c.Measured(at) && ResultsUpTo(c, ordered, results, c.Done(at))
    ensures ResultsUpTo(c, ordered, results, c.Done(at) + 1)
  {
    forall slot | 0 <= slot < |results| && c.runs > 0
      ensures c.RoundOf(slot) != c.Done(at)
    {
      if c.RoundOf(slot) == c.Done(at) {
        SlotUnique(c, at, slot);
      }
    }
  }

  // ---- preservation ------------------------------------------------------------------------

  lemma NothingStored(c: Config, ordered: bool)
    ensures ResultsUpTo(c, ordered, seq(c.Slots(), _ => []), 0)
  {
    hide Config.RoundOf;
  }

  lemma InitialHolds(c: Config)
    ensures Inv(c, Initial(c))
  {
    assert c.Done(Cursor(0, 0)) == 0;
    LoopPosition(c, Cursor(0, 0));
    NothingStored(c, true);
    NothingStored(c, false);
    hide Config.Done, Config.Rounds, Config.RoundOf, ResultsUpTo;
  }

  lemma CoordinatorStaysPositioned(c: Config, s: State)
    requires CoordinatorPositioned(c, s.coordinator) && CoordinatorEnabled(s)
    ensures CoordinatorPositioned(c, CoordinatorNext(c, s).coordinator)
  {
  }

  lemma CoordinatorStaysInStep(c: Config, s: State)
    requires CoordinatorPositioned(c, s.coordinator) && CoordinatorEnabled(s)
    requires PublisherInStep(c, s) && SubscriberInStep(c, s)
    ensures PublisherInStep(c, CoordinatorNext(c, s)) && SubscriberInStep(c, CoordinatorNext(c, s))
  {
  }

  /** What the conservation law says about the callback of the round being broadcast. */
  lemma RoundHandler(c: Config, s: State)
    requires MessagesInStep(c, s) && Broadcasting(s)
    ensures var h := s.subscriber.handler.value;
            && |h.handled| + |s.inFlight| + |s.dropped| == SentThisRound(c, s)
            && (|h.handled| == SentThisRound(c, s) ==>
                s.inFlight == {} && s.dropped == {}
                && Arrangement(h.handled, s.coordinator.round, SentThisRound(c, s)))
  {
    HandledAll(s.coordinator.round, SentThisRound(c, s), s.inFlight, s.dropped, s.subscriber.handler.value.handled);
  }

  /** When the coordinator releases the publisher, the round starts with nothing published. */
  lemma ReleaseStartsRound(c: Config, s: State)
    requires PublisherInStep(c, s) && SubscriberInStep(c, s) && MessagesInStep(c, s)
    requires s.coordinator.pc == WritePublisherGo && CoordinatorEnabled(s)
    ensures MessagesInStep(c, CoordinatorNext(c, s))
  {
    hide Config.Done, Config.Rounds, Config.Slots, Config.RoundOf;
    assert SentThisRound(c, CoordinatorNext(c, s)) == 0 && Published(s.coordinator.round, 0) == {};
  }

  /** When the coordinator closes the round, every message has been handled. */
  lemma CloseEndsRound(c: Config, s: State)
    requires PublisherInStep(c, s) && SubscriberInStep(c, s) && MessagesInStep(c, s)
    requires s.coordinator.pc == ReadSubscriberDone && CoordinatorEnabled(s)
    ensures MessagesInStep(c, CoordinatorNext(c, s))
  {
    RoundHandler(c, s);
    hide Config.Done, Config.Rounds, Config.Slots, Config.RoundOf, Accounted, Arrangement;
  }

  lemma CoordinatorKeepsMessages(c: Config, s: State)
    requires PublisherInStep(c, s) && SubscriberInStep(c, s) && MessagesInStep(c, s)
    requires PublisherSending(c, s.publisher) && CoordinatorEnabled(s)
    ensures MessagesInStep(c, CoordinatorNext(c, s))
  {
    match s.coordinator.pc {
      case WritePublisherGo => ReleaseStartsRound(c, s);
      case ReadSubscriberDone => CloseEndsRound(c, s);
      case _ =>
        hide Config.Done, Config.Rounds, Config.Slots, Config.RoundOf, HandlerInStep, PublisherFollows, SubscriberFollows,
             PublisherSending;
    }
  }

  lemma PublisherStaysPositioned(c: Config, s: State, startTime: nat)
    requires PublisherPositioned(c, s.publisher) && PublisherEnabled(c, s)
    ensures PublisherPositioned(c, PublisherNext(c, s, startTime).publisher)
  {
  }

  lemma PublisherStaysInStep(c: Config, s: State, startTime: nat)
    requires CoordinatorPositioned(c, s.coordinator) && PublisherPositioned(c, s.publisher)
    requires PublisherInStep(c, s) && PublisherEnabled(c, s)
    ensures PublisherInStep(c, PublisherNext(c, s, startTime))
  {
    hide Config.Done, Config.Rounds, Config.Slots, Config.RoundOf;
    LoopPosition(c, s.publisher.at);
  }

  lemma PublishKeepsMessages(c: Config, s: State, startTime: nat)
    requires PublisherInStep(c, s) && MessagesInStep(c, s) && PublisherEnabled(c, s)
    requires s.publisher.pc == PubPublish && s.publisher.sent < c.messageCount
    ensures MessagesInStep(c, PublisherNext(c, s, startTime))
  {
    hide Config.Done, Config.Rounds, Config.Slots, Config.RoundOf, ChannelInStep;
    PublishOne(s.coordinator.round, s.publisher.sent, s.inFlight, s.dropped, s.subscriber.handler.value.handled);
  }

  lemma SendingIsDone(c: Config, p: Publisher)
    requires PublisherSending(c, p) && p.pc == PubWriteDone
    ensures p.sent == c.messageCount
  {
  }

  lemma NoPublishKeepsCount(c: Config, s: State, startTime: nat)
    requires PublisherPositioned(c, s.publisher) && PublisherInStep(c, s) && PublisherEnabled(c, s) && Broadcasting(s)
    requires s.publisher.pc == PubWriteDone ==> s.publisher.sent == c.messageCount
    requires !(s.publisher.pc == PubPublish && s.publisher.sent < c.messageCount)
    requires c.Done(s.publisher.at) == s.coordinator.round + 1 ==> s.publisher.sent == c.messageCount
    ensures var t := PublisherNext(c, s, startTime);
            && SentThisRound(c, t) == SentThisRound(c, s)
            && (c.Done(t.publisher.at) == s.coordinator.round + 1 ==> t.publisher.sent == c.messageCount)
  {
    hide Config.Done, Config.Rounds, Config.Slots, Config.RoundOf;
    LoopPosition(c, s.publisher.at);
  }

  lemma NoPublishKeepsOthers(c: Config, s: State, startTime: nat)
    requires PublisherEnabled(c, s) && !(s.publisher.pc == PubPublish && s.publisher.sent < c.messageCount)
    ensures var t := PublisherNext(c, s, startTime);
            t.coordinator == s.coordinator && t.subscriber == s.subscriber && t.inFlight == s.inFlight && t.dropped == s.dropped
  {
  }

  lemma PublisherKeepsMessages(c: Config, s: State, startTime: nat)
    requires PublisherPositioned(c, s.publisher) && PublisherInStep(c, s) && PublisherSending(c, s.publisher)
    requires MessagesInStep(c, s) && PublisherEnabled(c, s)
    ensures MessagesInStep(c, PublisherNext(c, s, startTime))
  {
    hide PublisherNext, PublisherInStep, PublisherSending, HandlerInStep, SentThisRound, Config.Done;
    if s.publisher.pc == PubPublish && s.publisher.sent < c.messageCount {
      PublishKeepsMessages(c, s, startTime);
    } else {
      NoPublishKeepsOthers(c, s, startTime);
      if Broadcasting(s) {
        if s.publisher.pc == PubWriteDone {
          SendingIsDone(c, s.publisher);
        }
        NoPublishKeepsCount(c, s, startTime);
      }
    }
  }

  /** A published message extends the window of its round in publication order. */
  lemma PublishExtendsWindow(window: seq<Sample>, round: nat, n: nat, startTime: nat)
    requires InOrder(window, round, n)
    ensures InOrder(window + [Sample(Message(round, n), startTime)], round, n + 1)
  {
  }

  lemma PublisherKeepsWindow(c: Config, s: State, startTime: nat)
    requires WindowInStep(c, s.publisher) && PublisherEnabled(c, s)
    ensures WindowInStep(c, PublisherNext(c, s, startTime).publisher)
  {
    var p := s.publisher;
    if p.pc == PubPublish && c.Measured(p.at) {
      PublishExtendsWindow(p.window, c.Done(p.at), p.sent, startTime);
    } else if p.pc == PubReadGo {
      assert InOrder([], c.Done(p.at), 0);
    }
    hide Config.Done, Config.Rounds, Config.Slots, Config.RoundOf, Config.Measured, InOrder;
  }

  lemma PublisherKeepsSending(c: Config, s: State, startTime: nat)
    requires PublisherPositioned(c, s.publisher) && PublisherSending(c, s.publisher) && PublisherEnabled(c, s)
    ensures PublisherSending(c, PublisherNext(c, s, startTime).publisher)
  {
    PublisherKeepsWindow(c, s, startTime);
    hide Config.Done, Config.Rounds, Config.Slots, Config.RoundOf, WindowInStep, InBounds, InsideRound;
  }

  lemma PublisherKeepsResults(c: Config, s: State, startTime: nat)
    requires PublisherPositioned(c, s.publisher) && PublisherSending(c, s.publisher) && PublisherEnabled(c, s)
    requires ResultsUpTo(c, true, s.publisher.results, PublisherStored(c, s.publisher))
    ensures var p := PublisherNext(c, s, startTime).publisher;
            ResultsUpTo(c, true, p.results, PublisherStored(c, p))
  {
    var p, q := s.publisher, PublisherNext(c, s, startTime).publisher;
    LoopPosition(c, p.at);
    if p.pc == PubStop {
      StoreWindow(c, true, p.results, p.at, p.window);
    } else if q.pc == PubWriteDone {
      SkipWarmup(c, true, p.results, p.at);
    } else {
      assert PublisherStored(c, q) == PublisherStored(c, p);
    }
  }

  lemma PublisherKeepsSubscriber(c: Config, s: State, startTime: nat)
    requires PublisherEnabled(c, s)
    ensures var t := PublisherNext(c, s, startTime);
            && t.coordinator == s.coordinator && t.subscriber == s.subscriber
            && t.toSubscriber == s.toSubscriber && t.fromSubscriber == s.fromSubscriber
  {
  }

  lemma SubscriberKeepsPublisher(c: Config, s: State)
    requires SubscriberEnabled(s)
    ensures var t := SubscriberNext(c, s);
            && t.coordinator == s.coordinator && t.publisher == s.publisher
            && t.toPublisher == s.toPublisher && t.fromPublisher == s.fromPublisher
  {
  }

  lemma SubscriberStaysPositioned(c: Config, s: State)
    requires SubscriberPositioned(c, s.subscriber) && SubscriberEnabled(s)
    ensures SubscriberPositioned(c, SubscriberNext(c, s).subscriber)
  {
    hide Config.Done, Config.Rounds, Config.Slots, Config.RoundOf;
  }

  lemma SubscriberStaysInStep(c: Config, s: State)
    requires CoordinatorPositioned(c, s.coordinator) && SubscriberPositioned(c, s.subscriber)
    requires SubscriberInStep(c, s) && MessagesInStep(c, s) && SubscriberEnabled(s)
    ensures SubscriberInStep(c, SubscriberNext(c, s))
  {
    hide Config.Done, Config.Rounds, Config.Slots, Config.RoundOf;
    LoopPosition(c, s.subscriber.at);
  }

  /** While the coordinator waits for the subscriber's DONE, a subscriber step leaves the messages as they are. */
  lemma SubscriberKeepsRound(c: Config, s: State)
    requires SubscriberInStep(c, s) && MessagesInStep(c, s) && SubscriberEnabled(s) && Broadcasting(s)
    ensures MessagesInStep(c, SubscriberNext(c, s))
  {
    hide Config.Done, Config.Rounds, Config.Slots, Config.RoundOf, Accounted;
    assert SentThisRound(c, SubscriberNext(c, s)) == SentThisRound(c, s);
  }

  lemma SubscriberKeepsMessages(c: Config, s: State)
    requires CoordinatorPositioned(c, s.coordinator) && SubscriberPositioned(c, s.subscriber)
    requires SubscriberInStep(c, s) && MessagesInStep(c, s) && SubscriberEnabled(s)
    ensures MessagesInStep(c, SubscriberNext(c, s))
  {
    if Broadcasting(s) {
      SubscriberKeepsRound(c, s);
    } else {
      LoopPosition(c, s.subscriber.at);
      hide Config.Done, Config.Rounds, Config.Slots, Config.RoundOf, HandlerInStep;
    }
  }

  /** A subscriber past its wait has handled every message of its round. */
  lemma StoppedHandler(c: Config, s: State)
    requires SubscriberInStep(c, s) && MessagesInStep(c, s) && SentThisRound(c, s) <= c.messageCount
    requires s.subscriber.pc == SubStop || s.subscriber.pc == SubWriteDone
    ensures s.subscriber.handler.Some?
    ensures Arrangement(s.subscriber.handler.value.handled, c.Done(s.subscriber.at), c.messageCount)
  {
    assert Broadcasting(s) && c.Done(s.subscriber.at) == s.coordinator.round;
    RoundHandler(c, s);
  }

  lemma SubscriberKeepsResults(c: Config, s: State)
    requires SubscriberPositioned(c, s.subscriber) && SubscriberEnabled(s)
    requires s.subscriber.pc == SubStop ==>
               && s.subscriber.handler.Some?
               && Arrangement(s.subscriber.handler.value.handled, c.Done(s.subscriber.at), c.messageCount)
    requires ResultsUpTo(c, false, s.subscriber.results, SubscriberStored(c, s.subscriber))
    ensures var b := SubscriberNext(c, s).subscriber;
            ResultsUpTo(c, false, b.results, SubscriberStored(c, b))
  {
    var b, q := s.subscriber, SubscriberNext(c, s).subscriber;
    LoopPosition(c, b.at);
    if b.pc == SubStop {
      StoreWindow(c, false, b.results, b.at, b.handler.value.handled);
    } else if q.pc == SubWriteDone {
      SkipWarmup(c, false, b.results, b.at);
    } else {
      assert SubscriberStored(c, q) == SubscriberStored(c, b);
    }
  }

  lemma FailKeeps(c: Config, s: State, process: Process)
    requires Inv(c, s) && ActionEnabled(c, s, Fail(process))
    ensures Inv(c, Apply(c, s, Fail(process)))
  {
    hide Config.Done, Config.Rounds, Config.Slots, Config.RoundOf;
    var t := Apply(c, s, Fail(process));
    assert t.coordinator.(failed := s.coordinator.failed) == s.coordinator;
    assert SentThisRound(c, t) == SentThisRound(c, s);
    assert MessagesInStep(c, t);
  }

  lemma ConsumeKeepsHandler(c: Config, round: nat, sent: nat, pc: SubscriberPC, h: Handler,
                            inFlight: set<Message>, dropped: set<Message>, m: Message, endTime: nat)
    requires HandlerInStep(c.messageCount, round, sent, pc, h, inFlight, dropped)
    requires m in inFlight && sent <= c.messageCount
    requires h.channel == [] || |h.handled| + 1 != c.messageCount
    ensures HandlerInStep(c.messageCount, round, sent, pc, Receive(c, h, m, endTime), inFlight - {m}, dropped)
  {
    HandledAll(round, sent, inFlight, dropped, h.handled);
    HandleOne(round, sent, inFlight, dropped, h.handled, Sample(m, endTime));
    hide Accounted, Arrangement;
  }

  lemma RejectKeepsHandler(c: Config, round: nat, sent: nat, pc: SubscriberPC, h: Handler,
                           inFlight: set<Message>, dropped: set<Message>, m: Message)
    requires HandlerInStep(c.messageCount, round, sent, pc, h, inFlight, dropped)
    requires m in inFlight && sent <= c.messageCount && h.channel == []
    ensures HandlerInStep(c.messageCount, round, sent, pc, h.(channel := [ConsumeError]), inFlight - {m}, dropped + {m})
  {
    HandledAll(round, sent, inFlight, dropped, h.handled);
    hide Arrangement, Published;
  }

  /** Whatever the broker does, the processes stay where they are: only the messages need a proof. */
  lemma BrokerKeeps(c: Config, s: State, t: State)
    requires Inv(c, s) && MessagesInStep(c, t)
    requires t == s.(inFlight := t.inFlight, dropped := t.dropped, subscriber := t.subscriber)
    requires t.subscriber == s.subscriber.(handler := t.subscriber.handler)
    ensures Inv(c, t)
  {
    hide Config.Done, Config.Rounds, Config.Slots, Config.RoundOf, Config.Measured, MessagesInStep, PublisherSending,
         PublisherPositioned, CoordinatorPositioned, ResultsUpTo, PublisherFollows, SubscriberFollows, InBounds,
         InsideRound;
  }

  lemma DeliverKeepsMessages(c: Config, s: State, m: Message, endTime: nat, consumed: bool)
    requires MessagesInStep(c, s) && s.publisher.sent <= c.messageCount && DeliverEnabled(c, s, m, consumed)
    ensures MessagesInStep(c, DeliverNext(c, s, m, endTime, consumed))
  {
    var t := DeliverNext(c, s, m, endTime, consumed);
    var k, sent, h := s.coordinator.round, SentThisRound(c, s), s.subscriber.handler.value;
    assert Broadcasting(s) && Broadcasting(t) && SentThisRound(c, t) == sent <= c.messageCount;
    if consumed {
      ConsumeKeepsHandler(c, k, sent, s.subscriber.pc, h, s.inFlight, s.dropped, m, endTime);
    } else {
      RejectKeepsHandler(c, k, sent, s.subscriber.pc, h, s.inFlight, s.dropped, m);
      assert h.channel + [ConsumeError] == [ConsumeError];
    }
    hide Config.Done, Config.Rounds, Config.Slots, Config.RoundOf, HandlerInStep, Receive, SentThisRound;
  }

  lemma DeliverKeeps(c: Config, s: State, m: Message, endTime: nat, consumed: bool)
    requires Inv(c, s) && DeliverEnabled(c, s, m, consumed)
    ensures Inv(c, DeliverNext(c, s, m, endTime, consumed))
  {
    DeliverKeepsMessages(c, s, m, endTime, consumed);
    BrokerKeeps(c, s, DeliverNext(c, s, m, endTime, consumed));
    hide Inv, MessagesInStep;
  }

  lemma LoseKeepsHandler(messageCount: nat, round: nat, sent: nat, pc: SubscriberPC, h: Handler,
                         inFlight: set<Message>, dropped: set<Message>, m: Message)
    requires HandlerInStep(messageCount, round, sent, pc, h, inFlight, dropped) && m in inFlight
    ensures HandlerInStep(messageCount, round, sent, pc, h, inFlight - {m}, dropped + {m})
  {
  }

  lemma LoseKeeps(c: Config, s: State, m: Message)
    requires Inv(c, s) && m in s.inFlight
    ensures Inv(c, Apply(c, s, Lose(m)))
  {
    var t := Apply(c, s, Lose(m));
    assert Broadcasting(s) && Broadcasting(t) && SentThisRound(c, t) == SentThisRound(c, s);
    LoseKeepsHandler(c.messageCount, s.coordinator.round, SentThisRound(c, s), s.subscriber.pc,
                     s.subscriber.handler.value, s.inFlight, s.dropped, m);
    assert MessagesInStep(c, t) by {
      hide Config.Done, HandlerInStep, SentThisRound;
    }
    BrokerKeeps(c, s, t);
    hide Inv, MessagesInStep;
  }

  lemma TokenKeeps(c: Config, s: State, i: nat)
    requires Inv(c, s) && ActionEnabled(c, s, CompleteToken(i))
    ensures Inv(c, Apply(c, s, CompleteToken(i)))
  {
    hide Config.Done, Config.Rounds, Config.Slots, Config.RoundOf;
  }

  lemma CoordinatorKeeps(c: Config, s: State)
    requires Inv(c, s) && CoordinatorEnabled(s)
    ensures Inv(c, CoordinatorNext(c, s))
  {
    hide Config.Done, Config.Rounds, Config.Slots, Config.RoundOf;
    CoordinatorStaysPositioned(c, s);
    CoordinatorStaysInStep(c, s);
    CoordinatorKeepsMessages(c, s);
  }

  lemma PublisherKeeps(c: Config, s: State, startTime: nat)
    requires Inv(c, s) && PublisherEnabled(c, s)
    ensures Inv(c, PublisherNext(c, s, startTime))
  {
    PublisherStaysPositioned(c, s, startTime);
    PublisherStaysInStep(c, s, startTime);
    PublisherKeepsMessages(c, s, startTime);
    PublisherKeepsSending(c, s, startTime);
    PublisherKeepsResults(c, s, startTime);
    PublisherKeepsSubscriber(c, s, startTime);
  }

  lemma SubscriberKeeps(c: Config, s: State)
    requires Inv(c, s) && SubscriberEnabled(s)
    ensures Inv(c, SubscriberNext(c, s))
  {
    SubscriberStaysPositioned(c, s);
    SubscriberStaysInStep(c, s);
    SubscriberKeepsMessages(c, s);
    if s.subscriber.pc == SubStop {
      StoppedHandler(c, s);
    }
    SubscriberKeepsResults(c, s);
    SubscriberKeepsPublisher(c, s);
  }

  lemma ActionKeeps(c: Config, s: State, a: Action)
    requires Inv(c, s) && ActionEnabled(c, s, a)
    ensures Inv(c, Apply(c, s, a))
  {
    match a
    case CoordinatorStep => CoordinatorKeeps(c, s);
    case PublisherStep(startTime) => PublisherKeeps(c, s, startTime);
    case SubscriberStep => SubscriberKeeps(c, s);
    case Fail(process) => FailKeeps(c, s, process);
    case Deliver(m, endTime, consumed) => DeliverKeeps(c, s, m, endTime, consumed);
    case Lose(m) => LoseKeeps(c, s, m);
    case CompleteToken(i) => TokenKeeps(c, s, i);
  }

  /** The invariant holds in every reachable state. */
  lemma {:induction false} Invariant(c: Config, run: seq<Action>, s: State)
    requires Execute(c, run) == Some(s)
    ensures Inv(c, s)
  {
    if run == [] {
      InitialHolds(c);
    } else {
      var t := Execute(c, run[..|run| - 1]).value;
      Invariant(c, run[..|run| - 1], t);
      ActionKeeps(c, t, run[|run| - 1]);
    }
  }
}
