/** What the invariant means for every run of the protocol, under every interleaving and with
    failures, lost messages and reordered deliveries allowed. */
module ProtocolSafety {
  import opened Wrappers
  import opened RoundArithmetic
  import opened Protocol
  import opened ProtocolInvariant

  /** A line waiting for a reader is the line that reader expects. */
  predicate Expected(pipe: seq<Signal>, signal: Signal) {
    pipe != [] ==> pipe[0] == signal
  }

  /** Every ReadSignal that consumes a line gets the signal it expects, no pipe ever holds two
      unread signals, and the coordinator is never behind an endpoint by more than one round or
      ahead of it. */
  lemma SignalsMatch(c: Config, run: seq<Action>, s: State)
    requires Execute(c, run) == Some(s)
    ensures s.coordinator.pc == ReadReady ==> Expected(s.fromSubscriber, Ready)
    ensures s.coordinator.pc == ReadPublisherDone ==> Expected(s.fromPublisher, Done)
    ensures s.coordinator.pc == ReadSubscriberDone ==> Expected(s.fromSubscriber, Done)
    ensures s.publisher.pc == PubReadGo ==> Expected(s.toPublisher, Go)
    ensures s.publisher.pc == PubReadFinish ==> Expected(s.toPublisher, Finish)
    ensures s.subscriber.pc == SubReadGo ==> Expected(s.toSubscriber, Go)
    ensures s.subscriber.pc == SubReadFinish ==> Expected(s.toSubscriber, Finish)
    ensures |s.toPublisher| <= 1 && |s.fromPublisher| <= 1 && |s.toSubscriber| <= 1 && |s.fromSubscriber| <= 1
    ensures s.coordinator.round <= c.Done(s.publisher.at) <= s.coordinator.round + 1
    ensures s.coordinator.round <= c.Done(s.subscriber.at) <= s.coordinator.round + 1
  {
    Invariant(c, run, s);
    LoopPosition(c, s.publisher.at);
    LoopPosition(c, s.subscriber.at);
  }

  /** The publisher never fails of its own accord: no signal mismatch, no result index out of range. */
  lemma PublisherNeverFails(c: Config, run: seq<Action>, s: State, startTime: nat)
    requires Execute(c, run) == Some(s) && PublisherEnabled(c, s)
    ensures !PublisherNext(c, s, startTime).publisher.failed
  {
    SignalsMatch(c, run, s);
    Invariant(c, run, s);
    if s.publisher.pc == PubStop {
      SlotOfRun(c, s.publisher.at);
    }
  }

  /** The subscriber fails only on a message its callback could not consume. */
  lemma SubscriberFailsOnlyOnMessage(c: Config, run: seq<Action>, s: State)
    requires Execute(c, run) == Some(s) && SubscriberEnabled(s)
    ensures SubscriberNext(c, s).subscriber.failed <==>
              s.subscriber.pc == SubWait && s.subscriber.handler.value.channel == [ConsumeError]
  {
    SignalsMatch(c, run, s);
    Invariant(c, run, s);
    if s.subscriber.pc == SubStop {
      SlotOfRun(c, s.subscriber.at);
    }
  }

  /** The coordinator fails only when a child it waits for has failed. */
  lemma CoordinatorFailsOnlyForChild(c: Config, run: seq<Action>, s: State)
    requires Execute(c, run) == Some(s) && CoordinatorEnabled(s)
    ensures CoordinatorNext(c, s).coordinator.failed <==>
              || (s.coordinator.pc == WaitPublisher && s.publisher.failed)
              || (s.coordinator.pc == WaitSubscriber && s.subscriber.failed)
  {
    SignalsMatch(c, run, s);
  }

  /** Whoever reads a line fails exactly when it is not the one he waits for, in any state. */
  lemma ReadsAreChecked(c: Config, s: State, startTime: nat)
    ensures s.coordinator.pc == ReadReady && CoordinatorEnabled(s) ==>
              (CoordinatorNext(c, s).coordinator.failed <==> s.fromSubscriber[0] != Ready)
    ensures s.coordinator.pc == ReadPublisherDone && CoordinatorEnabled(s) ==>
              (CoordinatorNext(c, s).coordinator.failed <==> s.fromPublisher[0] != Done)
    ensures s.coordinator.pc == ReadSubscriberDone && CoordinatorEnabled(s) ==>
              (CoordinatorNext(c, s).coordinator.failed <==> s.fromSubscriber[0] != Done)
    ensures s.publisher.pc == PubReadGo && PublisherEnabled(c, s) ==>
              (PublisherNext(c, s, startTime).publisher.failed <==> s.toPublisher[0] != Go)
    ensures s.publisher.pc == PubReadFinish && PublisherEnabled(c, s) ==>
              (PublisherNext(c, s, startTime).publisher.failed <==> s.toPublisher[0] != Finish)
    ensures s.subscriber.pc == SubReadGo && SubscriberEnabled(s) ==>
              (SubscriberNext(c, s).subscriber.failed <==> s.toSubscriber[0] != Go)
    ensures s.subscriber.pc == SubReadFinish && SubscriberEnabled(s) ==>
              (SubscriberNext(c, s).subscriber.failed <==> s.toSubscriber[0] != Finish)
  {
    hide Config.Done, Config.Slot, Config.Measured;
  }

  /** A child that failed is noticed at the wait for it, whatever it was doing. */
  lemma FailedChildIsNoticed(c: Config, s: State)
    requires !s.coordinator.failed
    ensures s.coordinator.pc == WaitPublisher && s.publisher.failed ==>
              CoordinatorEnabled(s) && CoordinatorNext(c, s).coordinator.failed
    ensures s.coordinator.pc == WaitSubscriber && s.subscriber.failed ==>
              CoordinatorEnabled(s) && CoordinatorNext(c, s).coordinator.failed
  {
  }

  /** Nothing outside the processes is promised: whoever works can fail at every step, every message in flight can be
      lost, and every open token can complete. */
  lemma AnythingCanFail(c: Config, s: State, m: Message, token: nat)
    ensures !s.coordinator.failed && s.coordinator.pc != CoordinatorReturned ==>
              ActionEnabled(c, s, Fail(CoordinatorProcess))
              && Apply(c, s, Fail(CoordinatorProcess)).coordinator == s.coordinator.(failed := true)
    ensures !s.publisher.failed && s.publisher.pc != PubReturned ==>
              ActionEnabled(c, s, Fail(PublisherProcess))
              && Apply(c, s, Fail(PublisherProcess)).publisher == s.publisher.(failed := true, counter := Absent)
    ensures !s.subscriber.failed && s.subscriber.pc != SubReturned ==>
              ActionEnabled(c, s, Fail(SubscriberProcess))
              && Apply(c, s, Fail(SubscriberProcess)).subscriber == s.subscriber.(failed := true, counter := Absent)
    ensures m in s.inFlight ==> ActionEnabled(c, s, Lose(m)) && m !in Apply(c, s, Lose(m)).inFlight
    ensures token < s.publisher.sent && token !in s.publisher.tokens ==>
              ActionEnabled(c, s, CompleteToken(token))
              && Apply(c, s, CompleteToken(token)).publisher.tokens == s.publisher.tokens + {token}
  {
  }

  /** A message in flight always has a callback to go to, whose channel holds one outcome at most; the delivery waits
      exactly when it would send while an outcome is unread. */
  lemma DeliveryWaitsExactlyWhen(c: Config, run: seq<Action>, s: State, m: Message)
    requires Execute(c, run) == Some(s) && m in s.inFlight && !s.subscriber.failed
    ensures s.subscriber.handler.Some?
    ensures var h := s.subscriber.handler.value;
            && |h.channel| <= 1
            && (DeliverEnabled(c, s, m, true) <==> h.channel == [] || |h.handled| + 1 < c.messageCount)
            && (DeliverEnabled(c, s, m, false) <==> h.channel == [])
  {
    Invariant(c, run, s);
    RoundHandler(c, s);
    assert m in Published(s.coordinator.round, SentThisRound(c, s));
    if s.subscriber.handler.value.channel == [] {
      RoundIsolation(c, run, s, m, true);
    }
  }

  /** A failed endpoint has released its counter, and a disconnected subscriber has no callback. */
  predicate Released(s: State) {
    && (s.publisher.failed ==> s.publisher.counter == Absent)
    && (s.subscriber.failed ==> s.subscriber.counter == Absent)
    && (s.subscriber.pc == SubWriteResults || s.subscriber.pc == SubReturned ==> s.subscriber.handler == None)
  }

  lemma ReleasedKept(c: Config, s: State, a: Action)
    requires Released(s) && ActionEnabled(c, s, a)
    ensures Released(Apply(c, s, a))
  {
    hide Config.Done, Config.Slot, Config.Measured, Receive;
    match a
    case PublisherStep(startTime) => PublisherKeepsSubscriber(c, s, startTime);
    case SubscriberStep => SubscriberKeepsPublisher(c, s);
    case _ =>
  }

  lemma {:induction false} FailedIsReleased(c: Config, run: seq<Action>, s: State)
    requires Execute(c, run) == Some(s)
    ensures Released(s)
  {
    if run != [] {
      var before := run[..|run| - 1];
      var t := Execute(c, before).value;
      FailedIsReleased(c, before, t);
      ReleasedKept(c, t, run[|run| - 1]);
      hide Released, Apply, ActionEnabled;
    }
  }

  predicate NothingRecorded(c: Config, p: Publisher) {
    PublisherPhase(p.pc) == Working && !c.Measured(p.at) ==> p.window == []
  }

  lemma NothingRecordedKept(c: Config, s: State, a: Action)
    requires NothingRecorded(c, s.publisher) && ActionEnabled(c, s, a)
    ensures NothingRecorded(c, Apply(c, s, a).publisher)
  {
    hide Config.Done, Config.Slot, Config.Measured, Receive;
    match a
    case SubscriberStep => SubscriberKeepsPublisher(c, s);
    case _ =>
  }

  /** A warm-up run leaves no sample. */
  lemma {:induction false} WarmUpRecordsNothing(c: Config, run: seq<Action>, s: State)
    requires Execute(c, run) == Some(s)
    ensures PublisherPhase(s.publisher.pc) == Working && !c.Measured(s.publisher.at) ==> s.publisher.window == []
  {
    if run != [] {
      var before := run[..|run| - 1];
      var t := Execute(c, before).value;
      WarmUpRecordsNothing(c, before, t);
      NothingRecordedKept(c, t, run[|run| - 1]);
      hide Apply, ActionEnabled, Config.Measured;
    }
  }

  /** Round isolation: a delivery reaches the callback of the round that published the message, for the
      first time, with room left for it in that round's measurements. */
  lemma RoundIsolation(c: Config, run: seq<Action>, s: State, m: Message, consumed: bool)
    requires Execute(c, run) == Some(s) && DeliverEnabled(c, s, m, consumed)
    ensures var h := s.subscriber.handler.value;
            && h.round == m.round == s.coordinator.round
            && m !in Ids(h.handled)
            && |h.handled| < c.messageCount
            && m.index < s.publisher.sent
  {
    Invariant(c, run, s);
    RoundHandler(c, s);
    assert m in Published(s.coordinator.round, SentThisRound(c, s));
  }

  /** The callback sends completion once it has handled the whole round, and then exactly once. */
  lemma CompletionOnce(c: Config, run: seq<Action>, s: State)
    requires Execute(c, run) == Some(s) && Broadcasting(s)
    ensures s.subscriber.handler.Some?
    ensures var h := s.subscriber.handler.value;
            && h.completions <= 1
            && (h.completions == 1 <==> c.messageCount > 0 && Arrangement(h.handled, s.coordinator.round, c.messageCount))
  {
    Invariant(c, run, s);
    RoundHandler(c, s);
  }

  /** Nothing leaves the dropped set. */
  lemma DroppedGrows(c: Config, s: State, a: Action)
    requires ActionEnabled(c, s, a)
    ensures s.dropped <= Apply(c, s, a).dropped
  {
  }

  /** A round that lost a message never reaches the subscriber's DONE, and no later round starts. */
  lemma LossStopsRound(c: Config, run: seq<Action>, s: State, m: Message)
    requires Execute(c, run) == Some(s) && m in s.dropped
    ensures c.Done(s.subscriber.at) == m.round == s.coordinator.round
    ensures s.subscriber.pc == SubWait
    ensures s.subscriber.handler.Some? && s.subscriber.handler.value.completions == 0
  {
    Invariant(c, run, s);
    RoundHandler(c, s);
    assert m in Published(s.coordinator.round, SentThisRound(c, s));
  }

  lemma {:induction false} DroppedStays(c: Config, run: seq<Action>, whole: seq<Action>, s: State, t: State, m: Message)
    requires run <= whole && Execute(c, run) == Some(s) && Execute(c, whole) == Some(t) && m in s.dropped
    ensures m in t.dropped
    decreases |whole| - |run|
  {
    if |run| < |whole| {
      var before := whole[..|whole| - 1];
      var u := Execute(c, before).value;
      DroppedStays(c, run, before, s, u, m);
      DroppedGrows(c, u, whole[|whole| - 1]);
    } else {
      assert run == whole;
    }
  }

  /** A loss is final: however the run goes on, the subscriber stays in the wait of the round that lost the
      message, the coordinator stays in that round, and neither returns. */
  lemma LossIsFinal(c: Config, run: seq<Action>, whole: seq<Action>, s: State, t: State, m: Message)
    requires run <= whole && Execute(c, run) == Some(s) && Execute(c, whole) == Some(t) && m in s.dropped
    ensures t.subscriber.pc == SubWait && c.Done(t.subscriber.at) == m.round
    ensures t.coordinator.round == m.round && t.coordinator.pc in {ReadPublisherDone, ReadSubscriberDone}
  {
    DroppedStays(c, run, whole, s, t, m);
    LossStopsRound(c, whole, t, m);
    Invariant(c, whole, t);
  }

  /** Both endpoints agree on the payload and run they are working on, hence on whether it is warm-up. */
  lemma SameRun(c: Config, s: State)
    requires Inv(c, s) && PublisherPhase(s.publisher.pc) == Working && SubscriberPhase(s.subscriber.pc) == Working
    ensures s.publisher.at == s.subscriber.at
  {
    var p, b := s.publisher.at, s.subscriber.at;
    DivModUnique(c.PerPayload(), p.payload, p.run, b.payload, b.run);
  }

  /** While messages of the round are still to be published, the subscriber waits for them. */
  lemma PublishMeetsWaiting(c: Config, s: State)
    requires Inv(c, s) && s.publisher.pc == PubPublish && s.publisher.sent < c.messageCount
    ensures s.subscriber.pc == SubWait && s.subscriber.handler.Some?
    ensures s.subscriber.handler.value.round == s.coordinator.round == c.Done(s.publisher.at)
  {
    assert PublisherFollows(s.coordinator.pc, s.coordinator.round, c.Done(s.publisher.at), PubPublish, s.toPublisher,
                            s.fromPublisher);
    assert Broadcasting(s) && SentThisRound(c, s) == s.publisher.sent;
    RoundHandler(c, s);
    hide Config.Done, Config.Rounds, Config.Slots, Config.RoundOf, ResultsUpTo, PublisherSending, PublisherFollows,
         PublisherPositioned, SubscriberPositioned, Accounted, Arrangement, CoordinatorPositioned;
  }

  /** Every publish of a measured round happens while both counters run and the live subscriber is
      waiting with that round's callback installed. */
  lemma PublishInsideMeasurement(c: Config, run: seq<Action>, s: State)
    requires Execute(c, run) == Some(s) && !s.publisher.failed
    requires s.publisher.pc == PubPublish && s.publisher.sent < c.messageCount
    ensures c.Measured(s.publisher.at) ==> s.publisher.counter == Enabled
    ensures s.subscriber.pc == SubWait && s.subscriber.at == s.publisher.at
    ensures s.subscriber.handler.Some? && s.subscriber.handler.value.round == c.Done(s.publisher.at)
    ensures c.Measured(s.publisher.at) && !s.subscriber.failed ==> s.subscriber.counter == Enabled
  {
    Invariant(c, run, s);
    PublishMeetsWaiting(c, s);
    SameRun(c, s);
    hide Config.Done, Config.Rounds, Config.Slots, Config.RoundOf, Config.Measured, ResultsUpTo, PublisherSending,
         PublisherFollows, SubscriberFollows, MessagesInStep, CoordinatorPositioned, InBounds, InsideRound;
  }

  /** So does every delivery; and a counter stops only when there is nothing left to measure: the
      publisher's after every token has completed, the subscriber's after every message was handled. */
  lemma DeliverInsideMeasurement(c: Config, run: seq<Action>, s: State, m: Message, consumed: bool)
    requires Execute(c, run) == Some(s) && DeliverEnabled(c, s, m, consumed)
    ensures s.subscriber.pc == SubWait
    ensures c.Measured(s.subscriber.at) ==> s.subscriber.counter == Enabled
  {
    Invariant(c, run, s);
    RoundHandler(c, s);
  }

  lemma CountersStopLast(c: Config, run: seq<Action>, s: State)
    requires Execute(c, run) == Some(s)
    ensures s.publisher.pc == PubStop ==>
              s.publisher.sent == c.messageCount && forall i :: 0 <= i < c.messageCount ==> i in s.publisher.tokens
    ensures s.subscriber.pc == SubStop ==>
              && s.inFlight == {}
              && s.publisher.sent == c.messageCount
              && s.subscriber.handler.Some?
              && Arrangement(s.subscriber.handler.value.handled, s.coordinator.round, c.messageCount)
  {
    Invariant(c, run, s);
    if s.subscriber.pc == SubStop {
      RoundHandler(c, s);
      StoppedHandler(c, s);
    }
  }

  /** Both endpoints hold the whole round of a slot: in publication order and in some order. */
  ghost predicate SlotWhole(c: Config, s: State, slot: nat) {
    && slot < |s.publisher.results| && slot < |s.subscriber.results| && c.runs > 0
    && InOrder(s.publisher.results[slot], c.RoundOf(slot), c.messageCount)
    && Arrangement(s.subscriber.results[slot], c.RoundOf(slot), c.messageCount)
  }

  /** Both endpoints hold every round they are to report. */
  ghost predicate Complete(c: Config, s: State) {
    && |s.publisher.results| == |s.subscriber.results| == c.Slots()
    && forall slot :: 0 <= slot < c.Slots() ==> SlotWhole(c, s, slot)
  }

  lemma ResultsAreWhole(c: Config, ordered: bool, results: seq<seq<Sample>>, slot: nat)
    requires ResultsUpTo(c, ordered, results, c.Rounds()) && slot < c.Slots()
    ensures |results| == c.Slots() && c.runs > 0 && Whole(ordered, results[slot], c.RoundOf(slot), c.messageCount)
  {
    RunOfSlot(c, slot);
    hide Config.RoundOf, Config.Rounds, Config.Slots;
  }

  /** Where an endpoint is that closes: the coordinator has run every round, and both have stored every round. */
  lemma ClosingMeansAllRounds(c: Config, s: State)
    requires Inv(c, s) && (PublisherPhase(s.publisher.pc) == Closing || SubscriberPhase(s.subscriber.pc) == Closing)
    ensures s.coordinator.round == c.Rounds() && s.dropped == {} && s.inFlight == {}
    ensures PublisherStored(c, s.publisher) == SubscriberStored(c, s.subscriber) == c.Rounds()
  {
    LoopPosition(c, s.publisher.at);
    LoopPosition(c, s.subscriber.at);
    hide Config.RoundOf, Config.Rounds, Config.Slots, Config.Done, ResultsUpTo, HandlerInStep;
  }

  /** An endpoint closes only after FINISH, when the coordinator has run every round; then nothing was
      dropped and every slot holds the whole round it belongs to, in publication order for the publisher
      and in some order for the subscriber. */
  lemma ClosedEndpointIsComplete(c: Config, run: seq<Action>, s: State)
    requires Execute(c, run) == Some(s)
    requires PublisherPhase(s.publisher.pc) == Closing || SubscriberPhase(s.subscriber.pc) == Closing
    ensures s.coordinator.round == c.Rounds() && s.dropped == {} && s.inFlight == {} && Complete(c, s)
  {
    Invariant(c, run, s);
    ClosingMeansAllRounds(c, s);
    hide Config.RoundOf, Config.Rounds, Config.Slots, ResultsUpTo;
    forall slot | 0 <= slot < c.Slots()
      ensures SlotWhole(c, s, slot)
    {
      ResultsAreWhole(c, true, s.publisher.results, slot);
      ResultsAreWhole(c, false, s.subscriber.results, slot);
    }
  }

  /** A coordinator that returns without an error has seen both children write their results and return. */
  lemma CoordinatorReturnsLast(c: Config, run: seq<Action>, s: State)
    requires Execute(c, run) == Some(s) && s.coordinator.pc == CoordinatorReturned
    ensures s.publisher.pc == PubReturned && s.subscriber.pc == SubReturned
    ensures s.toPublisher == s.fromPublisher == s.toSubscriber == s.fromSubscriber == []
  {
    Invariant(c, run, s);
  }
}
