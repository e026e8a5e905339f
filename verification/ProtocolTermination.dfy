/** Runs in which nothing fails and no message is lost: they are bounded in length, never get stuck,
    and end with both endpoints' complete results, exactly when there is at least one message per
    round or no round at all. */
module ProtocolTermination {
  import opened Wrappers
  import opened RoundArithmetic
  import opened Protocol
  import opened ProtocolInvariant
  import opened ProtocolSafety

  predicate Productive(a: Action) {
    !a.Fail? && !a.Lose? && (a.Deliver? ==> a.consumed)
  }

  predicate ProductiveRun(run: seq<Action>) {
    forall i :: 0 <= i < |run| ==> Productive(run[i])
  }

  predicate Healthy(s: State) {
    !s.coordinator.failed && !s.publisher.failed && !s.subscriber.failed && s.dropped == {}
  }

  predicate Finished(s: State) {
    s.coordinator.pc == CoordinatorReturned && s.publisher.pc == PubReturned && s.subscriber.pc == SubReturned
  }

  lemma PublisherStaysHealthy(c: Config, s: State, startTime: nat)
    requires Inv(c, s) && Healthy(s) && PublisherEnabled(c, s)
    ensures Healthy(PublisherNext(c, s, startTime))
  {
    LoopPosition(c, s.publisher.at);
    if s.publisher.pc == PubStop {
      SlotOfRun(c, s.publisher.at);
    }
    PublisherKeepsSubscriber(c, s, startTime);
  }

  lemma SubscriberStaysHealthy(c: Config, s: State)
    requires Inv(c, s) && Healthy(s) && SubscriberEnabled(s)
    ensures Healthy(SubscriberNext(c, s))
  {
    LoopPosition(c, s.subscriber.at);
    if s.subscriber.pc == SubStop {
      SlotOfRun(c, s.subscriber.at);
    }
    SubscriberKeepsPublisher(c, s);
  }

  lemma ProductiveStaysHealthy(c: Config, s: State, a: Action)
    requires Inv(c, s) && Healthy(s) && ActionEnabled(c, s, a) && Productive(a)
    ensures Healthy(Apply(c, s, a))
  {
    match a
    case PublisherStep(startTime) => PublisherStaysHealthy(c, s, startTime);
    case SubscriberStep => SubscriberStaysHealthy(c, s);
    case _ =>
  }

  lemma {:induction false} ProductiveRunIsHealthy(c: Config, run: seq<Action>, s: State)
    requires Execute(c, run) == Some(s) && ProductiveRun(run)
    ensures Healthy(s)
  {
    if run != [] {
      var before := run[..|run| - 1];
      var t := Execute(c, before).value;
      ProductiveRunIsHealthy(c, before, t);
      Invariant(c, before, t);
      ProductiveStaysHealthy(c, t, run[|run| - 1]);
    }
  }

  // ---- every run is bounded ----------------------------------------------------------------

  /** The work of `n` rounds of `w` actions each. */
  function Work(w: nat, n: nat): nat {
    if n == 0 then 0 else w + Work(w, n - 1)
  }

  lemma {:induction false} WorkIsProduct(w: nat, n: nat)
    ensures Work(w, n) == w * n
  {
    if n > 0 {
      WorkIsProduct(w, n - 1);
      assert w * n == w * (n - 1) + w;
    }
  }

  function RoundsLeft(c: Config, done: nat): nat {
    if done <= c.Rounds() then c.Rounds() - done else 0
  }

  function PayloadsLeft(c: Config, at: Cursor): nat {
    if at.payload <= |c.payloadSizes| then |c.payloadSizes| - at.payload else 0
  }

  function CoordinatorRank(c: Config, o: Coordinator): nat {
    Work(6, RoundsLeft(c, o.round)) +
    match o.pc
    case RoundHead => 5
    case WriteSubscriberGo => 4
    case ReadReady => 3
    case WritePublisherGo => 2
    case ReadPublisherDone => 1
    case ReadSubscriberDone => 0
    case WritePublisherFinish => 4
    case WriteSubscriberFinish => 3
    case WaitPublisher => 2
    case WaitSubscriber => 1
    case CoordinatorReturned => 0
  }

  /** Actions the publisher and its messages still need inside the current round. */
  function PublisherRoundRank(m: nat, p: Publisher): nat
    requires p.sent <= m && p.awaited <= m
  {
    match p.pc
    case PubConnect => 4 * m + 8
    case PubHead => 4 * m + 7
    case PubReadGo => 4 * m + 6
    case PubNewCounter => 4 * m + 5
    case PubEnable => 4 * m + 4
    case PubPublish => 3 * (m - p.sent) + m + 3
    case PubAwait => m - p.awaited + 2
    case PubStop => 1
    case PubWriteDone => 0
    case PubReadFinish => 3
    case PubDisconnect => 2
    case PubWriteResults => 1
    case PubReturned => 0
  }

  function PublisherRank(c: Config, p: Publisher): nat
    requires PublisherSending(c, p)
  {
    Work(4 * c.messageCount + 8, RoundsLeft(c, c.Done(p.at))) + PayloadsLeft(c, p.at)
    + PublisherRoundRank(c.messageCount, p)
  }

  function SubscriberRoundRank(pc: SubscriberPC): nat {
    match pc
    case SubConnect => 9
    case SubHead => 8
    case SubReadGo => 7
    case SubNewCounter => 6
    case SubSubscribe => 5
    case SubEnable => 4
    case SubWriteReady => 3
    case SubWait => 2
    case SubStop => 1
    case SubWriteDone => 0
    case SubReadFinish => 3
    case SubDisconnect => 2
    case SubWriteResults => 1
    case SubReturned => 0
  }

  function SubscriberRank(c: Config, b: Subscriber): nat {
    Work(9, RoundsLeft(c, c.Done(b.at))) + PayloadsLeft(c, b.at) + SubscriberRoundRank(b.pc)
  }

  /** Publish tokens of the current round that have not completed. */
  function Pending(sent: nat, tokens: set<nat>): set<nat> {
    set i | 0 <= i < sent && i !in tokens
  }

  /** The work left: an upper bound on the number of productive actions still to come. */
  function Rank(c: Config, s: State): nat
    requires PublisherSending(c, s.publisher)
  {
    CoordinatorRank(c, s.coordinator) + PublisherRank(c, s.publisher) + SubscriberRank(c, s.subscriber)
    + |s.inFlight| + |Pending(s.publisher.sent, s.publisher.tokens)|
  }

  lemma CoordinatorDescends(c: Config, s: State)
    requires CoordinatorPositioned(c, s.coordinator) && CoordinatorEnabled(s)
    requires !CoordinatorNext(c, s).coordinator.failed
    ensures CoordinatorRank(c, CoordinatorNext(c, s).coordinator) < CoordinatorRank(c, s.coordinator)
  {
  }

  lemma CoordinatorKeepsOthers(c: Config, s: State)
    requires CoordinatorEnabled(s)
    ensures var t := CoordinatorNext(c, s);
            t.publisher == s.publisher && t.subscriber == s.subscriber && t.inFlight == s.inFlight
  {
  }

  predicate Publishes(c: Config, p: Publisher) {
    p.pc == PubPublish && p.sent < c.messageCount
  }

  /** What a publisher step does to the messages and tokens it leaves to others. */
  lemma PublisherPendingAfter(c: Config, s: State, startTime: nat)
    requires PublisherEnabled(c, s)
    requires forall i :: i in s.publisher.tokens ==> i < s.publisher.sent
    ensures var t := PublisherNext(c, s, startTime);
            var before := Pending(s.publisher.sent, s.publisher.tokens);
            var after := Pending(t.publisher.sent, t.publisher.tokens);
            if Publishes(c, s.publisher) then |t.inFlight| <= |s.inFlight| + 1 && |after| == |before| + 1
            else t.inFlight == s.inFlight && |after| <= |before|
  {
    var p := s.publisher;
    if Publishes(c, p) {
      assert Pending(p.sent + 1, p.tokens) == Pending(p.sent, p.tokens) + {p.sent};
    } else if p.pc == PubReadGo {
      assert Pending(0, {}) == {};
    }
  }

  /** The loop head and the end of a round are the steps that move the publisher's cursor. */
  lemma PublisherAdvances(c: Config, s: State, startTime: nat)
    requires PublisherPositioned(c, s.publisher) && PublisherSending(c, s.publisher) && PublisherEnabled(c, s)
    requires s.publisher.pc == PubHead || s.publisher.pc == PubWriteDone
    requires PublisherSending(c, PublisherNext(c, s, startTime).publisher)
    ensures PublisherRank(c, PublisherNext(c, s, startTime).publisher) < PublisherRank(c, s.publisher)
  {
    LoopPosition(c, s.publisher.at);
    hide Config.Done, Config.Rounds, Config.Slots, Config.RoundOf, Config.Measured, InOrder;
  }

  lemma PublisherWorks(c: Config, s: State, startTime: nat)
    requires PublisherSending(c, s.publisher) && PublisherEnabled(c, s)
    requires s.publisher.pc != PubHead && s.publisher.pc != PubWriteDone
    requires var q := PublisherNext(c, s, startTime).publisher; PublisherSending(c, q) && !q.failed
    ensures PublisherRank(c, PublisherNext(c, s, startTime).publisher) + (if Publishes(c, s.publisher) then 2 else 0)
            < PublisherRank(c, s.publisher)
  {
    hide Work, RoundsLeft, PayloadsLeft, InOrder, Config.Done, Config.Rounds, Config.Slots, Config.RoundOf,
         Config.Measured;
  }

  lemma PublisherDescends(c: Config, s: State, startTime: nat)
    requires PublisherPositioned(c, s.publisher) && PublisherSending(c, s.publisher) && PublisherEnabled(c, s)
    requires var q := PublisherNext(c, s, startTime).publisher; PublisherSending(c, q) && !q.failed
    ensures PublisherRank(c, PublisherNext(c, s, startTime).publisher) + (if Publishes(c, s.publisher) then 2 else 0)
            < PublisherRank(c, s.publisher)
  {
    if s.publisher.pc == PubHead || s.publisher.pc == PubWriteDone {
      PublisherAdvances(c, s, startTime);
    } else {
      PublisherWorks(c, s, startTime);
    }
    hide PublisherRank, PublisherNext, PublisherEnabled, PublisherSending, PublisherPositioned;
  }

  lemma SubscriberAdvances(c: Config, s: State)
    requires SubscriberPositioned(c, s.subscriber) && SubscriberEnabled(s)
    requires s.subscriber.pc == SubHead || s.subscriber.pc == SubWriteDone
    ensures SubscriberRank(c, SubscriberNext(c, s).subscriber) < SubscriberRank(c, s.subscriber)
  {
    LoopPosition(c, s.subscriber.at);
    hide Config.Done, Config.Rounds, Config.Slots, Config.RoundOf, Config.Measured;
  }

  lemma SubscriberDescends(c: Config, s: State)
    requires SubscriberPositioned(c, s.subscriber) && SubscriberEnabled(s)
    requires !SubscriberNext(c, s).subscriber.failed
    ensures SubscriberRank(c, SubscriberNext(c, s).subscriber) < SubscriberRank(c, s.subscriber)
  {
    if s.subscriber.pc == SubHead || s.subscriber.pc == SubWriteDone {
      SubscriberAdvances(c, s);
    }
    hide Work, RoundsLeft, PayloadsLeft, InBounds, InsideRound, Config.Done, Config.Rounds, Config.Slots, Config.RoundOf,
         Config.Measured;
  }

  lemma SubscriberKeepsInFlight(c: Config, s: State)
    requires SubscriberEnabled(s)
    ensures SubscriberNext(c, s).inFlight == s.inFlight
  {
  }

  lemma InvSends(c: Config, s: State)
    requires Inv(c, s)
    ensures PublisherSending(c, s.publisher)
  {
  }

  lemma CoordinatorLowers(c: Config, s: State)
    requires Inv(c, s) && CoordinatorEnabled(s) && Inv(c, CoordinatorNext(c, s))
    requires !CoordinatorNext(c, s).coordinator.failed
    ensures Rank(c, CoordinatorNext(c, s)) < Rank(c, s)
  {
    CoordinatorDescends(c, s);
    CoordinatorKeepsOthers(c, s);
    hide CoordinatorRank, PublisherRank, SubscriberRank, CoordinatorNext;
  }

  lemma PublisherLowers(c: Config, s: State, startTime: nat)
    requires Inv(c, s) && PublisherEnabled(c, s) && Inv(c, PublisherNext(c, s, startTime))
    requires !PublisherNext(c, s, startTime).publisher.failed
    ensures Rank(c, PublisherNext(c, s, startTime)) < Rank(c, s)
  {
    PublisherDescends(c, s, startTime);
    PublisherPendingAfter(c, s, startTime);
    PublisherKeepsSubscriber(c, s, startTime);
    hide CoordinatorRank, PublisherRank, SubscriberRank, Pending, PublisherNext;
  }

  lemma SubscriberLowers(c: Config, s: State)
    requires Inv(c, s) && SubscriberEnabled(s) && Inv(c, SubscriberNext(c, s))
    requires !SubscriberNext(c, s).subscriber.failed
    ensures Rank(c, SubscriberNext(c, s)) < Rank(c, s)
  {
    SubscriberDescends(c, s);
    SubscriberKeepsPublisher(c, s);
    SubscriberKeepsInFlight(c, s);
    hide CoordinatorRank, PublisherRank, SubscriberRank, Pending, SubscriberNext;
  }

  /** A delivery takes a message out of flight and leaves the processes where they are. */
  lemma DeliveryLowers(c: Config, s: State, m: Message, endTime: nat)
    requires PublisherSending(c, s.publisher) && DeliverEnabled(c, s, m, true)
    ensures Rank(c, DeliverNext(c, s, m, endTime, true)) < Rank(c, s)
  {
    hide CoordinatorRank, PublisherRank, SubscriberRoundRank, RoundsLeft, PayloadsLeft, Pending, Receive, Work;
  }

  /** A completed token is no longer pending. */
  lemma TokenNotPending(sent: nat, tokens: set<nat>, i: nat)
    requires i < sent && i !in tokens
    ensures |Pending(sent, tokens + {i})| < |Pending(sent, tokens)|
  {
    assert Pending(sent, tokens + {i}) == Pending(sent, tokens) - {i};
  }

  lemma TokensOutsideRank(c: Config, p: Publisher, q: Publisher)
    requires PublisherSending(c, p) && PublisherSending(c, q) && q == p.(tokens := q.tokens)
    ensures PublisherRank(c, q) == PublisherRank(c, p)
  {
    hide Work, RoundsLeft, PayloadsLeft;
  }

  lemma TokenLowers(c: Config, s: State, i: nat)
    requires PublisherSending(c, s.publisher) && ActionEnabled(c, s, CompleteToken(i))
    requires PublisherSending(c, Apply(c, s, CompleteToken(i)).publisher)
    ensures Rank(c, Apply(c, s, CompleteToken(i))) < Rank(c, s)
  {
    TokenNotPending(s.publisher.sent, s.publisher.tokens, i);
    TokensOutsideRank(c, s.publisher, Apply(c, s, CompleteToken(i)).publisher);
    hide CoordinatorRank, PublisherRank, SubscriberRank, Pending, PublisherSending;
  }

  /** Every productive action uses up some of the work that is left. */
  lemma RankDescends(c: Config, s: State, a: Action)
    requires Inv(c, s) && Healthy(s) && ActionEnabled(c, s, a) && Productive(a) && Inv(c, Apply(c, s, a))
    ensures Rank(c, Apply(c, s, a)) < Rank(c, s)
  {
    ProductiveStaysHealthy(c, s, a);
    hide Rank, Inv;
    match a
    case CoordinatorStep => CoordinatorLowers(c, s);
    case PublisherStep(startTime) => PublisherLowers(c, s, startTime);
    case SubscriberStep => SubscriberLowers(c, s);
    case Deliver(m, endTime, _) =>
      InvSends(c, s);
      DeliveryLowers(c, s, m, endTime);
    case CompleteToken(i) =>
      InvSends(c, s);
      InvSends(c, Apply(c, s, a));
      TokenLowers(c, s, i);
  }

  lemma {:induction false} RunUsesRank(c: Config, run: seq<Action>, s: State)
    requires Execute(c, run) == Some(s) && ProductiveRun(run)
    ensures PublisherSending(c, s.publisher) && |run| + Rank(c, s) <= Rank(c, Initial(c))
  {
    Invariant(c, run, s);
    if run != [] {
      var before := run[..|run| - 1];
      var t := Execute(c, before).value;
      RunUsesRank(c, before, t);
      Invariant(c, before, t);
      ProductiveRunIsHealthy(c, before, t);
      RankDescends(c, t, run[|run| - 1]);
    }
  }

  lemma CollectWork(m: nat, n: nat)
    ensures Work(6, n) + Work(9, n) + Work(4 * m + 8, n) == (4 * m + 23) * n
  {
    WorkIsProduct(6, n);
    WorkIsProduct(9, n);
    WorkIsProduct(4 * m + 8, n);
  }

  lemma InitialRank(c: Config)
    ensures PublisherSending(c, Initial(c).publisher)
    ensures Rank(c, Initial(c)) ==
            Work(6, c.Rounds()) + Work(9, c.Rounds()) + Work(4 * c.messageCount + 8, c.Rounds())
            + 4 * c.messageCount + 2 * |c.payloadSizes| + 22
  {
    assert c.Done(Cursor(0, 0)) == 0;
    assert RoundsLeft(c, 0) == c.Rounds();
    assert Pending(0, {}) == {};
  }

  /** The number of actions a configuration calls for. */
  function Budget(messages: nat, rounds: nat, payloads: nat): nat {
    (4 * messages + 23) * rounds + 4 * messages + 2 * payloads + 22
  }

  lemma InitialBudget(c: Config, rank: nat, n: nat, payloads: nat)
    requires rank == Work(6, n) + Work(9, n) + Work(4 * c.messageCount + 8, n) + 4 * c.messageCount + 2 * payloads + 22
    ensures rank == Budget(c.messageCount, n, payloads)
  {
    CollectWork(c.messageCount, n);
  }

  /** No productive run, under any schedule, is longer than the budget. */
  lemma RunBound(c: Config, run: seq<Action>, s: State)
    requires Execute(c, run) == Some(s) && ProductiveRun(run)
    ensures |run| <= Budget(c.messageCount, c.Rounds(), |c.payloadSizes|)
  {
    RunUsesRank(c, run, s);
    InitialRank(c);
    InitialBudget(c, Rank(c, Initial(c)), c.Rounds(), |c.payloadSizes|);
  }

  // ---- no run gets stuck -------------------------------------------------------------------

  /** A productive action for every state that has one. */
  ghost function NextAction(c: Config, s: State): Action {
    if CoordinatorEnabled(s) then CoordinatorStep
    else if PublisherEnabled(c, s) then PublisherStep(0)
    else if SubscriberEnabled(s) then SubscriberStep
    else if s.inFlight != {} then
      var m :| m in s.inFlight;
      Deliver(m, 0, true)
    else CompleteToken(s.publisher.awaited)
  }

  lemma PublisherMoves(c: Config, s: State)
    requires Inv(c, s) && Healthy(s) && !CoordinatorEnabled(s)
    requires s.coordinator.pc == ReadPublisherDone || s.coordinator.pc == WaitPublisher
    ensures PublisherEnabled(c, s) || (s.publisher.pc == PubAwait && s.publisher.awaited !in s.publisher.tokens
                                       && s.publisher.awaited < s.publisher.sent)
  {
    LoopPosition(c, s.publisher.at);
  }

  lemma SubscriberMoves(c: Config, s: State)
    requires Inv(c, s) && Healthy(s) && !CoordinatorEnabled(s)
    requires s.coordinator.pc == ReadReady || s.coordinator.pc == WaitSubscriber
    ensures SubscriberEnabled(s)
  {
    LoopPosition(c, s.subscriber.at);
  }

  lemma DeliveryPossible(c: Config, s: State)
    requires Inv(c, s) && Healthy(s) && Broadcasting(s) && !SubscriberEnabled(s)
    requires s.inFlight != {}
    ensures forall m :: m in s.inFlight ==> DeliverEnabled(c, s, m, true)
  {
    RoundHandler(c, s);
  }

  lemma SubscriberOrDelivery(c: Config, s: State)
    requires Inv(c, s) && Healthy(s) && !CoordinatorEnabled(s) && c.messageCount > 0
    requires s.coordinator.pc == ReadSubscriberDone
    ensures SubscriberEnabled(s) || s.inFlight != {}
  {
    RoundHandler(c, s);
    LoopPosition(c, s.subscriber.at);
  }

  lemma Progress(c: Config, s: State)
    requires Inv(c, s) && Healthy(s) && !Finished(s)
    requires c.messageCount > 0 || c.Rounds() == 0
    ensures ActionEnabled(c, s, NextAction(c, s)) && Productive(NextAction(c, s))
  {
    if !CoordinatorEnabled(s) {
      match s.coordinator.pc
      case ReadPublisherDone => PublisherMoves(c, s);
      case WaitPublisher => PublisherMoves(c, s);
      case ReadReady => SubscriberMoves(c, s);
      case WaitSubscriber => SubscriberMoves(c, s);
      case ReadSubscriberDone => SubscriberOrDelivery(c, s);
      case CoordinatorReturned =>
    }
    if s.inFlight != {} && !SubscriberEnabled(s) {
      DeliveryPossible(c, s);
    }
  }

  /** With at least one message per round, or no round, a productive run either can be continued by a
      productive action or is finished, with everything recorded at both endpoints. */
  lemma NeverStuck(c: Config, run: seq<Action>, s: State)
    requires Execute(c, run) == Some(s) && ProductiveRun(run)
    requires c.messageCount > 0 || c.Rounds() == 0
    ensures Finished(s) || exists a :: Productive(a) && ActionEnabled(c, s, a)
    ensures Finished(s) ==> Complete(c, s)
  {
    hide Config.Done, Config.Rounds, Config.Slots, Config.RoundOf;
    Invariant(c, run, s);
    ProductiveRunIsHealthy(c, run, s);
    if Finished(s) {
      ClosedEndpointIsComplete(c, run, s);
    } else {
      Progress(c, s);
    }
  }

  /** Without messages the callback never signals, so the first round never ends. */
  predicate FirstRoundOpen(c: Config, s: State) {
    && s.coordinator.round == 0
    && s.coordinator.pc in {RoundHead, WriteSubscriberGo, ReadReady, WritePublisherGo, ReadPublisherDone, ReadSubscriberDone}
  }

  lemma FirstRoundStaysOpen(c: Config, s: State, a: Action)
    requires SubscriberInStep(c, s) && MessagesInStep(c, s) && ActionEnabled(c, s, a)
    requires c.messageCount == 0 && c.Rounds() > 0 && FirstRoundOpen(c, s)
    ensures FirstRoundOpen(c, Apply(c, s, a))
  {
    match a
    case PublisherStep(startTime) => PublisherKeepsSubscriber(c, s, startTime);
    case SubscriberStep => SubscriberKeepsPublisher(c, s);
    case _ =>
  }

  lemma {:induction false} ZeroMessagesHang(c: Config, run: seq<Action>, s: State)
    requires Execute(c, run) == Some(s)
    requires c.messageCount == 0 && c.Rounds() > 0
    ensures FirstRoundOpen(c, s) && !Finished(s)
  {
    if run != [] {
      var before := run[..|run| - 1];
      var t := Execute(c, before).value;
      Invariant(c, before, t);
      ZeroMessagesHang(c, before, t);
      FirstRoundStaysOpen(c, t, run[|run| - 1]);
    }
  }

  lemma ExtendRun(c: Config, run: seq<Action>, s: State, a: Action)
    requires Execute(c, run) == Some(s) && ActionEnabled(c, s, a)
    ensures Execute(c, run + [a]) == Some(Apply(c, s, a))
  {
    assert (run + [a])[..|run + [a]| - 1] == run;
  }

  /** The rank of a state, where it has one. */
  function Remaining(c: Config, s: State): nat {
    if PublisherSending(c, s.publisher) then Rank(c, s) else 0
  }

  /** Any productive run can be continued productively until it is finished. */
  lemma {:induction false} CanFinish(c: Config, run: seq<Action>, s: State) returns (whole: seq<Action>)
    requires Execute(c, run) == Some(s) && ProductiveRun(run)
    requires c.messageCount > 0 || c.Rounds() == 0
    ensures run <= whole && ProductiveRun(whole)
    ensures Execute(c, whole).Some? && Finished(Execute(c, whole).value)
    decreases Remaining(c, s)
  {
    hide Apply, Rank, Inv, Config.Done, Config.Rounds, Config.Slots, PublisherSending, Finished, NextAction, Healthy,
         Execute, Productive;
    whole := run;
    if !Finished(s) {
      Invariant(c, run, s);
      InvSends(c, s);
      ProductiveRunIsHealthy(c, run, s);
      Progress(c, s);
      var a := NextAction(c, s);
      ActionKeeps(c, s, a);
      RankDescends(c, s, a);
      InvSends(c, Apply(c, s, a));
      ExtendRun(c, run, s, a);
      whole := CanFinish(c, run + [a], Apply(c, s, a));
    }
  }

  /** Some run of a configuration finishes exactly when each round has a message or there is no round. */
  lemma CompletesExactlyWhen(c: Config)
    ensures (exists run :: Execute(c, run).Some? && Finished(Execute(c, run).value))
            <==> c.messageCount > 0 || c.Rounds() == 0
  {
    if c.messageCount > 0 || c.Rounds() == 0 {
      var whole := CanFinish(c, [], Initial(c));
      assert Execute(c, whole).Some?;
    } else {
      forall run | Execute(c, run).Some?
        ensures !Finished(Execute(c, run).value)
      {
        ZeroMessagesHang(c, run, Execute(c, run).value);
      }
    }
  }
}
