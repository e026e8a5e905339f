/** When the messages of a run were published and delivered, read off the actions of the run, and that the times
    the endpoints record are these. */
module RunTimes {
  import opened Wrappers
  import opened RoundArithmetic
  import opened Protocol
  import opened ProtocolInvariant
  import opened ProtocolSafety

  /** Action `k` of the run publishes a message at a time. */
  ghost predicate PublishesAt(c: Config, run: seq<Action>, k: nat, m: Message, time: nat) {
    && k < |run| && run[k] == PublisherStep(time) && Execute(c, run[..k]).Some?
    && var p := Execute(c, run[..k]).value.publisher;
       p.pc == PubPublish && p.sent == m.index && m.index < c.messageCount && c.Done(p.at) == m.round
  }

  /** Action `k` of the run delivers a message, which is consumed, at a time. */
  ghost predicate DeliversAt(run: seq<Action>, k: nat, m: Message, time: nat) {
    k < |run| && run[k] == Deliver(m, time, true)
  }

  ghost predicate PublishedAt(c: Config, run: seq<Action>, m: Message, time: nat) {
    exists k: nat :: PublishesAt(c, run, k, m, time)
  }

  ghost predicate DeliveredAt(run: seq<Action>, m: Message, time: nat) {
    exists k: nat :: DeliversAt(run, k, m, time)
  }

  /** The samples' times are those of the actions that published, or delivered, their messages. */
  ghost predicate StartTimes(c: Config, run: seq<Action>, samples: seq<Sample>) {
    forall x <- samples :: PublishedAt(c, run, x.id, x.time)
  }

  ghost predicate EndTimes(run: seq<Action>, samples: seq<Sample>) {
    forall x <- samples :: DeliveredAt(run, x.id, x.time)
  }

  // ---- what is recorded --------------------------------------------------------------------

  lemma StartTimesLater(c: Config, run: seq<Action>, a: Action, samples: seq<Sample>)
    requires StartTimes(c, run, samples)
    ensures StartTimes(c, run + [a], samples)
  {
    forall x | x in samples
      ensures PublishedAt(c, run + [a], x.id, x.time)
    {
      var k: nat :| PublishesAt(c, run, k, x.id, x.time);
      assert (run + [a])[..k] == run[..k];
      assert PublishesAt(c, run + [a], k, x.id, x.time);
    }
  }

  lemma EndTimesLater(run: seq<Action>, a: Action, samples: seq<Sample>)
    requires EndTimes(run, samples)
    ensures EndTimes(run + [a], samples)
  {
    forall x | x in samples
      ensures DeliveredAt(run + [a], x.id, x.time)
    {
      var k: nat :| DeliversAt(run, k, x.id, x.time);
      assert DeliversAt(run + [a], k, x.id, x.time);
    }
  }

  ghost predicate PublisherTimed(c: Config, run: seq<Action>, p: Publisher) {
    && StartTimes(c, run, p.window)
    && forall slot :: 0 <= slot < |p.results| ==> StartTimes(c, run, p.results[slot])
  }

  ghost predicate SubscriberTimed(run: seq<Action>, b: Subscriber) {
    && (b.handler.Some? ==> EndTimes(run, b.handler.value.handled))
    && forall slot :: 0 <= slot < |b.results| ==> EndTimes(run, b.results[slot])
  }

  lemma PublisherTimedLater(c: Config, run: seq<Action>, a: Action, p: Publisher)
    requires PublisherTimed(c, run, p)
    ensures PublisherTimed(c, run + [a], p)
  {
    hide StartTimes;
    StartTimesLater(c, run, a, p.window);
    forall slot | 0 <= slot < |p.results|
      ensures StartTimes(c, run + [a], p.results[slot])
    {
      StartTimesLater(c, run, a, p.results[slot]);
    }
  }

  lemma SubscriberTimedLater(run: seq<Action>, a: Action, b: Subscriber)
    requires SubscriberTimed(run, b)
    ensures SubscriberTimed(run + [a], b)
  {
    hide EndTimes;
    if b.handler.Some? {
      EndTimesLater(run, a, b.handler.value.handled);
    }
    forall slot | 0 <= slot < |b.results|
      ensures EndTimes(run + [a], b.results[slot])
    {
      EndTimesLater(run, a, b.results[slot]);
    }
  }

  lemma NoStartTimes(c: Config, run: seq<Action>)
    ensures StartTimes(c, run, [])
  {
  }

  lemma NoEndTimes(run: seq<Action>)
    ensures EndTimes(run, [])
  {
  }

  lemma PublishIsTimed(c: Config, run: seq<Action>, s: State, time: nat)
    requires Execute(c, run) == Some(s) && s.publisher.pc == PubPublish && s.publisher.sent < c.messageCount
    requires PublisherEnabled(c, s) && StartTimes(c, run + [PublisherStep(time)], s.publisher.window)
    ensures StartTimes(c, run + [PublisherStep(time)], PublisherNext(c, s, time).publisher.window)
  {
    hide Execute;
    var longer, m := run + [PublisherStep(time)], Message(c.Done(s.publisher.at), s.publisher.sent);
    assert longer[..|run|] == run;
    assert PublishesAt(c, longer, |run|, m, time);
  }

  /** A publisher step records no other time than its own, and that as the time of what it publishes. */
  lemma PublisherStepTimed(c: Config, run: seq<Action>, s: State, time: nat)
    requires Execute(c, run) == Some(s) && PublisherEnabled(c, s)
    requires PublisherTimed(c, run + [PublisherStep(time)], s.publisher)
    ensures PublisherTimed(c, run + [PublisherStep(time)], PublisherNext(c, s, time).publisher)
  {
    NoStartTimes(c, run + [PublisherStep(time)]);
    if s.publisher.pc == PubPublish && s.publisher.sent < c.messageCount {
      PublishIsTimed(c, run, s, time);
    }
    hide StartTimes, Execute, Config.Done, Config.Slot;
  }

  lemma SubscriberStepTimed(c: Config, run: seq<Action>, s: State)
    requires SubscriberEnabled(s) && SubscriberTimed(run, s.subscriber)
    ensures SubscriberTimed(run, SubscriberNext(c, s).subscriber)
  {
    NoEndTimes(run);
    hide EndTimes, Config.Done, Config.Slot;
  }

  lemma ReceiveTimed(c: Config, run: seq<Action>, h: Handler, m: Message, time: nat)
    requires EndTimes(run + [Deliver(m, time, true)], h.handled)
    ensures EndTimes(run + [Deliver(m, time, true)], Receive(c, h, m, time).handled)
  {
    assert DeliversAt(run + [Deliver(m, time, true)], |run|, m, time);
  }

  lemma StepTimed(c: Config, run: seq<Action>, s: State, a: Action)
    requires Execute(c, run) == Some(s) && ActionEnabled(c, s, a)
    requires PublisherTimed(c, run, s.publisher) && SubscriberTimed(run, s.subscriber)
    ensures PublisherTimed(c, run + [a], Apply(c, s, a).publisher)
    ensures SubscriberTimed(run + [a], Apply(c, s, a).subscriber)
  {
    PublisherTimedLater(c, run, a, s.publisher);
    SubscriberTimedLater(run, a, s.subscriber);
    match a
    case PublisherStep(time) =>
      PublisherStepTimed(c, run, s, time);
      PublisherKeepsSubscriber(c, s, time);
    case SubscriberStep =>
      SubscriberStepTimed(c, run + [a], s);
      SubscriberKeepsPublisher(c, s);
    case Deliver(m, time, consumed) =>
      if consumed {
        ReceiveTimed(c, run, s.subscriber.handler.value, m, time);
      }
    case _ =>
  }

  /** Every start time in the publisher's window and results is that of the action that published its message, and
      every end time the subscriber has is that of the delivery of its message. */
  lemma {:induction false} TimesOfRun(c: Config, run: seq<Action>, s: State)
    requires Execute(c, run) == Some(s)
    ensures PublisherTimed(c, run, s.publisher) && SubscriberTimed(run, s.subscriber)
  {
    if run == [] {
      NoStartTimes(c, run);
      NoEndTimes(run);
      hide StartTimes, EndTimes;
    } else {
      var before, a := run[..|run| - 1], run[|run| - 1];
      var t := Execute(c, before).value;
      TimesOfRun(c, before, t);
      StepTimed(c, before, t, a);
      assert before + [a] == run;
    }
  }

  // ---- a message has one time of each kind -------------------------------------------------

  /** The publisher is past a message: it published it in the round it works on or in an earlier one. */
  predicate Past(c: Config, p: Publisher, m: Message) {
    || m.round < c.Done(p.at)
    || (m.round == c.Done(p.at) && PublisherPhase(p.pc) == Working && m.index < p.sent)
  }

  lemma {:induction false} PrefixRuns(c: Config, run: seq<Action>, k: nat)
    requires Execute(c, run).Some? && k <= |run|
    ensures Execute(c, run[..k]).Some?
    decreases |run| - k
  {
    if k < |run| {
      PrefixRuns(c, run, k + 1);
      assert run[..k + 1][..k] == run[..k];
    } else {
      assert run[..k] == run;
    }
  }

  lemma PublisherGoesOn(c: Config, s: State, startTime: nat, m: Message)
    requires PublisherPositioned(c, s.publisher) && PublisherEnabled(c, s) && Past(c, s.publisher, m)
    ensures Past(c, PublisherNext(c, s, startTime).publisher, m)
  {
    LoopPosition(c, s.publisher.at);
    hide Config.Done, Config.Rounds, Config.Slots, Config.RoundOf, Config.Measured;
  }

  lemma PastKept(c: Config, s: State, a: Action, m: Message)
    requires PublisherPositioned(c, s.publisher) && ActionEnabled(c, s, a) && Past(c, s.publisher, m)
    ensures Past(c, Apply(c, s, a).publisher, m)
  {
    hide Config.Done, PublisherPositioned, PublisherNext, SubscriberNext, PublisherEnabled, SubscriberEnabled;
    match a
    case PublisherStep(startTime) => PublisherGoesOn(c, s, startTime, m);
    case SubscriberStep => SubscriberKeepsPublisher(c, s);
    case _ =>
  }

  lemma InvPositions(c: Config, s: State)
    requires Inv(c, s)
    ensures PublisherPositioned(c, s.publisher)
  {
  }

  lemma LastStep(c: Config, run: seq<Action>, n: nat)
    requires 0 < n <= |run| && Execute(c, run[..n]).Some?
    ensures Execute(c, run[..n - 1]).Some?
    ensures var t := Execute(c, run[..n - 1]).value;
            ActionEnabled(c, t, run[n - 1]) && Execute(c, run[..n]) == Some(Apply(c, t, run[n - 1]))
  {
    assert run[..n][..n - 1] == run[..n - 1];
    hide ActionEnabled, Apply;
  }

  lemma {:induction false} PastStays(c: Config, run: seq<Action>, k: nat, n: nat, m: Message)
    requires Execute(c, run).Some? && k <= n <= |run|
    requires Execute(c, run[..k]).Some? && Past(c, Execute(c, run[..k]).value.publisher, m)
    ensures Execute(c, run[..n]).Some? && Past(c, Execute(c, run[..n]).value.publisher, m)
    decreases n - k
  {
    hide Past, Inv, Execute, Apply, ActionEnabled;
    PrefixRuns(c, run, n);
    if k < n {
      PastStays(c, run, k, n - 1, m);
      LastStep(c, run, n);
      var t := Execute(c, run[..n - 1]).value;
      Invariant(c, run[..n - 1], t);
      InvPositions(c, t);
      PastKept(c, t, run[n - 1], m);
    }
  }

  lemma PublishPasses(c: Config, run: seq<Action>, k: nat, m: Message, time: nat)
    requires Execute(c, run).Some? && PublishesAt(c, run, k, m, time)
    ensures Execute(c, run[..k + 1]).Some? && Past(c, Execute(c, run[..k + 1]).value.publisher, m)
    ensures !Past(c, Execute(c, run[..k]).value.publisher, m)
  {
    PrefixRuns(c, run, k + 1);
    assert run[..k + 1][..k] == run[..k];
    hide Config.Done;
  }

  /** No message is published twice in a run. */
  lemma PublishedOnce(c: Config, run: seq<Action>, m: Message, k: nat, time: nat, other: nat, otherTime: nat)
    requires Execute(c, run).Some? && PublishesAt(c, run, k, m, time) && PublishesAt(c, run, other, m, otherTime)
    ensures k == other && time == otherTime
  {
    hide Past, Execute;
    PublishPasses(c, run, k, m, time);
    PublishPasses(c, run, other, m, otherTime);
    if k < other {
      PastStays(c, run, k + 1, other, m);
    } else if other < k {
      PastStays(c, run, other + 1, k, m);
    }
  }

  /** A message that was published and is no longer in flight. */
  predicate Gone(c: Config, s: State, m: Message) {
    Past(c, s.publisher, m) && m !in s.inFlight
  }

  /** What is in flight was published. */
  lemma InFlightIsPast(c: Config, s: State, m: Message)
    requires Inv(c, s) && m in s.inFlight
    ensures Past(c, s.publisher, m)
  {
    assert Broadcasting(s);
    assert m in Published(s.coordinator.round, SentThisRound(c, s));
    hide Config.Done, Config.Rounds, Config.Slots, Config.RoundOf, ResultsUpTo, SubscriberFollows, ChannelInStep,
         SubscriberPositioned, CoordinatorPositioned;
  }

  lemma NoOtherInFlight(c: Config, s: State, a: Action, m: Message)
    requires ActionEnabled(c, s, a) && m !in s.inFlight && Past(c, s.publisher, m)
    ensures m !in Apply(c, s, a).inFlight
  {
    hide Config.Done;
  }

  lemma {:induction false} GoneStays(c: Config, run: seq<Action>, k: nat, n: nat, m: Message)
    requires Execute(c, run).Some? && k <= n <= |run|
    requires Execute(c, run[..k]).Some? && Gone(c, Execute(c, run[..k]).value, m)
    ensures Execute(c, run[..n]).Some? && Gone(c, Execute(c, run[..n]).value, m)
    decreases n - k
  {
    hide Past, Inv, Execute, Apply, ActionEnabled;
    PrefixRuns(c, run, n);
    if k < n {
      GoneStays(c, run, k, n - 1, m);
      LastStep(c, run, n);
      var t := Execute(c, run[..n - 1]).value;
      Invariant(c, run[..n - 1], t);
      InvPositions(c, t);
      PastKept(c, t, run[n - 1], m);
      NoOtherInFlight(c, t, run[n - 1], m);
    }
  }

  lemma DeliveryTakes(c: Config, run: seq<Action>, k: nat, m: Message, time: nat)
    requires Execute(c, run).Some? && DeliversAt(run, k, m, time)
    ensures Execute(c, run[..k]).Some? && m in Execute(c, run[..k]).value.inFlight
    ensures Execute(c, run[..k + 1]).Some? && Gone(c, Execute(c, run[..k + 1]).value, m)
  {
    PrefixRuns(c, run, k + 1);
    PrefixRuns(c, run, k);
    assert run[..k + 1][..k] == run[..k];
    var t := Execute(c, run[..k]).value;
    Invariant(c, run[..k], t);
    InFlightIsPast(c, t, m);
    hide Past, Inv;
  }

  /** No message is delivered twice in a run. */
  lemma DeliveredOnce(c: Config, run: seq<Action>, m: Message, k: nat, time: nat, other: nat, otherTime: nat)
    requires Execute(c, run).Some? && DeliversAt(run, k, m, time) && DeliversAt(run, other, m, otherTime)
    ensures k == other && time == otherTime
  {
    hide Past, Execute;
    DeliveryTakes(c, run, k, m, time);
    DeliveryTakes(c, run, other, m, otherTime);
    if k < other {
      GoneStays(c, run, k + 1, other, m);
    } else if other < k {
      GoneStays(c, run, other + 1, k, m);
    }
  }
}
