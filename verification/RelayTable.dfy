/**
 What every interleaving of the message loop and the producer coroutines keeps true of the
 producer table: who owns an entry, which lookups can fail, and which subscriptions are lost.
 */
module RelayTable {
  import opened Wrappers
  import opened RelayConnection

  // ---------- Names ----------

  /** For one host, group names and producer names determine each other, and none is "metrics". */
  lemma NamesAreDistinct(host: string, g: Group, h: Group)
    ensures ProducerName(host, g) == ProducerName(host, h) ==> g == h
    ensures ProducerName(host, g) != METRICS
  {
    var n, m := ProducerName(host, g), ProducerName(host, h);
    assert n[|host| + 1..] == g && m[|host| + 1..] == h;
    assert n[|host|] == '-';
    assert '-' in n && '-' !in METRICS;
  }

  // ---------- Ownership ----------

  ghost predicate WellNamed(c: Connection, t: Task) {
    (t.name == METRICS && t.group == METRICS) || t.name == ProducerName(c.host, t.group)
  }

  /** Every entry belongs to one task that has not ended, and every such task has its entry. */
  ghost predicate Owned(c: Connection) {
    && (forall n <- c.producers :: c.producers[n].task < |c.tasks|)
    && (forall n <- c.producers :: c.tasks[c.producers[n].task].name == n)
    && (forall n <- c.producers :: c.tasks[c.producers[n].task].phase != Ended)
    && (forall t | 0 <= t < |c.tasks| && c.tasks[t].phase != Ended ::
          c.tasks[t].name in c.producers && c.producers[c.tasks[t].name].task == t)
    && (forall t | 0 <= t < |c.tasks| :: WellNamed(c, c.tasks[t]))
  }

  lemma NewEntryOwned(c: Connection, group: Group, origin: Channel)
    requires Owned(c) && ProducerName(c.host, group) !in c.producers
    ensures Owned(SubscribeOne(c, group, origin))
  {
    var d := SubscribeOne(c, group, origin);
    assert forall t | 0 <= t < |c.tasks| :: d.tasks[t] == c.tasks[t];
    assert forall n <- c.producers :: d.producers[n] == c.producers[n];
  }

  lemma SubscribeOneOwned(c: Connection, group: Group, origin: Channel)
    requires Owned(c)
    ensures var d := SubscribeOne(c, group, origin); Owned(d) && d.host == c.host
  {
    if ProducerName(c.host, group) !in c.producers {
      NewEntryOwned(c, group, origin);
    }
  }

  lemma {:induction false} SubscribeAllOwned(c: Connection, groups: seq<Group>, origin: Channel)
    requires Owned(c)
    ensures var d := SubscribeAll(c, groups, origin); Owned(d) && d.host == c.host
  {
    if groups != [] {
      SubscribeAllOwned(c, groups[..|groups| - 1], origin);
      SubscribeOneOwned(SubscribeAll(c, groups[..|groups| - 1], origin), groups[|groups| - 1], origin);
    }
  }

  lemma {:induction false} UnsubscribeAllOwned(c: Connection, groups: seq<Group>, origin: Channel)
    requires Owned(c)
    ensures var d := UnsubscribeAll(c, groups, origin);
      Owned(d) && d.host == c.host && d.tasks == c.tasks
  {
    if groups != [] {
      UnsubscribeAllOwned(c, groups[..|groups| - 1], origin);
    }
  }

  lemma HandleFrameOwned(c: Connection, frame: Frame)
    requires Owned(c)
    ensures var d := HandleFrame(c, frame); Owned(d) && d.host == c.host
  {
    var c1 := if frame.Text? then c.(last := Some(frame.payload)) else c;
    assert Owned(c1);
    match c1.last {
      case Some(Subscribe(groups, origin)) => SubscribeAllOwned(c1, groups, origin);
      case Some(Unsubscribe(groups, origin)) => UnsubscribeAllOwned(c1, groups, origin);
      case _ =>
    }
  }

  lemma DiscardOwned(c: Connection, t: nat)
    requires Owned(c) && Live(c, t, Closing)
    ensures Owned(Next(c, Discarded(t)))
  {
    assert c.tasks[t].name in c.producers;
  }

  lemma SetPhaseOwned(c: Connection, t: nat, phase: Phase)
    requires Owned(c) && t < |c.tasks| && c.tasks[t].phase != Ended && phase != Ended
    ensures Owned(SetPhase(c, t, phase))
  {
  }

  lemma NextOwned(c: Connection, s: Step)
    requires Owned(c) && Enabled(c, s)
    ensures Owned(Next(c, s)) && Next(c, s).host == c.host
  {
    match s {
      case Handle(frame) => HandleFrameOwned(c, frame);
      case Discarded(t) => DiscardOwned(c, t);
      case Opened(t) => SetPhaseOwned(c, t, Listening);
      case Received(t, _) => SetPhaseOwned(c, t, Closing);
      case TimedOut(t) => SetPhaseOwned(c, t, Closing);
      case Failed(t) => SetPhaseOwned(c, t, Closing);
      case OpenFailed(t) => SetPhaseOwned(c, t, Stuck);
      case DiscardFailed(t) => SetPhaseOwned(c, t, Stuck);
    }
  }

  lemma {:induction false} RunOwned(c: Connection, steps: seq<Step>)
    requires Owned(c) && IsRun(c, steps)
    ensures Owned(After(c, steps)) && After(c, steps).host == c.host
    decreases |steps|
  {
    if steps != [] {
      NextOwned(c, steps[0]);
      RunOwned(Next(c, steps[0]), steps[1..]);
    }
  }

  /**
   In every reachable state: an entry is owned by exactly one unended task; the two table lookups
   of a producer (on a time-out and on deletion) find an entry; and that entry is its own, so a
   deletion never removes another task's entry.
   */
  lemma ProducerTableOwnership(host: string, steps: seq<Step>)
    requires IsRun(Start(host), steps)
    ensures var c := After(Start(host), steps);
      && (forall n, t | n in c.producers && 0 <= t < |c.tasks| ::
            (c.tasks[t].name == n && c.tasks[t].phase != Ended) <==> c.producers[n].task == t)
      && (forall t | 0 <= t < |c.tasks| && c.tasks[t].phase in {Listening, Closing} ::
            c.tasks[t].name in c.producers && c.producers[c.tasks[t].name].task == t)
  {
    RunOwned(Start(host), steps);
  }

  // ---------- Which tasks can be stuck ----------

  predicate Breaks(s: Step, t: nat) {
    s == OpenFailed(t) || s == DiscardFailed(t)
  }

  lemma {:induction false} UnsubscribeAllTasks(c: Connection, groups: seq<Group>, origin: Channel)
    ensures var d := UnsubscribeAll(c, groups, origin);
      d.tasks == c.tasks && d.sent == c.sent && d.host == c.host && d.open == c.open
  {
    if groups != [] {
      UnsubscribeAllTasks(c, groups[..|groups| - 1], origin);
    }
  }

  lemma {:induction false} SubscribeAllTasks(c: Connection, groups: seq<Group>, origin: Channel)
    ensures var d := SubscribeAll(c, groups, origin);
      && |c.tasks| <= |d.tasks| && d.tasks[..|c.tasks|] == c.tasks
      && (forall t | |c.tasks| <= t < |d.tasks| :: d.tasks[t].phase == Opening && d.tasks[t].group in groups)
      && d.sent == c.sent && d.host == c.host && d.open == c.open
  {
    if groups != [] {
      SubscribeAllTasks(c, groups[..|groups| - 1], origin);
    }
  }

  /** Handling a frame leaves existing tasks alone; new ones start in `Opening`. */
  lemma HandleFrameTasks(c: Connection, frame: Frame)
    ensures var d := HandleFrame(c, frame);
      && |c.tasks| <= |d.tasks| && d.tasks[..|c.tasks|] == c.tasks
      && (forall t | |c.tasks| <= t < |d.tasks| :: d.tasks[t].phase == Opening)
      && d.sent == c.sent && d.host == c.host
  {
    var c1 := if frame.Text? then c.(last := Some(frame.payload)) else c;
    match c1.last {
      case Some(Subscribe(groups, origin)) => SubscribeAllTasks(c1, groups, origin);
      case Some(Unsubscribe(groups, origin)) => UnsubscribeAllTasks(c1, groups, origin);
      case _ =>
    }
  }

  lemma {:induction false} SubscriptionsLeaveLoop(c: Connection, groups: seq<Group>, origin: Channel)
    ensures var d := SubscribeAll(c, groups, origin); d.open == c.open && d.last == c.last
    ensures var d := UnsubscribeAll(c, groups, origin); d.open == c.open && d.last == c.last
  {
    if groups != [] {
      SubscriptionsLeaveLoop(c, groups[..|groups| - 1], origin);
    }
  }

  /**
   A frame ends the loop iff it is an error, or lacks a key the loop reads, or is a binary frame that repeats
   such a text or comes before any text; and the text it leaves to be repeated is the last one decoded.
   */
  lemma FrameEndsLoopIff(c: Connection, frame: Frame)
    requires c.open
    ensures !HandleFrame(c, frame).open <==>
      frame == Error || frame == Text(Malformed) || (frame == Binary && c.last in {None, Some(Malformed)})
    ensures HandleFrame(c, frame).last == if frame.Text? then Some(frame.payload) else c.last
  {
    var c1 := if frame.Text? then c.(last := Some(frame.payload)) else c;
    match c1.last {
      case Some(Subscribe(groups, origin)) => SubscriptionsLeaveLoop(c1, groups, origin);
      case Some(Unsubscribe(groups, origin)) => SubscriptionsLeaveLoop(c1, groups, origin);
      case _ =>
    }
  }

  /** A binary frame does once more what the text before it did, though undecodable frames may come between. */
  lemma BinaryRepeatsText(c: Connection, p: Payload)
    requires c.open && HandleFrame(c, Text(p)).open
    ensures var d := HandleFrame(c, Text(p));
      && HandleFrame(d, Undecodable) == d
      && HandleFrame(d, Binary) == HandleFrame(d, Text(p))
  {
    FrameEndsLoopIff(c, Text(p));
    var d := HandleFrame(c, Text(p));
    assert d == d.(last := Some(p));
  }

  /** A task keeps its entry for ever without running only if a channel-layer call raised in it. */
  lemma {:induction false} StuckOnlyByLayerFailure(c: Connection, steps: seq<Step>, t: nat)
    requires Owned(c) && IsRun(c, steps)
    requires forall s <- steps :: !Breaks(s, t)
    requires t < |c.tasks| ==> c.tasks[t].phase != Stuck
    ensures var d := After(c, steps); t < |d.tasks| ==> d.tasks[t].phase != Stuck
    decreases |steps|
  {
    if steps != [] {
      var s := steps[0];
      assert s in steps;
      NextOwned(c, s);
      if s.Handle? {
        HandleFrameTasks(c, s.frame);
      }
      StuckOnlyByLayerFailure(Next(c, s), steps[1..], t);
    }
  }

  lemma StuckStays(c: Connection, s: Step, t: nat)
    requires Owned(c) && Enabled(c, s) && t < |c.tasks| && (c.tasks[t].phase == Stuck || Breaks(s, t))
    ensures t < |Next(c, s).tasks| && Next(c, s).tasks[t] == c.tasks[t].(phase := Stuck)
  {
    if s.Handle? {
      HandleFrameTasks(c, s.frame);
      assert Next(c, s).tasks[t] == Next(c, s).tasks[..|c.tasks|][t];
    }
  }

  lemma {:induction false} StuckForEver(c: Connection, steps: seq<Step>, t: nat)
    requires Owned(c) && IsRun(c, steps) && Live(c, t, Stuck)
    ensures Owned(After(c, steps)) && t < |After(c, steps).tasks| && After(c, steps).tasks[t] == c.tasks[t]
    decreases |steps|
  {
    if steps != [] {
      StuckStays(c, steps[0], t);
      NextOwned(c, steps[0]);
      StuckForEver(Next(c, steps[0]), steps[1..], t);
    }
  }

  /** And if one did, it is so for ever: the task runs no more, and nothing deletes its entry. */
  lemma LayerFailureSticks(c: Connection, s: Step, steps: seq<Step>, t: nat)
    requires Owned(c) && Enabled(c, s) && Breaks(s, t) && IsRun(Next(c, s), steps)
    ensures var d := After(Next(c, s), steps);
      && Live(d, t, Stuck) && d.tasks[t].name == c.tasks[t].name
      && d.tasks[t].name in d.producers && d.producers[d.tasks[t].name].task == t
  {
    StuckStays(c, s, t);
    NextOwned(c, s);
    StuckForEver(Next(c, s), steps, t);
  }

  // ---------- What one message does to the table ----------

  ghost predicate Holds(c: Connection, ch: Channel, g: Group) {
    ProducerName(c.host, g) in c.producers && ch in c.producers[ProducerName(c.host, g)].subscriptions
  }

  /** Order and repetition in `groups` are immaterial: exactly the named groups gain exactly `origin`. */
  lemma {:induction false} SubscribeAllHolds(c: Connection, groups: seq<Group>, origin: Channel)
    ensures var d := SubscribeAll(c, groups, origin);
      && (forall ch, g :: Holds(d, ch, g) <==> Holds(c, ch, g) || (ch == origin && g in groups))
      && (forall n :: n in d.producers <==> n in c.producers || exists g <- groups :: n == ProducerName(c.host, g))
      && (forall n <- c.producers :: d.producers[n].task == c.producers[n].task)
      && (METRICS in c.producers ==> d.producers[METRICS] == c.producers[METRICS])
  {
    if groups != [] {
      var front, g := groups[..|groups| - 1], groups[|groups| - 1];
      assert groups == front + [g];
      SubscribeAllHolds(c, front, origin);
      SubscribeAllTasks(c, front, origin);
      var m := SubscribeAll(c, front, origin);
      var d := SubscribeOne(m, g, origin);
      NamesAreDistinct(c.host, g, g);
      forall ch, h
        ensures Holds(d, ch, h) <==> Holds(m, ch, h) || (ch == origin && h == g)
      {
        NamesAreDistinct(c.host, g, h);
      }
    }
  }

  lemma {:induction false} UnsubscribeAllHolds(c: Connection, groups: seq<Group>, origin: Channel)
    ensures var d := UnsubscribeAll(c, groups, origin);
      && (forall ch, g :: Holds(d, ch, g) <==> Holds(c, ch, g) && !(ch == origin && g in groups))
      && d.producers.Keys == c.producers.Keys
      && (forall n <- c.producers :: d.producers[n].task == c.producers[n].task)
      && (METRICS in c.producers ==> d.producers[METRICS] == c.producers[METRICS])
  {
    if groups != [] {
      var front, g := groups[..|groups| - 1], groups[|groups| - 1];
      assert groups == front + [g];
      UnsubscribeAllHolds(c, front, origin);
      UnsubscribeAllTasks(c, front, origin);
      var m := UnsubscribeAll(c, front, origin);
      var d := UnsubscribeOne(m, g, origin);
      NamesAreDistinct(c.host, g, g);
      forall ch, h
        ensures Holds(d, ch, h) <==> Holds(m, ch, h) && !(ch == origin && h == g)
      {
        NamesAreDistinct(c.host, g, h);
      }
    }
  }

  // ---------- Two producers for one group ----------

  ghost predicate TwoProducers(c: Connection, g: Group) {
    exists t, u | 0 <= t < u < |c.tasks| ::
      c.tasks[t].group == g == c.tasks[u].group && c.tasks[t].phase != Ended && c.tasks[u].phase != Ended
  }

  /**
   Exactly when one connection runs two producers for one group: the group is "metrics", which the
   connection serves on its own, and a web node subscribed to it by name as well.
   */
  lemma TwoProducersIffMetricsSubscribed(host: string, steps: seq<Step>, g: Group)
    requires IsRun(Start(host), steps)
    ensures var c := After(Start(host), steps);
      TwoProducers(c, g) <==>
      g == METRICS && METRICS in c.producers && ProducerName(host, METRICS) in c.producers
  {
    RunOwned(Start(host), steps);
    NamesAreDistinct(host, METRICS, METRICS);
    var c := After(Start(host), steps);
    if g == METRICS && METRICS in c.producers && ProducerName(host, METRICS) in c.producers {
      var t, u := c.producers[METRICS].task, c.producers[ProducerName(host, METRICS)].task;
      assert c.tasks[t].group == METRICS by {
        NamesAreDistinct(host, c.tasks[t].group, METRICS);
      }
      assert c.tasks[u].group == METRICS by {
        NamesAreDistinct(host, c.tasks[u].group, METRICS);
      }
      assert t < u || u < t;
    }
  }

  /** The step processes a subscribe that names the group "metrics". */
  predicate NamesMetrics(c: Connection, s: Step) {
    s.Handle? && Effective(c, s.frame).Subscribe? && METRICS in Effective(c, s.frame).groups
  }

  lemma StepKeepsNoMetricsProducer(c: Connection, s: Step)
    requires Owned(c) && Enabled(c, s) && !NamesMetrics(c, s)
    requires ProducerName(c.host, METRICS) !in c.producers
    ensures ProducerName(c.host, METRICS) !in Next(c, s).producers
  {
    if s.Handle? {
      var c1 := if s.frame.Text? then c.(last := Some(s.frame.payload)) else c;
      match Effective(c, s.frame) {
        case Subscribe(groups, origin) =>
          SubscribeAllHolds(c1, groups, origin);
          forall g <- groups {
            NamesAreDistinct(c.host, METRICS, g);
          }
        case Unsubscribe(groups, origin) => UnsubscribeAllHolds(c1, groups, origin);
        case _ =>
      }
    }
  }

  ghost predicate NeverNamesMetrics(c: Connection, steps: seq<Step>)
    requires IsRun(c, steps)
    decreases |steps|
  {
    steps == [] || (!NamesMetrics(c, steps[0]) && NeverNamesMetrics(Next(c, steps[0]), steps[1..]))
  }

  lemma {:induction false} RunKeepsNoMetricsProducer(c: Connection, steps: seq<Step>)
    requires Owned(c) && IsRun(c, steps) && NeverNamesMetrics(c, steps)
    requires ProducerName(c.host, METRICS) !in c.producers
    ensures ProducerName(c.host, METRICS) !in After(c, steps).producers && After(c, steps).host == c.host
    decreases |steps|
  {
    if steps != [] {
      NextOwned(c, steps[0]);
      StepKeepsNoMetricsProducer(c, steps[0]);
      RunKeepsNoMetricsProducer(Next(c, steps[0]), steps[1..]);
    }
  }

  /** As long as no processed message subscribes to "metrics" by name, no group ever has two producers. */
  lemma OneProducerUnlessMetricsNamed(host: string, steps: seq<Step>, g: Group)
    requires IsRun(Start(host), steps) && NeverNamesMetrics(Start(host), steps)
    ensures !TwoProducers(After(Start(host), steps), g)
  {
    NamesAreDistinct(host, METRICS, METRICS);
    RunKeepsNoMetricsProducer(Start(host), steps);
    TwoProducersIffMetricsSubscribed(host, steps, g);
  }

  lemma {:induction false} RunSnoc(c: Connection, steps: seq<Step>, s: Step)
    requires IsRun(c, steps) && Enabled(After(c, steps), s)
    ensures IsRun(c, steps + [s]) && After(c, steps + [s]) == Next(After(c, steps), s)
    decreases |steps|
  {
    if steps == [] {
      assert [s][1..] == [] && steps + [s] == [s];
    } else {
      assert (steps + [s])[1..] == steps[1..] + [s];
      RunSnoc(Next(c, steps[0]), steps[1..], s);
    }
  }

  /**
   And such a message brings it about, in every run: after a frame that names "metrics" in a subscribe, the
   group has two producers iff the connection's own is still there.
   */
  lemma NamingMetricsStartsSecondProducer(host: string, steps: seq<Step>, frame: Frame)
    requires IsRun(Start(host), steps) && After(Start(host), steps).open
    requires NamesMetrics(After(Start(host), steps), Handle(frame))
    ensures var c := After(Start(host), steps);
      TwoProducers(HandleFrame(c, frame), METRICS) <==> METRICS in c.producers
  {
    var c := After(Start(host), steps);
    RunOwned(Start(host), steps);
    var c1 := if frame.Text? then c.(last := Some(frame.payload)) else c;
    var p := Effective(c, frame);
    SubscribeAllHolds(c1, p.groups, p.origin);
    NamesAreDistinct(host, METRICS, METRICS);
    forall g <- p.groups {
      NamesAreDistinct(host, g, g);
    }
    RunSnoc(Start(host), steps, Handle(frame));
    TwoProducersIffMetricsSubscribed(host, steps + [Handle(frame)], METRICS);
  }

  /** The shortest such run. */
  lemma SecondProducerIsReached(host: string, ch: Channel)
    ensures var steps := [Handle(Text(Subscribe([METRICS], ch)))];
      IsRun(Start(host), steps) && TwoProducers(After(Start(host), steps), METRICS)
  {
    var frame := Text(Subscribe([METRICS], ch));
    assert After(Start(host), []) == Start(host);
    RunSnoc(Start(host), [], Handle(frame));
    NamingMetricsStartsSecondProducer(host, [], frame);
    assert [] + [Handle(frame)] == [Handle(frame)];
  }

  // ---------- The metrics producer ----------

  /** A step that makes the metrics producer leave its loop for a reason other than idleness. */
  predicate FailsMetrics(c: Connection, s: Step) {
    s == Failed(0) || (s.Received? && s.task == 0 && Flagged(s.message) && !c.open)
  }

  ghost predicate NeverFailsMetrics(c: Connection, steps: seq<Step>)
    requires IsRun(c, steps)
    decreases |steps|
  {
    steps == [] || (!FailsMetrics(c, steps[0]) && NeverFailsMetrics(Next(c, steps[0]), steps[1..]))
  }

  ghost predicate MetricsServed(c: Connection) {
    && |c.tasks| > 0 && c.tasks[0].name == METRICS && c.tasks[0].phase in {Opening, Listening, Stuck}
    && METRICS in c.producers && c.producers[METRICS] == Entry(0, {METRICS})
  }

  lemma MetricsThroughFrame(c: Connection, frame: Frame)
    requires MetricsServed(c)
    ensures MetricsServed(HandleFrame(c, frame))
  {
    var d := HandleFrame(c, frame);
    HandleFrameTasks(c, frame);
    assert d.tasks[0] == d.tasks[..|c.tasks|][0];
    var c1 := if frame.Text? then c.(last := Some(frame.payload)) else c;
    match c1.last {
      case Some(Subscribe(groups, origin)) => SubscribeAllHolds(c1, groups, origin);
      case Some(Unsubscribe(groups, origin)) => UnsubscribeAllHolds(c1, groups, origin);
      case _ =>
    }
  }

  lemma MetricsThroughStep(c: Connection, s: Step)
    requires Owned(c) && MetricsServed(c) && Enabled(c, s) && !FailsMetrics(c, s)
    ensures MetricsServed(Next(c, s))
  {
    if s.Handle? {
      MetricsThroughFrame(c, s.frame);
    }
  }

  lemma {:induction false} MetricsThroughRun(c: Connection, steps: seq<Step>)
    requires Owned(c) && MetricsServed(c) && IsRun(c, steps) && NeverFailsMetrics(c, steps)
    ensures MetricsServed(After(c, steps))
    decreases |steps|
  {
    if steps != [] {
      NextOwned(c, steps[0]);
      MetricsThroughStep(c, steps[0]);
      MetricsThroughRun(Next(c, steps[0]), steps[1..]);
    }
  }

  /**
   No unsubscribe and no idle time-out ever takes the subscriber of the metrics producer away:
   only a failure inside that producer can end it.
   */
  lemma MetricsKeepsItsSubscriber(host: string, steps: seq<Step>)
    requires IsRun(Start(host), steps) && NeverFailsMetrics(Start(host), steps)
    ensures var c := After(Start(host), steps);
      && METRICS in c.producers && c.producers[METRICS] == Entry(0, {METRICS})
      && |c.tasks| > 0 && c.tasks[0].phase !in {Closing, Ended}
  {
    MetricsThroughRun(Start(host), steps);
  }
}
