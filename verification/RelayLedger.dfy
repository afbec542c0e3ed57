/**
 Which subscriptions a connection holds, in terms of the messages it has processed. A ledger kept
 beside the run records what the messages asked for, what the two-phase shutdown put at risk and
 what it dropped; the table agrees with the ledger in every reachable state.
 */
module RelayLedger {
  import opened Wrappers
  import opened RelayConnection
  import opened RelayTable

  type Pair = (Channel, Group)

  /**
   `believed`: asked for by the messages processed so far. `doomed`: held by an entry whose producer
   is already on its way out. `lost`: dropped with such an entry and not asked for again.
   */
  datatype Ledger = Ledger(believed: set<Pair>, doomed: set<Pair>, lost: set<Pair>)

  function Pairs(origin: Channel, groups: seq<Group>): set<Pair> {
    set g | g in groups :: (origin, g)
  }

  ghost predicate ClosingFor(c: Connection, g: Group) {
    var n := ProducerName(c.host, g);
    && n in c.producers && c.producers[n].task < |c.tasks| && c.tasks[c.producers[n].task].phase == Closing
  }

  ghost predicate Starts(c: Connection, s: Step, t: nat)
    requires Enabled(c, s)
  {
    Live(c, t, Closing) == false && Live(Next(c, s), t, Closing)
  }

  /** What the entry of task `t` holds. */
  ghost function HeldBy(c: Connection, t: nat): set<Pair>
    requires t < |c.tasks|
  {
    var task := c.tasks[t];
    if task.name == ProducerName(c.host, task.group) && task.name in c.producers then
      set ch | ch in c.producers[task.name].subscriptions :: (ch, task.group)
    else {}
  }

  ghost function Observe(l: Ledger, c: Connection, s: Step): Ledger
    requires Enabled(c, s)
  {
    match s
    case Handle(frame) =>
      (match Effective(c, frame)
       case Subscribe(groups, origin) =>
         var asked := Pairs(origin, groups);
         Ledger(l.believed + asked, l.doomed + (set p | p in asked && ClosingFor(c, p.1)), l.lost - asked)
       case Unsubscribe(groups, origin) =>
         var dropped := Pairs(origin, groups);
         Ledger(l.believed - dropped, l.doomed - dropped, l.lost - dropped)
       case _ => l)
    case Discarded(t) => l.(doomed := l.doomed - HeldBy(c, t), lost := l.lost + (l.doomed * HeldBy(c, t)))
    case OpenFailed(_) => l
    case Opened(_) => l
    case DiscardFailed(t) => l.(doomed := l.doomed - HeldBy(c, t))
    case _ => if Starts(c, s, s.task) then l.(doomed := l.doomed + HeldBy(c, s.task)) else l
  }

  ghost function Observed(l: Ledger, c: Connection, steps: seq<Step>): Ledger
    requires IsRun(c, steps)
    decreases |steps|
  {
    if steps == [] then l else Observed(Observe(l, c, steps[0]), Next(c, steps[0]), steps[1..])
  }

  const EMPTY: Ledger := Ledger({}, {}, {})

  ghost predicate Agrees(l: Ledger, c: Connection) {
    && (forall ch, g :: Holds(c, ch, g) <==> (ch, g) in l.believed && (ch, g) !in l.lost)
    && (forall ch, g :: (ch, g) in l.doomed <==> Holds(c, ch, g) && ClosingFor(c, g))
    && l.lost <= l.believed
  }

  /** `d` has the tasks of `c`, new ones in `Opening`, and the entries of `c` with their owners. */
  ghost predicate Grows(c: Connection, d: Connection) {
    && Owned(c) && Owned(d) && d.host == c.host && |c.tasks| <= |d.tasks|
    && (forall t | 0 <= t < |c.tasks| :: d.tasks[t] == c.tasks[t])
    && (forall t | |c.tasks| <= t < |d.tasks| :: d.tasks[t].phase == Opening)
    && (forall n <- c.producers :: n in d.producers && d.producers[n].task == c.producers[n].task)
  }

  lemma GrowthKeepsClosing(c: Connection, d: Connection, g: Group)
    requires Grows(c, d)
    ensures ClosingFor(d, g) <==> ClosingFor(c, g)
  {
  }

  lemma SubscribeGrows(c: Connection, groups: seq<Group>, origin: Channel)
    requires Owned(c)
    ensures Grows(c, SubscribeAll(c, groups, origin))
  {
    var d := SubscribeAll(c, groups, origin);
    SubscribeAllHolds(c, groups, origin);
    SubscribeAllTasks(c, groups, origin);
    SubscribeAllOwned(c, groups, origin);
    assert forall t | 0 <= t < |c.tasks| :: d.tasks[t] == d.tasks[..|c.tasks|][t] == c.tasks[t];
  }

  lemma SubscribeKeepsClosing(c: Connection, c1: Connection, groups: seq<Group>, origin: Channel)
    requires Owned(c) && c1 == c.(last := c1.last)
    ensures forall g :: ClosingFor(SubscribeAll(c1, groups, origin), g) <==> ClosingFor(c, g)
  {
    SubscribeGrows(c1, groups, origin);
    forall g {
      GrowthKeepsClosing(c1, SubscribeAll(c1, groups, origin), g);
    }
  }

  lemma AgreesThroughSubscribe(l: Ledger, c: Connection, c1: Connection, groups: seq<Group>, origin: Channel)
    requires Owned(c) && Agrees(l, c) && c1 == c.(last := c1.last)
    ensures var asked := Pairs(origin, groups);
      Agrees(Ledger(l.believed + asked, l.doomed + (set p | p in asked && ClosingFor(c, p.1)), l.lost - asked),
             SubscribeAll(c1, groups, origin))
  {
    var asked := Pairs(origin, groups);
    var d := SubscribeAll(c1, groups, origin);
    SubscribeAllHolds(c1, groups, origin);
    SubscribeAllTasks(c1, groups, origin);
    SubscribeKeepsClosing(c, c1, groups, origin);
    assert forall ch, g :: Holds(c1, ch, g) == Holds(c, ch, g);
    assert forall ch, g :: (ch, g) in asked <==> ch == origin && g in groups;
  }

  lemma AgreesThroughUnsubscribe(l: Ledger, c: Connection, c1: Connection, groups: seq<Group>, origin: Channel)
    requires Owned(c) && Agrees(l, c) && c1 == c.(last := c1.last)
    ensures var dropped := Pairs(origin, groups);
      Agrees(Ledger(l.believed - dropped, l.doomed - dropped, l.lost - dropped), UnsubscribeAll(c1, groups, origin))
  {
    var d := UnsubscribeAll(c1, groups, origin);
    UnsubscribeAllHolds(c1, groups, origin);
    UnsubscribeAllTasks(c1, groups, origin);
    assert forall g :: ClosingFor(d, g) == ClosingFor(c, g);
    assert forall ch, g :: Holds(c1, ch, g) == Holds(c, ch, g);
    assert forall ch, g :: (ch, g) in Pairs(origin, groups) <==> ch == origin && g in groups;
  }

  lemma AgreesThroughFrame(l: Ledger, c: Connection, frame: Frame)
    requires Owned(c) && Agrees(l, c) && c.open
    ensures Agrees(Observe(l, c, Handle(frame)), HandleFrame(c, frame))
  {
    var c1 := if frame.Text? then c.(last := Some(frame.payload)) else c;
    var d := HandleFrame(c, frame);
    match Effective(c, frame) {
      case Subscribe(groups, origin) =>
        AgreesThroughSubscribe(l, c, c1, groups, origin);
        assert d == SubscribeAll(c1, groups, origin);
      case Unsubscribe(groups, origin) =>
        AgreesThroughUnsubscribe(l, c, c1, groups, origin);
        assert d == UnsubscribeAll(c1, groups, origin);
      case _ =>
        assert d.host == c.host && d.producers == c.producers && d.tasks == c.tasks;
        assert forall ch, g :: Holds(d, ch, g) == Holds(c, ch, g);
        assert forall g :: ClosingFor(d, g) == ClosingFor(c, g);
    }
  }

  /** The groups whose entry belongs to task `t`: at most the task's own. */
  lemma OwnsOneGroup(c: Connection, t: nat, g: Group)
    requires Owned(c) && t < |c.tasks| && c.tasks[t].phase != Ended
    ensures (ProducerName(c.host, g) in c.producers && c.producers[ProducerName(c.host, g)].task == t)
            <==> ProducerName(c.host, g) == c.tasks[t].name
    ensures ProducerName(c.host, g) == c.tasks[t].name ==> g == c.tasks[t].group
  {
    NamesAreDistinct(c.host, g, c.tasks[t].group);
  }

  /** A task's phase matters to the one group whose entry it owns. */
  lemma ClosingAfterPhase(c: Connection, t: nat, phase: Phase, g: Group)
    requires Owned(c) && t < |c.tasks| && c.tasks[t].phase != Ended
    ensures ClosingFor(SetPhase(c, t, phase), g) <==>
      if ProducerName(c.host, g) == c.tasks[t].name then phase == Closing else ClosingFor(c, g)
    ensures forall ch :: (ch, g) in HeldBy(c, t) <==> ProducerName(c.host, g) == c.tasks[t].name && Holds(c, ch, g)
    ensures forall ch :: Holds(SetPhase(c, t, phase), ch, g) <==> Holds(c, ch, g)
  {
    OwnsOneGroup(c, t, g);
  }

  lemma AgreesThroughPhase(l: Ledger, l': Ledger, c: Connection, t: nat, phase: Phase)
    requires Owned(c) && Agrees(l, c) && t < |c.tasks| && c.tasks[t].phase != Ended
    requires l'.believed == l.believed && l'.lost == l.lost
    requires forall p :: p in l'.doomed <==>
      if p in HeldBy(c, t) then phase == Closing else p in l.doomed
    ensures Agrees(l', SetPhase(c, t, phase))
  {
    forall ch, g
      ensures (ch, g) in l'.doomed <==> Holds(SetPhase(c, t, phase), ch, g) && ClosingFor(SetPhase(c, t, phase), g)
      ensures Holds(SetPhase(c, t, phase), ch, g) <==> Holds(c, ch, g)
    {
      ClosingAfterPhase(c, t, phase, g);
    }
  }

  /** What the entry of a task holds is doomed iff the task is closing. */
  lemma HeldIsDoomedIffClosing(l: Ledger, c: Connection, t: nat)
    requires Owned(c) && Agrees(l, c) && t < |c.tasks| && c.tasks[t].phase != Ended
    ensures forall p <- HeldBy(c, t) :: p in l.doomed <==> c.tasks[t].phase == Closing
  {
    forall p | p in HeldBy(c, t)
      ensures p in l.doomed <==> c.tasks[t].phase == Closing
    {
      OwnsOneGroup(c, t, p.1);
      assert p == (p.0, p.1) && Holds(c, p.0, p.1);
    }
  }

  lemma AgreesThroughTaskStep(l: Ledger, c: Connection, s: Step)
    requires Owned(c) && Agrees(l, c) && Enabled(c, s) && !s.Handle? && !s.Discarded?
    ensures Agrees(Observe(l, c, s), Next(c, s))
  {
    var t := s.task;
    var phase := Next(c, s).tasks[t].phase;
    if Next(c, s).tasks == c.tasks {
      assert forall ch, g :: Holds(Next(c, s), ch, g) == Holds(c, ch, g);
      assert forall g :: ClosingFor(Next(c, s), g) == ClosingFor(c, g);
    } else {
      HeldIsDoomedIffClosing(l, c, t);
      assert Next(c, s) == SetPhase(c, t, phase);
      AgreesThroughPhase(l, Observe(l, c, s), c, t, phase);
    }
  }

  lemma AgreesThroughDiscard(l: Ledger, c: Connection, t: nat)
    requires Owned(c) && Agrees(l, c) && Live(c, t, Closing)
    ensures Agrees(Observe(l, c, Discarded(t)), Next(c, Discarded(t)))
  {
    var d := Next(c, Discarded(t));
    var l1 := Observe(l, c, Discarded(t));
    forall ch, g
      ensures Holds(d, ch, g) <==> Holds(c, ch, g) && (ch, g) !in HeldBy(c, t)
      ensures (ch, g) in HeldBy(c, t) ==> (ch, g) in l.doomed
      ensures Holds(d, ch, g) ==> (ClosingFor(d, g) <==> ClosingFor(c, g))
    {
      OwnsOneGroup(c, t, g);
    }
    assert forall p | p in l1.lost :: p in l.lost || (p in HeldBy(c, t) && Holds(c, p.0, p.1));
  }

  lemma AgreesThroughStep(l: Ledger, c: Connection, s: Step)
    requires Owned(c) && Agrees(l, c) && Enabled(c, s)
    ensures Agrees(Observe(l, c, s), Next(c, s))
  {
    match s {
      case Handle(frame) => AgreesThroughFrame(l, c, frame);
      case Discarded(t) => AgreesThroughDiscard(l, c, t);
      case _ => AgreesThroughTaskStep(l, c, s);
    }
  }

  lemma {:induction false} AgreesThroughRun(l: Ledger, c: Connection, steps: seq<Step>)
    requires Owned(c) && Agrees(l, c) && IsRun(c, steps)
    ensures Agrees(Observed(l, c, steps), After(c, steps))
    decreases |steps|
  {
    if steps != [] {
      NextOwned(c, steps[0]);
      AgreesThroughStep(l, c, steps[0]);
      AgreesThroughRun(Observe(l, c, steps[0]), Next(c, steps[0]), steps[1..]);
    }
  }

  lemma AgreesAtStart(host: string)
    ensures Agrees(EMPTY, Start(host)) && Owned(Start(host))
  {
    forall ch, g
      ensures !Holds(Start(host), ch, g)
    {
      NamesAreDistinct(host, g, g);
    }
  }

  /**
   Over every run, whatever fails in it: the table holds a subscription exactly when the messages
   processed so far ask for it and no deletion since has dropped it.
   */
  lemma SubscriptionsExact(host: string, steps: seq<Step>)
    requires IsRun(Start(host), steps)
    ensures var c, l := After(Start(host), steps), Observed(EMPTY, Start(host), steps);
      forall ch, g :: Holds(c, ch, g) <==> (ch, g) in l.believed && (ch, g) !in l.lost
  {
    AgreesAtStart(host);
    AgreesThroughRun(EMPTY, Start(host), steps);
  }

  // ---------- What can be lost ----------

  /** A subscription of `ch` that arrives between the decision to stop and the deletion. */
  ghost predicate ArrivesLate(c: Connection, s: Step, ch: Channel) {
    && s.Handle? && Effective(c, s.frame).Subscribe? && Effective(c, s.frame).origin == ch
    && exists g <- Effective(c, s.frame).groups :: ClosingFor(c, g)
  }

  /** A producer that holds a subscription of `ch` leaves its loop because something raised. */
  ghost predicate FailsHolding(c: Connection, s: Step, ch: Channel)
    requires Enabled(c, s)
  {
    (s.Failed? || s.Received?) && Starts(c, s, s.task) && exists p <- HeldBy(c, s.task) :: p.0 == ch
  }

  ghost predicate Undisturbed(c: Connection, steps: seq<Step>, ch: Channel)
    requires IsRun(c, steps)
    decreases |steps|
  {
    steps == [] ||
    (!ArrivesLate(c, steps[0], ch) && !FailsHolding(c, steps[0], ch) && Undisturbed(Next(c, steps[0]), steps[1..], ch))
  }

  /** No subscription of `ch` is at risk, and none was dropped. */
  ghost predicate Unharmed(l: Ledger, ch: Channel) {
    forall p :: p in l.doomed + l.lost ==> p.0 != ch
  }

  lemma IdleProducersHoldNothing(c: Connection, t: nat)
    requires Owned(c) && Enabled(c, TimedOut(t)) && Starts(c, TimedOut(t), t)
    ensures HeldBy(c, t) == {}
  {
  }

  lemma StepKeepsUnharmed(l: Ledger, c: Connection, s: Step, ch: Channel)
    requires Owned(c) && Enabled(c, s) && Unharmed(l, ch) && !ArrivesLate(c, s, ch) && !FailsHolding(c, s, ch)
    ensures Unharmed(Observe(l, c, s), ch)
  {
    if s.TimedOut? && Starts(c, s, s.task) {
      IdleProducersHoldNothing(c, s.task);
    }
    forall p | p in Observe(l, c, s).doomed + Observe(l, c, s).lost && p !in l.doomed + l.lost
      ensures p.0 != ch
    {
      if s.Handle? {
        var e := Effective(c, s.frame);
        assert p.0 == e.origin && p.1 in e.groups && ClosingFor(c, p.1);
      } else {
        assert p in HeldBy(c, s.task);
      }
    }
  }

  lemma {:induction false} UndisturbedKeepsUnharmed(l: Ledger, c: Connection, steps: seq<Step>, ch: Channel)
    requires Owned(c) && IsRun(c, steps) && Undisturbed(c, steps, ch) && Unharmed(l, ch)
    ensures Unharmed(Observed(l, c, steps), ch)
    decreases |steps|
  {
    if steps != [] {
      NextOwned(c, steps[0]);
      StepKeepsUnharmed(l, c, steps[0], ch);
      UndisturbedKeepsUnharmed(Observe(l, c, steps[0]), Next(c, steps[0]), steps[1..], ch);
    }
  }

  /**
   Unless a subscribe of the consumer reaches a producer between its decision to stop and its deletion, or
   a producer fails while it serves the consumer, the table holds the consumer for exactly what its messages
   ask for, whatever befalls other consumers.
   */
  lemma LossNeedsLateArrivalOrFailure(host: string, steps: seq<Step>, ch: Channel)
    requires IsRun(Start(host), steps) && Undisturbed(Start(host), steps, ch)
    ensures var c, l := After(Start(host), steps), Observed(EMPTY, Start(host), steps);
      forall g :: (ch, g) !in l.lost && (Holds(c, ch, g) <==> (ch, g) in l.believed)
  {
    AgreesAtStart(host);
    SubscriptionsExact(host, steps);
    UndisturbedKeepsUnharmed(EMPTY, Start(host), steps, ch);
    var l := Observed(EMPTY, Start(host), steps);
    forall g
      ensures (ch, g) !in l.lost
    {
      assert (ch, g) !in l.doomed + l.lost;
    }
  }

  /** The window is real: a deletion loses precisely the subscriptions its entry still holds. */
  lemma DeletionLosesWhatItHolds(l: Ledger, c: Connection, t: nat, ch: Channel, g: Group)
    requires Owned(c) && Agrees(l, c) && Live(c, t, Closing) && c.tasks[t].name == ProducerName(c.host, g)
    ensures var d, l1 := Next(c, Discarded(t)), Observe(l, c, Discarded(t));
      !Holds(d, ch, g) && ((ch, g) in l1.lost - l.lost <==> Holds(c, ch, g))
  {
    AgreesThroughDiscard(l, c, t);
    NamesAreDistinct(c.host, g, c.tasks[t].group);
    OwnsOneGroup(c, t, g);
  }

  /** A late arrival is lost: decide to stop, subscribe, delete leaves the group unserved. */
  lemma LateArrivalIsLost(c: Connection, t: nat, ch: Channel, g: Group)
    requires Owned(c) && c.open && Live(c, t, Listening) && c.tasks[t].name == ProducerName(c.host, g)
    requires c.producers[c.tasks[t].name].subscriptions == {}
    ensures var steps := [TimedOut(t), Handle(Text(Subscribe([g], ch))), Discarded(t)];
      IsRun(c, steps) && ProducerName(c.host, g) !in After(c, steps).producers
  {
    var c1 := Next(c, TimedOut(t));
    NextOwned(c, TimedOut(t));
    var c1' := c1.(last := Some(Subscribe([g], ch)));
    assert [g][..0] == [];
    assert SubscribeAll(c1', [], ch) == c1';
    var c2 := SubscribeOne(c1', g, ch);
    assert SubscribeAll(c1', [g], ch) == c2;
    assert Next(c1, Handle(Text(Subscribe([g], ch)))) == c2;
    assert c2.tasks == c1.tasks;
    var c3 := Next(c2, Discarded(t));
    assert ProducerName(c.host, g) !in c3.producers;
    var s0, s1, s2 := TimedOut(t), Handle(Text(Subscribe([g], ch))), Discarded(t);
    assert [s0, s1, s2][1..] == [s1, s2] && [s1, s2][1..] == [s2] && [s2][1..] == [];
    assert IsRun(c3, []) && IsRun(c2, [s2]) && IsRun(c1, [s1, s2]);
    assert After(c2, [s2]) == After(c3, []) == c3;
    assert After(c1, [s1, s2]) == c3;
  }
}
