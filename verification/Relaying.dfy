/**
 Notifications travelling through relay connections: `emit_channel_notification` sends a flagged
 message to a group, producers forward it without the flag, and `RelayConsumer.receive_json` sends
 what arrives to the same group of its own channel layer, which may be the one it came from.
 */
module Relaying {
  import opened Wrappers
  import opened RelayConnection
  import opened RelayTable
  import opened RelayLedger

  type Layer = nat

  /**
   A connection, the mailbox of each of its producer tasks, and how many of the envelopes it sent
   the other side has read. Producers listen on layer `home`; the other side sends on layer `away`.
   */
  datatype Line = Line(conn: Connection, boxes: seq<seq<Message>>, read: nat, home: Layer, away: Layer)

  /** Where a notification was emitted: its group, and the channel layer of the emitting node. */
  datatype Origin = Origin(group: Group, layer: Layer)

  /** `emitted`: the notifications emitted so far, each with its origin. */
  datatype Mesh = Mesh(lines: seq<Line>, emitted: map<nat, Origin>)

  datatype Event =
    | Emit(layer: Layer, group: Group, id: nat)
    | Protocol(line: nat, step: Step)
    | Take(line: nat, task: nat)
    | Reinject(line: nat)

  predicate Member(t: Task, g: Group) {
    t.group == g && t.phase in {Listening, Closing}
  }

  function GroupSend(l: Line, layer: Layer, g: Group, m: Message): Line
    requires |l.boxes| == |l.conn.tasks|
  {
    if l.home != layer then l
    else l.(boxes := seq(|l.boxes|, t requires 0 <= t < |l.boxes| =>
              if Member(l.conn.tasks[t], g) then l.boxes[t] + [m] else l.boxes[t]))
  }

  function GroupSendAll(lines: seq<Line>, layer: Layer, g: Group, m: Message): seq<Line>
    requires forall l <- lines :: |l.boxes| == |l.conn.tasks|
  {
    seq(|lines|, i requires 0 <= i < |lines| => GroupSend(lines[i], layer, g, m))
  }

  ghost predicate Boxed(n: Mesh) {
    forall l <- n.lines :: |l.boxes| == |l.conn.tasks|
  }

  ghost predicate CanHappen(n: Mesh, e: Event) {
    match e
    case Emit(_, _, id) => id !in n.emitted
    case Protocol(i, s) =>
      i < |n.lines| && !s.Received? && Enabled(n.lines[i].conn, s)
    case Take(i, t) =>
      i < |n.lines| && Live(n.lines[i].conn, t, Listening) && t < |n.lines[i].boxes| && n.lines[i].boxes[t] != []
    case Reinject(i) => i < |n.lines| && n.lines[i].read < |n.lines[i].conn.sent|
  }

  /** New tasks start with an empty mailbox. */
  ghost function Fit(boxes: seq<seq<Message>>, n: nat): seq<seq<Message>> {
    if |boxes| <= n then boxes + seq(n - |boxes|, _ => []) else boxes
  }

  ghost function Happen(n: Mesh, e: Event): Mesh
    requires Boxed(n) && CanHappen(n, e)
  {
    match e
    case Emit(layer, g, id) =>
      Mesh(GroupSendAll(n.lines, layer, g, Message(id, Some(true))), n.emitted[id := Origin(g, layer)])
    case Protocol(i, s) =>
      var l := n.lines[i];
      var c := Next(l.conn, s);
      n.(lines := n.lines[i := l.(conn := c, boxes := Fit(l.boxes, |c.tasks|))])
    case Take(i, t) =>
      var l := n.lines[i];
      var taken := l.(conn := Next(l.conn, Received(t, l.boxes[t][0])), boxes := l.boxes[t := l.boxes[t][1..]]);
      n.(lines := n.lines[i := taken])
    case Reinject(i) =>
      var l := n.lines[i];
      var env := l.conn.sent[l.read];
      var lines := n.lines[i := l.(read := l.read + 1)];
      // The group "metrics" goes to a key of the store instead of a channel-layer group.
      n.(lines := if env.group == METRICS then lines else GroupSendAll(lines, l.away, env.group, env.message))
  }

  // ---------- What every event keeps ----------

  ghost predicate Pending(l: Line, t: int, p: int, id: nat) {
    0 <= t < |l.boxes| && 0 <= p < |l.boxes[t]| && l.boxes[t][p].id == id && Flagged(l.boxes[t][p])
  }

  ghost predicate SentAt(l: Line, p: int, id: nat) {
    0 <= p < |l.conn.sent| && l.conn.sent[p].message.id == id
  }

  /** The event processes a subscribe that names the group "metrics". */
  predicate MetricsNamedBy(n: Mesh, e: Event) {
    e.Protocol? && e.line < |n.lines| && NamesMetrics(n.lines[e.line].conn, e.step)
  }

  /** The table is owned, and the flag never reaches a websocket. With `all`, no subscribe ever named "metrics". */
  ghost predicate SoundLine(l: Line, all: bool) {
    && |l.boxes| == |l.conn.tasks| && l.read <= |l.conn.sent|
    && Owned(l.conn)
    && (all ==> ProducerName(l.conn.host, METRICS) !in l.conn.producers)
    && (forall env <- l.conn.sent :: env.message.needsRelay == None)
  }

  /** The notifications that at most one producer of a line can meet. */
  predicate Counted(emitted: map<nat, Origin>, all: bool, id: nat) {
    id in emitted && (all || emitted[id].group != METRICS)
  }

  /** The task whose mailbox this is serves the group. */
  ghost predicate Serves(l: Line, t: int, g: Group) {
    0 <= t < |l.conn.tasks| && l.conn.tasks[t].group == g
  }

  /** The notification was emitted on the layer this line's producers listen on. */
  predicate Native(l: Line, emitted: map<nat, Origin>, id: nat) {
    id in emitted && emitted[id].layer == l.home
  }

  /**
   Flagged and forwarded messages are native to the line, and a counted notification is in at most one
   place: one mailbox slot or one envelope.
   */
  ghost predicate SinglePlace(l: Line, emitted: map<nat, Origin>, all: bool) {
    && (forall t, p, id :: Pending(l, t, p, id) ==> Native(l, emitted, id) && Serves(l, t, emitted[id].group))
    && (forall p, id :: SentAt(l, p, id) ==> Native(l, emitted, id) && l.conn.sent[p].group == emitted[id].group)
    && (forall t, p, u, q, id :: Counted(emitted, all, id) && Pending(l, t, p, id) && Pending(l, u, q, id) ==>
      t == u && p == q)
    && (forall p, q, id :: Counted(emitted, all, id) && SentAt(l, p, id) && SentAt(l, q, id) ==> p == q)
    && (forall t, p, q, id :: Counted(emitted, all, id) && Pending(l, t, p, id) ==> !SentAt(l, q, id))
  }

  ghost predicate Sound(n: Mesh, all: bool) {
    && (forall l <- n.lines :: SoundLine(l, all))
    && (forall l <- n.lines :: SinglePlace(l, n.emitted, all))
  }

  lemma OneMember(l: Line, all: bool, g: Group, t: nat, u: nat)
    requires SoundLine(l, all) && (all || g != METRICS) && t < |l.conn.tasks| && u < |l.conn.tasks|
    requires Member(l.conn.tasks[t], g) && Member(l.conn.tasks[u], g)
    ensures t == u
  {
    var a, b := l.conn.tasks[t], l.conn.tasks[u];
    assert WellNamed(l.conn, a) && WellNamed(l.conn, b);
    assert a.name == b.name;
  }

  lemma EmitPending(l: Line, layer: Layer, g: Group, id: nat, t: int, p: int, i: nat)
    requires |l.boxes| == |l.conn.tasks|
    requires Pending(GroupSend(l, layer, g, Message(id, Some(true))), t, p, i)
    ensures Pending(l, t, p, i) ||
      (i == id && l.home == layer && 0 <= t < |l.conn.tasks| && Member(l.conn.tasks[t], g) && p == |l.boxes[t]|)
  {
  }

  /** Sending a fresh flagged message puts it in at most one mailbox of a line, unless two producers serve its group. */
  lemma EmitKeepsLine(l: Line, emitted: map<nat, Origin>, all: bool, layer: Layer, g: Group, id: nat)
    requires SoundLine(l, all) && SinglePlace(l, emitted, all) && id !in emitted
    ensures var l' := GroupSend(l, layer, g, Message(id, Some(true)));
      SoundLine(l', all) && SinglePlace(l', emitted[id := Origin(g, layer)], all)
  {
    var l' := GroupSend(l, layer, g, Message(id, Some(true)));
    forall t, p, i | Pending(l', t, p, i)
      ensures Pending(l, t, p, i) ||
        (i == id && l.home == layer && 0 <= t < |l.conn.tasks| && Member(l.conn.tasks[t], g) && p == |l.boxes[t]|)
    {
      EmitPending(l, layer, g, id, t, p, i);
    }
    forall t, p, u, q, i |
      Counted(emitted[id := Origin(g, layer)], all, i) && Pending(l', t, p, i) && Pending(l', u, q, i)
      ensures t == u && p == q
    {
      if i == id {
        OneMember(l, all, g, t, u);
      }
    }
    assert forall p, i :: SentAt(l', p, i) == SentAt(l, p, i);
  }

  lemma ReinjectKeepsLine(l: Line, emitted: map<nat, Origin>, all: bool, layer: Layer, g: Group, m: Message)
    requires SoundLine(l, all) && SinglePlace(l, emitted, all) && !Flagged(m)
    ensures var l' := GroupSend(l, layer, g, m); SoundLine(l', all) && SinglePlace(l', emitted, all)
  {
    var l' := GroupSend(l, layer, g, m);
    assert forall t, p, i :: Pending(l', t, p, i) ==> Pending(l, t, p, i);
    assert forall p, i :: SentAt(l', p, i) == SentAt(l, p, i);
  }

  lemma ReadKeepsLine(l: Line, emitted: map<nat, Origin>, all: bool, read: nat)
    requires SoundLine(l, all) && SinglePlace(l, emitted, all) && read <= |l.conn.sent|
    ensures SoundLine(l.(read := read), all) && SinglePlace(l.(read := read), emitted, all)
  {
    var l' := l.(read := read);
    assert forall t, p, i :: Pending(l', t, p, i) == Pending(l, t, p, i);
    assert forall p, i :: SentAt(l', p, i) == SentAt(l, p, i);
  }

  /** The producer is past its loop. */
  predicate HasLeft(c: Connection, t: nat) {
    t < |c.tasks| && c.tasks[t].phase !in {Opening, Listening}
  }

  /** A protocol step sends nothing, and a task keeps the group it serves and does not return to its loop. */
  lemma StepKeepsGroups(c: Connection, s: Step)
    requires Owned(c) && Enabled(c, s) && !s.Received?
    ensures var d := Next(c, s);
      && d.sent == c.sent && |c.tasks| <= |d.tasks|
      && forall t | 0 <= t < |c.tasks| ::
           d.tasks[t].group == c.tasks[t].group && (HasLeft(c, t) ==> HasLeft(d, t))
  {
    if s.Handle? {
      HandleFrameTasks(c, s.frame);
      var d := Next(c, s);
      assert forall t | 0 <= t < |c.tasks| :: d.tasks[t] == d.tasks[..|c.tasks|][t];
    }
  }

  lemma ProtocolKeepsLine(l: Line, emitted: map<nat, Origin>, all: bool, s: Step)
    requires SoundLine(l, all) && SinglePlace(l, emitted, all)
    requires !s.Received? && Enabled(l.conn, s) && (all ==> !NamesMetrics(l.conn, s))
    ensures var c := Next(l.conn, s);
      var l' := l.(conn := c, boxes := Fit(l.boxes, |c.tasks|));
      SoundLine(l', all) && SinglePlace(l', emitted, all)
  {
    var c := Next(l.conn, s);
    var l' := l.(conn := c, boxes := Fit(l.boxes, |c.tasks|));
    NextOwned(l.conn, s);
    if all {
      StepKeepsNoMetricsProducer(l.conn, s);
    }
    StepKeepsGroups(l.conn, s);
    assert forall t, p, i :: Pending(l', t, p, i) ==> Pending(l, t, p, i);
    assert forall p, i :: SentAt(l', p, i) == SentAt(l, p, i);
  }

  lemma TakeKeepsLine(l: Line, emitted: map<nat, Origin>, all: bool, t: nat)
    requires SoundLine(l, all) && SinglePlace(l, emitted, all)
    requires Live(l.conn, t, Listening) && l.boxes[t] != []
    ensures var l' := l.(conn := Next(l.conn, Received(t, l.boxes[t][0])), boxes := l.boxes[t := l.boxes[t][1..]]);
      SoundLine(l', all) && SinglePlace(l', emitted, all)
  {
    var m := l.boxes[t][0];
    var l' := l.(conn := Next(l.conn, Received(t, m)), boxes := l.boxes[t := l.boxes[t][1..]]);
    NextOwned(l.conn, Received(t, m));
    assert Flagged(m) ==> Pending(l, t, 0, m.id);
    forall u, p, id | Pending(l', u, p, id)
      ensures Pending(l, u, if u == t then p + 1 else p, id)
    {
    }
    forall p, id | SentAt(l', p, id)
      ensures SentAt(l, p, id) ||
        (p == |l.conn.sent| && id == m.id && Flagged(m) && l'.conn.sent[p].group == l.conn.tasks[t].group)
    {
    }
  }

  lemma ReinjectKeepsLines(n: Mesh, all: bool, j: nat, i: nat)
    requires Sound(n, all) && Boxed(n) && CanHappen(n, Reinject(j)) && i < |n.lines|
    ensures var l' := Happen(n, Reinject(j)).lines[i]; SoundLine(l', all) && SinglePlace(l', n.emitted, all)
  {
    var l, from := n.lines[i], n.lines[j];
    assert l in n.lines && from in n.lines && SoundLine(from, all);
    var env := from.conn.sent[from.read];
    assert env in from.conn.sent;
    var l1 := if i == j then l.(read := l.read + 1) else l;
    ReadKeepsLine(l, n.emitted, all, l1.read);
    ReinjectKeepsLine(l1, n.emitted, all, from.away, env.group, env.message);
  }

  lemma EventKeepsLine(n: Mesh, e: Event, all: bool, i: nat)
    requires Sound(n, all) && Boxed(n) && CanHappen(n, e) && (all ==> !MetricsNamedBy(n, e)) && i < |n.lines|
    ensures |Happen(n, e).lines| == |n.lines|
    ensures SoundLine(Happen(n, e).lines[i], all) && SinglePlace(Happen(n, e).lines[i], Happen(n, e).emitted, all)
  {
    var l := n.lines[i];
    assert l in n.lines;
    match e {
      case Emit(layer, g, id) => EmitKeepsLine(l, n.emitted, all, layer, g, id);
      case Protocol(j, s) =>
        if j == i {
          ProtocolKeepsLine(l, n.emitted, all, s);
        }
      case Take(j, t) =>
        if j == i {
          TakeKeepsLine(l, n.emitted, all, t);
        }
      case Reinject(j) => ReinjectKeepsLines(n, all, j, i);
    }
  }

  lemma EventKeepsSound(n: Mesh, e: Event, all: bool)
    requires Sound(n, all) && CanHappen(n, e) && (all ==> !MetricsNamedBy(n, e))
    ensures Boxed(n) && Sound(Happen(n, e), all)
  {
    assert Boxed(n);
    var n' := Happen(n, e);
    forall i | 0 <= i < |n'.lines|
      ensures SoundLine(n'.lines[i], all) && SinglePlace(n'.lines[i], n'.emitted, all)
    {
      EventKeepsLine(n, e, all, i);
    }
  }

  ghost predicate IsHistory(n: Mesh, es: seq<Event>)
    requires Boxed(n)
    decreases |es|
  {
    es == [] || (CanHappen(n, es[0]) && Boxed(Happen(n, es[0])) && IsHistory(Happen(n, es[0]), es[1..]))
  }

  ghost function Outcome(n: Mesh, es: seq<Event>): Mesh
    requires Boxed(n) && IsHistory(n, es)
    decreases |es|
  {
    if es == [] then n else Outcome(Happen(n, es[0]), es[1..])
  }

  ghost predicate MetricsNeverNamed(n: Mesh, es: seq<Event>)
    requires Boxed(n) && IsHistory(n, es)
    decreases |es|
  {
    es == [] || (!MetricsNamedBy(n, es[0]) && MetricsNeverNamed(Happen(n, es[0]), es[1..]))
  }

  ghost predicate Quiet(n: Mesh) {
    && n.emitted == map[]
    && forall l <- n.lines :: l.conn == Start(l.conn.host) && l.boxes == [[]] && l.read == 0
  }

  lemma {:induction false} HistoryKeepsSound(n: Mesh, es: seq<Event>, all: bool)
    requires Boxed(n) && Sound(n, all) && IsHistory(n, es) && (all ==> MetricsNeverNamed(n, es))
    ensures Sound(Outcome(n, es), all)
    decreases |es|
  {
    if es != [] {
      EventKeepsSound(n, es[0], all);
      HistoryKeepsSound(Happen(n, es[0]), es[1..], all);
    }
  }

  lemma QuietIsSound(n: Mesh, all: bool)
    requires Quiet(n)
    ensures Boxed(n) && Sound(n, all)
  {
    forall l <- n.lines
      ensures SoundLine(l, all) && SinglePlace(l, map[], all)
    {
      NamesAreDistinct(l.conn.host, METRICS, METRICS);
    }
  }

  /** What crossed a line: native notifications under their own group, without the flag; counted ones once. */
  lemma SentOnce(l: Line, emitted: map<nat, Origin>, all: bool)
    requires SoundLine(l, all) && SinglePlace(l, emitted, all)
    ensures forall p | 0 <= p < |l.conn.sent| ::
      var env := l.conn.sent[p];
      !Flagged(env.message) && Native(l, emitted, env.message.id) && env.group == emitted[env.message.id].group
    ensures forall p, q | 0 <= p < q < |l.conn.sent| && (all || l.conn.sent[p].group != METRICS) ::
      l.conn.sent[p].message.id != l.conn.sent[q].message.id
  {
    forall p | 0 <= p < |l.conn.sent|
      ensures var env := l.conn.sent[p];
        !Flagged(env.message) && Native(l, emitted, env.message.id) && env.group == emitted[env.message.id].group
    {
      assert l.conn.sent[p] in l.conn.sent && SentAt(l, p, l.conn.sent[p].message.id);
    }
    forall p, q | 0 <= p < q < |l.conn.sent| && (all || l.conn.sent[p].group != METRICS)
      ensures l.conn.sent[p].message.id != l.conn.sent[q].message.id
    {
      var id := l.conn.sent[p].message.id;
      assert SentAt(l, p, id) && Counted(emitted, all, id);
      assert SentAt(l, q, l.conn.sent[q].message.id);
    }
  }

  /** No event changes the ends of a line. */
  ghost predicate SameEnds(n: Mesh, m: Mesh) {
    && |m.lines| == |n.lines|
    && forall i | 0 <= i < |n.lines| :: m.lines[i].home == n.lines[i].home && m.lines[i].away == n.lines[i].away
  }

  lemma {:induction false} HistoryKeepsEnds(n: Mesh, es: seq<Event>)
    requires Boxed(n) && IsHistory(n, es)
    ensures SameEnds(n, Outcome(n, es))
    decreases |es|
  {
    if es != [] {
      assert SameEnds(n, Happen(n, es[0]));
      HistoryKeepsEnds(Happen(n, es[0]), es[1..]);
    }
  }

  /** What a history has emitted can be found in it. */
  lemma {:induction false} EmittedInHistory(n: Mesh, es: seq<Event>, id: nat)
    requires Boxed(n) && IsHistory(n, es)
    ensures var e := Outcome(n, es);
      && (id in e.emitted && id !in n.emitted ==> Emit(e.emitted[id].layer, e.emitted[id].group, id) in es)
      && (id in n.emitted ==> id in e.emitted && e.emitted[id] == n.emitted[id])
    decreases |es|
  {
    if es != [] {
      assert es == [es[0]] + es[1..];
      EmittedInHistory(Happen(n, es[0]), es[1..], id);
    }
  }

  /**
   Over every history of any number of connections, on shared or separate layers: what crosses a
   connection was emitted to the same group on the layer its producers listen on, and a notification to any
   group but "metrics" crosses it at most once. Nothing on a websocket carries the flag.
   */
  lemma ForwardedAtMostOnce(n: Mesh, es: seq<Event>, i: nat)
    requires Quiet(n) && Boxed(n) && IsHistory(n, es) && i < |n.lines|
    ensures |Outcome(n, es).lines| == |n.lines|
    ensures var sent := Outcome(n, es).lines[i].conn.sent;
      && (forall p | 0 <= p < |sent| ::
            && !Flagged(sent[p].message)
            && Emit(n.lines[i].home, sent[p].group, sent[p].message.id) in es)
      && (forall p, q | 0 <= p < q < |sent| && sent[p].group != METRICS :: sent[p].message.id != sent[q].message.id)
  {
    QuietIsSound(n, false);
    HistoryKeepsSound(n, es, false);
    var e := Outcome(n, es);
    HistoryKeepsEnds(n, es);
    var l := e.lines[i];
    assert l in e.lines;
    SentOnce(l, e.emitted, false);
    forall p | 0 <= p < |l.conn.sent|
      ensures Emit(n.lines[i].home, l.conn.sent[p].group, l.conn.sent[p].message.id) in es
    {
      EmittedInHistory(n, es, l.conn.sent[p].message.id);
    }
  }

  /**
   No second hop: two connections that a notification crosses, "metrics" or not, have their producers on
   one layer. After crossing to another layer it never crosses a connection that starts there.
   */
  lemma NoSecondHop(n: Mesh, es: seq<Event>, i: nat, j: nat, p: nat, q: nat)
    requires Quiet(n) && Boxed(n) && IsHistory(n, es) && i < |n.lines| && j < |n.lines|
    requires |Outcome(n, es).lines| == |n.lines|
    requires p < |Outcome(n, es).lines[i].conn.sent| && q < |Outcome(n, es).lines[j].conn.sent|
    requires Outcome(n, es).lines[i].conn.sent[p].message.id == Outcome(n, es).lines[j].conn.sent[q].message.id
    ensures n.lines[i].home == n.lines[j].home
    ensures n.lines[i].away != n.lines[i].home ==> n.lines[j].home != n.lines[i].away
  {
    QuietIsSound(n, false);
    HistoryKeepsSound(n, es, false);
    var e := Outcome(n, es);
    HistoryKeepsEnds(n, es);
    assert e.lines[i] in e.lines && e.lines[j] in e.lines;
    SentOnce(e.lines[i], e.emitted, false);
    SentOnce(e.lines[j], e.emitted, false);
  }

  lemma {:induction false} DistinctFit(xs: seq<nat>, s: set<nat>)
    requires forall x <- xs :: x in s
    requires forall i, j | 0 <= i < j < |xs| :: xs[i] != xs[j]
    ensures |xs| <= |s|
  {
    if xs != [] {
      forall x <- xs[1..]
        ensures x in s - {xs[0]}
      {
        var j :| 0 <= j < |xs| - 1 && xs[1..][j] == x;
        assert xs[j + 1] == x;
      }
      DistinctFit(xs[1..], s - {xs[0]});
    }
  }

  /** So does one to "metrics", as long as no web node subscribes to that group by name. */
  lemma AllForwardedAtMostOnce(n: Mesh, es: seq<Event>, i: nat)
    requires Quiet(n) && Boxed(n) && IsHistory(n, es) && MetricsNeverNamed(n, es) && i < |Outcome(n, es).lines|
    ensures var sent := Outcome(n, es).lines[i].conn.sent;
      && (forall p, q | 0 <= p < q < |sent| :: sent[p].message.id != sent[q].message.id)
      && |sent| <= |Outcome(n, es).emitted|
  {
    QuietIsSound(n, true);
    HistoryKeepsSound(n, es, true);
    var e := Outcome(n, es);
    var l := e.lines[i];
    assert l in e.lines;
    SentOnce(l, e.emitted, true);
    DistinctFit(seq(|l.conn.sent|, p requires 0 <= p < |l.conn.sent| => l.conn.sent[p].message.id), e.emitted.Keys);
    assert |e.emitted.Keys| == |e.emitted|;
  }

  // ---------- At least once ----------

  /** The producer has left, or the flagged message is in its mailbox, or it went over the websocket unflagged. */
  ghost predicate OnItsWay(l: Line, t: nat, g: Group, id: nat) {
    && t < |l.boxes| == |l.conn.tasks| && l.conn.tasks[t].group == g
    && (HasLeft(l.conn, t) || Message(id, Some(true)) in l.boxes[t] || Envelope(g, Message(id, None)) in l.conn.sent)
  }

  /** A listening producer of the group on the layer is given the message at the end of its mailbox. */
  lemma GroupSendReaches(l: Line, layer: Layer, g: Group, m: Message, t: nat)
    requires |l.boxes| == |l.conn.tasks| && l.home == layer && Live(l.conn, t, Listening) && l.conn.tasks[t].group == g
    ensures var l' := GroupSend(l, layer, g, m); l'.conn == l.conn && l'.boxes[t] == l.boxes[t] + [m]
  {
  }

  lemma GroupSendKeepsOnItsWay(l: Line, layer: Layer, g': Group, m: Message, t: nat, g: Group, id: nat)
    requires OnItsWay(l, t, g, id)
    ensures OnItsWay(GroupSend(l, layer, g', m), t, g, id)
  {
  }

  lemma TakeKeepsOnItsWay(l: Line, u: nat, t: nat, g: Group, id: nat)
    requires OnItsWay(l, t, g, id) && Live(l.conn, u, Listening) && l.boxes[u] != []
    ensures var l' := l.(conn := Next(l.conn, Received(u, l.boxes[u][0])), boxes := l.boxes[u := l.boxes[u][1..]]);
      OnItsWay(l', t, g, id)
  {
    assert l.boxes[u] == [l.boxes[u][0]] + l.boxes[u][1..];
    var sent := l.conn.sent;
    assert forall e :: Envelope(g, Message(id, None)) in sent ==> Envelope(g, Message(id, None)) in sent + [e];
  }

  lemma ProtocolKeepsOnItsWay(l: Line, s: Step, t: nat, g: Group, id: nat)
    requires OnItsWay(l, t, g, id) && Owned(l.conn) && !s.Received? && Enabled(l.conn, s)
    ensures var c := Next(l.conn, s); OnItsWay(l.(conn := c, boxes := Fit(l.boxes, |c.tasks|)), t, g, id)
  {
    StepKeepsGroups(l.conn, s);
  }

  lemma EventKeepsOnItsWay(n: Mesh, e: Event, i: nat, t: nat, g: Group, id: nat)
    requires Sound(n, false) && Boxed(n) && CanHappen(n, e) && i < |n.lines| && OnItsWay(n.lines[i], t, g, id)
    ensures |Happen(n, e).lines| == |n.lines| && OnItsWay(Happen(n, e).lines[i], t, g, id)
  {
    var l := n.lines[i];
    assert l in n.lines && SoundLine(l, false);
    match e {
      case Emit(layer, g', id') => GroupSendKeepsOnItsWay(l, layer, g', Message(id', Some(true)), t, g, id);
      case Protocol(j, s) =>
        if j == i {
          ProtocolKeepsOnItsWay(l, s, t, g, id);
        }
      case Take(j, u) =>
        if j == i {
          TakeKeepsOnItsWay(l, u, t, g, id);
        }
      case Reinject(j) =>
        var env := n.lines[j].conn.sent[n.lines[j].read];
        var l1 := if i == j then l.(read := l.read + 1) else l;
        GroupSendKeepsOnItsWay(l1, n.lines[j].away, env.group, env.message, t, g, id);
    }
  }

  lemma {:induction false} HistoryKeepsOnItsWay(n: Mesh, es: seq<Event>, i: nat, t: nat, g: Group, id: nat)
    requires Sound(n, false) && Boxed(n) && IsHistory(n, es) && i < |n.lines| && OnItsWay(n.lines[i], t, g, id)
    ensures |Outcome(n, es).lines| == |n.lines| && OnItsWay(Outcome(n, es).lines[i], t, g, id)
    decreases |es|
  {
    if es != [] {
      EventKeepsSound(n, es[0], false);
      EventKeepsOnItsWay(n, es[0], i, t, g, id);
      HistoryKeepsOnItsWay(Happen(n, es[0]), es[1..], i, t, g, id);
    }
  }

  /** A producer of line `i` serves the group, and a fresh notification is emitted to it on its layer. */
  ghost predicate EmittedTo(n: Mesh, i: nat, t: nat, g: Group, id: nat) {
    i < |n.lines| && Live(n.lines[i].conn, t, Listening) && n.lines[i].conn.tasks[t].group == g && id !in n.emitted
  }

  /**
   Nothing is lost: over every history, a notification emitted to a group that a producer is listening to is
   ever after in the producer's mailbox, or forwarded under its group, or the producer has left its loop.
   */
  lemma ForwardedUnlessLeft(n: Mesh, before: seq<Event>, after: seq<Event>, i: nat, t: nat, g: Group, id: nat)
    requires Quiet(n) && Boxed(n) && IsHistory(n, before) && Boxed(Outcome(n, before))
    requires EmittedTo(Outcome(n, before), i, t, g, id)
    requires var m := Outcome(n, before);
      var m1 := Happen(m, Emit(m.lines[i].home, g, id)); Boxed(m1) && IsHistory(m1, after)
    ensures var m := Outcome(n, before);
      var e := Outcome(Happen(m, Emit(m.lines[i].home, g, id)), after);
      && Sound(e, false) && i < |e.lines| && t < |e.lines[i].boxes| == |e.lines[i].conn.tasks|
      && (e.lines[i].conn.tasks[t].phase == Listening ==>
            || Message(id, Some(true)) in e.lines[i].boxes[t]
            || Envelope(g, Message(id, None)) in e.lines[i].conn.sent)
  {
    QuietIsSound(n, false);
    HistoryKeepsSound(n, before, false);
    var m := Outcome(n, before);
    var emit := Emit(m.lines[i].home, g, id);
    EventKeepsSound(m, emit, false);
    GroupSendReaches(m.lines[i], m.lines[i].home, g, Message(id, Some(true)), t);
    HistoryKeepsOnItsWay(Happen(m, emit), after, i, t, g, id);
    HistoryKeepsSound(Happen(m, emit), after, false);
  }

  /** Once such a producer has worked off its mailbox, the notification has crossed the line exactly once. */
  lemma ForwardedExactlyOnce(n: Mesh, before: seq<Event>, after: seq<Event>, i: nat, t: nat, g: Group, id: nat)
    returns (p: nat)
    requires Quiet(n) && Boxed(n) && IsHistory(n, before) && Boxed(Outcome(n, before))
    requires EmittedTo(Outcome(n, before), i, t, g, id) && g != METRICS
    requires var m := Outcome(n, before);
      var m1 := Happen(m, Emit(m.lines[i].home, g, id));
      && Boxed(m1) && IsHistory(m1, after) && i < |Outcome(m1, after).lines|
      && var l := Outcome(m1, after).lines[i]; Live(l.conn, t, Listening) && t < |l.boxes| && l.boxes[t] == []
    ensures var m := Outcome(n, before);
      var sent := Outcome(Happen(m, Emit(m.lines[i].home, g, id)), after).lines[i].conn.sent;
      && p < |sent| && sent[p] == Envelope(g, Message(id, None))
      && forall q | 0 <= q < |sent| && sent[q].message.id == id :: q == p
  {
    ForwardedUnlessLeft(n, before, after, i, t, g, id);
    var m := Outcome(n, before);
    var e := Outcome(Happen(m, Emit(m.lines[i].home, g, id)), after);
    var l := e.lines[i];
    assert l in e.lines;
    SentOnce(l, e.emitted, false);
    p :| 0 <= p < |l.conn.sent| && l.conn.sent[p] == Envelope(g, Message(id, None));
  }

  lemma WhyStepsLeave(c: Connection, s: Step, t: nat)
    requires Owned(c) && Enabled(c, s) && Live(c, t, Listening) && !s.Received?
    ensures Live(Next(c, s), t, Listening) || s == Failed(t) ||
      (s == TimedOut(t) && c.tasks[t].name in c.producers && c.producers[c.tasks[t].name].subscriptions == {})
  {
    if s.Handle? {
      HandleFrameTasks(c, s.frame);
      assert Next(c, s).tasks[t] == Next(c, s).tasks[..|c.tasks|][t];
    }
  }

  /**
   A producer leaves its loop only because something raised, because it was idle without subscribers, or on
   taking a message to a closed websocket. While the websocket is open it forwards and goes on listening.
   */
  lemma WhyProducersLeave(n: Mesh, e: Event, i: nat, t: nat)
    requires Sound(n, false) && Boxed(n) && CanHappen(n, e) && i < |n.lines| && Live(n.lines[i].conn, t, Listening)
    ensures var c := n.lines[i].conn;
      |Happen(n, e).lines| == |n.lines| &&
      (Live(Happen(n, e).lines[i].conn, t, Listening) ||
       e == Protocol(i, Failed(t)) ||
       (e == Protocol(i, TimedOut(t)) && c.tasks[t].name in c.producers &&
        c.producers[c.tasks[t].name].subscriptions == {}) ||
       (e == Take(i, t) && !c.open))
  {
    var l := n.lines[i];
    assert l in n.lines && SoundLine(l, false);
    match e {
      case Protocol(j, s) =>
        if j == i {
          WhyStepsLeave(l.conn, s, t);
        }
      case _ =>
    }
  }

  /** What the other side reads goes to every producer of the group on its own layer, and to no store group. */
  lemma ReinjectReaches(n: Mesh, i: nat, j: nat, t: nat)
    requires Boxed(n) && CanHappen(n, Reinject(i)) && j < |n.lines| && Live(n.lines[j].conn, t, Listening)
    ensures var env, m := n.lines[i].conn.sent[n.lines[i].read], Happen(n, Reinject(i));
      && |m.lines| == |n.lines| && m.lines[i].read == n.lines[i].read + 1 && t < |m.lines[j].boxes|
      && m.lines[j].boxes[t] ==
         if n.lines[j].home == n.lines[i].away && n.lines[j].conn.tasks[t].group == env.group && env.group != METRICS
         then n.lines[j].boxes[t] + [env.message] else n.lines[j].boxes[t]
  {
    assert n.lines[j] in n.lines;
  }

  // ---------- Two producers of one group ----------

  lemma FirstHappens(n: Mesh, e: Event, es: seq<Event>)
    requires Boxed(n) && CanHappen(n, e) && Boxed(Happen(n, e)) && IsHistory(Happen(n, e), es)
    ensures IsHistory(n, [e] + es) && Outcome(n, [e] + es) == Outcome(Happen(n, e), es)
  {
    assert ([e] + es)[1..] == es;
  }

  /** A connection on which both producers of "metrics" listen. */
  ghost predicate ServesMetricsTwice(c: Connection) {
    && c.open && c.sent == [] && |c.tasks| == 2
    && forall t | 0 <= t < 2 :: c.tasks[t].group == METRICS && c.tasks[t].phase == Listening
  }

  lemma {:induction false} HistoryConcat(n: Mesh, es: seq<Event>, fs: seq<Event>)
    requires Boxed(n) && IsHistory(n, es) && Boxed(Outcome(n, es)) && IsHistory(Outcome(n, es), fs)
    ensures IsHistory(n, es + fs) && Outcome(n, es + fs) == Outcome(Outcome(n, es), fs)
    decreases |es|
  {
    if es == [] {
      assert es + fs == fs;
    } else {
      assert (es + fs)[1..] == es[1..] + fs;
      HistoryConcat(Happen(n, es[0]), es[1..], fs);
    }
  }

  function LoneLine(host: string): Mesh {
    Mesh([Line(Start(host), [[]], 0, 0, 1)], map[])
  }

  function NamingMetrics(ch: Channel): seq<Event> {
    [Protocol(0, Opened(0)), Protocol(0, Handle(Text(Subscribe([METRICS], ch)))), Protocol(0, Opened(1))]
  }

  lemma NamingMetricsServesTwice(host: string, ch: Channel)
    ensures var n := LoneLine(host);
      && Quiet(n) && Boxed(n) && IsHistory(n, NamingMetrics(ch))
      && |Outcome(n, NamingMetrics(ch)).lines| == 1 && Outcome(n, NamingMetrics(ch)).emitted == map[]
      && var l := Outcome(n, NamingMetrics(ch)).lines[0];
         ServesMetricsTwice(l.conn) && l == Line(l.conn, [[], []], 0, 0, 1)
  {
    var n0 := LoneLine(host);
    var subscribe := Handle(Text(Subscribe([METRICS], ch)));
    var name := ProducerName(host, METRICS);
    NamesAreDistinct(host, METRICS, METRICS);
    var n1 := Happen(n0, Protocol(0, Opened(0)));
    assert n1.lines[0].conn.tasks == [Task(METRICS, METRICS, Listening)] && n1.lines[0].boxes == [[]];
    var c1 := n1.lines[0].conn.(last := Some(Subscribe([METRICS], ch)));
    assert [METRICS][..0] == [] && SubscribeAll(c1, [], ch) == c1;
    assert SubscribeAll(c1, [METRICS], ch) == SubscribeOne(c1, METRICS, ch);
    var n2 := Happen(n1, Protocol(0, subscribe));
    assert n2.lines[0].conn.tasks == [Task(METRICS, METRICS, Listening), Task(name, METRICS, Opening)];
    assert n2.lines[0].boxes == [[], []];
    var n3 := Happen(n2, Protocol(0, Opened(1)));
    assert n3.lines[0].conn.tasks == [Task(METRICS, METRICS, Listening), Task(name, METRICS, Listening)];
    assert n3.lines[0].boxes == [[], []];
    FirstHappens(n2, Protocol(0, Opened(1)), []);
    FirstHappens(n1, Protocol(0, subscribe), [Protocol(0, Opened(1))]);
    FirstHappens(n0, Protocol(0, Opened(0)), [Protocol(0, subscribe), Protocol(0, Opened(1))]);
  }

  function EmitAndTakeTwice(id: nat): seq<Event> {
    [Emit(0, METRICS, id), Take(0, 0), Take(0, 1)]
  }

  lemma ServedTwiceCrossesTwice(c: Connection, id: nat)
    requires ServesMetricsTwice(c)
    ensures var n := Mesh([Line(c, [[], []], 0, 0, 1)], map[]);
      && Boxed(n) && IsHistory(n, EmitAndTakeTwice(id)) && |Outcome(n, EmitAndTakeTwice(id)).lines| == 1
      && var sent := Outcome(n, EmitAndTakeTwice(id)).lines[0].conn.sent;
         |sent| == 2 && sent[0].message.id == sent[1].message.id == id
  {
    var m := Message(id, Some(true));
    var n0 := Mesh([Line(c, [[], []], 0, 0, 1)], map[]);
    var n1 := Happen(n0, Emit(0, METRICS, id));
    assert n1.lines[0] == GroupSend(n0.lines[0], 0, METRICS, m);
    assert Member(c.tasks[0], METRICS) && Member(c.tasks[1], METRICS);
    assert n1.lines[0].boxes[0] == [] + [m] == [m] && n1.lines[0].boxes[1] == [] + [m] == [m];
    var n2 := Happen(n1, Take(0, 0));
    var n3 := Happen(n2, Take(0, 1));
    FirstHappens(n2, Take(0, 1), []);
    FirstHappens(n1, Take(0, 0), [Take(0, 1)]);
    FirstHappens(n0, Emit(0, METRICS, id), [Take(0, 0), Take(0, 1)]);
  }

  /** Once a web node has subscribed to "metrics" by name, a metrics notification crosses twice. */
  lemma MetricsCrossesTwice(host: string, ch: Channel, id: nat)
    ensures var n, es := LoneLine(host), NamingMetrics(ch) + EmitAndTakeTwice(id);
      && Quiet(n) && Boxed(n) && IsHistory(n, es) && |Outcome(n, es).lines| == 1
      && var sent := Outcome(n, es).lines[0].conn.sent;
         |sent| == 2 && sent[0].message.id == sent[1].message.id == id
  {
    NamingMetricsServesTwice(host, ch);
    var e := Outcome(LoneLine(host), NamingMetrics(ch));
    ServedTwiceCrossesTwice(e.lines[0].conn, id);
    assert e == Mesh([Line(e.lines[0].conn, [[], []], 0, 0, 1)], map[]);
    HistoryConcat(LoneLine(host), NamingMetrics(ch), EmitAndTakeTwice(id));
  }

  // ---------- Relaying terminates ----------

  /** What is in flight, weighed so that forwarding and sending on both cost weight; `k` bounds the fan-out. */
  function BoxWeight(box: seq<Message>, k: nat): nat {
    if box == [] then 0 else (if Flagged(box[0]) then k + 2 else 1) + BoxWeight(box[1..], k)
  }

  function BoxesWeight(boxes: seq<seq<Message>>, k: nat): nat {
    if boxes == [] then 0 else BoxWeight(boxes[0], k) + BoxesWeight(boxes[1..], k)
  }

  function LineWeight(l: Line, k: nat): int {
    BoxesWeight(l.boxes, k) + (|l.conn.sent| - l.read) * (k + 1)
  }

  function LinesWeight(lines: seq<Line>, k: nat): int {
    if lines == [] then 0 else LineWeight(lines[0], k) + LinesWeight(lines[1..], k)
  }

  function TaskCount(lines: seq<Line>): nat {
    if lines == [] then 0 else |lines[0].conn.tasks| + TaskCount(lines[1..])
  }

  function Weight(n: Mesh): int {
    LinesWeight(n.lines, TaskCount(n.lines))
  }

  lemma {:induction false} BoxWeightAppend(box: seq<Message>, m: Message, k: nat)
    requires !Flagged(m)
    ensures BoxWeight(box + [m], k) == BoxWeight(box, k) + 1
  {
    if box != [] {
      assert (box + [m])[1..] == box[1..] + [m];
      BoxWeightAppend(box[1..], m, k);
    }
  }

  lemma {:induction false} BoxesWeightUpdate(boxes: seq<seq<Message>>, t: nat, box: seq<Message>, k: nat)
    requires t < |boxes|
    ensures BoxesWeight(boxes[t := box], k) == BoxesWeight(boxes, k) - BoxWeight(boxes[t], k) + BoxWeight(box, k)
    decreases |boxes|
  {
    if t > 0 {
      assert boxes[t := box][1..] == boxes[1..][t - 1 := box];
      BoxesWeightUpdate(boxes[1..], t - 1, box, k);
    } else {
      assert boxes[t := box][1..] == boxes[1..];
    }
  }

  /** Adding at most one unflagged message to each box adds at most one per box. */
  lemma {:induction false} BoxesWeightSend(boxes: seq<seq<Message>>, more: seq<seq<Message>>, m: Message, k: nat)
    requires |more| == |boxes| && !Flagged(m)
    requires forall t | 0 <= t < |boxes| :: more[t] == boxes[t] || more[t] == boxes[t] + [m]
    ensures BoxesWeight(more, k) <= BoxesWeight(boxes, k) + |boxes|
  {
    if boxes != [] {
      BoxWeightAppend(boxes[0], m, k);
      BoxesWeightSend(boxes[1..], more[1..], m, k);
    }
  }

  lemma {:induction false} LinesWeightUpdate(lines: seq<Line>, i: nat, l: Line, k: nat)
    requires i < |lines| && |l.conn.tasks| == |lines[i].conn.tasks|
    ensures LinesWeight(lines[i := l], k) == LinesWeight(lines, k) - LineWeight(lines[i], k) + LineWeight(l, k)
    ensures TaskCount(lines[i := l]) == TaskCount(lines)
    decreases |lines|
  {
    if i > 0 {
      assert lines[i := l][1..] == lines[1..][i - 1 := l];
      LinesWeightUpdate(lines[1..], i - 1, l, k);
    } else {
      assert lines[i := l][1..] == lines[1..];
    }
  }

  lemma {:induction false} LinesWeightSend(lines: seq<Line>, layer: Layer, g: Group, m: Message, k: nat)
    requires forall l <- lines :: |l.boxes| == |l.conn.tasks|
    requires !Flagged(m)
    ensures LinesWeight(GroupSendAll(lines, layer, g, m), k) <= LinesWeight(lines, k) + TaskCount(lines)
    ensures TaskCount(GroupSendAll(lines, layer, g, m)) == TaskCount(lines)
    decreases |lines|
  {
    if lines != [] {
      assert GroupSendAll(lines, layer, g, m)[1..] == GroupSendAll(lines[1..], layer, g, m);
      BoxesWeightSend(lines[0].boxes, GroupSend(lines[0], layer, g, m).boxes, m, k);
      LinesWeightSend(lines[1..], layer, g, m, k);
    }
  }

  lemma WireWeight(sent: nat, read: nat, sent': nat, read': nat, k: nat)
    requires sent' - read' <= sent - read + 1
    ensures (sent' - read') * (k + 1) <= (sent - read) * (k + 1) + (k + 1)
    ensures sent' - read' <= sent - read ==> (sent' - read') * (k + 1) <= (sent - read) * (k + 1)
    ensures sent' - read' <= sent - read - 1 ==> (sent' - read') * (k + 1) <= (sent - read) * (k + 1) - (k + 1)
  {
    var d := (sent - read) - (sent' - read');
    assert (sent' - read') * (k + 1) == (sent - read) * (k + 1) - d * (k + 1);
    if d >= 1 {
      assert d * (k + 1) >= k + 1;
    }
  }

  lemma TakeLowersWeight(n: Mesh, i: nat, t: nat)
    requires Boxed(n) && CanHappen(n, Take(i, t))
    ensures Weight(Happen(n, Take(i, t))) < Weight(n)
  {
    var k := TaskCount(n.lines);
    var l, l' := n.lines[i], Happen(n, Take(i, t)).lines[i];
    BoxesWeightUpdate(l.boxes, t, l.boxes[t][1..], k);
    LinesWeightUpdate(n.lines, i, l', k);
    WireWeight(|l.conn.sent|, l.read, |l'.conn.sent|, l'.read, k);
  }

  lemma ReadLowersLine(l: Line, k: nat)
    requires l.read < |l.conn.sent|
    ensures LineWeight(l.(read := l.read + 1), k) <= LineWeight(l, k) - (k + 1)
  {
    WireWeight(|l.conn.sent|, l.read, |l.conn.sent|, l.read + 1, k);
  }

  /** Sending an unflagged message on adds less than reading it took away. */
  lemma ReinjectLowersWeight(n: Mesh, i: nat)
    requires Sound(n, false) && Boxed(n) && CanHappen(n, Reinject(i))
    ensures Weight(Happen(n, Reinject(i))) < Weight(n)
  {
    var k, l := TaskCount(n.lines), n.lines[i];
    var env, read := l.conn.sent[l.read], n.lines[i := l.(read := l.read + 1)];
    assert l in n.lines && SoundLine(l, false) && env in l.conn.sent;
    LinesWeightUpdate(n.lines, i, l.(read := l.read + 1), k);
    ReadLowersLine(l, k);
    LinesWeightSend(read, l.away, env.group, env.message, k);
  }

  /** Forwarding a message or sending one on strictly lowers the weight, whatever the layers. */
  lemma RelayingLowersWeight(n: Mesh, e: Event)
    requires Sound(n, false) && Boxed(n) && CanHappen(n, e) && (e.Take? || e.Reinject?)
    ensures Weight(Happen(n, e)) < Weight(n)
  {
    match e {
      case Take(i, t) => TakeLowersWeight(n, i, t);
      case Reinject(i) => ReinjectLowersWeight(n, i);
    }
  }

  lemma {:induction false} WeightIsNatural(lines: seq<Line>, k: nat)
    requires forall l <- lines :: l.read <= |l.conn.sent|
    ensures LinesWeight(lines, k) >= 0
    decreases |lines|
  {
    if lines != [] {
      assert lines[0] in lines;
      WireWeight(|lines[0].conn.sent|, lines[0].read, 0, 0, k);
      WeightIsNatural(lines[1..], k);
    }
  }

  lemma {:induction false} WeightBoundsRelaying(n: Mesh, es: seq<Event>)
    requires Sound(n, false) && Boxed(n) && IsHistory(n, es)
    requires forall e <- es :: e.Take? || e.Reinject?
    ensures |es| <= Weight(n)
    decreases |es|
  {
    forall l <- n.lines
      ensures l.read <= |l.conn.sent|
    {
      assert SoundLine(l, false);
    }
    WeightIsNatural(n.lines, TaskCount(n.lines));
    if es != [] {
      assert es[0] in es;
      EventKeepsSound(n, es[0], false);
      RelayingLowersWeight(n, es[0]);
      WeightBoundsRelaying(Happen(n, es[0]), es[1..]);
    }
  }

  /**
   From any reachable state, forwarding and sending on can go on for at most `Weight` events without
   a new notification, even when every node shares one channel layer.
   */
  lemma RelayingTerminates(n: Mesh, before: seq<Event>, es: seq<Event>)
    requires Quiet(n) && Boxed(n) && IsHistory(n, before) && Boxed(Outcome(n, before))
    requires IsHistory(Outcome(n, before), es) && forall e <- es :: e.Take? || e.Reinject?
    ensures |es| <= Weight(Outcome(n, before))
  {
    QuietIsSound(n, false);
    HistoryKeepsSound(n, before, false);
    WeightBoundsRelaying(Outcome(n, before), es);
  }
}
