/**
 One relay connection of a task node: the producer table of `WebsocketRelayConnection`,
 the body of its message loop, and its producer coroutines, cut at their awaits.

 Between two awaits a coroutine runs alone, so each `Step` below is atomic in the program.
 A producer leaves the table in two steps: it decides to stop (`TimedOut`, `Failed`) and, after
 awaiting the channel layer, deletes its entry (`Discarded`).
 */
module RelayConnection {
  import opened Wrappers

  type Group = string
  type Channel = string

  const METRICS: string := "metrics"

  /** What a decoded text frame asks for. `Malformed` lacks a key the loop reads. */
  datatype Payload =
    | Subscribe(groups: seq<Group>, origin: Channel)
    | Unsubscribe(groups: seq<Group>, origin: Channel)
    | Other
    | Malformed

  datatype Frame = Text(payload: Payload) | Undecodable | Binary | Error

  /** A channel-layer message; `needsRelay` is the optional key of the same name. */
  datatype Message = Message(id: nat, needsRelay: Option<bool>)

  datatype Envelope = Envelope(group: Group, message: Message)

  /** `Closing`: past the loop, awaiting `group_discard`. `Stuck`: that await (or `new_channel`) raised. */
  datatype Phase = Opening | Listening | Closing | Ended | Stuck

  datatype Task = Task(name: string, group: Group, phase: Phase)

  datatype Entry = Entry(task: nat, subscriptions: set<Channel>)

  datatype Connection = Connection(
    host: string,
    producers: map<string, Entry>,
    tasks: seq<Task>,
    open: bool,
    last: Option<Payload>,
    sent: seq<Envelope>)

  datatype Step =
    | Handle(frame: Frame)
    | Opened(task: nat)
    | OpenFailed(task: nat)
    | Received(task: nat, message: Message)
    | TimedOut(task: nat)
    | Failed(task: nat)
    | Discarded(task: nat)
    | DiscardFailed(task: nat)

  function ProducerName(host: string, group: Group): string {
    host + "-" + group
  }

  /** The table as `run_connection` leaves it before the first frame. */
  function Start(host: string): Connection {
    Connection(host, map[METRICS := Entry(0, {METRICS})], [Task(METRICS, METRICS, Opening)], true, None, [])
  }

  // ---------- The message loop ----------

  function SubscribeOne(c: Connection, group: Group, origin: Channel): Connection {
    var name := ProducerName(c.host, group);
    if name !in c.producers then
      c.(producers := c.producers[name := Entry(|c.tasks|, {origin})],
         tasks := c.tasks + [Task(name, group, Opening)])
    else
      var e := c.producers[name];
      c.(producers := c.producers[name := e.(subscriptions := e.subscriptions + {origin})])
  }

  function SubscribeAll(c: Connection, groups: seq<Group>, origin: Channel): Connection {
    if groups == [] then c
    else SubscribeOne(SubscribeAll(c, groups[..|groups| - 1], origin), groups[|groups| - 1], origin)
  }

  function UnsubscribeOne(c: Connection, group: Group, origin: Channel): Connection {
    var name := ProducerName(c.host, group);
    if name !in c.producers then c
    else
      var e := c.producers[name];
      c.(producers := c.producers[name := e.(subscriptions := e.subscriptions - {origin})])
  }

  function UnsubscribeAll(c: Connection, groups: seq<Group>, origin: Channel): Connection {
    if groups == [] then c
    else UnsubscribeOne(UnsubscribeAll(c, groups[..|groups| - 1], origin), groups[|groups| - 1], origin)
  }

  function HandlePayload(c: Connection, p: Payload): Connection {
    match p
    case Subscribe(groups, origin) => SubscribeAll(c, groups, origin)
    case Unsubscribe(groups, origin) => UnsubscribeAll(c, groups, origin)
    case Other => c
    case Malformed => c.(open := false)
  }

  /** A frame that is neither text nor an error runs the loop body on the payload of the last text frame. */
  function HandleFrame(c: Connection, frame: Frame): Connection {
    match frame
    case Error => c.(open := false)
    case Undecodable => c
    case Text(p) => HandlePayload(c.(last := Some(p)), p)
    case Binary => if c.last.None? then c.(open := false) else HandlePayload(c, c.last.value)
  }

  /** The payload a frame makes the loop act on. */
  function Effective(c: Connection, frame: Frame): Payload {
    match frame
    case Text(p) => p
    case Binary => if c.last.Some? then c.last.value else Other
    case _ => Other
  }

  // ---------- The producer coroutine ----------

  function SetPhase(c: Connection, t: nat, phase: Phase): Connection
    requires t < |c.tasks|
  {
    c.(tasks := c.tasks[t := c.tasks[t].(phase := phase)])
  }

  predicate Flagged(m: Message) {
    m.needsRelay == Some(true)
  }

  function Stripped(m: Message): Message {
    m.(needsRelay := None)
  }

  predicate Live(c: Connection, t: nat, phase: Phase) {
    t < |c.tasks| && c.tasks[t].phase == phase
  }

  predicate Enabled(c: Connection, s: Step) {
    match s
    case Handle(_) => c.open
    case Opened(t) => Live(c, t, Opening)
    case OpenFailed(t) => Live(c, t, Opening)
    case Received(t, _) => Live(c, t, Listening)
    case TimedOut(t) => Live(c, t, Listening)
    case Failed(t) => Live(c, t, Opening) || Live(c, t, Listening)
    case Discarded(t) => Live(c, t, Closing)
    case DiscardFailed(t) => Live(c, t, Closing)
  }

  /** The table lookups of the coroutine can in principle fail; a failing one leaves the task `Stuck`. */
  function Next(c: Connection, s: Step): Connection
    requires Enabled(c, s)
  {
    match s
    case Handle(frame) => HandleFrame(c, frame)
    case Opened(t) => SetPhase(c, t, Listening)
    case OpenFailed(t) => SetPhase(c, t, Stuck)
    case Received(t, m) =>
      if !Flagged(m) then c
      else if c.open then c.(sent := c.sent + [Envelope(c.tasks[t].group, Stripped(m))])
      else SetPhase(c, t, Closing)
    case TimedOut(t) =>
      var name := c.tasks[t].name;
      if name !in c.producers then SetPhase(c, t, Stuck)
      else if c.producers[name].subscriptions == {} then SetPhase(c, t, Closing)
      else c
    case Failed(t) => SetPhase(c, t, Closing)
    case Discarded(t) =>
      var name := c.tasks[t].name;
      if name !in c.producers then SetPhase(c, t, Stuck)
      else SetPhase(c, t, Ended).(producers := c.producers - {name})
    case DiscardFailed(t) => SetPhase(c, t, Stuck)
  }

  ghost predicate IsRun(c: Connection, steps: seq<Step>)
    decreases |steps|
  {
    steps == [] || (Enabled(c, steps[0]) && IsRun(Next(c, steps[0]), steps[1..]))
  }

  ghost function After(c: Connection, steps: seq<Step>): Connection
    requires IsRun(c, steps)
    decreases |steps|
  {
    if steps == [] then c else After(Next(c, steps[0]), steps[1..])
  }

  // ---------- The object ----------

  class WebsocketRelayConnection {
    const remoteHost: string
    var producers: map<string, Entry>
    var tasks: seq<Task>
    var open: bool
    var last: Option<Payload>
    var sent: seq<Envelope>

    function View(): Connection
      reads this
    {
      Connection(remoteHost, producers, tasks, open, last, sent)
    }

    constructor (host: string)
      ensures View() == Start(host)
    {
      remoteHost := host;
      tasks := [Task(METRICS, METRICS, Opening)];
      producers := map[METRICS := Entry(0, {METRICS})];
      open, last, sent := true, None, [];
    }

    method OnSubscribe(groups: seq<Group>, origin: Channel)
      modifies this
      ensures View() == SubscribeAll(old(View()), groups, origin)
    {
      var i := 0;
      while i < |groups|
        invariant 0 <= i <= |groups|
        invariant View() == SubscribeAll(old(View()), groups[..i], origin)
      {
        var name := remoteHost + "-" + groups[i];
        if name !in producers {
          tasks := tasks + [Task(name, groups[i], Opening)];
          producers := producers[name := Entry(|tasks| - 1, {origin})];
        } else {
          var entry := producers[name];
          producers := producers[name := entry.(subscriptions := entry.subscriptions + {origin})];
        }
        assert groups[..i + 1][..i] == groups[..i];
        i := i + 1;
      }
      assert groups[..i] == groups;
    }

    method OnUnsubscribe(groups: seq<Group>, origin: Channel)
      modifies this
      ensures View() == UnsubscribeAll(old(View()), groups, origin)
    {
      var i := 0;
      while i < |groups|
        invariant 0 <= i <= |groups|
        invariant View() == UnsubscribeAll(old(View()), groups[..i], origin)
      {
        var name := remoteHost + "-" + groups[i];
        if name in producers {
          var entry := producers[name];
          producers := producers[name := entry.(subscriptions := entry.subscriptions - {origin})];
        }
        assert groups[..i + 1][..i] == groups[..i];
        i := i + 1;
      }
      assert groups[..i] == groups;
    }

    method OnPayload(payload: Payload)
      modifies this
      ensures View() == HandlePayload(old(View()), payload)
    {
      match payload {
        case Subscribe(groups, origin) => OnSubscribe(groups, origin);
        case Unsubscribe(groups, origin) => OnUnsubscribe(groups, origin);
        case Other =>
        case Malformed => open := false;
      }
    }

    /** One turn of `async for msg in websocket`. */
    method OnFrame(frame: Frame)
      requires open
      modifies this
      ensures View() == Next(old(View()), Handle(frame))
    {
      match frame {
        case Error => open := false;
        case Undecodable =>
        case Text(p) =>
          last := Some(p);
          OnPayload(p);
        case Binary =>
          if last.None? {
            open := false;
          } else {
            OnPayload(last.value);
          }
      }
    }

    method SetTaskPhase(t: nat, phase: Phase)
      requires t < |tasks|
      modifies this
      ensures View() == SetPhase(old(View()), t, phase)
    {
      tasks := tasks[t := tasks[t].(phase := phase)];
    }

    /** `new_channel` and `group_add` have returned. */
    method OnOpened(t: nat)
      requires Live(View(), t, Opening)
      modifies this
      ensures View() == Next(old(View()), Opened(t))
    {
      SetTaskPhase(t, Listening);
    }

    /** `new_channel` raised: `finally` then lacks the name of the channel, and the entry stays. */
    method OnOpenFailed(t: nat)
      requires Live(View(), t, Opening)
      modifies this
      ensures View() == Next(old(View()), OpenFailed(t))
    {
      SetTaskPhase(t, Stuck);
    }

    /** `group_add`, the receive or the send raised. */
    method OnFailed(t: nat)
      requires Live(View(), t, Opening) || Live(View(), t, Listening)
      modifies this
      ensures View() == Next(old(View()), Failed(t))
    {
      SetTaskPhase(t, Closing);
    }

    /** The producer's receive returned `message`. */
    method OnReceived(t: nat, message: Message)
      requires Live(View(), t, Listening)
      modifies this
      ensures View() == Next(old(View()), Received(t, message))
    {
      if !Flagged(message) {
        return;
      }
      var msg := message.(needsRelay := None);
      if open {
        sent := sent + [Envelope(tasks[t].group, msg)];
      } else {
        SetTaskPhase(t, Closing);
      }
    }

    /** The producer's receive timed out. */
    method OnTimedOut(t: nat)
      requires Live(View(), t, Listening)
      modifies this
      ensures View() == Next(old(View()), TimedOut(t))
    {
      var name := tasks[t].name;
      if name !in producers {
        SetTaskPhase(t, Stuck);
      } else if |producers[name].subscriptions| == 0 {
        SetTaskPhase(t, Closing);
      }
    }

    /** `group_discard` raised, and the entry stays. */
    method OnDiscardFailed(t: nat)
      requires Live(View(), t, Closing)
      modifies this
      ensures View() == Next(old(View()), DiscardFailed(t))
    {
      SetTaskPhase(t, Stuck);
    }

    /** The `finally` block, once `group_discard` has returned. */
    method OnDiscarded(t: nat)
      requires Live(View(), t, Closing)
      modifies this
      ensures View() == Next(old(View()), Discarded(t))
    {
      var name := tasks[t].name;
      if name !in producers {
        SetTaskPhase(t, Stuck);
      } else {
        producers := producers - {name};
        SetTaskPhase(t, Ended);
      }
    }
  }
}
