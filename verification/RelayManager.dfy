/**
 `WebSocketRelayManager`: the hosts that advertise themselves, the connections to them, and the
 poll pass that reconciles the two.
 */
module RelayManager {
  import opened Wrappers

  /** The host name of a heartbeat; the key may be missing. */
  type Host = Option<string>

  datatype Action = Online | Offline | OtherAction

  datatype Heartbeat = Heartbeat(hostname: Host, ip: Option<string>, action: Action)

  /** A relay connection as the manager sees it: the address it was made to, and `connected`. */
  datatype Link = Link(address: string, connected: bool)

  /** The heartbeat's address: `ip`, or the host name when `ip` is missing or empty. */
  function Address(b: Heartbeat): Option<string> {
    if b.ip.Some? && b.ip.value != "" then b.ip else b.hostname
  }

  // ---------- The decisions of one pass ----------

  predicate Changed(known: map<Host, string>, links: map<Host, Link>, h: Host) {
    h in known && h in links && known[h] != links[h].address
  }

  predicate Closed(links: map<Host, Link>, h: Host) {
    h in links && !links[h].connected
  }

  function Deleted(known: map<Host, string>, links: map<Host, Link>): set<Host> {
    set h | h in links && (h !in known || Changed(known, links, h) || Closed(links, h))
  }

  function Added(known: map<Host, string>, links: map<Host, Link>): set<Host> {
    set h | h in known && (h !in links || Changed(known, links, h))
  }

  function Connected(known: map<Host, string>, hosts: set<Host>): map<Host, Link>
    requires hosts <= known.Keys
  {
    map h | h in hosts :: Link(known[h], false)
  }

  lemma ConnectOne(links: map<Host, Link>, known: map<Host, string>, done: set<Host>, h: Host)
    requires done <= known.Keys && h in known
    ensures (links + Connected(known, done))[h := Link(known[h], false)] == links + Connected(known, done + {h})
  {
  }

  datatype Outcome = Done | LookupFailed(host: Host)

  // ---------- The object ----------

  class Manager {
    const localHostname: Host
    var knownHosts: map<Host, string>
    var relayConnections: map<Host, Link>

    constructor (localHostname: Host)
      ensures this.localHostname == localHostname && knownHosts == map[] && relayConnections == map[]
    {
      this.localHostname := localHostname;
      knownHosts, relayConnections := map[], map[];
    }

    ghost predicate LocalAbsent()
      reads this
    {
      localHostname !in knownHosts && localHostname !in relayConnections
    }

    /** `cleanup_offline_host` run to its end with nothing in between. */
    method CleanupOfflineHost(h: Host)
      modifies this
      ensures relayConnections == old(relayConnections) - {h} && knownHosts == old(knownHosts) - {h}
    {
      if h in relayConnections {
        relayConnections := relayConnections - {h};
      }
      if h in knownHosts {
        knownHosts := knownHosts - {h};
      }
    }

    method OnHeartbeat(b: Heartbeat)
      requires LocalAbsent()
      modifies this
      ensures LocalAbsent()
      ensures b.hostname != localHostname && b.action == Online && Address(b).Some? ==>
        knownHosts == old(knownHosts)[b.hostname := Address(b).value] && relayConnections == old(relayConnections)
      ensures b.hostname != localHostname && b.action == Offline && Address(b).Some? ==>
        knownHosts == old(knownHosts) - {b.hostname} && relayConnections == old(relayConnections) - {b.hostname}
      ensures b.hostname == localHostname || b.action == OtherAction || Address(b).None? ==>
        knownHosts == old(knownHosts) && relayConnections == old(relayConnections)
    {
      if b.hostname == localHostname {
        return;
      }
      var ip := if b.ip.Some? && b.ip.value != "" then b.ip else b.hostname;
      if b.action != OtherAction && ip.None? {
        return;
      }
      match b.action {
        case Online => knownHosts := knownHosts[b.hostname := ip.value];
        case Offline => CleanupOfflineHost(b.hostname);
        case OtherAction =>
      }
    }

    /** The two loops that decide which hosts to drop and which to connect to. */
    method Decide() returns (deleted: set<Host>, added: set<Host>)
      ensures deleted == Deleted(knownHosts, relayConnections)
      ensures added == Added(knownHosts, relayConnections)
    {
      deleted := relayConnections.Keys - knownHosts.Keys;
      added := knownHosts.Keys - relayConnections.Keys;
      var hosts := SetToSeq(knownHosts.Keys);
      for i := 0 to |hosts|
        invariant forall h :: h in deleted <==>
          (h in relayConnections && h !in knownHosts) ||
          (h in hosts[..i] && Changed(knownHosts, relayConnections, h))
        invariant forall h :: h in added <==>
          (h in knownHosts && h !in relayConnections) ||
          (h in hosts[..i] && Changed(knownHosts, relayConnections, h))
      {
        assert hosts[..i + 1] == hosts[..i] + [hosts[i]];
        var hostname := hosts[i];
        if hostname in relayConnections && knownHosts[hostname] != relayConnections[hostname].address {
          deleted := deleted + {hostname};
          added := added + {hostname};
        }
      }
      assert hosts[..|hosts|] == hosts;
      ghost var changed := deleted;
      hosts := SetToSeq(relayConnections.Keys);
      for i := 0 to |hosts|
        invariant forall h :: h in deleted <==> h in changed || (h in hosts[..i] && Closed(relayConnections, h))
      {
        assert hosts[..i + 1] == hosts[..i] + [hosts[i]];
        if !relayConnections[hosts[i]].connected {
          deleted := deleted + {hosts[i]};
        }
      }
      assert hosts[..|hosts|] == hosts;
    }

    method CleanupAll(deleted: set<Host>)
      modifies this
      ensures relayConnections == old(relayConnections) - deleted && knownHosts == old(knownHosts) - deleted
    {
      var hosts := SetToSeq(deleted);
      for i := 0 to |hosts|
        invariant knownHosts == old(knownHosts) - set h | h in hosts[..i]
        invariant relayConnections == old(relayConnections) - set h | h in hosts[..i]
      {
        assert hosts[..i + 1] == hosts[..i] + [hosts[i]];
        CleanupOfflineHost(hosts[i]);
      }
      assert hosts[..|hosts|] == hosts;
      assert (set h | h in hosts) == deleted;
    }

    /** Starts a connection to each host, until one is no longer known. */
    method ConnectAll(added: set<Host>) returns (outcome: Outcome)
      modifies this
      ensures knownHosts == old(knownHosts)
      ensures outcome.Done? <==> added <= knownHosts.Keys
      ensures outcome.LookupFailed? ==> outcome.host in added && outcome.host !in knownHosts
      ensures outcome.Done? ==> relayConnections == old(relayConnections) + Connected(knownHosts, added)
      ensures relayConnections.Keys <= old(relayConnections).Keys + (added * knownHosts.Keys)
    {
      var hosts := SetToSeq(added);
      ghost var done: set<Host> := {};
      for i := 0 to |hosts|
        invariant forall h :: h in done <==> h in hosts[..i]
        invariant knownHosts == old(knownHosts) && done <= knownHosts.Keys && done <= added
        invariant relayConnections == old(relayConnections) + Connected(knownHosts, done)
      {
        assert hosts[i] in hosts && hosts[..i + 1] == hosts[..i] + [hosts[i]];
        if hosts[i] !in knownHosts {
          return LookupFailed(hosts[i]);
        }
        ConnectOne(old(relayConnections), knownHosts, done, hosts[i]);
        relayConnections := relayConnections[hosts[i] := Link(knownHosts[hosts[i]], false)];
        done := done + {hosts[i]};
      }
      assert hosts[..|hosts|] == hosts;
      assert done == added;
      outcome := Done;
    }

    /**
     One turn of the poll loop with no heartbeat during its awaits. A host whose address changed is
     cleaned up, which forgets the address the pass then looks up.
     */
    method PollPass() returns (outcome: Outcome)
      requires LocalAbsent()
      modifies this
      ensures LocalAbsent()
      ensures outcome.Done? <==> forall h :: !Changed(old(knownHosts), old(relayConnections), h)
      ensures outcome.LookupFailed? ==> Changed(old(knownHosts), old(relayConnections), outcome.host)
      ensures knownHosts == old(knownHosts) - Deleted(old(knownHosts), old(relayConnections))
      ensures outcome.Done? ==>
        && relayConnections.Keys == knownHosts.Keys
        && (forall h <- relayConnections :: relayConnections[h].address == knownHosts[h])
        && (forall h <- relayConnections :: h in old(relayConnections) ==>
              relayConnections[h] == old(relayConnections)[h] && relayConnections[h].connected)
        && (forall h <- old(relayConnections) :: h in old(knownHosts) && old(relayConnections)[h].connected ==>
              h in relayConnections)
    {
      var deleted, added := Decide();
      CleanupAll(deleted);
      outcome := ConnectAll(added);
      forall h
        ensures Changed(old(knownHosts), old(relayConnections), h) <==> h in added && h !in knownHosts
      {
      }
    }
  }

  // ---------- Heartbeats and connections changing during a pass ----------

  /**
   Where the pass stands: not started, cleaning up, or over with an exception. `starting`: the hosts whose
   clean-up is scheduled but has not run yet; `waiting`: those whose cancelled connection it waits for.
   */
  datatype Pass = Idle | Cleaning(starting: set<Host>, waiting: set<Host>, added: set<Host>) | Crashed

  /** `beat`: the heartbeat listener is itself waiting for the connection to this host to end. */
  datatype State = State(local: Host, known: map<Host, string>, links: map<Host, Link>, pass: Pass, beat: Option<Host>)

  datatype Event =
    | Beat(b: Heartbeat)
    | BeatCleaned
    | Poll
    | PassStarts(host: Host)
    | PassCleaned(host: Host)
    | Finish
    | Connects(host: Host)
    | Drops(host: Host)

  predicate Enabled(s: State, e: Event) {
    match e
    case Beat(_) => s.beat.None?
    case BeatCleaned => s.beat.Some?
    case Poll => s.pass.Idle?
    case PassStarts(h) => s.pass.Cleaning? && h in s.pass.starting
    case PassCleaned(h) => s.pass.Cleaning? && h in s.pass.waiting
    case Finish => s.pass.Cleaning? && s.pass.starting == {} && s.pass.waiting == {}
    case Connects(h) => h in s.links
    case Drops(h) => h in s.links
  }

  function Next(s: State, e: Event): State
    requires Enabled(s, e)
  {
    match e
    case Beat(b) =>
      if b.hostname == s.local || b.action == OtherAction || Address(b).None? then s
      else if b.action == Online then s.(known := s.known[b.hostname := Address(b).value])
      else if b.hostname in s.links then s.(beat := Some(b.hostname))
      else s.(known := s.known - {b.hostname})
    case BeatCleaned =>
      // A missing connection raises; the listener logs that and carries on.
      var h := s.beat.value;
      if h in s.links then s.(links := s.links - {h}, known := s.known - {h}, beat := None)
      else s.(beat := None)
    case Poll => s.(pass := Cleaning(Deleted(s.known, s.links), {}, Added(s.known, s.links)))
    case PassStarts(h) =>
      // Only now is the connection looked up; the listener may have removed it since the pass decided.
      var pass := s.pass.(starting := s.pass.starting - {h});
      if h in s.links then s.(pass := pass.(waiting := pass.waiting + {h}))
      else s.(known := s.known - {h}, pass := pass)
    case PassCleaned(h) =>
      if h in s.links then
        s.(links := s.links - {h}, known := s.known - {h}, pass := s.pass.(waiting := s.pass.waiting - {h}))
      else s.(pass := Crashed)
    case Finish =>
      if s.pass.added <= s.known.Keys
      then s.(links := s.links + Connected(s.known, s.pass.added), pass := Idle)
      else s.(pass := Crashed)
    case Connects(h) => s.(links := s.links[h := s.links[h].(connected := true)])
    case Drops(h) => s.(links := s.links[h := s.links[h].(connected := false)])
  }

  ghost predicate IsRun(s: State, es: seq<Event>)
    decreases |es|
  {
    es == [] || (Enabled(s, es[0]) && IsRun(Next(s, es[0]), es[1..]))
  }

  ghost function After(s: State, es: seq<Event>): State
    requires IsRun(s, es)
    decreases |es|
  {
    if es == [] then s else After(Next(s, es[0]), es[1..])
  }

  function Initial(local: Host): State {
    State(local, map[], map[], Idle, None)
  }

  ghost predicate LocalNowhere(s: State) {
    && s.local !in s.known && s.local !in s.links && s.beat != Some(s.local)
    && (s.pass.Cleaning? ==> s.local !in s.pass.added)
  }

  lemma {:induction false} LocalStaysNowhere(s: State, es: seq<Event>)
    requires LocalNowhere(s) && IsRun(s, es)
    ensures LocalNowhere(After(s, es)) && After(s, es).local == s.local
    decreases |es|
  {
    if es != [] {
      assert LocalNowhere(Next(s, es[0]));
      LocalStaysNowhere(Next(s, es[0]), es[1..]);
    }
  }

  /** Whatever heartbeats arrive and whenever, the local host is never known and never connected to. */
  lemma LocalHostNeverAppears(local: Host, es: seq<Event>)
    requires IsRun(Initial(local), es)
    ensures local !in After(Initial(local), es).known && local !in After(Initial(local), es).links
  {
    LocalStaysNowhere(Initial(local), es);
  }

  // ---------- A pass without heartbeats ----------

  /** `s` is reached from `s0`, where a pass began, with connections coming and going but no heartbeat. */
  ghost predicate WithinPass(s0: State, s: State) {
    && s.pass.Cleaning? && s.pass.starting !! s.pass.waiting
    && var done := Deleted(s0.known, s0.links) - s.pass.starting - s.pass.waiting;
    && s.pass.starting + s.pass.waiting <= Deleted(s0.known, s0.links) && s.pass.added == Added(s0.known, s0.links)
    && s.known == s0.known - done
    && s.links.Keys == s0.links.Keys - done
    && (forall h <- s.links :: s.links[h].address == s0.links[h].address)
  }

  predicate Silent(e: Event) {
    e.PassStarts? || e.PassCleaned? || e.Connects? || e.Drops?
  }

  lemma SilentEventStaysWithinPass(s0: State, s: State, e: Event)
    requires WithinPass(s0, s) && Enabled(s, e) && Silent(e)
    ensures WithinPass(s0, Next(s, e))
  {
  }

  lemma {:induction false} SilentEventsStayWithinPass(s0: State, s: State, es: seq<Event>)
    requires WithinPass(s0, s) && IsRun(s, es)
    requires forall e <- es :: Silent(e)
    ensures WithinPass(s0, After(s, es))
    decreases |es|
  {
    if es != [] {
      assert es[0] in es;
      SilentEventStaysWithinPass(s0, s, es[0]);
      SilentEventsStayWithinPass(s0, Next(s, es[0]), es[1..]);
    }
  }

  /**
   A pass with no heartbeat in between, in whatever order its connections end and whichever others
   come and go: it crashes iff some advertised address had changed; otherwise it ends with a
   connection, to its advertised address, for exactly the known hosts.
   */
  lemma PassReconcilesIffNoAddressChanged(s0: State, es: seq<Event>)
    requires s0.pass.Idle? && IsRun(Next(s0, Poll), es) && forall e <- es :: Silent(e)
    requires Enabled(After(Next(s0, Poll), es), Finish)
    ensures var s := Next(After(Next(s0, Poll), es), Finish);
      && (s.pass.Crashed? <==> exists h :: Changed(s0.known, s0.links, h))
      && (!s.pass.Crashed? ==>
            && s.pass.Idle? && s.links.Keys == s.known.Keys
            && s.known == s0.known - Deleted(s0.known, s0.links)
            && forall h <- s.links :: s.links[h].address == s.known[h])
  {
    var s1 := Next(s0, Poll);
    assert WithinPass(s0, s1) by {
      assert Deleted(s0.known, s0.links) - s1.pass.starting == {};
    }
    SilentEventsStayWithinPass(s0, s1, es);
    var s2 := After(s1, es);
    assert Deleted(s0.known, s0.links) - s2.pass.starting - s2.pass.waiting == Deleted(s0.known, s0.links);
    if h :| Changed(s0.known, s0.links, h) {
      assert h in s2.pass.added && h !in s2.known;
    } else {
      assert s2.pass.added <= s2.known.Keys;
    }
  }

  /**
   A host that comes online is connected to by the next pass at the address it advertises, or at its host name
   if it advertises none, unless that pass crashes on a changed address.
   */
  lemma HeartbeatIsConnected(s0: State, b: Heartbeat, es: seq<Event>)
    requires s0.pass.Idle? && s0.beat.None? && b.action == Online && b.hostname.Some? && b.hostname != s0.local
    requires var s1 := Next(s0, Beat(b));
      IsRun(Next(s1, Poll), es) && (forall e <- es :: Silent(e)) && Enabled(After(Next(s1, Poll), es), Finish)
    ensures var s := Next(After(Next(Next(s0, Beat(b)), Poll), es), Finish);
      !s.pass.Crashed? ==>
        || (b.hostname in s.links &&
            s.links[b.hostname].address == match b.ip
              case None => b.hostname.value
              case Some(ip) => if ip != "" then ip else b.hostname.value)
        || (b.hostname in s0.links && !s0.links[b.hostname].connected)
  {
    PassReconcilesIffNoAddressChanged(Next(s0, Beat(b)), es);
  }

  // ---------- Two clean-ups of one host ----------

  /**
   Since a pass last started to clean up `h` (and `before`, if that was before `s`) the listener completed
   a clean-up of `h`.
   */
  ghost predicate ListenerCleaned(s: State, es: seq<Event>, h: Host, before: bool)
    requires IsRun(s, es)
    decreases |es|
  {
    if es == [] then before
    else ListenerCleaned(Next(s, es[0]), es[1..], h, es[0] != PassStarts(h) &&
      (before || (es[0].BeatCleaned? && s.beat == Some(h))))
  }

  predicate Waits(s: State, h: Host) {
    s.pass.Cleaning? && h in s.pass.waiting
  }

  predicate StartsOnce(s: State) {
    s.pass.Cleaning? ==> s.pass.starting !! s.pass.waiting
  }

  /** A host for which a pass waits stays linked until the listener cleans it up. */
  lemma {:induction false} WaitingHostIsLinked(s: State, es: seq<Event>, h: Host, before: bool)
    requires IsRun(s, es) && StartsOnce(s) && (Waits(s, h) ==> (h in s.links <==> !before))
    requires Waits(After(s, es), h)
    ensures h in After(s, es).links <==> !ListenerCleaned(s, es, h, before)
    decreases |es|
  {
    if es != [] {
      var e := es[0];
      var cleaned := e != PassStarts(h) && (before || (e.BeatCleaned? && s.beat == Some(h)));
      assert Waits(Next(s, e), h) ==> (h in Next(s, e).links <==> !cleaned);
      WaitingHostIsLinked(Next(s, e), es[1..], h, cleaned);
    }
  }

  /**
   An offline heartbeat and a pass may both wait for the connection to one host. Over every run, whatever
   else happens in it: a pass crashes in its clean-up of a host iff the listener has completed one of that
   host since the pass's own clean-up of it started.
   */
  lemma CleanupCrashesIffListenerCleaned(s: State, es: seq<Event>, h: Host)
    requires !s.pass.Cleaning? && IsRun(s, es) && Enabled(After(s, es), PassCleaned(h))
    ensures Next(After(s, es), PassCleaned(h)).pass.Crashed? <==> ListenerCleaned(s, es, h, false)
  {
    WaitingHostIsLinked(s, es, h, false);
  }

  lemma FirstEvent(s: State, e: Event, es: seq<Event>)
    requires Enabled(s, e) && IsRun(Next(s, e), es)
    ensures IsRun(s, [e] + es) && After(s, [e] + es) == After(Next(s, e), es)
  {
    assert ([e] + es)[1..] == es;
  }

  /**
   The crash can be reached: a host comes online, is connected to, the attempt is still pending when the
   next pass drops it, and while the pass waits for the connection to end an offline heartbeat has cleaned
   it up.
   */
  lemma CleanupCrashIsReached(local: Host, h: string)
    requires local != Some(h)
    ensures var online, offline := Beat(Heartbeat(Some(h), None, Online)), Beat(Heartbeat(Some(h), None, Offline));
      var es := [online, Poll, Finish, Poll, PassStarts(Some(h)), offline, BeatCleaned, PassCleaned(Some(h))];
      IsRun(Initial(local), es) && After(Initial(local), es).pass.Crashed?
  {
    var online, offline := Beat(Heartbeat(Some(h), None, Online)), Beat(Heartbeat(Some(h), None, Offline));
    var s1 := Next(Initial(local), online);
    var s2 := Next(s1, Poll);
    assert Added(s1.known, s1.links) == {Some(h)} && Deleted(s1.known, s1.links) == {};
    var s3 := Next(s2, Finish);
    assert s3.links == map[Some(h) := Link(h, false)];
    var s4 := Next(s3, Poll);
    assert Some(h) in s4.pass.starting;
    var s5 := Next(s4, PassStarts(Some(h)));
    var s6 := Next(s5, offline);
    var s7 := Next(s6, BeatCleaned);
    var start, end := PassStarts(Some(h)), PassCleaned(Some(h));
    FirstEvent(s7, end, []);
    FirstEvent(s6, BeatCleaned, [end]);
    FirstEvent(s5, offline, [BeatCleaned, end]);
    FirstEvent(s4, start, [offline, BeatCleaned, end]);
    FirstEvent(s3, Poll, [start, offline, BeatCleaned, end]);
    FirstEvent(s2, Finish, [Poll, start, offline, BeatCleaned, end]);
    FirstEvent(s1, Poll, [Finish, Poll, start, offline, BeatCleaned, end]);
    FirstEvent(Initial(local), online, [Poll, Finish, Poll, start, offline, BeatCleaned, end]);
  }

  /** The host is gone from both tables, and the pass goes on without it. */
  predicate CleanedUp(s: State, t: State, h: Host) {
    && t.pass.Cleaning? && h !in t.pass.starting && h !in t.pass.waiting
    && t.links == s.links - {h} && t.known == s.known - {h} && t.beat == None
  }

  /** The other way round the listener only logs, and the host is cleaned up all the same. */
  lemma ListenerOnlyLogs(s: State, h: Host)
    requires Waits(s, h) && h !in s.pass.starting && s.beat == Some(h) && h in s.links
    ensures CleanedUp(s, Next(Next(s, PassCleaned(h)), BeatCleaned), h)
  {
  }

  /** A listener that is done before the pass starts on the host does no harm: the pass skips the connection. */
  lemma ListenerBeforeStartIsHarmless(s: State, h: Host)
    requires s.pass.Cleaning? && h in s.pass.starting && h !in s.pass.waiting && s.beat == Some(h) && h in s.links
    ensures CleanedUp(s, Next(Next(s, BeatCleaned), PassStarts(h)), h)
  {
    assert s.known - {h} - {h} == s.known - {h};
  }
}
