/**
 End to end: the browsers' consumers of one web node, the ordered stream of their messages to one
 relay connection, and that connection's producer table, under every interleaving. The connection
 may be made long after the browsers have subscribed.
 */
module RelayAgreement {
  import opened Wrappers
  import opened RelayConnection
  import opened RelayTable
  import opened RelayLedger
  import opened EventConsumer
  import opened ConsumerHistory

  /**
   `synced`: consumers that have told the relay about all their groups, or left, since it connected.
   `forgotten`: groups such a consumer told the relay about, lost to a malformed request, and has not asked
   for again.
   */
  datatype Net = Net(
    consumers: map<Channel, Membership>,
    queue: seq<Payload>,
    relay: Connection,
    ledger: Ledger,
    synced: set<Channel>,
    forgotten: map<Channel, set<Group>>)

  /** `Act` carries the order in which the consumer lists the groups it leaves and wants. */
  datatype Move =
    | Act(origin: Channel, action: Action, leftList: seq<Group>, wantedList: seq<Group>)
    | Relay(step: Step)

  function Memberships(n: Net, ch: Channel): Membership {
    if ch in n.consumers then n.consumers[ch] else Membership({}, {})
  }

  function Forgotten(n: Net, ch: Channel): set<Group> {
    if ch in n.forgotten then n.forgotten[ch] else {}
  }

  /** What an action does to the groups forgotten. */
  function Forgets(forgotten: set<Group>, session: set<Group>, synced: bool, a: Action): set<Group> {
    match a
    case Ask(wanted) => forgotten - wanted
    case Bad => if synced then forgotten + session else forgotten
    case _ => forgotten
  }

  /** The messages an action broadcasts. */
  function Announces(m: Membership, ch: Channel, a: Action, ll: seq<Group>, wl: seq<Group>): seq<Payload> {
    match a
    case Ask(wanted) => (if m.session - wanted != {} then [Unsubscribe(ll, ch)] else []) + [Subscribe(wl, ch)]
    case Gone => [Unsubscribe(ll, ch)]
    case _ => []
  }

  lemma EventsAnnounce(k: Consumer, r: Request, access: (string, string) -> bool, ll: seq<Group>, wl: seq<Group>)
    ensures Receive(k, r, access, ll, wl).outbox ==
      k.outbox + Announces(Of(k), k.channel, Classify(k, r, access), ll, wl)
    ensures EventConsumer.Leave(k, ll).outbox == k.outbox + Announces(Of(k), k.channel, Gone, ll, wl)
  {
  }

  ghost predicate CanMove(n: Net, v: Move) {
    match v
    case Act(ch, Ask(wanted), ll, wl) => Lists(ll, Memberships(n, ch).session - wanted) && Lists(wl, wanted)
    case Act(ch, Gone, ll, _) => Lists(ll, Memberships(n, ch).session)
    case Act(_, _, _, _) => true
    case Relay(s) =>
      && Enabled(n.relay, s)
      && (s.Handle? ==> n.queue != [] && s.frame == Text(n.queue[0]))
  }

  ghost function Moved(n: Net, v: Move): Net
    requires CanMove(n, v)
  {
    match v
    case Act(ch, a, ll, wl) =>
      var m := Memberships(n, ch);
      n.(consumers := n.consumers[ch := Apply(m, a)],
         queue := n.queue + Announces(m, ch, a, ll, wl),
         forgotten := n.forgotten[ch := Forgets(Forgotten(n, ch), m.session, ch in n.synced, a)],
         synced := if a.Ask? || a.Gone? then n.synced + {ch} else n.synced)
    case Relay(s) =>
      n.(relay := Next(n.relay, s),
         ledger := Observe(n.ledger, n.relay, s),
         queue := if s.Handle? then n.queue[1..] else n.queue)
  }

  ghost predicate IsPlay(n: Net, moves: seq<Move>)
    decreases |moves|
  {
    moves == [] || (CanMove(n, moves[0]) && IsPlay(Moved(n, moves[0]), moves[1..]))
  }

  ghost function Played(n: Net, moves: seq<Move>): Net
    requires IsPlay(n, moves)
    decreases |moves|
  {
    if moves == [] then n else Played(Moved(n, moves[0]), moves[1..])
  }

  /** A connection just made to a web node whose consumers are already in some state. */
  ghost predicate Fresh(n: Net) {
    && n.queue == [] && n.synced == {} && n.forgotten == map[] && n.ledger == EMPTY
    && n.relay == Start(n.relay.host)
    && forall ch :: Memberships(n, ch).session <= Memberships(n, ch).joined
  }

  // ---------- What the stream will make the relay believe ----------

  function Told(believed: set<Pair>, p: Payload): set<Pair> {
    match p
    case Subscribe(groups, origin) => believed + Pairs(origin, groups)
    case Unsubscribe(groups, origin) => believed - Pairs(origin, groups)
    case _ => believed
  }

  function ToldAll(believed: set<Pair>, queue: seq<Payload>): set<Pair>
    decreases |queue|
  {
    if queue == [] then believed else ToldAll(Told(believed, queue[0]), queue[1..])
  }

  lemma {:induction false} ToldAppend(believed: set<Pair>, q: seq<Payload>, r: seq<Payload>)
    ensures ToldAll(believed, q + r) == ToldAll(ToldAll(believed, q), r)
    decreases |q|
  {
    if q == [] {
      assert q + r == r;
    } else {
      assert (q + r)[1..] == q[1..] + r;
      ToldAppend(Told(believed, q[0]), q[1..], r);
    }
  }

  predicate From(p: Payload, ch: Channel) {
    (p.Subscribe? || p.Unsubscribe?) && p.origin == ch
  }

  lemma {:induction false} OthersDoNotMatter(believed: set<Pair>, q: seq<Payload>, ch: Channel, g: Group)
    requires forall p <- q :: !From(p, ch)
    ensures (ch, g) in ToldAll(believed, q) <==> (ch, g) in believed
    decreases |q|
  {
    if q != [] {
      assert q[0] in q;
      OthersDoNotMatter(Told(believed, q[0]), q[1..], ch, g);
    }
  }

  ghost predicate Expects(n: Net, ch: Channel, g: Group) {
    (ch, g) in ToldAll(n.ledger.believed, n.queue)
  }

  /** What an action's messages change for its own consumer, and for the others. */
  lemma AnnouncementEffect(b: set<Pair>, m: Membership, ch: Channel, a: Action, ll: seq<Group>, wl: seq<Group>,
      o: Channel, g: Group)
    requires a.Ask? ==> Lists(ll, m.session - a.wanted) && Lists(wl, a.wanted)
    requires a.Gone? ==> Lists(ll, m.session)
    ensures var after := ToldAll(b, Announces(m, ch, a, ll, wl));
      && (o != ch ==> ((o, g) in after <==> (o, g) in b))
      && (a.Ask? ==> ((ch, g) in after <==> g in a.wanted || ((ch, g) in b && g !in m.session)))
      && (a.Gone? ==> ((ch, g) in after <==> (ch, g) in b && g !in m.session))
      && (!a.Ask? && !a.Gone? ==> after == b)
  {
    var q := Announces(m, ch, a, ll, wl);
    if a.Ask? {
      if m.session - a.wanted != {} {
        assert q == [Unsubscribe(ll, ch), Subscribe(wl, ch)];
        var rest := q[1..];
        assert rest == [Subscribe(wl, ch)] && rest[1..] == [];
        assert ToldAll(b, q) == ToldAll(Told(b, q[0]), rest) == Told(Told(b, q[0]), rest[0]);
      } else {
        assert g in m.session ==> g in m.session - a.wanted || g in a.wanted;
        assert q == [Subscribe(wl, ch)] && q[1..] == [];
        assert ToldAll(b, q) == Told(b, q[0]);
      }
    } else if a.Gone? {
      assert q[1..] == [];
      assert ToldAll(b, q) == Told(b, q[0]);
    }
  }

  // ---------- The invariant ----------

  /**
   The stream leads the relay to hold a consumer it has heard in full for exactly the groups of the session
   and those forgotten, all of which the consumer is a member of; and any other consumer for nothing.
   */
  ghost predicate Aligned(n: Net, ch: Channel) {
    var m := Memberships(n, ch);
    && m.session <= m.joined && Forgotten(n, ch) <= m.joined && m.session !! Forgotten(n, ch)
    && (ch !in n.synced ==> Forgotten(n, ch) == {})
    && (forall g :: Expects(n, ch, g) <==> ch in n.synced && (g in m.session || g in Forgotten(n, ch)))
  }

  ghost predicate Good(n: Net) {
    && Owned(n.relay) && Agrees(n.ledger, n.relay)
    && forall ch :: Aligned(n, ch)
  }

  lemma FreshIsGood(n: Net)
    requires Fresh(n)
    ensures Good(n)
  {
    AgreesAtStart(n.relay.host);
    assert forall ch, g :: !Expects(n, ch, g);
  }

  lemma ObservedBelief(l: Ledger, c: Connection, s: Step)
    requires Enabled(c, s)
    ensures Observe(l, c, s).believed ==
      if s.Handle? then Told(l.believed, Effective(c, s.frame)) else l.believed
  {
  }

  lemma ActKeepsAligned(n: Net, v: Move, ch: Channel)
    requires v.Act? && CanMove(n, v) && Aligned(n, ch) && Aligned(n, v.origin)
    ensures Aligned(Moved(n, v), ch)
  {
    var n' := Moved(n, v);
    var m := Memberships(n, v.origin);
    var b := ToldAll(n.ledger.believed, n.queue);
    ToldAppend(n.ledger.believed, n.queue, Announces(m, v.origin, v.action, v.leftList, v.wantedList));
    forall g
      ensures Expects(n', ch, g) <==> ch in n'.synced && (g in Memberships(n', ch).session || g in Forgotten(n', ch))
    {
      AnnouncementEffect(b, m, v.origin, v.action, v.leftList, v.wantedList, ch, g);
      assert Expects(n, ch, g) <==> (ch, g) in b;
    }
  }

  lemma MoveKeepsGood(n: Net, v: Move)
    requires Good(n) && CanMove(n, v)
    ensures Good(Moved(n, v))
  {
    var n' := Moved(n, v);
    match v {
      case Relay(s) =>
        NextOwned(n.relay, s);
        AgreesThroughStep(n.ledger, n.relay, s);
        ObservedBelief(n.ledger, n.relay, s);
        assert ToldAll(n'.ledger.believed, n'.queue) == ToldAll(n.ledger.believed, n.queue);
        forall ch
          ensures Aligned(n', ch)
        {
          assert Aligned(n, ch);
          assert forall g :: Expects(n', ch, g) == Expects(n, ch, g);
        }
      case Act(origin, a, ll, wl) =>
        forall ch
          ensures Aligned(n', ch)
        {
          assert Aligned(n, ch) && Aligned(n, origin);
          ActKeepsAligned(n, v, ch);
        }
    }
  }

  lemma {:induction false} PlayKeepsGood(n: Net, moves: seq<Move>)
    requires Good(n) && IsPlay(n, moves)
    ensures Good(Played(n, moves))
    decreases |moves|
  {
    if moves != [] {
      MoveKeepsGood(n, moves[0]);
      PlayKeepsGood(Moved(n, moves[0]), moves[1..]);
    }
  }

  ghost predicate NothingUnderWay(n: Net, ch: Channel) {
    forall p <- n.queue :: !From(p, ch)
  }

  /**
   Whatever happens: once a consumer's messages are processed, the relay holds it for exactly the groups of
   its session and those a malformed request made it forget, less what deletions of entries have dropped;
   and for nothing before its first full request since the relay connected.
   */
  lemma RelayHoldsSessionAndForgotten(n: Net, moves: seq<Move>, ch: Channel, g: Group)
    requires Fresh(n) && IsPlay(n, moves) && NothingUnderWay(Played(n, moves), ch)
    ensures var e := Played(n, moves);
      Holds(e.relay, ch, g) <==>
        && ch in e.synced && (g in Memberships(e, ch).session || g in Forgotten(e, ch))
        && (ch, g) !in e.ledger.lost
  {
    FreshIsGood(n);
    PlayKeepsGood(n, moves);
    var e := Played(n, moves);
    OthersDoNotMatter(e.ledger.believed, e.queue, ch, g);
    assert Aligned(e, ch);
    assert Expects(e, ch, g) <==> (ch, g) in e.ledger.believed;
  }

  /** So what it holds lies between the session, less what was dropped, and the channel-layer membership. */
  lemma RelayBetweenSessionAndMembership(n: Net, moves: seq<Move>, ch: Channel, g: Group)
    requires Fresh(n) && IsPlay(n, moves) && NothingUnderWay(Played(n, moves), ch)
    requires ch in Played(n, moves).synced
    ensures var e := Played(n, moves);
      && (g in Memberships(e, ch).session ==> Holds(e.relay, ch, g) || (ch, g) in e.ledger.lost)
      && (Holds(e.relay, ch, g) ==> g in Memberships(e, ch).joined)
  {
    RelayHoldsSessionAndForgotten(n, moves, ch, g);
    FreshIsGood(n);
    PlayKeepsGood(n, moves);
    assert Aligned(Played(n, moves), ch);
  }

  /** For a consumer that came after the relay, the forgotten groups are those it is still a member of. */
  ghost predicate Newcomer(n: Net, ch: Channel) {
    var m := Memberships(n, ch);
    m.joined == m.session + Forgotten(n, ch) && (ch !in n.synced ==> m.session == {})
  }

  lemma {:induction false} ForgottenSinceConnected(n: Net, moves: seq<Move>, ch: Channel)
    requires Good(n) && IsPlay(n, moves) && Newcomer(n, ch)
    ensures Newcomer(Played(n, moves), ch) && Aligned(Played(n, moves), ch)
    decreases |moves|
  {
    assert Aligned(n, ch);
    if moves != [] {
      MoveKeepsGood(n, moves[0]);
      ForgottenSinceConnected(Moved(n, moves[0]), moves[1..], ch);
    }
  }

  // ---------- Exact agreement ----------

  /**
   No malformed request of `ch` meets a group, no subscribe of `ch` hits a closing producer, no producer that
   serves `ch` fails.
   */
  ghost predicate Calm(n: Net, moves: seq<Move>, ch: Channel)
    requires IsPlay(n, moves)
    decreases |moves|
  {
    moves == [] ||
    (&& (match moves[0]
         case Act(o, Bad, _, _) => o == ch ==> Memberships(n, ch).session == {}
         case Act(_, _, _, _) => true
         case Relay(s) => !ArrivesLate(n.relay, s, ch) && !FailsHolding(n.relay, s, ch))
     && Calm(Moved(n, moves[0]), moves[1..], ch))
  }

  ghost predicate Clean(n: Net, ch: Channel) {
    Unharmed(n.ledger, ch) && Forgotten(n, ch) == {}
  }

  lemma CalmMoveKeepsClean(n: Net, v: Move, ch: Channel)
    requires Good(n) && Clean(n, ch) && CanMove(n, v)
    requires IsPlay(n, [v]) && Calm(n, [v], ch)
    ensures Clean(Moved(n, v), ch)
  {
    if v.Relay? {
      StepKeepsUnharmed(n.ledger, n.relay, v.step, ch);
    }
  }

  lemma {:induction false} CalmPlayKeepsClean(n: Net, moves: seq<Move>, ch: Channel)
    requires Good(n) && Clean(n, ch) && IsPlay(n, moves) && Calm(n, moves, ch)
    ensures Clean(Played(n, moves), ch)
    decreases |moves|
  {
    if moves != [] {
      MoveKeepsGood(n, moves[0]);
      assert [moves[0]][1..] == [];
      CalmMoveKeepsClean(n, moves[0], ch);
      CalmPlayKeepsClean(Moved(n, moves[0]), moves[1..], ch);
    }
  }

  /**
   Once the relay has processed the latest message of a consumer, the groups it holds that consumer
   for are exactly the groups of the consumer's session; none after a disconnect. It makes no
   difference how late the relay connected, nor what other consumers did or what befell them.
   */
  lemma SubscriptionAgreement(n: Net, moves: seq<Move>, ch: Channel)
    requires Fresh(n) && IsPlay(n, moves) && Calm(n, moves, ch)
    requires ch in Played(n, moves).synced && NothingUnderWay(Played(n, moves), ch)
    ensures var e := Played(n, moves);
      forall g :: Holds(e.relay, ch, g) <==> g in Memberships(e, ch).session
  {
    FreshIsGood(n);
    CalmPlayKeepsClean(n, moves, ch);
    forall g
      ensures Holds(Played(n, moves).relay, ch, g) <==> g in Memberships(Played(n, moves), ch).session
    {
      RelayHoldsSessionAndForgotten(n, moves, ch, g);
      assert (ch, g) !in Played(n, moves).ledger.doomed + Played(n, moves).ledger.lost;
    }
  }
}
