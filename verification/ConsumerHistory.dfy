/**
 What a whole conversation leaves behind: which groups a consumer is still a member of, read off
 the requests alone. A malformed request makes the consumer forget groups it stays a member of.
 */
module ConsumerHistory {
  import opened Wrappers
  import opened RelayConnection
  import opened EventConsumer

  /** What an event means to the consumer's groups. */
  datatype Action = Ask(wanted: set<Group>) | Bad | Ignored | Gone

  datatype Membership = Membership(session: set<Group>, joined: set<Group>)

  function Classify(k: Consumer, r: Request, access: (string, string) -> bool): Action {
    if !Authentic(k, r) || r.groups.None? then Ignored
    else if r.groups.value.NotAMapping? || !WellFormed(r.groups.value.entries) then Bad
    else Ask(Wanted(r.groups.value.entries, access))
  }

  function Of(k: Consumer): Membership {
    Membership(Current(k), k.joined)
  }

  function Apply(m: Membership, a: Action): Membership {
    match a
    case Ask(wanted) => Membership(wanted, m.joined - (m.session - wanted) + (wanted - m.session))
    case Bad => Membership({}, m.joined)
    case Ignored => m
    case Gone => Membership({}, m.joined - m.session)
  }

  lemma EventsApplyActions(k: Consumer, r: Request, access: (string, string) -> bool, ll: seq<Group>, wl: seq<Group>)
    ensures Of(Receive(k, r, access, ll, wl)) == Apply(Of(k), Classify(k, r, access))
    ensures Of(EventConsumer.Leave(k, ll)) == Apply(Of(k), Gone)
  {
  }

  function ApplyAll(history: seq<Action>): Membership {
    if history == [] then Membership({}, {})
    else Apply(ApplyAll(history[..|history| - 1]), history[|history| - 1])
  }

  // ---------- Reading the history ----------

  predicate Mentions(a: Action, g: Group) {
    a.Ask? && g in a.wanted
  }

  ghost predicate LastMention(h: seq<Action>, i: int, g: Group) {
    0 <= i < |h| && Mentions(h[i], g) && forall j | i < j < |h| :: !Mentions(h[j], g)
  }

  ghost predicate Quiet(h: seq<Action>, lo: int, hi: int) {
    0 <= lo && hi <= |h| && forall j | lo <= j < hi :: h[j].Ignored?
  }

  /** Asked for, and nothing happened since. */
  ghost predicate IsCurrent(h: seq<Action>, g: Group) {
    exists i :: LastMention(h, i, g) && Quiet(h, i + 1, |h|)
  }

  /** Asked for; the next event was malformed; never asked for again. */
  ghost predicate IsForgotten(h: seq<Action>, g: Group) {
    exists i, k :: LastMention(h, i, g) && i < k < |h| && Quiet(h, i + 1, k) && h[k].Bad?
  }

  lemma CurrentStep(h: seq<Action>, a: Action, g: Group)
    ensures IsCurrent(h + [a], g) <==> Mentions(a, g) || (a.Ignored? && IsCurrent(h, g))
  {
    var h' := h + [a];
    if IsCurrent(h', g) {
      var i :| LastMention(h', i, g) && Quiet(h', i + 1, |h'|);
      if i < |h| {
        assert h'[|h|].Ignored?;
        assert LastMention(h, i, g) by {
          assert forall j | i < j < |h| :: h[j] == h'[j];
        }
        assert Quiet(h, i + 1, |h|) by {
          assert forall j | i + 1 <= j < |h| :: h[j] == h'[j];
        }
      }
    }
    if Mentions(a, g) {
      assert LastMention(h', |h|, g) && Quiet(h', |h| + 1, |h'|);
    } else if a.Ignored? && IsCurrent(h, g) {
      var i :| LastMention(h, i, g) && Quiet(h, i + 1, |h|);
      assert LastMention(h', i, g) && Quiet(h', i + 1, |h'|);
    }
  }

  lemma ForgottenStep(h: seq<Action>, a: Action, g: Group)
    ensures IsForgotten(h + [a], g) <==>
      !Mentions(a, g) && (IsForgotten(h, g) || (a.Bad? && IsCurrent(h, g)))
  {
    var h' := h + [a];
    if IsForgotten(h', g) {
      var i, k :| LastMention(h', i, g) && i < k < |h'| && Quiet(h', i + 1, k) && h'[k].Bad?;
      assert LastMention(h, i, g) by {
        assert forall j | i < j < |h| :: h[j] == h'[j];
      }
      assert Quiet(h, i + 1, k) by {
        assert forall j | i + 1 <= j < k :: h[j] == h'[j];
      }
      assert !Mentions(h'[|h|], g);
    }
    if !Mentions(a, g) && IsForgotten(h, g) {
      var i, k :| LastMention(h, i, g) && i < k < |h| && Quiet(h, i + 1, k) && h[k].Bad?;
      assert LastMention(h', i, g) && Quiet(h', i + 1, k) && h'[k].Bad?;
    } else if a.Bad? && IsCurrent(h, g) {
      var i :| LastMention(h, i, g) && Quiet(h, i + 1, |h|);
      assert LastMention(h', i, g) && Quiet(h', i + 1, |h|) && h'[|h|].Bad?;
    }
  }

  /**
   Over every history: the session holds the groups still current, and the channel layer holds
   those and, besides, exactly the groups a malformed request made the consumer forget.
   */
  lemma {:induction false} MembershipInClosedForm(h: seq<Action>, g: Group)
    ensures g in ApplyAll(h).session <==> IsCurrent(h, g)
    ensures g in ApplyAll(h).joined <==> IsCurrent(h, g) || IsForgotten(h, g)
    ensures ApplyAll(h).session <= ApplyAll(h).joined
    decreases |h|
  {
    if h != [] {
      var front, a := h[..|h| - 1], h[|h| - 1];
      assert h == front + [a];
      MembershipInClosedForm(front, g);
      CurrentStep(front, a, g);
      ForgottenStep(front, a, g);
    }
  }

  /** So disconnecting cleans up completely iff no malformed request ever met a group and stood. */
  lemma DisconnectCleansUpIffNothingForgotten(h: seq<Action>)
    ensures ApplyAll(h + [Gone]).session == {}
    ensures ApplyAll(h + [Gone]).joined == {} <==> forall g :: !IsForgotten(h, g)
  {
    var h' := h + [Gone];
    assert h'[..|h|] == h;
    forall g
      ensures g in ApplyAll(h').joined <==> IsForgotten(h, g)
    {
      MembershipInClosedForm(h', g);
      CurrentStep(h, Gone, g);
      ForgottenStep(h, Gone, g);
    }
  }

  /** One event at a time: membership and session stay equal iff the event does not make the consumer forget. */
  lemma EventKeepsSessionEqualIff(m: Membership, a: Action)
    requires m.joined == m.session
    ensures Apply(m, a).joined == Apply(m, a).session <==> !(a.Bad? && m.session != {})
  {
  }

  // ---------- Who may be told ----------

  lemma {:induction false} DeniedOfMeans(name: string, ids: seq<string>, access: (string, string) -> bool, n: string,
      oid: string)
    ensures (n, oid) in DeniedOf(name, ids, access) <==> n == name && oid in ids && !access(name, oid)
  {
    if ids != [] {
      assert ids == ids[..|ids| - 1] + [ids[|ids| - 1]];
      DeniedOfMeans(name, ids[..|ids| - 1], access, n, oid);
    }
  }

  /** The objects for which a well-formed request is sent an error are those it names and the user may not see. */
  lemma {:induction false} DeniedIffNoAccess(entries: seq<(string, Value)>, access: (string, string) -> bool,
      name: string, oid: string)
    requires WellFormed(entries)
    ensures (name, oid) in DeniedIn(entries, access) <==>
      !access(name, oid) && exists e :: e in entries && e.0 == name && oid in e.1.ids
    decreases |entries|
  {
    if entries != [] {
      assert entries == [entries[0]] + entries[1..];
      DeniedOfMeans(entries[0].0, entries[0].1.ids, access, name, oid);
      DeniedIffNoAccess(entries[1..], access, name, oid);
    }
  }

  /** A request, what the user may see when it arrives, and the order in which groups are listed. */
  datatype Turn = Turn(request: Request, access: (string, string) -> bool, leftList: seq<Group>, wantedList: seq<Group>)

  function Converse(k: Consumer, turns: seq<Turn>): Consumer {
    if turns == [] then k
    else
      var last := turns[|turns| - 1];
      Receive(Converse(k, turns[..|turns| - 1]), last.request, last.access, last.leftList, last.wantedList)
  }

  /** The request carries the consumer's own token and names the group through an object the user may see. */
  ghost predicate Authorizes(k: Consumer, t: Turn, g: Group) {
    && k.token.Some? && k.token.value != "" && t.request.token == k.token
    && t.request.groups.Some? && t.request.groups.value.Mapping?
    && exists e, oid :: e in t.request.groups.value.entries && e.1.Ids? && oid in e.1.ids && t.access(e.0, oid)
         && g == GroupName(e.0, oid)
  }

  lemma WantedMeans(k: Consumer, t: Turn, g: Group)
    requires Authentic(k, t.request) && t.request.groups.Some? && t.request.groups.value.Mapping?
    ensures g in Wanted(t.request.groups.value.entries, t.access) <==> Authorizes(k, t, g)
  {
    var es := t.request.groups.value.entries;
    if Authorizes(k, t, g) {
      var e, oid :| e in es && e.1.Ids? && oid in e.1.ids && t.access(e.0, oid) && g == GroupName(e.0, oid);
      var i :| 0 <= i < |es| && es[i] == e;
      var j :| 0 <= j < |e.1.ids| && e.1.ids[j] == oid;
      assert t.access(es[i].0, es[i].1.ids[j]);
    }
    if g in Wanted(es, t.access) {
      var i, j :| 0 <= i < |es| && es[i].1.Ids? && 0 <= j < |es[i].1.ids| && t.access(es[i].0, es[i].1.ids[j])
        && g == GroupName(es[i].0, es[i].1.ids[j]);
      assert es[i] in es && es[i].1.ids[j] in es[i].1.ids;
    }
  }

  lemma TurnIsAuthorized(k: Consumer, m: Consumer, t: Turn, g: Group)
    requires m.token == k.token && Current(m) <= m.joined
    ensures var e := Receive(m, t.request, t.access, t.leftList, t.wantedList);
      && e.token == k.token && Current(e) <= e.joined
      && (g in e.joined ==> g in m.joined || Authorizes(k, t, g))
      && (Authorizes(k, t, g) && WellFormed(t.request.groups.value.entries) ==> g in e.joined)
  {
    assert Authorizes(m, t, g) <==> Authorizes(k, t, g);
    if Authentic(m, t.request) && t.request.groups.Some? && t.request.groups.value.Mapping? {
      WantedMeans(m, t, g);
    }
  }

  /**
   Over every conversation: a consumer is a member only of groups that some request of its own, with its
   token, named through an object the user might see; and of all that the last request so named, if it was
   well formed.
   */
  lemma {:induction false} MembershipIsAuthorized(k: Consumer, turns: seq<Turn>, g: Group)
    requires k.groups == None && k.joined == {}
    ensures var e := Converse(k, turns); e.token == k.token && Current(e) <= e.joined
    ensures g in Converse(k, turns).joined ==> exists t :: t in turns && Authorizes(k, t, g)
    ensures
      (turns != [] && Authorizes(k, turns[|turns| - 1], g) &&
       WellFormed(turns[|turns| - 1].request.groups.value.entries)) ==> g in Converse(k, turns).joined
  {
    if turns != [] {
      var front, last := turns[..|turns| - 1], turns[|turns| - 1];
      assert turns == front + [last];
      MembershipIsAuthorized(k, front, g);
      TurnIsAuthorized(k, Converse(k, front), last, g);
    }
  }
}
