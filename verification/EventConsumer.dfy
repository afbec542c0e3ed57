/**
 The browser-facing consumer of a web node: `EventConsumer.receive_json` and `disconnect`.
 The consumer keeps the groups of its session, joins and leaves groups of the local channel layer,
 and tells the relays about both.
 */
module EventConsumer {
  import opened Wrappers
  import opened RelayConnection

  /** The value a request maps a group name to: a list of object ids, or anything else. */
  datatype Value = Ids(ids: seq<string>) | NotAList

  /** What a request gives as its groups: a mapping, whose order is kept, or anything else. */
  datatype Requested = Mapping(entries: seq<(string, Value)>) | NotAMapping

  datatype Request = Request(token: Option<string>, groups: Option<Requested>)

  datatype Reply =
    | Denied
    | GroupsMustBeLists
    | Raised
    | Groups(current: seq<Group>, left: seq<Group>, joined: seq<Group>)
    | NoReply

  /** `groups` is the session key (absent or a set); `joined` is the channel layer's membership. */
  datatype Consumer = Consumer(
    channel: Channel,
    token: Option<string>,
    groups: Option<set<Group>>,
    joined: set<Group>,
    outbox: seq<Payload>)

  function GroupName(name: string, oid: string): Group {
    name + "-" + oid
  }

  /** No group a browser can ask for is the one the relays serve on their own. */
  lemma GroupNameIsNeverMetrics(name: string, oid: string)
    ensures GroupName(name, oid) != METRICS
  {
    assert GroupName(name, oid)[|name|] == '-';
    assert '-' in GroupName(name, oid) && '-' !in METRICS;
  }

  function Current(k: Consumer): set<Group> {
    if k.groups.Some? then k.groups.value else {}
  }

  predicate Authentic(k: Consumer, r: Request) {
    r.token.Some? && r.token.value != "" && r.token == k.token
  }

  predicate WellFormed(groups: seq<(string, Value)>) {
    forall i | 0 <= i < |groups| :: groups[i].1.Ids?
  }

  /** The groups named by the first `n` keys that the user may see. */
  function Allowed(groups: seq<(string, Value)>, n: nat, access: (string, string) -> bool): set<Group>
    requires n <= |groups|
  {
    set i, j | 0 <= i < n && groups[i].1.Ids? && 0 <= j < |groups[i].1.ids| && access(groups[i].0, groups[i].1.ids[j])
      :: GroupName(groups[i].0, groups[i].1.ids[j])
  }

  /** The objects of one key that the user may not see. */
  function DeniedOf(name: string, ids: seq<string>, access: (string, string) -> bool): seq<(string, string)> {
    if ids == [] then []
    else
      var last := ids[|ids| - 1];
      DeniedOf(name, ids[..|ids| - 1], access) + (if access(name, last) then [] else [(name, last)])
  }

  /** The errors sent, in order, up to the first value that is no list. */
  function DeniedIn(groups: seq<(string, Value)>, access: (string, string) -> bool): seq<(string, string)> {
    if groups == [] || groups[0].1.NotAList? then []
    else DeniedOf(groups[0].0, groups[0].1.ids, access) + DeniedIn(groups[1..], access)
  }

  function Wanted(groups: seq<(string, Value)>, access: (string, string) -> bool): set<Group> {
    Allowed(groups, |groups|, access)
  }

  /** A request that changes the subscription: the new groups replace those of the session. */
  function Regroup(k: Consumer, wanted: set<Group>, leftList: seq<Group>, wantedList: seq<Group>): Consumer {
    var left := Current(k) - wanted;
    k.(groups := Some(wanted),
       joined := k.joined - left + (wanted - Current(k)),
       outbox := k.outbox
         + (if left != {} then [Unsubscribe(leftList, k.channel)] else [])
         + [Subscribe(wantedList, k.channel)])
  }

  /** A malformed request: the session's groups were popped before the value was looked at. */
  function Forget(k: Consumer): Consumer {
    k.(groups := None)
  }

  function Leave(k: Consumer, leftList: seq<Group>): Consumer {
    k.(groups := None,
       joined := k.joined - Current(k),
       outbox := k.outbox + [Unsubscribe(leftList, k.channel)])
  }

  function Receive(k: Consumer, r: Request, access: (string, string) -> bool,
                   leftList: seq<Group>, wantedList: seq<Group>): Consumer {
    if !Authentic(k, r) || r.groups.None? then k
    else if r.groups.value.NotAMapping? || !WellFormed(r.groups.value.entries) then Forget(k)
    else Regroup(k, Wanted(r.groups.value.entries, access), leftList, wantedList)
  }

  lemma AllowedExtends(groups: seq<(string, Value)>, i: nat, access: (string, string) -> bool)
    requires i < |groups| && groups[i].1.Ids?
    ensures var (name, value) := groups[i];
      Allowed(groups, i + 1, access) ==
      Allowed(groups, i, access) + set k | 0 <= k < |value.ids| && access(name, value.ids[k]) ::
        GroupName(name, value.ids[k])
  {
  }

  class Socket {
    const channelName: Channel
    const token: Option<string>
    var groups: Option<set<Group>>
    var joined: set<Group>
    var outbox: seq<Payload>

    function View(): Consumer
      reads this
    {
      Consumer(channelName, token, groups, joined, outbox)
    }

    constructor (channelName: Channel, token: Option<string>)
      ensures View() == Consumer(channelName, token, None, {}, [])
    {
      this.channelName, this.token := channelName, token;
      groups, joined, outbox := None, {}, [];
    }

    /** `session.pop('groups')`, or nothing when the key is absent. */
    method PopGroups() returns (current: set<Group>)
      modifies this
      ensures current == Current(old(View())) && View() == old(View()).(groups := None)
    {
      current := if groups.Some? then groups.value else {};
      groups := None;
    }

    method DiscardAll(names: seq<Group>)
      modifies this
      ensures View() == old(View()).(joined := old(joined) - (set g | g in names))
    {
      for i := 0 to |names|
        invariant View() == old(View()).(joined := old(joined) - (set g | g in names[..i]))
      {
        joined := joined - {names[i]};
        assert names[..i + 1] == names[..i] + [names[i]];
      }
      assert names[..|names|] == names;
    }

    method AddAll(names: seq<Group>)
      modifies this
      ensures View() == old(View()).(joined := old(joined) + (set g | g in names))
    {
      for i := 0 to |names|
        invariant View() == old(View()).(joined := old(joined) + (set g | g in names[..i]))
      {
        joined := joined + {names[i]};
        assert names[..i + 1] == names[..i] + [names[i]];
      }
      assert names[..|names|] == names;
    }

    /** The inner loop: the ids of one key. */
    method CollectIds(name: string, ids: seq<string>, access: (string, string) -> bool)
      returns (newGroups: set<Group>, denied: seq<(string, string)>)
      ensures newGroups == set k | 0 <= k < |ids| && access(name, ids[k]) :: GroupName(name, ids[k])
      ensures denied == DeniedOf(name, ids, access)
    {
      newGroups, denied := {}, [];
      for j := 0 to |ids|
        invariant newGroups == set k | 0 <= k < j && access(name, ids[k]) :: GroupName(name, ids[k])
        invariant denied == DeniedOf(name, ids[..j], access)
      {
        assert ids[..j + 1][..j] == ids[..j];
        if access(name, ids[j]) {
          newGroups := newGroups + {GroupName(name, ids[j])};
        } else {
          denied := denied + [(name, ids[j])];
        }
      }
      assert ids[..|ids|] == ids;
    }

    /** The two nested loops over the requested groups; `ok` is false on the first value that is no list. */
    method Collect(requested: seq<(string, Value)>, access: (string, string) -> bool)
      returns (ok: bool, newGroups: set<Group>, denied: seq<(string, string)>)
      ensures denied == DeniedIn(requested, access)
      ensures ok <==> WellFormed(requested)
      ensures ok ==> newGroups == Wanted(requested, access)
    {
      newGroups, denied := {}, [];
      for i := 0 to |requested|
        invariant denied + DeniedIn(requested[i..], access) == DeniedIn(requested, access)
        invariant forall k | 0 <= k < i :: requested[k].1.Ids?
        invariant newGroups == Allowed(requested, i, access)
      {
        var (name, value) := requested[i];
        if value.NotAList? {
          return false, newGroups, denied;
        }
        assert requested[i..][1..] == requested[i + 1..];
        var groups, errors := CollectIds(name, value.ids, access);
        AllowedExtends(requested, i, access);
        newGroups, denied := newGroups + groups, denied + errors;
      }
      return true, newGroups, denied;
    }

    /** From the groups taken out of the session to the new ones: leave, announce, join, announce, remember. */
    method ChangeGroups(current: set<Group>, newGroups: set<Group>)
      returns (leftList: seq<Group>, joinedList: seq<Group>, wantedList: seq<Group>)
      modifies this
      ensures View() == Regroup(old(View()).(groups := Some(current)), newGroups, leftList, wantedList)
      ensures Lists(leftList, current - newGroups) && Lists(joinedList, newGroups - current)
      ensures Lists(wantedList, newGroups)
    {
      leftList := SetToSeq(current - newGroups);
      DiscardAll(leftList);
      if |leftList| > 0 {
        outbox := outbox + [Unsubscribe(leftList, channelName)];
      }
      joinedList := SetToSeq(newGroups - current);
      AddAll(joinedList);
      wantedList := SetToSeq(newGroups);
      outbox := outbox + [Subscribe(wantedList, channelName)];
      groups := Some(newGroups);
      assert |leftList| > 0 ==> leftList[0] in leftList;
    }

    method ReceiveJson(r: Request, access: (string, string) -> bool)
      returns (reply: Reply, denied: seq<(string, string)>, leftList: seq<Group>, wantedList: seq<Group>)
      modifies this
      ensures View() == Receive(old(View()), r, access, leftList, wantedList)
      ensures reply == Denied <==> !Authentic(old(View()), r)
      ensures reply == Raised <==> Authentic(old(View()), r) && r.groups == Some(NotAMapping)
      ensures reply == GroupsMustBeLists <==>
        Authentic(old(View()), r) && r.groups.Some? && r.groups.value.Mapping? && !WellFormed(r.groups.value.entries)
      ensures reply.Groups? ==>
        && r.groups.Some? && r.groups.value.Mapping?
        && Lists(wantedList, Wanted(r.groups.value.entries, access))
        && Lists(leftList, Current(old(View())) - Wanted(r.groups.value.entries, access))
        && reply.current == wantedList && reply.left == leftList
        && Lists(reply.joined, Wanted(r.groups.value.entries, access) - Current(old(View())))
      ensures reply.NoReply? <==> Authentic(old(View()), r) && r.groups.None?
      ensures denied ==
        if reply.Groups? || reply.GroupsMustBeLists? then DeniedIn(r.groups.value.entries, access) else []
    {
      denied, leftList, wantedList := [], [], [];
      if r.token.None? || r.token.value == "" || r.token != token {
        return Denied, denied, leftList, wantedList;
      }
      if r.groups.None? {
        return NoReply, denied, leftList, wantedList;
      }
      var current := PopGroups();
      if r.groups.value.NotAMapping? {
        return Raised, denied, leftList, wantedList;
      }
      var ok, newGroups;
      ok, newGroups, denied := Collect(r.groups.value.entries, access);
      if !ok {
        return GroupsMustBeLists, denied, leftList, wantedList;
      }
      var joinedList;
      leftList, joinedList, wantedList := ChangeGroups(current, newGroups);
      reply := Groups(wantedList, leftList, joinedList);
    }

    method Disconnect() returns (leftList: seq<Group>)
      modifies this
      ensures Lists(leftList, Current(old(View()))) && View() == Leave(old(View()), leftList)
    {
      var current := PopGroups();
      leftList := SetToSeq(current);
      DiscardAll(leftList);
      outbox := outbox + [Unsubscribe(leftList, channelName)];
    }
  }
}
