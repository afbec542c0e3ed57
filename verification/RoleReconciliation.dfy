/**
 `reconcile_users_org_team_mappings`: bringing a user's roles to a desired state with three values per
 role: hold, do not hold, leave.
 */
module RoleReconciliation {
  import opened Wrappers

  type Role = string
  type RoleId = nat
  type Wish = Option<bool>

  type OrgStates = map<string, map<Role, Wish>>
  /** Keyed by the organization's name, which a mapping may lack. */
  type TeamStates = map<Option<string>, map<string, map<Role, Wish>>>

  datatype OrgRow = OrgRow(name: string, roles: map<Role, RoleId>)
  datatype TeamRow = TeamRow(name: string, org: string, roles: map<Role, RoleId>)

  datatype Directory = Directory(orgs: seq<OrgRow>, teams: seq<TeamRow>)

  function WishIn(m: map<Role, Wish>, role: Role): Wish {
    if role in m then m[role] else None
  }

  function OrgWishes(states: OrgStates, name: string): map<Role, Wish> {
    if name in states then states[name] else map[]
  }

  function TeamWishes(states: TeamStates, org: string, name: string): map<Role, Wish> {
    if Some(org) in states && name in states[Some(org)] then states[Some(org)][name] else map[]
  }

  // ---------- The meaning ----------

  ghost predicate OrgAsks(dir: Directory, states: OrgStates, id: RoleId, hold: bool) {
    exists row, role :: row in dir.orgs && role in row.roles && row.roles[role] == id
      && WishIn(OrgWishes(states, row.name), role) == Some(hold)
  }

  ghost predicate TeamAsks(dir: Directory, states: TeamStates, id: RoleId, hold: bool) {
    exists row, role :: row in dir.teams && role in row.roles && row.roles[role] == id
      && WishIn(TeamWishes(states, row.org, row.name), role) == Some(hold)
  }

  ghost predicate Asks(dir: Directory, orgs: OrgStates, teams: TeamStates, id: RoleId, hold: bool) {
    OrgAsks(dir, orgs, id, hold) || TeamAsks(dir, teams, id, hold)
  }

  /** Exactly the roles asked for are added and exactly those asked away are taken. */
  ghost predicate Reconciled(dir: Directory, orgs: OrgStates, teams: TeamStates, held: set<RoleId>,
      after: set<RoleId>) {
    forall id :: id in after <==>
      (Asks(dir, orgs, teams, id, true) || (id in held && !Asks(dir, orgs, teams, id, false)))
  }

  /** No role belongs to two rows or to two fields of a row, and no two rows are the same object. */
  ghost predicate DistinctRoles(dir: Directory) {
    && (forall i, j, a, b | 0 <= i < |dir.orgs| && 0 <= j < |dir.orgs| && a in dir.orgs[i].roles &&
      b in dir.orgs[j].roles ::
          dir.orgs[i].roles[a] == dir.orgs[j].roles[b] ==> i == j && a == b)
    && (forall i, j, a, b | 0 <= i < |dir.teams| && 0 <= j < |dir.teams| && a in dir.teams[i].roles &&
      b in dir.teams[j].roles ::
          dir.teams[i].roles[a] == dir.teams[j].roles[b] ==> i == j && a == b)
    && (forall i, j, a, b | 0 <= i < |dir.orgs| && 0 <= j < |dir.teams| && a in dir.orgs[i].roles &&
      b in dir.teams[j].roles ::
          dir.orgs[i].roles[a] != dir.teams[j].roles[b])
  }

  // ---------- The loops ----------

  /** A row as the inner loop sees it: its role ids and what is wished for it. */
  datatype Item = Item(roles: map<Role, RoleId>, wishes: map<Role, Wish>)

  type Change = (RoleId, bool)

  function ChangesOf(item: Item, names: seq<Role>): seq<Change> {
    if names == [] then []
    else
      var front := ChangesOf(item, names[..|names| - 1]);
      var role := names[|names| - 1];
      if WishIn(item.wishes, role).Some? && role in item.roles
      then front + [(item.roles[role], WishIn(item.wishes, role).value)]
      else front
  }

  function Changes(items: seq<Item>, names: seq<Role>): seq<Change> {
    if items == [] then []
    else Changes(items[..|items| - 1], names) + ChangesOf(items[|items| - 1], names)
  }

  /** Every decision consults the snapshot taken at the start, not the roles as they are. */
  function ApplyOne(held: set<RoleId>, snapshot: set<RoleId>, c: Change): set<RoleId> {
    if c.1 then (if c.0 !in snapshot then held + {c.0} else held)
    else (if c.0 in snapshot then held - {c.0} else held)
  }

  function ApplyChanges(held: set<RoleId>, snapshot: set<RoleId>, cs: seq<Change>): set<RoleId> {
    if cs == [] then held
    else ApplyOne(ApplyChanges(held, snapshot, cs[..|cs| - 1]), snapshot, cs[|cs| - 1])
  }

  function OrgItems(rows: seq<OrgRow>, states: OrgStates): seq<Item> {
    if rows == [] then []
    else
      var row := rows[|rows| - 1];
      OrgItems(rows[..|rows| - 1], states)
        + (if row.name in states then [Item(row.roles, OrgWishes(states, row.name))] else [])
  }

  predicate NamesTeam(states: TeamStates, name: string) {
    exists org <- states :: name in states[org]
  }

  function TeamItems(rows: seq<TeamRow>, states: TeamStates): seq<Item> {
    if rows == [] then []
    else
      var row := rows[|rows| - 1];
      TeamItems(rows[..|rows| - 1], states)
      + (if NamesTeam(states, row.name) then [Item(row.roles, TeamWishes(states, row.org, row.name))] else [])
  }

  ghost predicate NamesOrgRoles(names: seq<Role>, states: OrgStates) {
    && (forall i, j | 0 <= i < j < |names| :: names[i] != names[j])
    && forall role :: role in names <==> exists org :: org in states && WishIn(states[org], role).Some?
  }

  ghost predicate NamesTeamRoles(names: seq<Role>, states: TeamStates) {
    && (forall i, j | 0 <= i < j < |names| :: names[i] != names[j])
    && forall role :: role in names <==>
      exists org, team :: org in states && team in states[org] && WishIn(states[org][team], role).Some?
  }

  function OrgRoleIds(dir: Directory): set<RoleId> {
    set row, role | row in dir.orgs && role in row.roles :: row.roles[role]
  }

  function TeamRoleIds(dir: Directory): set<RoleId> {
    set row, role | row in dir.teams && role in row.roles :: row.roles[role]
  }

  // ---------- From the loops to the meaning ----------

  lemma {:induction false} ApplyAppend(held: set<RoleId>, snapshot: set<RoleId>, cs: seq<Change>, ds: seq<Change>)
    ensures ApplyChanges(held, snapshot, cs + ds) == ApplyChanges(ApplyChanges(held, snapshot, cs), snapshot, ds)
    decreases |ds|
  {
    if ds == [] {
      assert cs + ds == cs;
    } else {
      assert (cs + ds)[..|cs + ds| - 1] == cs + ds[..|ds| - 1];
      ApplyAppend(held, snapshot, cs, ds[..|ds| - 1]);
    }
  }

  /** Nothing is asked both ways. */
  ghost predicate Decided(cs: seq<Change>) {
    forall i, j | 0 <= i < |cs| && 0 <= j < |cs| :: cs[i].0 == cs[j].0 ==> cs[i].1 == cs[j].1
  }

  /** A stale snapshot does no harm as long as no role is asked both ways. */
  lemma {:induction false} ApplyIsExact(held: set<RoleId>, snapshot: set<RoleId>, cs: seq<Change>, id: RoleId)
    requires Decided(cs) && (forall c <- cs :: c.0 in held <==> c.0 in snapshot)
    ensures (id, true) in cs ==> id in ApplyChanges(held, snapshot, cs)
    ensures (id, false) in cs ==> id !in ApplyChanges(held, snapshot, cs)
    ensures (id, true) !in cs && (id, false) !in cs ==> (id in ApplyChanges(held, snapshot, cs) <==> id in held)
    decreases |cs|
  {
    if cs != [] {
      var front, last := cs[..|cs| - 1], cs[|cs| - 1];
      assert cs == front + [last] && last in cs;
      ApplyIsExact(held, snapshot, front, id);
      if last.0 == id {
        assert forall c <- front :: c.0 == id ==> c.1 == last.1;
      }
    }
  }

  lemma {:induction false} ChangesOfMeaning(item: Item, names: seq<Role>, c: Change)
    ensures c in ChangesOf(item, names) <==>
      exists role :: role in names && role in item.roles && item.roles[role] == c.0
        && WishIn(item.wishes, role) == Some(c.1)
  {
    if names != [] {
      ChangesOfMeaning(item, names[..|names| - 1], c);
      assert names == names[..|names| - 1] + [names[|names| - 1]];
    }
  }

  lemma {:induction false} ChangesMeaning(items: seq<Item>, names: seq<Role>, c: Change)
    ensures c in Changes(items, names) <==>
      exists item, role :: item in items && role in names && role in item.roles && item.roles[role] == c.0
        && WishIn(item.wishes, role) == Some(c.1)
    decreases |items|
  {
    if items != [] {
      var front, last := items[..|items| - 1], items[|items| - 1];
      assert items == front + [last];
      ChangesMeaning(front, names, c);
      ChangesOfMeaning(last, names, c);
    }
  }

  lemma {:induction false} OrgItemsMeaning(rows: seq<OrgRow>, states: OrgStates, item: Item)
    ensures item in OrgItems(rows, states) <==>
      exists row :: row in rows && row.name in states && item == Item(row.roles, OrgWishes(states, row.name))
    decreases |rows|
  {
    if rows != [] {
      OrgItemsMeaning(rows[..|rows| - 1], states, item);
      assert rows == rows[..|rows| - 1] + [rows[|rows| - 1]];
    }
  }

  lemma {:induction false} TeamItemsMeaning(rows: seq<TeamRow>, states: TeamStates, item: Item)
    ensures item in TeamItems(rows, states) <==>
      exists row :: row in rows && NamesTeam(states, row.name)
        && item == Item(row.roles, TeamWishes(states, row.org, row.name))
    decreases |rows|
  {
    if rows != [] {
      TeamItemsMeaning(rows[..|rows| - 1], states, item);
      assert rows == rows[..|rows| - 1] + [rows[|rows| - 1]];
    }
  }

  lemma OrgChangesMeaning(dir: Directory, states: OrgStates, names: seq<Role>, id: RoleId, hold: bool)
    requires NamesOrgRoles(names, states)
    ensures (id, hold) in Changes(OrgItems(dir.orgs, states), names) <==> OrgAsks(dir, states, id, hold)
  {
    ChangesMeaning(OrgItems(dir.orgs, states), names, (id, hold));
    if (id, hold) in Changes(OrgItems(dir.orgs, states), names) {
      var item, role :| item in OrgItems(dir.orgs, states) && role in names && role in item.roles &&
        item.roles[role] == id
        && WishIn(item.wishes, role) == Some(hold);
      OrgItemsMeaning(dir.orgs, states, item);
    }
    if OrgAsks(dir, states, id, hold) {
      var row, role :| row in dir.orgs && role in row.roles && row.roles[role] == id
        && WishIn(OrgWishes(states, row.name), role) == Some(hold);
      var item := Item(row.roles, OrgWishes(states, row.name));
      OrgItemsMeaning(dir.orgs, states, item);
      assert role in names && role in item.roles && item.roles[role] == id && WishIn(item.wishes, role) == Some(hold);
    }
  }

  lemma TeamChangesMeaning(dir: Directory, states: TeamStates, names: seq<Role>, id: RoleId, hold: bool)
    requires NamesTeamRoles(names, states)
    ensures (id, hold) in Changes(TeamItems(dir.teams, states), names) <==> TeamAsks(dir, states, id, hold)
  {
    ChangesMeaning(TeamItems(dir.teams, states), names, (id, hold));
    if (id, hold) in Changes(TeamItems(dir.teams, states), names) {
      var item, role :| item in TeamItems(dir.teams, states) && role in names && role in item.roles &&
        item.roles[role] == id
        && WishIn(item.wishes, role) == Some(hold);
      TeamItemsMeaning(dir.teams, states, item);
    }
    if TeamAsks(dir, states, id, hold) {
      var row, role :| row in dir.teams && role in row.roles && row.roles[role] == id
        && WishIn(TeamWishes(states, row.org, row.name), role) == Some(hold);
      var item := Item(row.roles, TeamWishes(states, row.org, row.name));
      assert NamesTeam(states, row.name);
      TeamItemsMeaning(dir.teams, states, item);
      assert WishIn(states[Some(row.org)][row.name], role).Some?;
      assert role in names && role in item.roles && item.roles[role] == id && WishIn(item.wishes, role) == Some(hold);
    }
  }

  lemma NotAskedBothWays(dir: Directory, orgs: OrgStates, teams: TeamStates, id: RoleId)
    requires DistinctRoles(dir)
    ensures !(Asks(dir, orgs, teams, id, true) && Asks(dir, orgs, teams, id, false))
  {
  }

  lemma ReconcileMeaning(dir: Directory, orgs: OrgStates, teams: TeamStates, orgNames: seq<Role>, teamNames: seq<Role>,
                         held: set<RoleId>, snapshot: set<RoleId>)
    requires DistinctRoles(dir)
    requires orgs != map[] ==> NamesOrgRoles(orgNames, orgs)
    requires teams != map[] ==> NamesTeamRoles(teamNames, teams)
    requires snapshot == held *
      ((if orgs != map[] then OrgRoleIds(dir) else {}) + (if teams != map[] then TeamRoleIds(dir) else {}))
    ensures var cs := (if orgs != map[] then Changes(OrgItems(dir.orgs, orgs), orgNames) else [])
                      + (if teams != map[] then Changes(TeamItems(dir.teams, teams), teamNames) else []);
      Reconciled(dir, orgs, teams, held, ApplyChanges(held, snapshot, cs))
  {
    var cs := (if orgs != map[] then Changes(OrgItems(dir.orgs, orgs), orgNames) else [])
              + (if teams != map[] then Changes(TeamItems(dir.teams, teams), teamNames) else []);
    forall id: RoleId, hold
      ensures (id, hold) in cs <==> Asks(dir, orgs, teams, id, hold)
    {
      if orgs != map[] {
        OrgChangesMeaning(dir, orgs, orgNames, id, hold);
      }
      if teams != map[] {
        TeamChangesMeaning(dir, teams, teamNames, id, hold);
      }
    }
    assert Decided(cs) by {
      forall i, j | 0 <= i < |cs| && 0 <= j < |cs| && cs[i].0 == cs[j].0
        ensures cs[i].1 == cs[j].1
      {
        assert (cs[i].0, cs[i].1) in cs && (cs[i].0, cs[j].1) in cs;
        NotAskedBothWays(dir, orgs, teams, cs[i].0);
      }
    }
    forall c <- cs
      ensures c.0 in held <==> c.0 in snapshot
    {
      assert (c.0, c.1) in cs && Asks(dir, orgs, teams, c.0, c.1);
    }
    forall id
      ensures id in ApplyChanges(held, snapshot, cs) <==>
        (Asks(dir, orgs, teams, id, true) || (id in held && !Asks(dir, orgs, teams, id, false)))
    {
      ApplyIsExact(held, snapshot, cs, id);
      NotAskedBothWays(dir, orgs, teams, id);
    }
  }

  // ---------- The user ----------

  class User {
    var roles: set<RoleId>

    method AddNames(names: seq<Role>, wishes: map<Role, Wish>) returns (more: seq<Role>)
      requires forall i, j | 0 <= i < j < |names| :: names[i] != names[j]
      ensures forall i, j | 0 <= i < j < |more| :: more[i] != more[j]
      ensures forall role :: role in more <==> role in names || WishIn(wishes, role).Some?
    {
      more := names;
      var keys := SetToSeq(wishes.Keys);
      for i := 0 to |keys|
        invariant forall i, j | 0 <= i < j < |more| :: more[i] != more[j]
        invariant forall role :: role in more <==> role in names || (role in keys[..i] && WishIn(wishes, role).Some?)
      {
        assert keys[i] in keys && keys[..i + 1] == keys[..i] + [keys[i]];
        if wishes[keys[i]].Some? && keys[i] !in more {
          more := more + [keys[i]];
        }
      }
      assert keys[..|keys|] == keys;
    }

    method OrgRoleNames(states: OrgStates) returns (names: seq<Role>)
      ensures NamesOrgRoles(names, states)
    {
      names := [];
      var orgs := SetToSeq(states.Keys);
      for i := 0 to |orgs|
        invariant forall i, j | 0 <= i < j < |names| :: names[i] != names[j]
        invariant forall role :: role in names <==> exists org :: org in orgs[..i] && WishIn(states[org], role).Some?
      {
        assert orgs[i] in orgs && orgs[..i + 1] == orgs[..i] + [orgs[i]];
        names := AddNames(names, states[orgs[i]]);
      }
      assert orgs[..|orgs|] == orgs;
    }

    method TeamRoleNames(states: TeamStates) returns (names: seq<Role>)
      ensures NamesTeamRoles(names, states)
    {
      names := [];
      var orgs := SetToSeq(states.Keys);
      for i := 0 to |orgs|
        invariant forall i, j | 0 <= i < j < |names| :: names[i] != names[j]
        invariant forall role :: role in names <==>
          exists org, team :: org in orgs[..i] && team in states[org] && WishIn(states[org][team], role).Some?
      {
        assert orgs[i] in orgs && orgs[..i + 1] == orgs[..i] + [orgs[i]];
        ghost var before := names;
        var teams := SetToSeq(states[orgs[i]].Keys);
        for k := 0 to |teams|
          invariant forall i, j | 0 <= i < j < |names| :: names[i] != names[j]
          invariant forall role :: role in names <==>
            (role in before || exists team :: team in teams[..k] && WishIn(states[orgs[i]][team], role).Some?)
        {
          assert teams[k] in teams && teams[..k + 1] == teams[..k] + [teams[k]];
          names := AddNames(names, states[orgs[i]][teams[k]]);
        }
        assert teams[..|teams|] == teams;
      }
      assert orgs[..|orgs|] == orgs;
    }

    /** The inner loop: one row against every role name. */
    method ReconcileItem(item: Item, names: seq<Role>, snapshot: set<RoleId>)
      modifies this
      ensures roles == ApplyChanges(old(roles), snapshot, ChangesOf(item, names))
    {
      for i := 0 to |names|
        invariant roles == ApplyChanges(old(roles), snapshot, ChangesOf(item, names[..i]))
      {
        assert names[..i + 1][..i] == names[..i];
        var role := names[i];
        var wish := WishIn(item.wishes, role);
        if wish.Some? && role in item.roles {
          var id := item.roles[role];
          ghost var done := ChangesOf(item, names[..i]);
          assert (done + [(id, wish.value)])[..|done|] == done;
          if wish.value {
            if id !in snapshot {
              roles := roles + {id};
            }
          } else {
            if id in snapshot {
              roles := roles - {id};
            }
          }
        }
      }
      assert names[..|names|] == names;
    }

    method ReconcileItems(items: seq<Item>, names: seq<Role>, snapshot: set<RoleId>)
      modifies this
      ensures roles == ApplyChanges(old(roles), snapshot, Changes(items, names))
    {
      for i := 0 to |items|
        invariant roles == ApplyChanges(old(roles), snapshot, Changes(items[..i], names))
      {
        assert items[..i + 1][..i] == items[..i];
        ReconcileItem(items[i], names, snapshot);
        ApplyAppend(old(roles), snapshot, Changes(items[..i], names), ChangesOf(items[i], names));
      }
      assert items[..|items|] == items;
    }

    /**
     Exactly the roles asked for are held afterwards, those asked away are not, and every other
     role is as before: same-named teams of other organizations, roles wished `None`, other types.
     */
    method Reconcile(dir: Directory, orgs: OrgStates, teams: TeamStates)
      requires DistinctRoles(dir)
      modifies this
      ensures Reconciled(dir, orgs, teams, old(roles), roles)
    {
      if orgs == map[] && teams == map[] {
        return;
      }
      var snapshot := roles *
        ((if orgs != map[] then OrgRoleIds(dir) else {}) + (if teams != map[] then TeamRoleIds(dir) else {}));
      ghost var cs: seq<Change> := [];
      ghost var orgNames, teamNames: seq<Role> := [], [];
      if orgs != map[] {
        var names := OrgRoleNames(orgs);
        ReconcileItems(OrgItems(dir.orgs, orgs), names, snapshot);
        orgNames := names;
      }
      ghost var orgChanges := if orgs != map[] then Changes(OrgItems(dir.orgs, orgs), orgNames) else [];
      if teams != map[] {
        var names := TeamRoleNames(teams);
        ReconcileItems(TeamItems(dir.teams, teams), names, snapshot);
        teamNames := names;
      }
      ghost var teamChanges := if teams != map[] then Changes(TeamItems(dir.teams, teams), teamNames) else [];
      ApplyAppend(old(roles), snapshot, orgChanges, teamChanges);
      assert roles == ApplyChanges(old(roles), snapshot, orgChanges + teamChanges);
      ReconcileMeaning(dir, orgs, teams, orgNames, teamNames, old(roles), snapshot);
    }
  }

  /** Reconciling a second time changes nothing. */
  lemma ReconcilingTwiceIsOnce(dir: Directory, orgs: OrgStates, teams: TeamStates, held: set<RoleId>,
      once: set<RoleId>, twice: set<RoleId>)
    requires DistinctRoles(dir)
    requires Reconciled(dir, orgs, teams, held, once) && Reconciled(dir, orgs, teams, once, twice)
    ensures twice == once
  {
    forall id
      ensures id in twice <==> id in once
    {
      NotAskedBothWays(dir, orgs, teams, id);
    }
  }
}
