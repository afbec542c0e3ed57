/**
 A whole SAML login: the four mapping stages, the creation of what they ask for, and the
 reconciliation of the user's roles, with the end state in closed form.
 */
module SamlLogin {
  import opened Wrappers
  import opened RoleReconciliation
  import opened SamlMapping

  /** Every role id has been handed out, to one field of one object; organization names are unique. */
  ghost predicate WellKept(dir: Directory, nextRole: nat) {
    && DistinctRoles(dir)
    && (forall row <- dir.orgs :: forall role <- row.roles :: row.roles[role] < nextRole)
    && (forall row <- dir.teams :: forall role <- row.roles :: row.roles[role] < nextRole)
    && (forall i, j | 0 <= i < j < |dir.orgs| :: dir.orgs[i].name != dir.orgs[j].name)
  }

  predicate HasOrg(dir: Directory, name: string) {
    exists row :: row in dir.orgs && row.name == name
  }

  predicate HasTeam(dir: Directory, name: string) {
    exists row :: row in dir.teams && row.name == name
  }

  function OrgNames(dir: Directory): seq<string> {
    seq(|dir.orgs|, i requires 0 <= i < |dir.orgs| => dir.orgs[i].name)
  }

  function TeamNames(dir: Directory): seq<(string, string)> {
    seq(|dir.teams|, i requires 0 <= i < |dir.teams| => (dir.teams[i].name, dir.teams[i].org))
  }

  function NewOrg(name: string, n: nat): OrgRow {
    OrgRow(name, map["admin_role" := n, "member_role" := n + 1, "auditor_role" := n + 2])
  }

  lemma OrgRoleIsOld(dir: Directory, n: nat, i: nat, a: Role)
    requires WellKept(dir, n) && i < |dir.orgs| && a in dir.orgs[i].roles
    ensures dir.orgs[i].roles[a] < n
  {
    assert dir.orgs[i] in dir.orgs;
  }

  lemma TeamRoleIsOld(dir: Directory, n: nat, j: nat, b: Role)
    requires WellKept(dir, n) && j < |dir.teams| && b in dir.teams[j].roles
    ensures dir.teams[j].roles[b] < n
  {
    assert dir.teams[j] in dir.teams;
  }

  lemma NewOrgHasFreshRoles(dir: Directory, n: nat, name: string)
    requires WellKept(dir, n)
    ensures DistinctRoles(dir.(orgs := dir.orgs + [NewOrg(name, n)]))
  {
    var d := dir.(orgs := dir.orgs + [NewOrg(name, n)]);
    forall i, j, a, b | 0 <= i < |d.orgs| && 0 <= j < |d.orgs| && a in d.orgs[i].roles && b in d.orgs[j].roles
      && d.orgs[i].roles[a] == d.orgs[j].roles[b]
      ensures i == j && a == b
    {
      if i < |dir.orgs| {
        OrgRoleIsOld(dir, n, i, a);
      }
      if j < |dir.orgs| {
        OrgRoleIsOld(dir, n, j, b);
      }
    }
    forall i, j, a, b | 0 <= i < |d.orgs| && 0 <= j < |d.teams| && a in d.orgs[i].roles && b in d.teams[j].roles
      ensures d.orgs[i].roles[a] != d.teams[j].roles[b]
    {
      TeamRoleIsOld(dir, n, j, b);
    }
  }

  lemma NewOrgIsWellKept(dir: Directory, n: nat, name: string)
    requires WellKept(dir, n) && !HasOrg(dir, name)
    ensures WellKept(dir.(orgs := dir.orgs + [NewOrg(name, n)]), n + 3)
  {
    NewOrgHasFreshRoles(dir, n, name);
    forall i | 0 <= i < |dir.orgs|
      ensures dir.orgs[i].name != name
    {
      assert dir.orgs[i] in dir.orgs;
    }
  }

  lemma NewTeamHasFreshRole(dir: Directory, n: nat, name: string, org: string)
    requires WellKept(dir, n)
    ensures DistinctRoles(dir.(teams := dir.teams + [TeamRow(name, org, map[MEMBER := n])]))
  {
    var d := dir.(teams := dir.teams + [TeamRow(name, org, map[MEMBER := n])]);
    forall i, j, a, b | 0 <= i < |d.teams| && 0 <= j < |d.teams| && a in d.teams[i].roles && b in d.teams[j].roles
      && d.teams[i].roles[a] == d.teams[j].roles[b]
      ensures i == j && a == b
    {
      if i < |dir.teams| {
        TeamRoleIsOld(dir, n, i, a);
      }
      if j < |dir.teams| {
        TeamRoleIsOld(dir, n, j, b);
      }
    }
    forall i, j, a, b | 0 <= i < |d.orgs| && 0 <= j < |d.teams| && a in d.orgs[i].roles && b in d.teams[j].roles
      ensures d.orgs[i].roles[a] != d.teams[j].roles[b]
    {
      OrgRoleIsOld(dir, n, i, a);
    }
  }

  lemma NewTeamIsWellKept(dir: Directory, n: nat, name: string, org: string)
    requires WellKept(dir, n)
    ensures WellKept(dir.(teams := dir.teams + [TeamRow(name, org, map[MEMBER := n])]), n + 1)
  {
    NewTeamHasFreshRole(dir, n, name, org);
  }

  /** What the two team stages say, in order. */
  function TeamStatements(c: Config, l: Login, dir: Directory): seq<Statement> {
    TeamsByAttribute(c, l, TeamNames(dir)) + TeamsByMap(l, c.teamMap)
  }

  /**
   The end state of a login. For each organization and team that then exists, a role is held if the
   maps want it, not held if they refuse it, and as before otherwise. What they want is given in
   closed form by OrganizationWishInClosedForm and LastStatementDecides.
   */
  ghost predicate LoginOutcome(before: Directory, after: Directory, c: Config, l: Login, held: set<RoleId>,
      roles: set<RoleId>) {
    && (forall row, role: Role :: row in after.orgs && role in row.roles ==>
          var says := Said(FinalOrgs(c, l, OrgNames(before)).orgs, row.name, role);
          row.roles[role] in roles <==>
            says == Some(Some(true)) || (says != Some(Some(false)) && row.roles[role] in held))
    && (forall row :: row in after.teams && MEMBER in row.roles ==>
          var says := LastStatement(TeamStatements(c, l, before), Some(row.org), row.name);
          row.roles[MEMBER] in roles <==> says == Some(true) || (says != Some(false) && row.roles[MEMBER] in held))
  }

  /** Every organization in which some role is wanted exists, unless its name is empty. */
  ghost predicate WantedOrgsExist(before: Directory, after: Directory, c: Config, l: Login) {
    forall org, role: Role :: org != "" && UserType(role).Some? ==>
      Said(FinalOrgs(c, l, OrgNames(before)).orgs, org, role) == Some(Some(true)) ==> HasOrg(after, org)
  }

  predicate FullOrg(row: OrgRow) {
    row.roles.Keys == {"admin_role", "member_role", "auditor_role"}
  }

  predicate FullTeam(row: TeamRow) {
    row.roles.Keys == {"member_role"}
  }

  /** A team created because it is wanted and no team has its name. */
  predicate WantedTeam(wanted: map<string, Option<string>>, existing: set<string>, row: TeamRow) {
    && row.name in wanted && wanted[row.name] == Some(row.org) && row.org != "" && row.name !in existing
    && FullTeam(row)
  }

  /** What a login creates can be granted: organizations with their three roles, teams with their member role. */
  ghost predicate NewRowsHaveRoles(before: Directory, after: Directory) {
    && |before.orgs| <= |after.orgs| && |before.teams| <= |after.teams|
    && (forall row :: row in after.orgs[|before.orgs|..] ==> FullOrg(row))
    && (forall row :: row in after.teams[|before.teams|..] ==> FullTeam(row))
  }

  /** New teams are asked for by name, in the organization of the last stage to do so. */
  ghost predicate NewTeamsAreAskedFor(before: Directory, after: Directory, c: Config, l: Login) {
    var create := FinalTeamsToCreate(c, l, TeamNames(before));
    && |before.teams| <= |after.teams|
    && forall row :: row in after.teams[|before.teams|..] ==> row.name in create && create[row.name] == Some(row.org)
  }

  ghost predicate HasTeamIn(dir: Directory, team: string, org: string) {
    exists row :: row in dir.teams && row.name == team && row.org == org
  }

  /** The stages ask last for a team of this name in this organization, and no team of that name exists. */
  ghost predicate Creates(before: Directory, c: Config, l: Login, team: string, org: string) {
    var create := FinalTeamsToCreate(c, l, TeamNames(before));
    team in create && create[team] == Some(org) && org != "" && !HasTeam(before, team)
  }

  /**
   A team exists in an organization afterwards iff it did before or the login creates it; and every team in
   which membership is wanted is asked for, if perhaps elsewhere.
   */
  ghost predicate TeamsCreated(before: Directory, after: Directory, c: Config, l: Login) {
    && (forall team, org :: HasTeamIn(after, team, org) <==>
      HasTeamIn(before, team, org) || Creates(before, c, l, team, org))
    && (forall team, org: string ::
          LastStatement(TeamStatements(c, l, before), Some(org), team) == Some(true) ==>
          team in FinalTeamsToCreate(c, l, TeamNames(before)))
  }

  lemma CreationInClosedForm(before: Directory, after: Directory, c: Config, l: Login)
    requires before.teams <= after.teams
    requires var create := FinalTeamsToCreate(c, l, TeamNames(before));
      && (forall name :: HasTeam(after, name) <==> HasTeam(before, name) || (name in create && !Falsy(create[name])))
      && (forall row :: row in after.teams[|before.teams|..] ==>
            !HasTeam(before, row.name) && row.name in create && create[row.name] == Some(row.org) && row.org != "")
    ensures TeamsCreated(before, after, c, l)
  {
    var added := after.teams[|before.teams|..];
    assert after.teams == before.teams + added;
    forall team, org
      ensures HasTeamIn(after, team, org) <==> HasTeamIn(before, team, org) || Creates(before, c, l, team, org)
    {
      if HasTeamIn(after, team, org) && !HasTeamIn(before, team, org) {
        var row :| row in after.teams && row.name == team && row.org == org;
        assert row in added;
      }
      if Creates(before, c, l, team, org) {
        assert HasTeam(after, team);
        var row :| row in after.teams && row.name == team;
        assert row in added;
      }
    }
    forall team, org: string | LastStatement(TeamStatements(c, l, before), Some(org), team) == Some(true)
      ensures team in FinalTeamsToCreate(c, l, TeamNames(before))
    {
      WantedTeamsAreToBeCreated(c, l, TeamNames(before), Some(org), team);
    }
  }

  /** A team map that makes everyone a member of one team. */
  function OneTeamForAll(team: string, org: string): Config {
    Config([], [(team, TeamOpts(Some(org), None, Always))], map[], map[], None, true, [])
  }

  /**
   A wanted team that does not come to exist: membership of a team is wanted in one organization while a team
   of that name exists in another. No directory that a login can leave has the wanted team.
   */
  lemma NamesakePreventsCreation(l: Login, team: string, org: string, elsewhere: string, after: Directory)
    requires org != elsewhere
    requires TeamsCreated(Directory([], [TeamRow(team, elsewhere, map[])]), after, OneTeamForAll(team, org), l)
    ensures var before, c := Directory([], [TeamRow(team, elsewhere, map[])]), OneTeamForAll(team, org);
      && LastStatement(TeamStatements(c, l, before), Some(org), team) == Some(true)
      && !HasTeamIn(after, team, org)
  {
    var before, c := Directory([], [TeamRow(team, elsewhere, map[])]), OneTeamForAll(team, org);
    var entry := (team, TeamOpts(Some(org), None, Always));
    assert c.teamMap == [entry] && c.teamMap[..0] == [];
    assert TeamsByMap(l, []) == [];
    assert TeamStatements(c, l, before) == [Statement(Some(org), team, true, false)];
    assert before.teams[0] in before.teams && HasTeam(before, team);
  }

  lemma TeamRoleAsks(dir: Directory, orgs: OrgStates, teams: TeamStates, row: TeamRow)
    requires DistinctRoles(dir) && row in dir.teams && MEMBER in row.roles
    ensures forall hold :: Asks(dir, orgs, teams, row.roles[MEMBER], hold) <==>
      TeamSaid(teams, Some(row.org), row.name) == Some(hold)
  {
  }

  lemma OrgRoleAsks(dir: Directory, orgs: OrgStates, teams: TeamStates, row: OrgRow, role: Role)
    requires DistinctRoles(dir) && row in dir.orgs && role in row.roles
    ensures forall hold :: Asks(dir, orgs, teams, row.roles[role], hold) <==>
      Said(orgs, row.name, role) == Some(Some(hold))
  {
  }

  lemma ReconciledIsLoginOutcome(before: Directory, after: Directory, c: Config, l: Login, held: set<RoleId>,
      roles: set<RoleId>)
    requires DistinctRoles(after)
    requires Reconciled(after, FinalOrgs(c, l, OrgNames(before)).orgs,
      TeamStatesAfter(map[], TeamStatements(c, l, before)), held, roles)
    ensures LoginOutcome(before, after, c, l, held, roles)
  {
    var orgs, teams := FinalOrgs(c, l, OrgNames(before)).orgs, TeamStatesAfter(map[], TeamStatements(c, l, before));
    forall row, role: Role | row in after.orgs && role in row.roles
      ensures var says := Said(orgs, row.name, role);
        row.roles[role] in roles <==> says == Some(Some(true)) || (says != Some(Some(false)) && row.roles[role] in held)
    {
      OrgRoleAsks(after, orgs, teams, row, role);
    }
    forall row | row in after.teams && MEMBER in row.roles
      ensures var says := LastStatement(TeamStatements(c, l, before), Some(row.org), row.name);
        row.roles[MEMBER] in roles <==> says == Some(true) || (says != Some(false) && row.roles[MEMBER] in held)
    {
      TeamRoleAsks(after, orgs, teams, row);
      LastStatementDecides(map[], TeamStatements(c, l, before), Some(row.org), row.name);
    }
  }

  // ---------- What the configuration means to the user ----------

  /** The user type and the attribute setting of each role. */
  predicate RoleKeys(role: Role, userType: string, attr: string) {
    (role, userType, attr) in {
      ("admin_role", "admins", "saml_admin_attr"),
      ("member_role", "users", "saml_attr"),
      ("auditor_role", "auditors", "saml_auditor_attr")}
  }

  /** The expression takes everybody, or names the user, or matches the user, by user name or e-mail address. */
  ghost predicate Takes(l: Login, e: Expr) {
    || e == Always
    || (e.Patterns? && (Exact(l.person.username) in e.items || Exact(l.person.email) in e.items))
    || (e.Patterns? && exists id ::
          Regex(id) in e.items && (l.regex(id, l.person.username) || l.regex(id, l.person.email)))
  }

  lemma TakesIsMatches(l: Login, e: Expr)
    ensures Takes(l, e) <==> Matches(l, e)
  {
    if Takes(l, e) && e.Patterns? {
      if id :| Regex(id) in e.items && (l.regex(id, l.person.username) || l.regex(id, l.person.email)) {
        assert MatchesOne(l, Regex(id));
      } else if Exact(l.person.username) in e.items {
        assert MatchesOne(l, Exact(l.person.username));
      } else {
        assert MatchesOne(l, Exact(l.person.email));
      }
    }
    if Matches(l, e) && e.Patterns? {
      var p :| p in e.items && MatchesOne(l, p);
      if p.Regex? {
        assert Regex(p.id) in e.items;
      }
    }
  }

  /** The entry of the map speaks about the organization: by its alias, unless that is empty, or by its name. */
  predicate Names(entry: (string, OrgOpts), org: string) {
    match entry.1.alias
    case Some(alias) => if alias != "" then alias == org else entry.0 == org
    case None => entry.0 == org
  }

  /** Whoever an entry's expression takes holds the role after the login, whatever other entries say. */
  lemma MapGrantIsHeld(before: Directory, after: Directory, c: Config, l: Login, held: set<RoleId>, roles: set<RoleId>,
      entry: (string, OrgOpts), row: OrgRow, role: Role, userType: string, attr: string)
    requires LoginOutcome(before, after, c, l, held, roles) && RoleKeys(role, userType, attr)
    requires row in after.orgs && role in row.roles && entry in c.orgMap && Names(entry, row.name)
    requires userType in entry.1.exprs && Takes(l, entry.1.exprs[userType])
    ensures row.roles[role] in roles
  {
    TakesIsMatches(l, entry.1.exprs[userType]);
    assert MapGrants(l, c.orgMap, row.name, userType);
    OrganizationWishInClosedForm(c, l, OrgNames(before), row.name, role);
  }

  ghost predicate FirstEntry(entries: seq<(string, OrgOpts)>, name: string, i: int) {
    0 <= i < |entries| && entries[i].0 == name && forall j | 0 <= j < i :: entries[j].0 != name
  }

  /**
   The organization an attribute value stands for: the alias of the first entry of that name, even an empty one;
   the value itself if that entry has none, or if there is no such entry.
   */
  ghost predicate StandsFor(entries: seq<(string, OrgOpts)>, value: string, org: string) {
    || (value == org && forall e <- entries :: e.0 != value)
    || exists i :: FirstEntry(entries, value, i) &&
         org == match entries[i].1.alias case Some(alias) => alias case None => value
  }

  lemma {:induction false} FirstIsFound(entries: seq<(string, OrgOpts)>, name: string)
    ensures match FindOpts(entries, name)
      case None => forall e <- entries :: e.0 != name
      case Some(opts) => exists i :: FirstEntry(entries, name, i) && entries[i].1 == opts
  {
    if entries != [] {
      assert entries == [entries[0]] + entries[1..];
      if entries[0].0 == name {
        assert FirstEntry(entries, name, 0);
      } else {
        FirstIsFound(entries[1..], name);
        if FindOpts(entries, name).Some? {
          var i :| FirstEntry(entries[1..], name, i) && entries[1..][i].1 == FindOpts(entries, name).value;
          assert FirstEntry(entries, name, i + 1) && entries[i + 1] == entries[1..][i];
        }
      }
    }
  }

  lemma StandsForIsTarget(c: Config, value: string, org: string)
    ensures StandsFor(c.orgMap, value, org) <==> AttributeTarget(c, value) == org
  {
    FirstIsFound(c.orgMap, value);
    var opts := FindOpts(c.orgMap, value);
    if opts.Some? {
      var i :| FirstEntry(c.orgMap, value, i) && c.orgMap[i].1 == opts.value;
      assert c.orgMap[i] in c.orgMap;
      assert forall j :: FirstEntry(c.orgMap, value, j) ==> j == i;
    } else {
      forall i | 0 <= i < |c.orgMap|
        ensures c.orgMap[i].0 != value
      {
        assert c.orgMap[i] in c.orgMap;
      }
    }
  }

  /** So does everybody with an attribute value that stands for the organization. */
  lemma AttributeGrantIsHeld(before: Directory, after: Directory, c: Config, l: Login, held: set<RoleId>,
      roles: set<RoleId>, value: string, row: OrgRow, role: Role, userType: string, attr: string)
    requires LoginOutcome(before, after, c, l, held, roles) && RoleKeys(role, userType, attr)
    requires row in after.orgs && role in row.roles && StandsFor(c.orgMap, value, row.name)
    requires attr in c.orgAttr && c.orgAttr[attr] in l.attributes && value in l.attributes[c.orgAttr[attr]]
    ensures row.roles[role] in roles
  {
    StandsForIsTarget(c, value, row.name);
    assert value in Values(c, l, attr);
    assert AttributeGrants(c, l, row.name, role);
    OrganizationWishInClosedForm(c, l, OrgNames(before), row.name, role);
  }

  /**
   And nobody else, in an organization that existed before and that the map does not speak about: the attribute
   stage takes the role from all others, unless its flag for the role is false.
   */
  lemma AttributeStageTakes(before: Directory, after: Directory, c: Config, l: Login, held: set<RoleId>,
      roles: set<RoleId>, row: OrgRow, role: Role, flag: string, attr: string)
    requires LoginOutcome(before, after, c, l, held, roles)
    requires (role, flag, attr) in {
      ("admin_role", "remove_admins", "saml_admin_attr"),
      ("member_role", "remove", "saml_attr"),
      ("auditor_role", "remove_auditors", "saml_auditor_attr")}
    requires row in after.orgs && role in row.roles && row.name in OrgNames(before)
    requires forall e <- c.orgMap :: !Names(e, row.name)
    requires attr in c.orgAttr && c.orgAttr[attr] in l.attributes ==>
      forall v <- l.attributes[c.orgAttr[attr]] :: !StandsFor(c.orgMap, v, row.name)
    ensures row.roles[role] in roles <==>
      row.roles[role] in held && flag in c.orgRemove && !c.orgRemove[flag]
  {
    forall v | v in Values(c, l, attr)
      ensures AttributeTarget(c, v) != row.name
    {
      StandsForIsTarget(c, v, row.name);
    }
    var userType := UserType(role).value;
    assert !MapGrants(l, c.orgMap, row.name, userType);
    LastVerdictHasEntry(l, c.orgMap, row.name, userType);
    OrganizationWishInClosedForm(c, l, OrgNames(before), row.name, role);
  }

  /** The flag of the user type if there is one, else that of the entry, else true. */
  predicate Removes(opts: OrgOpts, userType: string) {
    if userType in opts.removeFor then opts.removeFor[userType] else opts.remove != Some(false)
  }

  /**
   Where no attribute is used: a role of an organization that the last entry about it takes away is not held,
   and one that it leaves alone is held iff it was, unless an earlier entry takes the user.
   */
  lemma LastEntryDecides(before: Directory, after: Directory, c: Config, l: Login, held: set<RoleId>,
      roles: set<RoleId>, front: seq<(string, OrgOpts)>, entry: (string, OrgOpts), row: OrgRow, role: Role,
      userType: string, attr: string)
    requires LoginOutcome(before, after, c, l, held, roles) && RoleKeys(role, userType, attr)
    requires c.orgAttr == map[] && c.orgMap == front + [entry] && Names(entry, row.name)
    requires row in after.orgs && role in row.roles
    requires forall e <- c.orgMap ::
      Names(e, row.name) && userType in e.1.exprs ==> !Takes(l, e.1.exprs[userType])
    ensures row.roles[role] in roles <==> row.roles[role] in held && !Removes(entry.1, userType)
  {
    forall e | e in c.orgMap && MapTarget(e) == row.name
      ensures EntryVerdict(l, e.1, userType) != Some(true)
    {
      if userType in e.1.exprs {
        TakesIsMatches(l, e.1.exprs[userType]);
      }
    }
    assert entry in c.orgMap && c.orgMap[..|c.orgMap| - 1] == front;
    assert LastVerdict(l, c.orgMap, row.name, userType) == Some(EntryVerdict(l, entry.1, userType));
    assert !AttributeGrants(c, l, row.name, role);
    OrganizationWishInClosedForm(c, l, OrgNames(before), row.name, role);
  }

  /** The last team entry about a team decides: it takes the user, or refuses, or says nothing. */
  lemma LastTeamEntryDecides(before: Directory, after: Directory, c: Config, l: Login, held: set<RoleId>,
      roles: set<RoleId>, front: seq<(string, TeamOpts)>, opts: TeamOpts, row: TeamRow)
    requires LoginOutcome(before, after, c, l, held, roles) && row in after.teams && MEMBER in row.roles
    requires c.teamMap == front + [(row.name, opts)] && opts.organization == Some(row.org)
    ensures Takes(l, opts.users) ==> row.roles[MEMBER] in roles
    ensures !Takes(l, opts.users) && opts.remove != Some(false) ==> row.roles[MEMBER] !in roles
    ensures !Takes(l, opts.users) && opts.remove == Some(false) && front == [] && c.teamAttr.None? ==>
      (row.roles[MEMBER] in roles <==> row.roles[MEMBER] in held)
  {
    TakesIsMatches(l, opts.users);
    assert c.teamMap[..|c.teamMap| - 1] == front;
    var ts := MapStatement(l, (row.name, opts));
    assert TeamsByMap(l, c.teamMap) == TeamsByMap(l, front) + ts;
    LastOfBoth(TeamsByAttribute(c, l, TeamNames(before)), TeamsByMap(l, c.teamMap), Some(row.org), row.name);
    LastOfBoth(TeamsByMap(l, front), ts, Some(row.org), row.name);
    assert |ts| == 1 ==> ts[..0] == [];
  }

  /**
   Where the team map is not used: the last team-organization entry decides, by whether the attribute lists its
   team. A listed team counts under its alias, if it has one that is not empty.
   */
  lemma TeamAttributeDecides(before: Directory, after: Directory, c: Config, l: Login, held: set<RoleId>,
      roles: set<RoleId>, front: seq<TeamOrg>, m: TeamOrg, row: TeamRow)
    requires LoginOutcome(before, after, c, l, held, roles) && row in after.teams && MEMBER in row.roles
    requires c.teamMap == [] && c.teamAttr.Some? && c.teamOrgMap == front + [m]
    requires m.organization == Some(row.org) && row.org != ""
    ensures
      (c.teamAttr.value in l.attributes && m.team in l.attributes[c.teamAttr.value] &&
       row.name == match m.teamAlias case Some(a) => (if a != "" then a else m.team) case None => m.team)
      ==> row.roles[MEMBER] in roles
    ensures
      ((c.teamAttr.value in l.attributes ==> m.team !in l.attributes[c.teamAttr.value]) && row.name == m.team)
      ==> row.roles[MEMBER] !in roles
  {
    var listed := ListedTeams(c, l);
    var s := AttributeStatement(listed, m).value;
    assert c.teamOrgMap[..|c.teamOrgMap| - 1] == front;
    assert AttributeStatements(listed, c.teamOrgMap) == AttributeStatements(listed, front) + [s];
    var ss := TeamsByAttribute(c, l, TeamNames(before));
    assert ss[|ss| - 1] == s && TeamsByMap(l, c.teamMap) == [];
    assert ss + [] == ss;
  }

  /** The organization stages neither read nor write the team state. */
  lemma {:induction false} OrgsIgnoreTeams(l: Login, d: Desired, e: Desired, entries: seq<(string, OrgOpts)>)
    requires d.orgs == e.orgs && d.orgsToCreate == e.orgsToCreate
    ensures OrgsByMap(l, d, entries).orgs == OrgsByMap(l, e, entries).orgs
    ensures OrgsByMap(l, d, entries).orgsToCreate == OrgsByMap(l, e, entries).orgsToCreate
    ensures OrgsByMap(l, e, entries).teams == e.teams && OrgsByMap(l, e, entries).teamsToCreate == e.teamsToCreate
  {
    if entries != [] {
      OrgsIgnoreTeams(l, d, e, entries[..|entries| - 1]);
    }
  }

  lemma {:induction false} GrantRoleIgnoresTeams(c: Config, d: Desired, values: seq<string>, role: Role)
    ensures GrantRole(c, d, values, role).teams == d.teams
    ensures GrantRole(c, d, values, role).teamsToCreate == d.teamsToCreate
  {
    if values != [] {
      GrantRoleIgnoresTeams(c, d, values[..|values| - 1], role);
    }
  }

  lemma {:induction false} GrantRolesIgnoreTeams(c: Config, l: Login, d: Desired, n: nat)
    requires n <= |ATTRIBUTE_ROLES|
    ensures GrantRoles(c, l, d, n).teams == d.teams && GrantRoles(c, l, d, n).teamsToCreate == d.teamsToCreate
  {
    if n > 0 {
      GrantRolesIgnoreTeams(c, l, d, n - 1);
      var (role, _, attr) := ATTRIBUTE_ROLES[n - 1];
      GrantRoleIgnoresTeams(c, GrantRoles(c, l, d, n - 1), Values(c, l, attr), role);
    }
  }

  lemma AttributesIgnoreTeams(c: Config, l: Login, d: Desired, existing: seq<string>)
    ensures OrgsByAttribute(c, l, d, existing).teams == d.teams
    ensures OrgsByAttribute(c, l, d, existing).teamsToCreate == d.teamsToCreate
  {
    GrantRolesIgnoreTeams(c, l, d.(orgs := ClearRoles(c, d.orgs, existing, 3)), 3);
  }

  /** The four stages, in their order, on a fresh desired state. */
  method MapUser(config: Config, login: Login, orgNames: seq<string>, teamNames: seq<(string, string)>)
      returns (pipeline: Pipeline)
    ensures fresh(pipeline)
    ensures pipeline.orgs == FinalOrgs(config, login, orgNames).orgs
    ensures pipeline.orgsToCreate == FinalOrgs(config, login, orgNames).orgsToCreate
    ensures pipeline.teams ==
      TeamStatesAfter(map[], TeamsByAttribute(config, login, teamNames) + TeamsByMap(login, config.teamMap))
    ensures pipeline.teamsToCreate == FinalTeamsToCreate(config, login, teamNames)
  {
    pipeline := new Pipeline(config, login);
    pipeline.UpdateOrgsByAttribute(orgNames);
    ghost var d1 := pipeline.View();
    AttributesIgnoreTeams(config, login, Desired(map[], map[], [], map[]), orgNames);
    pipeline.UpdateTeamsByAttribute(teamNames);
    ghost var d2 := pipeline.View();
    pipeline.UpdateOrgs();
    assert pipeline.View() == OrgsByMap(login, d2, config.orgMap);
    OrgsIgnoreTeams(login, d1, d2, config.orgMap);
    assert pipeline.teams == d2.teams && pipeline.teamsToCreate == d2.teamsToCreate;
    pipeline.UpdateTeams();
    SaidAll(map[], TeamsByAttribute(config, login, teamNames), TeamsByMap(login, config.teamMap));
  }

  class Tower {
    var orgs: seq<OrgRow>
    var teams: seq<TeamRow>
    var nextRole: nat

    function Dir(): Directory
      reads this
    {
      Directory(orgs, teams)
    }

    method CreateOrg(name: string)
      requires WellKept(Dir(), nextRole)
      modifies this
      ensures WellKept(Dir(), nextRole) && teams == old(teams) && nextRole >= old(nextRole)
      ensures orgs == old(orgs) || (orgs == old(orgs) + [NewOrg(name, old(nextRole))] && FullOrg(orgs[|orgs| - 1]))
      ensures forall x :: HasOrg(Dir(), x) <==> HasOrg(old(Dir()), x) || (x == name && x != "")
    {
      if name != "" && !HasOrg(Dir(), name) {
        NewOrgIsWellKept(Dir(), nextRole, name);
        orgs := orgs + [NewOrg(name, nextRole)];
        nextRole := nextRole + 3;
        assert NewOrg(name, old(nextRole)) in orgs;
      }
    }

    method CreateOrgs(names: set<string>)
      requires WellKept(Dir(), nextRole)
      modifies this
      ensures WellKept(Dir(), nextRole) && teams == old(teams) && nextRole >= old(nextRole)
      ensures old(orgs) <= orgs && forall row :: row in orgs[|old(orgs)|..] ==> FullOrg(row)
      ensures forall x :: HasOrg(Dir(), x) <==> HasOrg(old(Dir()), x) || (x in names && x != "")
    {
      var todo := SetToSeq(names);
      ghost var added: seq<OrgRow> := [];
      for i := 0 to |todo|
        invariant WellKept(Dir(), nextRole) && teams == old(teams) && nextRole >= old(nextRole)
        invariant orgs == old(orgs) + added && forall row :: row in added ==> FullOrg(row)
        invariant forall x :: HasOrg(Dir(), x) <==> HasOrg(old(Dir()), x) || (x in todo[..i] && x != "")
      {
        assert todo[..i + 1] == todo[..i] + [todo[i]];
        ghost var before := orgs;
        CreateOrg(todo[i]);
        if orgs != before {
          added := added + [orgs[|orgs| - 1]];
        }
      }
      assert todo[..|todo|] == todo;
    }

    method CreateTeam(name: string, org: string) returns (row: TeamRow)
      requires WellKept(Dir(), nextRole)
      modifies this
      ensures WellKept(Dir(), nextRole) && orgs == old(orgs) && nextRole >= old(nextRole)
      ensures row.name == name && row.org == org && FullTeam(row) && teams == old(teams) + [row]
      ensures forall x :: HasTeam(Dir(), x) <==> HasTeam(old(Dir()), x) || x == name
    {
      row := TeamRow(name, org, map[MEMBER := nextRole]);
      NewTeamIsWellKept(Dir(), nextRole, name, org);
      teams := teams + [row];
      nextRole := nextRole + 1;
      assert row in teams;
    }

    /** Team names are compared across all organizations: a namesake anywhere prevents the creation. */
    method CreateTeams(wanted: map<string, Option<string>>, existing: set<string>)
      requires WellKept(Dir(), nextRole)
      requires forall x :: x in existing <==> HasTeam(Dir(), x)
      modifies this
      ensures WellKept(Dir(), nextRole) && orgs == old(orgs) && nextRole >= old(nextRole)
      ensures old(teams) <= teams
      ensures forall row :: row in teams[|old(teams)|..] ==> WantedTeam(wanted, existing, row)
      ensures forall x :: HasTeam(Dir(), x) <==> HasTeam(old(Dir()), x) || (x in wanted && !Falsy(wanted[x]))
    {
      var todo := SetToSeq(wanted.Keys);
      ghost var added: seq<TeamRow> := [];
      for i := 0 to |todo|
        invariant WellKept(Dir(), nextRole) && orgs == old(orgs) && nextRole >= old(nextRole)
        invariant teams == old(teams) + added
        invariant forall row :: row in added ==> WantedTeam(wanted, existing, row)
        invariant forall x :: HasTeam(Dir(), x) <==> HasTeam(old(Dir()), x) || (x in todo[..i] && !Falsy(wanted[x]))
      {
        assert todo[i] in todo && todo[..i + 1] == todo[..i] + [todo[i]];
        if !Falsy(wanted[todo[i]]) && todo[i] !in existing {
          var row := CreateTeam(todo[i], wanted[todo[i]].value);
          added := added + [row];
        }
      }
      assert todo[..|todo|] == todo;
    }

    method CreateOrgAndTeams(orgList: seq<string>, teamMap: map<string, Option<string>>, canCreate: bool)
      requires WellKept(Dir(), nextRole)
      modifies this
      ensures WellKept(Dir(), nextRole) && nextRole >= old(nextRole) && old(orgs) <= orgs && old(teams) <= teams
      ensures !canCreate ==> Dir() == old(Dir())
      ensures NewRowsHaveRoles(old(Dir()), Dir())
      ensures canCreate ==> forall name :: HasOrg(Dir(), name) <==>
        (HasOrg(old(Dir()), name) ||
          (name != "" && (name in orgList || exists t <- teamMap :: teamMap[t] == Some(name))))
      ensures canCreate ==> forall name :: HasTeam(Dir(), name) <==>
        (HasTeam(old(Dir()), name) || (name in teamMap && !Falsy(teamMap[name])))
      ensures forall row :: row in teams[|old(teams)|..] ==>
        !HasTeam(old(Dir()), row.name) && row.name in teamMap && teamMap[row.name] == Some(row.org) && row.org != ""
    {
      if !canCreate {
        return;
      }
      var all := set name | name in orgList;
      all := all + set t | t in teamMap && !Falsy(teamMap[t]) :: teamMap[t].value;
      CreateOrgs(all);
      assert forall name :: name != "" ==>
        (name in all <==> name in orgList || exists t <- teamMap :: teamMap[t] == Some(name));
      var existing := set row | row in teams :: row.name;
      CreateTeams(teamMap, existing);
    }

    /** `populate_user` for a user that exists. */
    method PopulateUser(user: User, config: Config, login: Login, autoCreate: bool)
      requires WellKept(Dir(), nextRole)
      modifies this, user
      ensures old(orgs) <= orgs && old(teams) <= teams && WellKept(Dir(), nextRole)
      ensures LoginOutcome(old(Dir()), Dir(), config, login, old(user.roles), user.roles)
      ensures NewRowsHaveRoles(old(Dir()), Dir())
      ensures autoCreate ==> WantedOrgsExist(old(Dir()), Dir(), config, login)
      ensures autoCreate ==> NewTeamsAreAskedFor(old(Dir()), Dir(), config, login)
      ensures autoCreate ==> TeamsCreated(old(Dir()), Dir(), config, login)
      ensures !autoCreate ==> Dir() == old(Dir())
      ensures forall row :: row in teams[|old(teams)|..] ==> !HasTeam(old(Dir()), row.name)
    {
      var pipeline := MapUser(config, login, OrgNames(Dir()), TeamNames(Dir()));
      ghost var final := FinalOrgs(config, login, OrgNames(Dir()));
      CreateOrgAndTeams(pipeline.orgsToCreate, pipeline.teamsToCreate, autoCreate);
      user.Reconcile(Dir(), pipeline.orgs, pipeline.teams);
      ReconciledIsLoginOutcome(old(Dir()), Dir(), config, login, old(user.roles), user.roles);
      if autoCreate {
        CreationInClosedForm(old(Dir()), Dir(), config, login);
        ghost var said := TeamStatements(config, login, old(Dir()));
        forall org: string, team | LastStatement(said, Some(org), team) == Some(true)
          ensures team in FinalTeamsToCreate(config, login, TeamNames(old(Dir())))
        {
          WantedTeamsAreToBeCreated(config, login, TeamNames(old(Dir())), Some(org), team);
        }
        forall org, role: Role | org != "" && UserType(role).Some? && Said(final.orgs, org, role) == Some(Some(true))
          ensures HasOrg(Dir(), org)
        {
          WantedOrganizationsAreToBeCreated(config, login, OrgNames(old(Dir())), org, role);
        }
      }
    }
  }
}
