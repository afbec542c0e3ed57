/**
 The four stages of `populate_user`: what the SAML attributes and the configured maps say about the
 organizations and teams of the user logging in, accumulated in one desired state.
 */
module SamlMapping {
  import opened Wrappers
  import opened RoleReconciliation

  // ---------- Configuration and user ----------

  datatype Pattern = Exact(text: string) | Regex(id: nat)

  /** `Nothing` stands for every falsy expression, `Always` for `True`. */
  datatype Expr = Nothing | Always | Patterns(items: seq<Pattern>)

  datatype Person = Person(username: string, email: string)

  /** `remove` and `removeFor` hold the flags that are present, by user type. */
  datatype OrgOpts = OrgOpts(
    alias: Option<string>,
    remove: Option<bool>,
    removeFor: map<string, bool>,
    exprs: map<string, Expr>)

  datatype TeamOpts = TeamOpts(organization: Option<string>, remove: Option<bool>, users: Expr)

  datatype TeamOrg = TeamOrg(team: string, teamAlias: Option<string>, organization: Option<string>)

  /**
   `orgMap`, `teamMap`: the backend's maps in their order. `orgRemove`, `orgAttr`: the organization
   attribute setting, by flag name. `teamAttr` is absent when team attributes are not in use.
   */
  datatype Config = Config(
    orgMap: seq<(string, OrgOpts)>,
    teamMap: seq<(string, TeamOpts)>,
    orgRemove: map<string, bool>,
    orgAttr: map<string, string>,
    teamAttr: Option<string>,
    teamRemove: bool,
    teamOrgMap: seq<TeamOrg>)

  datatype Login = Login(person: Person, attributes: map<string, seq<string>>, regex: (nat, string) -> bool)

  const ATTRIBUTE_ROLES: seq<(Role, string, string)> :=
    [("member_role", "remove", "saml_attr"),
     ("admin_role", "remove_admins", "saml_admin_attr"),
     ("auditor_role", "remove_auditors", "saml_auditor_attr")]

  const MAP_ROLES: seq<(Role, string)> :=
    [("admin_role", "admins"), ("member_role", "users"), ("auditor_role", "auditors")]

  const MEMBER: Role := "member_role"

  predicate Flag(flags: map<string, bool>, name: string) {
    if name in flags then flags[name] else true
  }

  predicate MatchesOne(l: Login, p: Pattern) {
    match p
    case Exact(text) => l.person.username == text || l.person.email == text
    case Regex(id) => l.regex(id, l.person.username) || l.regex(id, l.person.email)
  }

  predicate Matches(l: Login, e: Expr) {
    e.Always? || (e.Patterns? && exists p <- e.items :: MatchesOne(l, p))
  }

  /** `_update_m2m_from_expression`: hold, do not hold, or leave alone. */
  function Verdict(l: Login, e: Expr, remove: bool): Wish {
    if Matches(l, e) then Some(true) else if remove then Some(false) else None
  }

  // ---------- The desired state ----------

  datatype Desired = Desired(
    orgs: OrgStates,
    teams: TeamStates,
    orgsToCreate: seq<string>,
    teamsToCreate: map<string, Option<string>>)

  /** What the state says about a role of an organization: nothing, or a wish. */
  function Said(orgs: OrgStates, org: string, role: Role): Option<Wish> {
    if org in orgs && role in orgs[org] then Some(orgs[org][role]) else None
  }

  function SetOrg(orgs: OrgStates, org: string, role: Role, wish: Wish): OrgStates {
    orgs[org := (if org in orgs then orgs[org] else map[])[role := wish]]
  }

  /** Each entry names a team by its key and replaces whatever was said about it. */
  function SetTeam(teams: TeamStates, org: Option<string>, team: string, hold: bool): TeamStates {
    teams[org := (if org in teams then teams[org] else map[])[team := map[MEMBER := Some(hold)]]]
  }

  function Append(names: seq<string>, name: string): seq<string> {
    if name in names then names else names + [name]
  }

  lemma SetOrgSays(orgs: OrgStates, org: string, role: Role, wish: Wish, o: string, r: Role)
    ensures Said(SetOrg(orgs, org, role, wish), o, r) == if (o, r) == (org, role) then Some(wish) else Said(orgs, o, r)
  {
  }

  // ---------- Stage 1: organizations by attribute ----------

  function FindOpts(m: seq<(string, OrgOpts)>, name: string): Option<OrgOpts> {
    if m == [] then None else if m[0].0 == name then Some(m[0].1) else FindOpts(m[1..], name)
  }

  /** An alias that is present counts even when it is empty; an unmapped name stands for itself. */
  function AttributeTarget(c: Config, value: string): string {
    var opts := FindOpts(c.orgMap, value);
    if opts.Some? && opts.value.alias.Some? then opts.value.alias.value else value
  }

  function Values(c: Config, l: Login, attr: string): seq<string> {
    if attr in c.orgAttr && c.orgAttr[attr] in l.attributes then l.attributes[c.orgAttr[attr]] else []
  }

  function ClearRole(orgs: OrgStates, names: seq<string>, role: Role): OrgStates {
    if names == [] then orgs
    else SetOrg(ClearRole(orgs, names[..|names| - 1], role), names[|names| - 1], role, Some(false))
  }

  function ClearRoles(c: Config, orgs: OrgStates, existing: seq<string>, n: nat): OrgStates
    requires n <= |ATTRIBUTE_ROLES|
  {
    if n == 0 then orgs
    else
      var front := ClearRoles(c, orgs, existing, n - 1);
      var (role, flag, _) := ATTRIBUTE_ROLES[n - 1];
      if Flag(c.orgRemove, flag) then ClearRole(front, existing, role) else front
  }

  function GrantName(d: Desired, name: string, role: Role): Desired {
    d.(orgsToCreate := Append(d.orgsToCreate, name), orgs := SetOrg(d.orgs, name, role, Some(true)))
  }

  function GrantRole(c: Config, d: Desired, values: seq<string>, role: Role): Desired {
    if values == [] then d
    else
      GrantName(GrantRole(c, d, values[..|values| - 1], role), AttributeTarget(c, values[|values| - 1]), role)
  }

  function GrantRoles(c: Config, l: Login, d: Desired, n: nat): Desired
    requires n <= |ATTRIBUTE_ROLES|
  {
    if n == 0 then d
    else
      var (role, _, attr) := ATTRIBUTE_ROLES[n - 1];
      GrantRole(c, GrantRoles(c, l, d, n - 1), Values(c, l, attr), role)
  }

  function OrgsByAttribute(c: Config, l: Login, d: Desired, existing: seq<string>): Desired {
    GrantRoles(c, l, d.(orgs := ClearRoles(c, d.orgs, existing, 3)), 3)
  }

  // ---------- Stage 3: organizations by map ----------

  function MapTarget(entry: (string, OrgOpts)): string {
    if entry.1.alias.Some? && entry.1.alias.value != "" then entry.1.alias.value else entry.0
  }

  function EntryVerdict(l: Login, opts: OrgOpts, userType: string): Wish {
    var remove := if opts.remove.Some? then opts.remove.value else true;
    Verdict(l, if userType in opts.exprs then opts.exprs[userType] else Nothing,
            if userType in opts.removeFor then opts.removeFor[userType] else remove)
  }

  /** Python's `or` on what was said before (`False` if nothing) and the new verdict. */
  function Or(before: Option<Wish>, verdict: Wish): Wish {
    if before == Some(Some(true)) then Some(true) else verdict
  }

  function MapRoles(l: Login, orgs: OrgStates, entry: (string, OrgOpts), n: nat): OrgStates
    requires n <= |MAP_ROLES|
  {
    var name := MapTarget(entry);
    if n == 0 then (if name in orgs then orgs else orgs[name := map[]])
    else
      var front := MapRoles(l, orgs, entry, n - 1);
      var (role, userType) := MAP_ROLES[n - 1];
      SetOrg(front, name, role, Or(Said(front, name, role), EntryVerdict(l, entry.1, userType)))
  }

  function MapEntry(l: Login, d: Desired, entry: (string, OrgOpts)): Desired {
    d.(orgsToCreate := Append(d.orgsToCreate, MapTarget(entry)), orgs := MapRoles(l, d.orgs, entry, 3))
  }

  function OrgsByMap(l: Login, d: Desired, entries: seq<(string, OrgOpts)>): Desired {
    if entries == [] then d
    else MapEntry(l, OrgsByMap(l, d, entries[..|entries| - 1]), entries[|entries| - 1])
  }

  // ---------- Stages 2 and 4: teams ----------

  /** What a stage says about one team; `create`: the attribute stage asks for the team as well. */
  datatype Statement = Statement(org: Option<string>, team: string, hold: bool, create: bool)

  function ClearStatements(teams: seq<(string, string)>): seq<Statement> {
    seq(|teams|, i requires 0 <= i < |teams| => Statement(Some(teams[i].1), teams[i].0, false, false))
  }

  predicate Falsy(s: Option<string>) {
    s.None? || s.value == ""
  }

  /** A listed team without an organization is skipped; an unlisted one is refused under its own name. */
  function AttributeStatement(listed: seq<string>, m: TeamOrg): Option<Statement> {
    if m.team !in listed then Some(Statement(m.organization, m.team, false, false))
    else if Falsy(m.organization) then None
    else Some(Statement(m.organization, if Falsy(m.teamAlias) then m.team else m.teamAlias.value, true, true))
  }

  function AttributeStatements(listed: seq<string>, ms: seq<TeamOrg>): seq<Statement> {
    if ms == [] then []
    else
      var last := AttributeStatement(listed, ms[|ms| - 1]);
      AttributeStatements(listed, ms[..|ms| - 1]) + (if last.Some? then [last.value] else [])
  }

  function ListedTeams(c: Config, l: Login): seq<string>
    requires c.teamAttr.Some?
  {
    if c.teamAttr.value in l.attributes then l.attributes[c.teamAttr.value] else []
  }

  function TeamsByAttribute(c: Config, l: Login, existing: seq<(string, string)>): seq<Statement> {
    if c.teamAttr.None? then []
    else (if c.teamRemove then ClearStatements(existing) else []) + AttributeStatements(ListedTeams(c, l), c.teamOrgMap)
  }

  function TeamVerdict(l: Login, opts: TeamOpts): Wish {
    Verdict(l, opts.users, if opts.remove.Some? then opts.remove.value else true)
  }

  /** A team map entry without an organization, or without a verdict, says nothing. */
  function MapStatement(l: Login, entry: (string, TeamOpts)): seq<Statement> {
    var (team, opts) := entry;
    if opts.organization.Some? && TeamVerdict(l, opts).Some?
    then [Statement(opts.organization, team, TeamVerdict(l, opts).value, false)] else []
  }

  function TeamsByMap(l: Login, entries: seq<(string, TeamOpts)>): seq<Statement> {
    if entries == [] then []
    else TeamsByMap(l, entries[..|entries| - 1]) + MapStatement(l, entries[|entries| - 1])
  }

  function TeamStatesAfter(teams: TeamStates, ss: seq<Statement>): TeamStates {
    if ss == [] then teams
    else
      var s := ss[|ss| - 1];
      SetTeam(TeamStatesAfter(teams, ss[..|ss| - 1]), s.org, s.team, s.hold)
  }

  /** Which teams to create, in which organization: the last to ask decides. */
  function Created(create: map<string, Option<string>>, ss: seq<Statement>): map<string, Option<string>> {
    if ss == [] then create
    else
      var s := ss[|ss| - 1];
      var front := Created(create, ss[..|ss| - 1]);
      if s.create then front[s.team := s.org] else front
  }

  /** The map stage asks for its teams even when it says nothing about their membership. */
  function CreatedByMap(create: map<string, Option<string>>, entries: seq<(string, TeamOpts)>):
      map<string, Option<string>> {
    if entries == [] then create
    else
      var (team, opts) := entries[|entries| - 1];
      var front := CreatedByMap(create, entries[..|entries| - 1]);
      if opts.organization.Some? then front[team := opts.organization] else front
  }

  // ---------- One statement after the other ----------

  lemma SaidAppend(teams: TeamStates, ss: seq<Statement>, s: Statement)
    ensures TeamStatesAfter(teams, ss + [s]) == SetTeam(TeamStatesAfter(teams, ss), s.org, s.team, s.hold)
  {
    assert (ss + [s])[..|ss|] == ss;
  }

  lemma CreatedAppend(create: map<string, Option<string>>, ss: seq<Statement>, s: Statement)
    ensures Created(create, ss + [s]) == if s.create then Created(create, ss)[s.team := s.org] else Created(create, ss)
  {
    assert (ss + [s])[..|ss|] == ss;
  }

  lemma {:induction false} CreatedAll(create: map<string, Option<string>>, ss: seq<Statement>, ts: seq<Statement>)
    ensures Created(create, ss + ts) == Created(Created(create, ss), ts)
    decreases |ts|
  {
    if ts == [] {
      assert ss + ts == ss;
    } else {
      assert (ss + ts)[..|ss + ts| - 1] == ss + ts[..|ts| - 1];
      CreatedAll(create, ss, ts[..|ts| - 1]);
    }
  }

  lemma {:induction false} SaidAll(teams: TeamStates, ss: seq<Statement>, ts: seq<Statement>)
    ensures TeamStatesAfter(teams, ss + ts) == TeamStatesAfter(TeamStatesAfter(teams, ss), ts)
    decreases |ts|
  {
    if ts == [] {
      assert ss + ts == ss;
    } else {
      assert (ss + ts)[..|ss + ts| - 1] == ss + ts[..|ts| - 1];
      SaidAll(teams, ss, ts[..|ts| - 1]);
    }
  }

  // ---------- The object ----------

  class Pipeline {
    const config: Config
    const login: Login
    var orgs: OrgStates
    var teams: TeamStates
    var orgsToCreate: seq<string>
    var teamsToCreate: map<string, Option<string>>

    function View(): Desired
      reads this
    {
      Desired(orgs, teams, orgsToCreate, teamsToCreate)
    }

    constructor (config: Config, login: Login)
      ensures this.config == config && this.login == login && View() == Desired(map[], map[], [], map[])
    {
      this.config, this.login := config, login;
      orgs, teams, orgsToCreate, teamsToCreate := map[], map[], [], map[];
    }

    method FromExpression(expr: Expr, remove: bool) returns (wish: Wish)
      ensures wish == Verdict(login, expr, remove)
    {
      var shouldAdd := false;
      match expr {
        case Nothing =>
        case Always => shouldAdd := true;
        case Patterns(items) =>
          for i := 0 to |items|
            invariant shouldAdd <==> exists p <- items[..i] :: MatchesOne(login, p)
          {
            assert items[..i + 1] == items[..i] + [items[i]];
            assert (exists p <- items[..i + 1] :: MatchesOne(login, p)) <==>
              ((exists p <- items[..i] :: MatchesOne(login, p)) || MatchesOne(login, items[i])) by {
              assert items[i] in items[..i + 1];
            }
            match items[i] {
              case Exact(text) =>
                if login.person.username == text || login.person.email == text {
                  shouldAdd := true;
                }
              case Regex(id) =>
                if login.regex(id, login.person.username) || login.regex(id, login.person.email) {
                  shouldAdd := true;
                }
            }
          }
          assert items[..|items|] == items;
      }
      if shouldAdd {
        return Some(true);
      } else if remove {
        return Some(false);
      }
      return None;
    }

    method RefuseAll(existing: seq<string>, role: Role)
      modifies this
      ensures View() == old(View()).(orgs := ClearRole(old(orgs), existing, role))
    {
      for i := 0 to |existing|
        invariant View() == old(View()).(orgs := ClearRole(old(orgs), existing[..i], role))
      {
        assert existing[..i + 1][..i] == existing[..i];
        if existing[i] !in orgs {
          orgs := orgs[existing[i] := map[]];
        }
        orgs := orgs[existing[i] := orgs[existing[i]][role := Some(false)]];
      }
      assert existing[..|existing|] == existing;
    }

    method Grant(name: string, role: Role)
      modifies this
      ensures View() == GrantName(old(View()), name, role)
    {
      if name !in orgsToCreate {
        orgsToCreate := orgsToCreate + [name];
      }
      if name !in orgs {
        orgs := orgs[name := map[]];
      }
      orgs := orgs[name := orgs[name][role := Some(true)]];
    }

    method GrantAll(values: seq<string>, role: Role)
      modifies this
      ensures View() == GrantRole(config, old(View()), values, role)
    {
      for i := 0 to |values|
        invariant View() == GrantRole(config, old(View()), values[..i], role)
      {
        assert values[..i + 1][..i] == values[..i];
        Grant(AttributeTarget(config, values[i]), role);
      }
      assert values[..|values|] == values;
    }

    method UpdateOrgsByAttribute(existing: seq<string>)
      modifies this
      ensures View() == OrgsByAttribute(config, login, old(View()), existing)
    {
      for n := 0 to 3
        invariant View() == old(View()).(orgs := ClearRoles(config, old(orgs), existing, n))
      {
        var (role, flag, _) := ATTRIBUTE_ROLES[n];
        if Flag(config.orgRemove, flag) {
          RefuseAll(existing, role);
        }
      }
      ghost var cleared := View();
      for n := 0 to 3
        invariant View() == GrantRoles(config, login, cleared, n)
      {
        var (role, _, attr) := ATTRIBUTE_ROLES[n];
        GrantAll(Values(config, login, attr), role);
      }
    }

    method UpdateOrgs()
      modifies this
      ensures View() == OrgsByMap(login, old(View()), config.orgMap)
    {
      for i := 0 to |config.orgMap|
        invariant View() == OrgsByMap(login, old(View()), config.orgMap[..i])
      {
        assert config.orgMap[..i + 1][..i] == config.orgMap[..i];
        UpdateOrg(config.orgMap[i]);
      }
      assert config.orgMap[..|config.orgMap|] == config.orgMap;
    }

    method UpdateOrg(entry: (string, OrgOpts))
      modifies this
      ensures View() == MapEntry(login, old(View()), entry)
    {
      var (orgName, opts) := entry;
      var name := if opts.alias.Some? && opts.alias.value != "" then opts.alias.value else orgName;
      if name !in orgsToCreate {
        orgsToCreate := orgsToCreate + [name];
      }
      if name !in orgs {
        orgs := orgs[name := map[]];
      }
      ghost var start := View();
      for n := 0 to 3
        invariant View() == start.(orgs := MapRoles(login, old(orgs), entry, n)) && name in orgs
      {
        var (role, userType) := MAP_ROLES[n];
        UpdateOrgRole(name, opts, role, userType);
      }
    }

    method UpdateOrgRole(name: string, opts: OrgOpts, role: Role, userType: string)
      requires name in orgs
      modifies this
      ensures View() == old(View()).(orgs :=
        SetOrg(old(orgs), name, role, Or(Said(old(orgs), name, role), EntryVerdict(login, opts, userType))))
    {
      var remove := if opts.remove.Some? then opts.remove.value else true;
      var expr := if userType in opts.exprs then opts.exprs[userType] else Nothing;
      var removeMembers := if userType in opts.removeFor then opts.removeFor[userType] else remove;
      var hasRole := FromExpression(expr, removeMembers);
      var before := if role in orgs[name] then orgs[name][role] else Some(false);
      orgs := orgs[name := orgs[name][role := if before == Some(true) then before else hasRole]];
    }

    method Say(s: Statement)
      modifies this
      ensures orgs == old(orgs) && orgsToCreate == old(orgsToCreate)
      ensures teams == SetTeam(old(teams), s.org, s.team, s.hold)
      ensures teamsToCreate == if s.create then old(teamsToCreate)[s.team := s.org] else old(teamsToCreate)
    {
      if s.create {
        teamsToCreate := teamsToCreate[s.team := s.org];
      }
      if s.org !in teams {
        teams := teams[s.org := map[]];
      }
      teams := teams[s.org := teams[s.org][s.team := map[MEMBER := Some(s.hold)]]];
    }

    method RefuseTeams(existing: seq<(string, string)>)
      modifies this
      ensures orgs == old(orgs) && orgsToCreate == old(orgsToCreate)
      ensures teams == TeamStatesAfter(old(teams), ClearStatements(existing))
      ensures teamsToCreate == Created(old(teamsToCreate), ClearStatements(existing))
    {
      ghost var ss := ClearStatements(existing);
      for i := 0 to |existing|
        invariant orgs == old(orgs) && orgsToCreate == old(orgsToCreate)
        invariant teams == TeamStatesAfter(old(teams), ss[..i])
        invariant teamsToCreate == Created(old(teamsToCreate), ss[..i])
      {
        assert ss[..i + 1] == ss[..i] + [ss[i]];
        SaidAppend(old(teams), ss[..i], ss[i]);
        CreatedAppend(old(teamsToCreate), ss[..i], ss[i]);
        Say(Statement(Some(existing[i].1), existing[i].0, false, false));
      }
      assert ss[..|existing|] == ss;
    }

    method SayListed(listed: seq<string>)
      modifies this
      ensures orgs == old(orgs) && orgsToCreate == old(orgsToCreate)
      ensures teams == TeamStatesAfter(old(teams), AttributeStatements(listed, config.teamOrgMap))
      ensures teamsToCreate == Created(old(teamsToCreate), AttributeStatements(listed, config.teamOrgMap))
    {
      for i := 0 to |config.teamOrgMap|
        invariant orgs == old(orgs) && orgsToCreate == old(orgsToCreate)
        invariant teams == TeamStatesAfter(old(teams), AttributeStatements(listed, config.teamOrgMap[..i]))
        invariant teamsToCreate == Created(old(teamsToCreate), AttributeStatements(listed, config.teamOrgMap[..i]))
      {
        var m := config.teamOrgMap[i];
        ghost var before := AttributeStatements(listed, config.teamOrgMap[..i]);
        assert config.teamOrgMap[..i + 1][..i] == config.teamOrgMap[..i];
        var s := Statement(m.organization, m.team, false, false);
        if m.team in listed {
          if Falsy(m.organization) {
            assert AttributeStatements(listed, config.teamOrgMap[..i + 1]) == before + [] == before;
            continue;
          }
          s := Statement(m.organization, if Falsy(m.teamAlias) then m.team else m.teamAlias.value, true, true);
        }
        SaidAppend(old(teams), before, s);
        CreatedAppend(old(teamsToCreate), before, s);
        Say(s);
      }
      assert config.teamOrgMap[..|config.teamOrgMap|] == config.teamOrgMap;
    }

    /** `existing`: the name and organization of every team. */
    method UpdateTeamsByAttribute(existing: seq<(string, string)>)
      modifies this
      ensures orgs == old(orgs) && orgsToCreate == old(orgsToCreate)
      ensures teams == TeamStatesAfter(old(teams), TeamsByAttribute(config, login, existing))
      ensures teamsToCreate == Created(old(teamsToCreate), TeamsByAttribute(config, login, existing))
    {
      if config.teamAttr.None? {
        return;
      }
      ghost var cleared: seq<Statement> := [];
      if config.teamRemove {
        RefuseTeams(existing);
        cleared := ClearStatements(existing);
      }
      SaidAll(old(teams), cleared, AttributeStatements(ListedTeams(config, login), config.teamOrgMap));
      CreatedAll(old(teamsToCreate), cleared, AttributeStatements(ListedTeams(config, login), config.teamOrgMap));
      var listed := ListedTeams(config, login);
      SayListed(listed);
    }

    method UpdateTeams()
      modifies this
      ensures orgs == old(orgs) && orgsToCreate == old(orgsToCreate)
      ensures teams == TeamStatesAfter(old(teams), TeamsByMap(login, config.teamMap))
      ensures teamsToCreate == CreatedByMap(old(teamsToCreate), config.teamMap)
    {
      for i := 0 to |config.teamMap|
        invariant orgs == old(orgs) && orgsToCreate == old(orgsToCreate)
        invariant teams == TeamStatesAfter(old(teams), TeamsByMap(login, config.teamMap[..i]))
        invariant teamsToCreate == CreatedByMap(old(teamsToCreate), config.teamMap[..i])
      {
        assert config.teamMap[..i + 1][..i] == config.teamMap[..i];
        SaidAll(old(teams), TeamsByMap(login, config.teamMap[..i]), MapStatement(login, config.teamMap[i]));
        UpdateTeam(config.teamMap[i]);
      }
      assert config.teamMap[..|config.teamMap|] == config.teamMap;
    }

    method UpdateTeam(entry: (string, TeamOpts))
      modifies this
      ensures orgs == old(orgs) && orgsToCreate == old(orgsToCreate)
      ensures teams == TeamStatesAfter(old(teams), MapStatement(login, entry))
      ensures teamsToCreate ==
        if entry.1.organization.Some? then old(teamsToCreate)[entry.0 := entry.1.organization] else old(teamsToCreate)
    {
      var (team, opts) := entry;
      if opts.organization.None? {
        return;
      }
      teamsToCreate := teamsToCreate[team := opts.organization];
      var remove := if opts.remove.Some? then opts.remove.value else true;
      var hold := FromExpression(opts.users, remove);
      if hold.Some? {
        Say(Statement(opts.organization, team, hold.value, false));
        SaidAppend(old(teams), [], Statement(opts.organization, team, hold.value, false));
      }
    }
  }

  // ---------- Closed form: organizations ----------

  /** The removal flag and the attribute setting of a role. */
  function AttributeKeys(role: Role): Option<(string, string)> {
    if role == "member_role" then Some(("remove", "saml_attr"))
    else if role == "admin_role" then Some(("remove_admins", "saml_admin_attr"))
    else if role == "auditor_role" then Some(("remove_auditors", "saml_auditor_attr"))
    else None
  }

  /** Some attribute value grants the role in this organization. */
  ghost predicate AttributeGrants(c: Config, l: Login, org: string, role: Role) {
    && AttributeKeys(role).Some?
    && exists v :: v in Values(c, l, AttributeKeys(role).value.1) && AttributeTarget(c, v) == org
  }

  /** The attribute stage takes the role away in every organization that exists. */
  ghost predicate AttributeClears(c: Config, existing: seq<string>, org: string, role: Role) {
    org in existing && AttributeKeys(role).Some? && Flag(c.orgRemove, AttributeKeys(role).value.0)
  }

  ghost function AttributeSays(c: Config, l: Login, existing: seq<string>, org: string, role: Role): Option<Wish> {
    if AttributeGrants(c, l, org, role) then Some(Some(true))
    else if AttributeClears(c, existing, org, role) then Some(Some(false))
    else None
  }

  lemma {:induction false} ClearRoleSays(orgs: OrgStates, names: seq<string>, role: Role, o: string, r: Role)
    ensures Said(ClearRole(orgs, names, role), o, r) ==
      if r == role && o in names then Some(Some(false)) else Said(orgs, o, r)
  {
    if names != [] {
      ClearRoleSays(orgs, names[..|names| - 1], role, o, r);
      assert names == names[..|names| - 1] + [names[|names| - 1]];
      SetOrgSays(ClearRole(orgs, names[..|names| - 1], role), names[|names| - 1], role, Some(false), o, r);
    }
  }

  lemma {:induction false} GrantRoleSays(c: Config, d: Desired, values: seq<string>, role: Role, o: string, r: Role)
    ensures var e := GrantRole(c, d, values, role);
      && Said(e.orgs, o, r) ==
         (if r == role && (exists v <- values :: AttributeTarget(c, v) == o) then Some(Some(true))
           else Said(d.orgs, o, r))
      && (forall x :: x in e.orgsToCreate <==> x in d.orgsToCreate || exists v <- values :: AttributeTarget(c, v) == x)
  {
    if values != [] {
      var front, v := values[..|values| - 1], values[|values| - 1];
      assert values == front + [v];
      GrantRoleSays(c, d, front, role, o, r);
      SetOrgSays(GrantRole(c, d, front, role).orgs, AttributeTarget(c, v), role, Some(true), o, r);
    }
  }

  lemma ClearRolesStep(c: Config, existing: seq<string>, n: nat, role: Role, flag: string, attr: string, o: string,
      r: Role)
    requires n < 3 && ATTRIBUTE_ROLES[n] == (role, flag, attr)
    ensures Said(ClearRoles(c, map[], existing, n + 1), o, r) ==
      if r == role && o in existing && Flag(c.orgRemove, flag) then Some(Some(false))
      else Said(ClearRoles(c, map[], existing, n), o, r)
    ensures ClearRoles(c, map[], existing, 0) == map[]
  {
    ClearRoleSays(ClearRoles(c, map[], existing, n), existing, role, o, r);
  }

  lemma ClearRolesSay(c: Config, existing: seq<string>, o: string, r: Role)
    ensures Said(ClearRoles(c, map[], existing, 3), o, r) ==
      if AttributeClears(c, existing, o, r) then Some(Some(false)) else None
  {
    ClearRolesStep(c, existing, 0, "member_role", "remove", "saml_attr", o, r);
    ClearRolesStep(c, existing, 1, "admin_role", "remove_admins", "saml_admin_attr", o, r);
    ClearRolesStep(c, existing, 2, "auditor_role", "remove_auditors", "saml_auditor_attr", o, r);
  }

  lemma GrantRolesStep(c: Config, l: Login, d: Desired, n: nat, role: Role, flag: string, attr: string, o: string,
      r: Role)
    requires n < 3 && ATTRIBUTE_ROLES[n] == (role, flag, attr)
    ensures var e, f := GrantRoles(c, l, d, n), GrantRoles(c, l, d, n + 1);
      && Said(f.orgs, o, r) ==
         (if r == role && (exists v <- Values(c, l, attr) :: AttributeTarget(c, v) == o) then Some(Some(true))
           else Said(e.orgs, o, r))
      && (o in f.orgsToCreate <==> o in e.orgsToCreate || exists v <- Values(c, l, attr) :: AttributeTarget(c, v) == o)
    ensures GrantRoles(c, l, d, 0) == d
  {
    GrantRoleSays(c, GrantRoles(c, l, d, n), Values(c, l, attr), role, o, r);
  }

  lemma GrantRolesSay(c: Config, l: Login, d: Desired, o: string, r: Role)
    requires d.orgsToCreate == []
    ensures var e := GrantRoles(c, l, d, 3);
      && Said(e.orgs, o, r) == (if AttributeGrants(c, l, o, r) then Some(Some(true)) else Said(d.orgs, o, r))
      && (AttributeGrants(c, l, o, r) ==> o in e.orgsToCreate)
  {
    GrantRolesStep(c, l, d, 0, "member_role", "remove", "saml_attr", o, r);
    GrantRolesStep(c, l, d, 1, "admin_role", "remove_admins", "saml_admin_attr", o, r);
    GrantRolesStep(c, l, d, 2, "auditor_role", "remove_auditors", "saml_auditor_attr", o, r);
  }

  lemma OrgsByAttributeSays(c: Config, l: Login, existing: seq<string>, o: string, r: Role)
    ensures var d := OrgsByAttribute(c, l, Desired(map[], map[], [], map[]), existing);
      && Said(d.orgs, o, r) == AttributeSays(c, l, existing, o, r)
      && (Said(d.orgs, o, r) == Some(Some(true)) ==> o in d.orgsToCreate)
  {
    ClearRolesSay(c, existing, o, r);
    GrantRolesSay(c, l, Desired(ClearRoles(c, map[], existing, 3), map[], [], map[]), o, r);
  }

  function UserType(role: Role): Option<string> {
    if role == "admin_role" then Some("admins")
    else if role == "member_role" then Some("users")
    else if role == "auditor_role" then Some("auditors")
    else None
  }

  lemma MapEntrySays(l: Login, orgs: OrgStates, entry: (string, OrgOpts), o: string, r: Role)
    ensures Said(MapRoles(l, orgs, entry, 3), o, r) ==
      if o == MapTarget(entry) && UserType(r).Some?
      then Some(Or(Said(orgs, o, r), EntryVerdict(l, entry.1, UserType(r).value)))
      else Said(orgs, o, r)
  {
    var name := MapTarget(entry);
    var m0, m1, m2 := MapRoles(l, orgs, entry, 0), MapRoles(l, orgs, entry, 1), MapRoles(l, orgs, entry, 2);
    assert MAP_ROLES[0] == ("admin_role", "admins") && MAP_ROLES[1] == ("member_role", "users");
    assert MAP_ROLES[2] == ("auditor_role", "auditors");
    assert Said(m0, o, r) == Said(orgs, o, r) && Said(m0, name, "admin_role") == Said(orgs, name, "admin_role");
    SetOrgSays(m0, name, "admin_role", Or(Said(m0, name, "admin_role"), EntryVerdict(l, entry.1, "admins")), o, r);
    SetOrgSays(m0, name, "admin_role", Or(Said(m0, name, "admin_role"), EntryVerdict(l, entry.1, "admins")), name,
      "member_role");
    SetOrgSays(m1, name, "member_role", Or(Said(m1, name, "member_role"), EntryVerdict(l, entry.1, "users")), o, r);
    SetOrgSays(m0, name, "admin_role", Or(Said(m0, name, "admin_role"), EntryVerdict(l, entry.1, "admins")), name,
      "auditor_role");
    SetOrgSays(m1, name, "member_role", Or(Said(m1, name, "member_role"), EntryVerdict(l, entry.1, "users")), name,
      "auditor_role");
    SetOrgSays(m2, name, "auditor_role", Or(Said(m2, name, "auditor_role"), EntryVerdict(l, entry.1, "auditors")), o,
      r);
  }

  /** An entry of the map that speaks about this organization and says `True`. */
  ghost predicate MapGrants(l: Login, entries: seq<(string, OrgOpts)>, org: string, userType: string) {
    exists e :: e in entries && MapTarget(e) == org && EntryVerdict(l, e.1, userType) == Some(true)
  }

  /** The last entry that speaks about this organization. */
  function LastVerdict(l: Login, entries: seq<(string, OrgOpts)>, org: string, userType: string): Option<Wish> {
    if entries == [] then None
    else
      var e := entries[|entries| - 1];
      if MapTarget(e) == org then Some(EntryVerdict(l, e.1, userType))
      else LastVerdict(l, entries[..|entries| - 1], org, userType)
  }

  lemma {:induction false} LastTrueGrants(l: Login, entries: seq<(string, OrgOpts)>, org: string, t: string)
    ensures LastVerdict(l, entries, org, t) == Some(Some(true)) ==> MapGrants(l, entries, org, t)
  {
    if entries != [] {
      LastTrueGrants(l, entries[..|entries| - 1], org, t);
      assert entries[|entries| - 1] in entries;
    }
  }

  lemma {:induction false} OrgsByMapSays(l: Login, d: Desired, entries: seq<(string, OrgOpts)>, o: string, r: Role)
    requires UserType(r).Some?
    ensures var t := UserType(r).value;
      Said(OrgsByMap(l, d, entries).orgs, o, r) ==
        if Said(d.orgs, o, r) == Some(Some(true)) || MapGrants(l, entries, o, t) then Some(Some(true))
        else if LastVerdict(l, entries, o, t).Some? then LastVerdict(l, entries, o, t)
        else Said(d.orgs, o, r)
  {
    if entries != [] {
      var front, e := entries[..|entries| - 1], entries[|entries| - 1];
      assert entries == front + [e];
      OrgsByMapSays(l, d, front, o, r);
      var t := UserType(r).value;
      LastTrueGrants(l, front, o, t);
      assert MapGrants(l, entries, o, t) <==>
        MapGrants(l, front, o, t) || (MapTarget(e) == o && EntryVerdict(l, e.1, t) == Some(true)) by {
        assert e in entries;
      }
      MapEntrySays(l, OrgsByMap(l, d, front).orgs, e, o, r);
    }
  }

  lemma {:induction false} OrgsByMapCreates(l: Login, d: Desired, entries: seq<(string, OrgOpts)>, x: string)
    ensures x in OrgsByMap(l, d, entries).orgsToCreate <==>
      x in d.orgsToCreate || exists e :: e in entries && MapTarget(e) == x
  {
    if entries != [] {
      OrgsByMapCreates(l, d, entries[..|entries| - 1], x);
      assert entries == entries[..|entries| - 1] + [entries[|entries| - 1]];
    }
  }

  /** The desired state of the organizations after all stages. */
  function FinalOrgs(c: Config, l: Login, existing: seq<string>): Desired {
    OrgsByMap(l, OrgsByAttribute(c, l, Desired(map[], map[], [], map[]), existing), c.orgMap)
  }

  /**
   What the user should be in an organization, in closed form: any `True` wins, from an attribute
   value or from a map entry aliased to the organization; otherwise the last such entry decides,
   even by leaving the role alone; otherwise the attribute stage does.
   */
  lemma OrganizationWishInClosedForm(c: Config, l: Login, existing: seq<string>, o: string, r: Role)
    requires UserType(r).Some?
    ensures var t := UserType(r).value;
      Said(FinalOrgs(c, l, existing).orgs, o, r) ==
        if AttributeGrants(c, l, o, r) || MapGrants(l, c.orgMap, o, t) then Some(Some(true))
        else if LastVerdict(l, c.orgMap, o, t).Some? then LastVerdict(l, c.orgMap, o, t)
        else AttributeSays(c, l, existing, o, r)
  {
    OrgsByAttributeSays(c, l, existing, o, r);
    OrgsByMapSays(l, OrgsByAttribute(c, l, Desired(map[], map[], [], map[]), existing), c.orgMap, o, r);
  }

  lemma {:induction false} LastVerdictHasEntry(l: Login, entries: seq<(string, OrgOpts)>, org: string, t: string)
    ensures LastVerdict(l, entries, org, t).Some? <==> exists e :: e in entries && MapTarget(e) == org
  {
    if entries != [] {
      LastVerdictHasEntry(l, entries[..|entries| - 1], org, t);
      assert entries == entries[..|entries| - 1] + [entries[|entries| - 1]];
    }
  }

  /** Every organization in which some role is wanted is among those to create. */
  lemma WantedOrganizationsAreToBeCreated(c: Config, l: Login, existing: seq<string>, o: string, r: Role)
    requires UserType(r).Some?
    ensures Said(FinalOrgs(c, l, existing).orgs, o, r) == Some(Some(true)) ==>
      o in FinalOrgs(c, l, existing).orgsToCreate
  {
    var d := OrgsByAttribute(c, l, Desired(map[], map[], [], map[]), existing);
    OrgsByAttributeSays(c, l, existing, o, r);
    OrgsByMapSays(l, d, c.orgMap, o, r);
    OrgsByMapCreates(l, d, c.orgMap, o);
    LastVerdictHasEntry(l, c.orgMap, o, UserType(r).value);
  }

  // ---------- Closed form: teams ----------

  function LastStatement(ss: seq<Statement>, org: Option<string>, team: string): Option<bool> {
    if ss == [] then None
    else if ss[|ss| - 1].org == org && ss[|ss| - 1].team == team then Some(ss[|ss| - 1].hold)
    else LastStatement(ss[..|ss| - 1], org, team)
  }

  function TeamSaid(teams: TeamStates, org: Option<string>, team: string): Wish {
    if org in teams && team in teams[org] then WishIn(teams[org][team], MEMBER) else None
  }

  lemma {:induction false} CreatedHas(create: map<string, Option<string>>, ss: seq<Statement>, org: Option<string>,
      team: string)
    requires forall s <- ss :: s.hold ==> s.create
    ensures create.Keys <= Created(create, ss).Keys
    ensures LastStatement(ss, org, team) == Some(true) ==> team in Created(create, ss)
  {
    if ss != [] {
      assert ss[|ss| - 1] in ss;
      CreatedHas(create, ss[..|ss| - 1], org, team);
    }
  }

  lemma {:induction false} CreatedByMapHas(l: Login, create: map<string, Option<string>>,
      entries: seq<(string, TeamOpts)>,
                                           org: Option<string>, team: string)
    ensures create.Keys <= CreatedByMap(create, entries).Keys
    ensures LastStatement(TeamsByMap(l, entries), org, team).Some? ==> team in CreatedByMap(create, entries)
  {
    if entries != [] {
      var (name, opts) := entries[|entries| - 1];
      var front := TeamsByMap(l, entries[..|entries| - 1]);
      CreatedByMapHas(l, create, entries[..|entries| - 1], org, team);
      if opts.organization.Some? && TeamVerdict(l, opts).Some? {
        var s := Statement(opts.organization, name, TeamVerdict(l, opts).value, false);
        assert (front + [s])[..|front|] == front;
      } else {
        assert front + [] == front;
      }
    }
  }

  lemma {:induction false} AttributeGrantsCreate(listed: seq<string>, ms: seq<TeamOrg>)
    ensures forall s <- AttributeStatements(listed, ms) :: s.hold ==> s.create
  {
    if ms != [] {
      AttributeGrantsCreate(listed, ms[..|ms| - 1]);
    }
  }

  lemma {:induction false} LastOfBoth(ss: seq<Statement>, ts: seq<Statement>, org: Option<string>, team: string)
    ensures LastStatement(ss + ts, org, team) ==
      if LastStatement(ts, org, team).Some? then LastStatement(ts, org, team) else LastStatement(ss, org, team)
    decreases |ts|
  {
    if ts == [] {
      assert ss + ts == ss;
    } else {
      assert (ss + ts)[..|ss + ts| - 1] == ss + ts[..|ts| - 1];
      LastOfBoth(ss, ts[..|ts| - 1], org, team);
    }
  }

  /** The teams to create after all stages. */
  function FinalTeamsToCreate(c: Config, l: Login, existing: seq<(string, string)>): map<string, Option<string>> {
    CreatedByMap(Created(map[], TeamsByAttribute(c, l, existing)), c.teamMap)
  }

  /** Every team in which membership is wanted is among those to create, though maybe in another organization. */
  lemma WantedTeamsAreToBeCreated(c: Config, l: Login, existing: seq<(string, string)>, org: Option<string>,
      team: string)
    requires LastStatement(TeamsByAttribute(c, l, existing) + TeamsByMap(l, c.teamMap), org, team) == Some(true)
    ensures team in FinalTeamsToCreate(c, l, existing)
  {
    var ss, ts := TeamsByAttribute(c, l, existing), TeamsByMap(l, c.teamMap);
    LastOfBoth(ss, ts, org, team);
    if c.teamAttr.Some? {
      AttributeGrantsCreate(ListedTeams(c, l), c.teamOrgMap);
    }
    CreatedHas(map[], ss, org, team);
    CreatedByMapHas(l, Created(map[], ss), c.teamMap, org, team);
  }

  /** The last statement about a team is the one that counts. */
  lemma {:induction false} LastStatementDecides(teams: TeamStates, ss: seq<Statement>, org: Option<string>,
      team: string)
    ensures TeamSaid(TeamStatesAfter(teams, ss), org, team) ==
      if LastStatement(ss, org, team).Some? then LastStatement(ss, org, team) else TeamSaid(teams, org, team)
  {
    if ss != [] {
      LastStatementDecides(teams, ss[..|ss| - 1], org, team);
    }
  }
}
