/**
 The parents a role has by definition, computed in two ways: `is_implicit_parent` walks from the child
 role's object and compares, `_resolve_parent_roles` resolves every path and collects. The second result
 is what `update_role_parentage_for_instance` applies to the stored parents.
 */
module ImplicitParents {
  import opened Wrappers

  type Id = nat
  type Path = string

  const ADMINISTRATOR: string := "system_administrator"
  const AUDITOR: string := "system_auditor"
  const SINGLETON: string := "singleton:"

  /**
   `attrs`: what each object's attributes refer to, if anything. `singletonRole`: the one role of that
   singleton name, which is created when it is first asked for.
   */
  datatype World = World(
    attrs: map<Id, map<string, Option<Id>>>,
    isRole: Id -> bool,
    singletonName: Id -> Option<string>,
    singletonRole: string -> Id)

  ghost predicate UniqueSingletons(w: World) {
    && (forall n :: w.isRole(w.singletonRole(n)) && w.singletonName(w.singletonRole(n)) == Some(n))
    && (forall p, n :: w.isRole(p) && w.singletonName(p) == Some(n) ==> p == w.singletonRole(n))
  }

  /** The `parent_role` of an implicit role field. */
  datatype ParentRole = NoParent | One(path: Path) | Many(paths: seq<Path>)

  /** What Python calls `getattr`: no such attribute, no object, or an object. */
  datatype Attr = Missing | Nothing | Object(id: Id)

  function GetAttr(w: World, obj: Id, name: string): Attr {
    if obj !in w.attrs || name !in w.attrs[obj] then Missing
    else if w.attrs[obj][name].None? then Nothing
    else Object(w.attrs[obj][name].value)
  }

  // ---------- Paths ----------

  function Dot(s: string, i: nat): (d: nat)
    requires i <= |s|
    ensures i <= d <= |s| && (d < |s| ==> s[d] == '.') && forall j | i <= j < d :: s[j] != '.'
    decreases |s| - i
  {
    if i == |s| || s[i] == '.' then i else Dot(s, i + 1)
  }

  /** `path.split('.')`. */
  function Split(s: string): (parts: seq<string>)
    ensures parts != []
    decreases |s|
  {
    var d := Dot(s, 0);
    if d == |s| then [s] else [s[..d]] + Split(s[d + 1..])
  }

  predicate IsSingletonPath(p: Path) {
    SINGLETON <= p
  }

  function SingletonOf(p: Path): string
    requires IsSingletonPath(p)
  {
    p[|SINGLETON|..]
  }

  // ---------- Resolving ----------

  datatype Resolved = Roles(ids: seq<Id>) | NotARole

  /** `resolve_role_field`: one component at a time. */
  function Resolve(w: World, obj: Id, field: Path): Resolved
    decreases |field|
  {
    var d := Dot(field, 0);
    match GetAttr(w, obj, field[..d])
    case Missing => Roles([])
    case Nothing => Roles([])
    case Object(next) =>
      if d == |field| then (if w.isRole(next) then Roles([next]) else NotARole)
      else Resolve(w, next, field[d + 1..])
  }

  function ResolvePath(w: World, obj: Id, path: Path): Resolved {
    if IsSingletonPath(path) then Roles([w.singletonRole(SingletonOf(path))]) else Resolve(w, obj, path)
  }

  function Paths(pr: ParentRole): seq<Path> {
    match pr
    case NoParent => []
    case One(path) => if path == "" then [] else [path]
    case Many(paths) => paths
  }

  /** The ids that the paths resolve to; one that ends in something else than a role raises. */
  function ResolveAll(w: World, obj: Id, paths: seq<Path>): Option<set<Id>> {
    if paths == [] then Some({})
    else
      var front := ResolveAll(w, obj, paths[..|paths| - 1]);
      var last := ResolvePath(w, obj, paths[|paths| - 1]);
      if front.None? || last.NotARole? then None else Some(front.value + set i | i in last.ids)
  }

  // ---------- Walking ----------

  function Walk(w: World, obj: Id, names: seq<string>): Attr
    decreases |names|
  {
    if names == [] then Object(obj)
    else match GetAttr(w, obj, names[0])
      case Missing => Missing
      case Nothing => Nothing
      case Object(next) => Walk(w, next, names[1..])
  }

  datatype Answer = AttributeError | Is(yes: bool)

  predicate KnownSingleton(name: string) {
    name in {ADMINISTRATOR, AUDITOR}
  }

  /** What one path says about a role. */
  function PathSays(w: World, obj: Id, path: Path, role: Id): Answer {
    if IsSingletonPath(path) then
      Is(w.singletonName(role) == Some(SingletonOf(path)) && KnownSingleton(SingletonOf(path)))
    else match Walk(w, obj, Split(path))
      case Missing => AttributeError
      case Nothing => Is(false)
      case Object(o) => Is(o == role)
  }

  /** The first path that says yes, or that raises, ends the search. */
  function PathsSay(w: World, obj: Id, paths: seq<Path>, role: Id): Answer {
    if paths == [] then Is(false)
    else
      var first := PathSays(w, obj, paths[0], role);
      if first == Is(false) then PathsSay(w, obj, paths[1..], role) else first
  }

  /** A role: its object, if any, and the definition of its field on that object's class. */
  datatype Child = Child(singletonName: Option<string>, owner: Option<Id>, parentRole: ParentRole)

  function IsImplicit(w: World, parent: Id, c: Child): Answer {
    if c.owner.None? then Is(c.singletonName == Some(AUDITOR) && w.singletonName(parent) == Some(ADMINISTRATOR))
    else match c.parentRole
      case NoParent => AttributeError
      case One(path) => PathsSay(w, c.owner.value, [path], parent)
      case Many(paths) => PathsSay(w, c.owner.value, paths, parent)
  }

  /** Of the roles without an object only one has a parent by definition: the auditor the administrator. */
  lemma OnlyAuditorHasSystemParent(w: World, parent: Id, c: Child)
    requires c.owner.None?
    ensures IsImplicit(w, parent, c) == Is(true) <==>
      c.singletonName == Some("system_auditor") && w.singletonName(parent) == Some("system_administrator")
    ensures IsImplicit(w, parent, c) != AttributeError
  {
  }

  method WalkPath(w: World, obj: Id, names: seq<string>) returns (related: Attr)
    ensures related == Walk(w, obj, names)
  {
    related := Object(obj);
    var i := 0;
    while i < |names|
      invariant 0 <= i <= |names| && related.Object?
      invariant Walk(w, related.id, names[i..]) == Walk(w, obj, names)
    {
      related := GetAttr(w, related.id, names[i]);
      assert names[i..][1..] == names[i + 1..];
      if !related.Object? {
        return;
      }
      i := i + 1;
    }
  }

  /** `Role.is_singleton`. */
  predicate KnownParent(w: World, role: Id) {
    w.singletonName(role).Some? && KnownSingleton(w.singletonName(role).value)
  }

  /** `is_implicit_parent`. */
  method IsImplicitParent(w: World, parent: Id, c: Child) returns (answer: Answer)
    ensures answer == IsImplicit(w, parent, c)
  {
    if c.owner.None? {
      return Is(c.singletonName == Some(AUDITOR) && w.singletonName(parent) == Some(ADMINISTRATOR));
    }
    if c.parentRole.NoParent? {
      return AttributeError;
    }
    var paths := if c.parentRole.Many? then c.parentRole.paths else [c.parentRole.path];
    var i := 0;
    while i < |paths|
      invariant 0 <= i <= |paths|
      invariant PathsSay(w, c.owner.value, paths[i..], parent) == PathsSay(w, c.owner.value, paths, parent)
    {
      var path := paths[i];
      assert paths[i..][1..] == paths[i + 1..];
      if IsSingletonPath(path) {
        if KnownParent(w, parent) && w.singletonName(parent) == Some(SingletonOf(path)) {
          return Is(true);
        }
      } else {
        var related := WalkPath(w, c.owner.value, Split(path));
        if related.Missing? {
          return AttributeError;
        }
        if related == Object(parent) {
          return Is(true);
        }
      }
      i := i + 1;
    }
    return Is(false);
  }

  lemma {:induction false} RaisesForGood(w: World, obj: Id, paths: seq<Path>, i: nat)
    requires i <= |paths| && ResolveAll(w, obj, paths[..i]).None?
    ensures ResolveAll(w, obj, paths).None?
    decreases |paths|
  {
    if i == |paths| {
      assert paths[..i] == paths;
    } else {
      assert paths[..|paths| - 1][..i] == paths[..i];
      RaisesForGood(w, obj, paths[..|paths| - 1], i);
    }
  }

  /** `_resolve_parent_roles`; `None` when `resolve_role_field` raises. */
  method ResolveParentRoles(w: World, obj: Id, pr: ParentRole) returns (parents: Option<set<Id>>)
    ensures parents == ResolveAll(w, obj, Paths(pr))
  {
    var paths := Paths(pr);
    var ids: set<Id> := {};
    for i := 0 to |paths|
      invariant ResolveAll(w, obj, paths[..i]) == Some(ids)
    {
      assert paths[..i + 1][..i] == paths[..i];
      var resolved := ResolvePath(w, obj, paths[i]);
      if resolved.NotARole? {
        RaisesForGood(w, obj, paths, i + 1);
        return None;
      }
      ids := ids + set p | p in resolved.ids;
    }
    assert paths[..|paths|] == paths;
    return Some(ids);
  }

  // ---------- The two computations agree ----------

  /** The two walks along one path end at the same place, whatever it is. */
  lemma {:induction false} WalksEndAlike(w: World, obj: Id, path: Path)
    ensures Resolve(w, obj, path) ==
      match Walk(w, obj, Split(path))
      case Missing => Roles([])
      case Nothing => Roles([])
      case Object(o) => if w.isRole(o) then Roles([o]) else NotARole
    decreases |path|
  {
    var d := Dot(path, 0);
    var a := GetAttr(w, obj, path[..d]);
    if d == |path| {
      assert path[..d] == path && Split(path)[1..] == [];
    } else {
      assert Split(path)[1..] == Split(path[d + 1..]);
      if a.Object? {
        WalksEndAlike(w, a.id, path[d + 1..]);
      }
    }
  }

  /** Every attribute on the path exists, and the path ends at a role or nowhere, or names a known singleton. */
  predicate Regular(w: World, obj: Id, path: Path) {
    if IsSingletonPath(path) then KnownSingleton(SingletonOf(path))
    else match Walk(w, obj, Split(path))
      case Missing => false
      case Nothing => true
      case Object(o) => w.isRole(o)
  }

  ghost predicate PathAgrees(w: World, obj: Id, path: Path) {
    && ResolvePath(w, obj, path).Roles?
    && forall p | w.isRole(p) :: PathSays(w, obj, path, p) == Is(p in ResolvePath(w, obj, path).ids)
  }

  /** For one path, the two computations agree about all roles exactly when the path is regular. */
  lemma PathAgreesIffRegular(w: World, obj: Id, path: Path)
    requires UniqueSingletons(w)
    ensures PathAgrees(w, obj, path) <==> Regular(w, obj, path)
  {
    if IsSingletonPath(path) {
      var r := w.singletonRole(SingletonOf(path));
      assert w.isRole(r);
      assert r in ResolvePath(w, obj, path).ids;
    } else {
      WalksEndAlike(w, obj, path);
      assert w.isRole(w.singletonRole(AUDITOR));
    }
  }

  predicate ResolvePathOk(w: World, obj: Id, path: Path) {
    ResolvePath(w, obj, path).Roles?
  }

  function Ids(r: Resolved): seq<Id> {
    if r.Roles? then r.ids else []
  }

  lemma {:induction false} ResolveFirst(w: World, obj: Id, paths: seq<Path>)
    requires paths != [] && forall i | 0 <= i < |paths| :: ResolvePathOk(w, obj, paths[i])
    ensures ResolveAll(w, obj, paths).Some? && ResolveAll(w, obj, paths[1..]).Some?
    ensures ResolveAll(w, obj, paths).value ==
      (set i | i in Ids(ResolvePath(w, obj, paths[0]))) + ResolveAll(w, obj, paths[1..]).value
    decreases |paths|
  {
    assert ResolvePathOk(w, obj, paths[0]) && ResolvePathOk(w, obj, paths[|paths| - 1]);
    if |paths| == 1 {
      assert paths[1..] == [] && paths[..0] == [];
    } else {
      ResolveFirst(w, obj, paths[..|paths| - 1]);
      assert paths[1..][..|paths| - 2] == paths[..|paths| - 1][1..];
    }
  }

  lemma {:induction false} PathsAgree(w: World, obj: Id, paths: seq<Path>, p: Id)
    requires UniqueSingletons(w) && w.isRole(p) && forall path <- paths :: Regular(w, obj, path)
    ensures ResolveAll(w, obj, paths).Some?
    ensures PathsSay(w, obj, paths, p) == Is(p in ResolveAll(w, obj, paths).value)
    decreases |paths|
  {
    if paths != [] {
      PathAgreesIffRegular(w, obj, paths[0]);
      assert PathSays(w, obj, paths[0], p) == Is(p in ResolvePath(w, obj, paths[0]).ids);
      PathsAgree(w, obj, paths[1..], p);
      forall i | 0 <= i < |paths|
        ensures ResolvePathOk(w, obj, paths[i])
      {
        assert Regular(w, obj, paths[i]);
        PathAgreesIffRegular(w, obj, paths[i]);
      }
      ResolveFirst(w, obj, paths);
    }
  }

  /** For a role of an object whose definition has regular paths only, the two computations agree. */
  lemma ImplicitIffResolved(w: World, c: Child, p: Id)
    requires UniqueSingletons(w) && w.isRole(p) && c.owner.Some?
    requires c.parentRole != NoParent && c.parentRole != One("")
    requires forall path <- Paths(c.parentRole) :: Regular(w, c.owner.value, path)
    ensures ResolveAll(w, c.owner.value, Paths(c.parentRole)).Some?
    ensures IsImplicit(w, p, c) == Is(p in ResolveAll(w, c.owner.value, Paths(c.parentRole)).value)
  {
    PathsAgree(w, c.owner.value, Paths(c.parentRole), p);
  }

  // ---------- Updating the stored parents ----------

  /** `parents`: all parents of each role; `implicit`: those it has by definition, as last stored. */
  datatype Parentage = Parentage(parents: map<Id, set<Id>>, implicit: map<Id, set<Id>>)

  /** A role of the instance and the parents its definition now resolves to. */
  datatype RoleField = RoleField(role: Id, resolved: set<Id>)

  function Adjusted(parents: set<Id>, original: set<Id>, resolved: set<Id>): set<Id> {
    parents - (original - resolved) + (resolved - original)
  }

  function Get(m: map<Id, set<Id>>, r: Id): set<Id> {
    if r in m then m[r] else {}
  }

  function UpdateOne(t: Parentage, f: RoleField): Parentage {
    if Get(t.implicit, f.role) == f.resolved then t
    else Parentage(t.parents[f.role := Adjusted(Get(t.parents, f.role), Get(t.implicit, f.role), f.resolved)],
                   t.implicit[f.role := f.resolved])
  }

  function UpdateAll(t: Parentage, fields: seq<RoleField>): Parentage {
    if fields == [] then t else UpdateOne(UpdateAll(t, fields[..|fields| - 1]), fields[|fields| - 1])
  }

  /** The roles that gain a parent by definition, and those that lose one. */
  function Gaining(t: Parentage, fields: seq<RoleField>): set<Id> {
    set f | f in fields && f.resolved - Get(t.implicit, f.role) != {} :: f.role
  }

  function Losing(t: Parentage, fields: seq<RoleField>): set<Id> {
    set f | f in fields && Get(t.implicit, f.role) - f.resolved != {} :: f.role
  }

  /** The fields of one class have one role each. */
  ghost predicate OneRoleEach(fields: seq<RoleField>) {
    forall i, j | 0 <= i < j < |fields| :: fields[i].role != fields[j].role
  }

  lemma {:induction false} UpdateLeavesOthers(t: Parentage, fields: seq<RoleField>, r: Id)
    requires forall f <- fields :: f.role != r
    ensures Get(UpdateAll(t, fields).parents, r) == Get(t.parents, r)
    ensures Get(UpdateAll(t, fields).implicit, r) == Get(t.implicit, r)
  {
    if fields != [] {
      assert fields == fields[..|fields| - 1] + [fields[|fields| - 1]];
      UpdateLeavesOthers(t, fields[..|fields| - 1], r);
    }
  }

  /** What one more turn of the loop does, in terms of the state before the loop. */
  lemma OneMoreField(t: Parentage, fields: seq<RoleField>, i: nat)
    requires i < |fields| && OneRoleEach(fields)
    ensures var f := fields[i];
      && UpdateAll(t, fields[..i + 1]) == UpdateOne(UpdateAll(t, fields[..i]), f)
      && Get(UpdateAll(t, fields[..i]).implicit, f.role) == Get(t.implicit, f.role)
      && Gaining(t, fields[..i + 1]) ==
        Gaining(t, fields[..i]) + (if f.resolved - Get(t.implicit, f.role) != {} then {f.role} else {})
      && Losing(t, fields[..i + 1]) ==
        Losing(t, fields[..i]) + (if Get(t.implicit, f.role) - f.resolved != {} then {f.role} else {})
  {
    assert fields[..i + 1][..i] == fields[..i] && fields[..i + 1] == fields[..i] + [fields[i]];
    UpdateLeavesOthers(t, fields[..i], fields[i].role);
  }

  class RoleTable {
    var parents: map<Id, set<Id>>
    var implicit: map<Id, set<Id>>

    function View(): Parentage
      reads this
    {
      Parentage(parents, implicit)
    }

    /** `update_role_parentage_for_instance`, given what `_resolve_parent_roles` gives for each field. */
    method UpdateForInstance(fields: seq<RoleField>) returns (added: set<Id>, removed: set<Id>)
      requires OneRoleEach(fields)
      modifies this
      ensures View() == UpdateAll(old(View()), fields)
      ensures added == Gaining(old(View()), fields) && removed == Losing(old(View()), fields)
    {
      added, removed := {}, {};
      for i := 0 to |fields|
        invariant View() == UpdateAll(old(View()), fields[..i])
        invariant added == Gaining(old(View()), fields[..i]) && removed == Losing(old(View()), fields[..i])
      {
        OneMoreField(old(View()), fields, i);
        var gains, loses := UpdateRole(fields[i]);
        if loses {
          removed := removed + {fields[i].role};
        }
        if gains {
          added := added + {fields[i].role};
        }
      }
      assert fields[..|fields|] == fields;
    }

    method UpdateRole(f: RoleField) returns (gains: bool, loses: bool)
      modifies this
      ensures View() == UpdateOne(old(View()), f)
      ensures gains <==> f.resolved - Get(old(implicit), f.role) != {}
      ensures loses <==> Get(old(implicit), f.role) - f.resolved != {}
    {
      var original := Get(implicit, f.role);
      var removals := original - f.resolved;
      loses := removals != {};
      if loses {
        parents := parents[f.role := Get(parents, f.role) - removals];
      }
      var additions := f.resolved - original;
      gains := additions != {};
      if gains {
        parents := parents[f.role := Get(parents, f.role) + additions];
      }
      if original != f.resolved {
        implicit := implicit[f.role := f.resolved];
        assert Get(parents, f.role) == Adjusted(Get(old(parents), f.role), original, f.resolved);
      }
    }
  }

  // ---------- What an update achieves ----------

  lemma {:induction false} UpdateOfRole(t: Parentage, fields: seq<RoleField>, f: RoleField)
    requires OneRoleEach(fields) && f in fields
    ensures Get(UpdateAll(t, fields).implicit, f.role) == f.resolved
    ensures Get(UpdateAll(t, fields).parents, f.role) ==
      Adjusted(Get(t.parents, f.role), Get(t.implicit, f.role), f.resolved)
  {
    var front, last := fields[..|fields| - 1], fields[|fields| - 1];
    assert fields == front + [last];
    if f == last {
      UpdateLeavesOthers(t, front, f.role);
    } else {
      UpdateOfRole(t, front, f);
    }
  }

  /**
   After an update each role of the instance has stored what its definition resolves to, its parents
   outside the stored and the resolved set are as they were, and its implicit parents are all parents
   iff those it keeps were parents before. Other roles are untouched.
   */
  lemma UpdateIsExact(t: Parentage, fields: seq<RoleField>, f: RoleField)
    requires OneRoleEach(fields) && f in fields
    ensures var before, original := Get(t.parents, f.role), Get(t.implicit, f.role);
      var after := Get(UpdateAll(t, fields).parents, f.role);
      && Get(UpdateAll(t, fields).implicit, f.role) == f.resolved
      && after - (original + f.resolved) == before - (original + f.resolved)
      && (f.resolved <= after <==> original * f.resolved <= before)
      && (original <= before ==> after == before - original + f.resolved)
  {
    UpdateOfRole(t, fields, f);
    var before, original := Get(t.parents, f.role), Get(t.implicit, f.role);
    var after := Adjusted(before, original, f.resolved);
    if f.resolved <= after {
      forall x | x in original * f.resolved
        ensures x in before
      {
        assert x in after;
      }
    }
  }

  /** Updating again, with nothing changed in between, changes nothing and reports nothing. */
  lemma UpdateIsIdempotent(t: Parentage, fields: seq<RoleField>)
    requires OneRoleEach(fields)
    ensures var u := UpdateAll(t, fields); Gaining(u, fields) == {} && Losing(u, fields) == {}
    ensures var u := UpdateAll(t, fields);
      forall r ::
        && Get(UpdateAll(u, fields).parents, r) == Get(u.parents, r)
        && Get(UpdateAll(u, fields).implicit, r) == Get(u.implicit, r)
  {
    var u := UpdateAll(t, fields);
    forall f | f in fields
      ensures Get(u.implicit, f.role) == f.resolved
    {
      UpdateOfRole(t, fields, f);
    }
    forall r
      ensures Get(UpdateAll(u, fields).parents, r) == Get(u.parents, r)
      ensures Get(UpdateAll(u, fields).implicit, r) == Get(u.implicit, r)
    {
      if f :| f in fields && f.role == r {
        UpdateOfRole(u, fields, f);
      } else {
        UpdateLeavesOthers(u, fields, r);
      }
    }
  }
}
