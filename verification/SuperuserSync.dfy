/**
 The superuser flag of a user and the membership of the System Administrator role, kept equal by
 two signal handlers that trigger each other: one runs after a user is saved, the other after the
 relation between users and roles changes.
 */
module SuperuserSync {
  type User = nat
  type Role = string

  const SYSTEM_ADMINISTRATOR: Role := "system_administrator"

  /** `flags`: the stored `is_superuser` of every user; `held`: the rows of the relation. */
  datatype Tables = Tables(flags: map<User, bool>, held: set<(User, Role)>)

  ghost predicate WellFormed(t: Tables) {
    forall p <- t.held :: p.0 in t.flags
  }

  ghost predicate AgreesOn(t: Tables, u: User) {
    u in t.flags ==> (t.flags[u] <==> (u, SYSTEM_ADMINISTRATOR) in t.held)
  }

  ghost predicate Agrees(t: Tables) {
    WellFormed(t) && forall u :: AgreesOn(t, u)
  }

  // ---------- What each operation does to the tables ----------

  function SetFlags(flags: map<User, bool>, users: set<User>, value: bool): map<User, bool> {
    map u | u in flags :: if u in users then value else flags[u]
  }

  function Link(held: set<(User, Role)>, u: User, r: Role, on: bool): set<(User, Role)> {
    if on then held + {(u, r)} else held - {(u, r)}
  }

  /** A save that writes the flag: the object's value reaches both tables. */
  function Saved(t: Tables, u: User, flag: bool): Tables {
    Tables(t.flags[u := flag], Link(t.held, u, SYSTEM_ADMINISTRATOR, flag))
  }

  /** `role.members.add(*users)`: only users not yet members are reported to the handler. */
  function MembersAdded(t: Tables, r: Role, users: set<User>): Tables {
    var missing := set u | u in users && (u, r) !in t.held;
    Tables(if r == SYSTEM_ADMINISTRATOR then SetFlags(t.flags, missing, true) else t.flags,
           t.held + set u | u in users :: (u, r))
  }

  /** `role.members.remove(*users)`: all the users given are reported. */
  function MembersRemoved(t: Tables, r: Role, users: set<User>): Tables {
    Tables(if r == SYSTEM_ADMINISTRATOR then SetFlags(t.flags, users, false) else t.flags,
           t.held - set u | u in users :: (u, r))
  }

  function MembersCleared(t: Tables, r: Role): Tables {
    Tables(if r == SYSTEM_ADMINISTRATOR then SetFlags(t.flags, t.flags.Keys, false) else t.flags,
           set p | p in t.held && p.1 != r)
  }

  function RolesAdded(t: Tables, u: User, roles: set<Role>): Tables {
    var t1 := t.(held := t.held + set r | r in roles :: (u, r));
    if SYSTEM_ADMINISTRATOR in roles && (u, SYSTEM_ADMINISTRATOR) !in t.held then Saved(t1, u, true) else t1
  }

  function RolesRemoved(t: Tables, u: User, roles: set<Role>): Tables {
    var t1 := t.(held := t.held - set r | r in roles :: (u, r));
    if SYSTEM_ADMINISTRATOR in roles then Saved(t1, u, false) else t1
  }

  function RolesCleared(t: Tables, u: User): Tables {
    Saved(t.(held := set p | p in t.held && p.0 != u), u, false)
  }

  // ---------- The objects ----------

  /** A user object in memory; its flag may be older or newer than the stored one. */
  class UserObject {
    const pk: User
    var isSuperuser: bool

    constructor (pk: User, isSuperuser: bool)
      ensures this.pk == pk && this.isSuperuser == isSuperuser
    {
      this.pk, this.isSuperuser := pk, isSuperuser;
    }
  }

  datatype Action = PostAdd | PostRemove | PostClear

  /** Who made the change, and the set of primary keys reported with it (none for a clear). */
  datatype Side = FromRole(role: Role, users: set<User>) | FromUser(user: UserObject, roles: set<Role>)

  predicate Concerns(side: Side, action: Action) {
    side.FromUser? && (action.PostClear? || SYSTEM_ADMINISTRATOR in side.roles)
  }

  function NewFlags(flags: map<User, bool>, side: Side, action: Action): map<User, bool>
    requires side.FromRole?
  {
    if side.role != SYSTEM_ADMINISTRATOR then flags
    else if side.users != {} then SetFlags(flags, side.users, action.PostAdd?)
    else if action.PostClear? then SetFlags(flags, flags.Keys, false)
    else flags
  }

  class Database {
    var flags: map<User, bool>
    var held: set<(User, Role)>

    function View(): Tables
      reads this
    {
      Tables(flags, held)
    }

    // The handler of the relation and the handler of the save call each other through the operations.
    // The measure counts what is left of the longest chain:
    // user's side of the relation, save, handler of the save, role's side of the relation, its handler.

    /** `sync_rbac_to_superuser_status`. */
    method OnRelationChanged(side: Side, action: Action)
      requires side.FromUser? ==> side.user.pk in flags
      modifies this, if side.FromUser? then {side.user} else {}
      ensures side.FromUser? ==>
        && View() == (if Concerns(side, action) then Saved(old(View()), side.user.pk, action.PostAdd?) else old(View()))
        && (Concerns(side, action) ==> side.user.isSuperuser == action.PostAdd?)
      ensures side.FromRole? ==> View() == old(View()).(flags := NewFlags(old(flags), side, action))
      decreases if side.FromUser? then 4 else 0
    {
      match side {
        case FromRole(role, users) =>
          if role == SYSTEM_ADMINISTRATOR {
            if users != {} {
              flags := SetFlags(flags, users, action.PostAdd?);
            } else if action.PostClear? {
              flags := SetFlags(flags, flags.Keys, false);
            }
          }
        case FromUser(user, roles) =>
          if action.PostClear? {
            user.isSuperuser := false;
            Save(user, true);
          } else if SYSTEM_ADMINISTRATOR in roles {
            user.isSuperuser := action.PostAdd?;
            Save(user, true);
          }
      }
    }

    method AddMembers(role: Role, users: set<User>)
      modifies this
      ensures View() == MembersAdded(old(View()), role, users)
      decreases 1
    {
      var missing := set u | u in users && (u, role) !in held;
      held := held + set u | u in users :: (u, role);
      OnRelationChanged(FromRole(role, missing), PostAdd);
      assert SetFlags(old(flags), {}, true) == old(flags);
    }

    method RemoveMembers(role: Role, users: set<User>)
      modifies this
      ensures View() == MembersRemoved(old(View()), role, users)
      decreases 1
    {
      held := held - set u | u in users :: (u, role);
      OnRelationChanged(FromRole(role, users), PostRemove);
      assert SetFlags(old(flags), {}, false) == old(flags);
    }

    method ClearMembers(role: Role)
      modifies this
      ensures View() == MembersCleared(old(View()), role)
    {
      held := set p | p in held && p.1 != role;
      OnRelationChanged(FromRole(role, {}), PostClear);
    }

    /** `user.save(...)`; `writesFlag` is false when `update_fields` leaves `is_superuser` out. */
    method Save(user: UserObject, writesFlag: bool)
      requires user.pk in flags
      modifies this
      ensures View() == if writesFlag then Saved(old(View()), user.pk, user.isSuperuser) else old(View())
      decreases 3
    {
      if writesFlag {
        flags := flags[user.pk := user.isSuperuser];
        OnUserSaved(user);
      }
    }

    /** `sync_superuser_status_to_rbac`, after a save that wrote the flag. */
    method OnUserSaved(user: UserObject)
      requires user.pk in flags && flags[user.pk] == user.isSuperuser
      modifies this
      ensures View() == Saved(old(View()), user.pk, user.isSuperuser)
      decreases 2
    {
      if user.isSuperuser {
        AddMembers(SYSTEM_ADMINISTRATOR, {user.pk});
      } else {
        RemoveMembers(SYSTEM_ADMINISTRATOR, {user.pk});
      }
      assert (set u | u in {user.pk} :: (u, SYSTEM_ADMINISTRATOR)) == {(user.pk, SYSTEM_ADMINISTRATOR)};
      assert flags == old(flags)[user.pk := user.isSuperuser];
    }

    method AddRoles(user: UserObject, roles: set<Role>)
      requires user.pk in flags
      modifies this, user
      ensures View() == RolesAdded(old(View()), user.pk, roles)
    {
      var missing := set r | r in roles && (user.pk, r) !in held;
      held := held + set r | r in roles :: (user.pk, r);
      OnRelationChanged(FromUser(user, missing), PostAdd);
    }

    method RemoveRoles(user: UserObject, roles: set<Role>)
      requires user.pk in flags
      modifies this, user
      ensures View() == RolesRemoved(old(View()), user.pk, roles)
    {
      held := held - set r | r in roles :: (user.pk, r);
      OnRelationChanged(FromUser(user, roles), PostRemove);
    }

    method ClearRoles(user: UserObject)
      requires user.pk in flags
      modifies this, user
      ensures View() == RolesCleared(old(View()), user.pk)
    {
      held := set p | p in held && p.0 != user.pk;
      OnRelationChanged(FromUser(user, {}), PostClear);
    }
  }

  // ---------- Agreement ----------

  datatype Op =
    | Create(user: User, flag: bool)
    | Store(user: User, flag: bool, writesFlag: bool)
    | AddTo(role: Role, users: set<User>)
    | RemoveFrom(role: Role, users: set<User>)
    | ClearRole(role: Role)
    | Grant(user: User, roles: set<Role>)
    | Revoke(user: User, roles: set<Role>)
    | RevokeAll(user: User)

  predicate Possible(t: Tables, op: Op) {
    match op
    case Create(u, _) => u !in t.flags
    case AddTo(_, us) => us <= t.flags.Keys
    case RemoveFrom(_, us) => us <= t.flags.Keys
    case ClearRole(_) => true
    case _ => op.user in t.flags
  }

  function Apply(t: Tables, op: Op): Tables {
    match op
    case Create(u, flag) => Saved(t, u, flag)
    case Store(u, flag, writesFlag) => if writesFlag then Saved(t, u, flag) else t
    case AddTo(r, us) => MembersAdded(t, r, us)
    case RemoveFrom(r, us) => MembersRemoved(t, r, us)
    case ClearRole(r) => MembersCleared(t, r)
    case Grant(u, rs) => RolesAdded(t, u, rs)
    case Revoke(u, rs) => RolesRemoved(t, u, rs)
    case RevokeAll(u) => RolesCleared(t, u)
  }

  ghost predicate IsRun(t: Tables, ops: seq<Op>)
    decreases |ops|
  {
    ops == [] || (Possible(t, ops[0]) && IsRun(Apply(t, ops[0]), ops[1..]))
  }

  ghost function After(t: Tables, ops: seq<Op>): Tables
    requires IsRun(t, ops)
    decreases |ops|
  {
    if ops == [] then t else After(Apply(t, ops[0]), ops[1..])
  }

  lemma OpKeepsAgreement(t: Tables, op: Op)
    requires Agrees(t) && Possible(t, op)
    ensures Agrees(Apply(t, op))
  {
    var t' := Apply(t, op);
    forall u
      ensures AgreesOn(t', u)
    {
      assert AgreesOn(t, u);
    }
  }

  /**
   Over every run from either side, with user objects as stale as may be: the flag is set exactly
   for the members of the System Administrator role.
   */
  lemma {:induction false} AgreementOverRuns(t: Tables, ops: seq<Op>)
    requires Agrees(t) && IsRun(t, ops)
    ensures Agrees(After(t, ops))
    decreases |ops|
  {
    if ops != [] {
      OpKeepsAgreement(t, ops[0]);
      AgreementOverRuns(Apply(t, ops[0]), ops[1..]);
    }
  }

  /**
   What each operation does to the relation and to the flags, besides keeping the two in step: the memberships
   asked for come and go, of the role and the users named, and no flag of another user changes; the role of
   an administrator follows a saved flag.
   */
  lemma OpDoesWhatItSays(t: Tables, op: Op, u: User, r: Role)
    requires Agrees(t) && Possible(t, op)
    ensures var held, held' := (u, r) in t.held, (u, r) in Apply(t, op).held;
      match op
      case Create(v, flag) => held' == if u == v && r == SYSTEM_ADMINISTRATOR then flag else held
      case Store(v, flag, writes) => held' == if writes && u == v && r == SYSTEM_ADMINISTRATOR then flag else held
      case AddTo(role, users) => held' == (held || (r == role && u in users))
      case RemoveFrom(role, users) => held' == (held && !(r == role && u in users))
      case ClearRole(role) => held' == (held && r != role)
      case Grant(v, roles) => held' == (held || (u == v && r in roles))
      case Revoke(v, roles) => held' == (held && !(u == v && r in roles))
      case RevokeAll(v) => held' == (held && u != v)
    ensures u in t.flags ==> u in Apply(t, op).flags
    ensures u in t.flags && ((u, SYSTEM_ADMINISTRATOR) in t.held <==> (u, SYSTEM_ADMINISTRATOR) in Apply(t, op).held)
      ==> Apply(t, op).flags[u] == t.flags[u]
  {
    OpKeepsAgreement(t, op);
    assert AgreesOn(t, u) && AgreesOn(Apply(t, op), u);
  }

  /**
   Which operations repair a disagreement. A save that writes the flag does, whatever the flag. Adding the role
   reports only who lacked it, so a member whose flag is off stays so, from either side; removing it repairs in
   every case.
   */
  lemma WhichOperationsRepair(t: Tables, u: User)
    requires u in t.flags
    ensures forall flag :: AgreesOn(Saved(t, u, flag), u)
    ensures AgreesOn(MembersAdded(t, SYSTEM_ADMINISTRATOR, {u}), u) <==>
      t.flags[u] || (u, SYSTEM_ADMINISTRATOR) !in t.held
    ensures AgreesOn(RolesAdded(t, u, {SYSTEM_ADMINISTRATOR}), u) <==>
      t.flags[u] || (u, SYSTEM_ADMINISTRATOR) !in t.held
    ensures AgreesOn(MembersRemoved(t, SYSTEM_ADMINISTRATOR, {u}), u)
    ensures AgreesOn(RolesRemoved(t, u, {SYSTEM_ADMINISTRATOR}), u)
    ensures AgreesOn(RolesCleared(t, u), u) && AgreesOn(MembersCleared(t, SYSTEM_ADMINISTRATOR), u)
  {
    assert (u, SYSTEM_ADMINISTRATOR) in MembersAdded(t, SYSTEM_ADMINISTRATOR, {u}).held;
    assert (u, SYSTEM_ADMINISTRATOR) in RolesAdded(t, u, {SYSTEM_ADMINISTRATOR}).held;
  }
}
