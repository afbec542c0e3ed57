/**
 Deleting an inventory group through the migrating signal handlers: before the row goes, its parents,
 hosts and children are remembered; afterwards the hosts and children are added to each parent.
 */
module GroupDeletion {
  import opened Wrappers

  type Group = nat
  type Host = nat

  /** The groups of an inventory, the child links between them, and the hosts each group lists. */
  datatype Inventory = Inventory(groups: set<Group>, children: map<Group, set<Group>>, hosts: map<Group, set<Host>>)

  predicate Valid(inv: Inventory) {
    && inv.children.Keys == inv.groups && inv.hosts.Keys == inv.groups
    && forall g <- inv.groups :: inv.children[g] <= inv.groups
  }

  function Parents(inv: Inventory, g: Group): set<Group>
    requires Valid(inv)
  {
    set p | p in inv.groups && g in inv.children[p]
  }

  /** The row and every link to it disappear with the group. */
  function RowDeleted(inv: Inventory, g: Group): Inventory
    requires Valid(inv)
  {
    Inventory(inv.groups - {g},
              map p | p in inv.groups - {g} :: inv.children[p] - {g},
              inv.hosts - {g})
  }

  function Migrated(inv: Inventory, parents: set<Group>, hosts: set<Host>, children: set<Group>): Inventory
    requires Valid(inv)
  {
    inv.(children := map p | p in inv.groups :: if p in parents then inv.children[p] + children else inv.children[p],
         hosts := map p | p in inv.groups :: if p in parents then inv.hosts[p] + hosts else inv.hosts[p])
  }

  /** A group that is its own child would be added to its surviving parents after it is gone. */
  predicate LeavesDanglingLink(inv: Inventory, g: Group)
    requires Valid(inv) && g in inv.groups
  {
    g in inv.children[g] && Parents(inv, g) - {g} != {}
  }

  function Delete(inv: Inventory, g: Group): Inventory
    requires Valid(inv) && g in inv.groups
  {
    Migrated(RowDeleted(inv, g), Parents(inv, g), inv.hosts[g], inv.children[g])
  }

  // ---------- The object and its handlers ----------

  lemma MigratedOneMore(inv: Inventory, done: set<Group>, p: Group, hosts: set<Host>, children: set<Group>)
    requires Valid(inv) && Valid(Migrated(inv, done, hosts, children))
    ensures Migrated(Migrated(inv, done, hosts, children), {p}, hosts, children) ==
      Migrated(inv, done + {p}, hosts, children)
  {
  }

  lemma MigratedSurvivors(inv: Inventory, done: set<Group>, parents: set<Group>, hosts: set<Host>, children: set<Group>)
    requires Valid(inv) && forall p :: p in done <==> p in parents && p in inv.groups
    ensures Migrated(inv, done, hosts, children) == Migrated(inv, parents, hosts, children)
  {
  }

  class InventoryStore {
    var groups: set<Group>
    var children: map<Group, set<Group>>
    var hosts: map<Group, set<Host>>
    var savedParents: set<Group>
    var savedHosts: set<Host>
    var savedChildren: set<Group>

    function View(): Inventory
      reads this
    {
      Inventory(groups, children, hosts)
    }

    /** The `pre_delete` handler. */
    method SaveRelated(g: Group)
      requires Valid(View()) && g in groups
      modifies this
      ensures View() == old(View())
      ensures savedParents == Parents(View(), g) && savedHosts == hosts[g] && savedChildren == children[g]
    {
      savedParents := set p | p in groups && g in children[p];
      savedHosts := hosts[g];
      savedChildren := children[g];
    }

    /** `parent.hosts.add(...)` and `parent.children.add(...)`; a child that is gone violates a foreign key. */
    method AddTo(parent: Group) returns (ok: bool)
      requires Valid(View()) && parent in groups
      modifies this
      ensures groups == old(groups)
      ensures savedParents == old(savedParents) && savedHosts == old(savedHosts) && savedChildren == old(savedChildren)
      ensures ok <==> savedChildren <= groups
      ensures ok ==> Valid(View()) && View() == Migrated(old(View()), {parent}, savedHosts, savedChildren)
    {
      hosts := hosts[parent := hosts[parent] + savedHosts];
      ok := savedChildren <= groups;
      if ok {
        children := children[parent := children[parent] + savedChildren];
      }
    }

    /** The `post_delete` handler. */
    method MigrateChildren() returns (ok: bool)
      requires Valid(View())
      modifies this
      ensures ok <==> old(savedChildren) <= old(groups) || old(savedParents) * old(groups) == {}
      ensures ok ==> View() == Migrated(old(View()), old(savedParents), old(savedHosts), old(savedChildren))
    {
      ghost var before := View();
      var parents := SetToSeq(savedParents * groups);
      ghost var done: set<Group> := {};
      for i := 0 to |parents|
        invariant savedParents == old(savedParents) && savedHosts == old(savedHosts)
        invariant savedChildren == old(savedChildren)
        invariant forall p :: p in done <==> p in parents[..i]
        invariant i > 0 ==> savedChildren <= groups
        invariant Valid(View()) && View() == Migrated(before, done, savedHosts, savedChildren)
      {
        assert parents[i] in parents && parents[..i + 1] == parents[..i] + [parents[i]];
        var added := AddTo(parents[i]);
        if !added {
          return false;
        }
        MigratedOneMore(before, done, parents[i], savedHosts, savedChildren);
        done := done + {parents[i]};
      }
      assert parents[..|parents|] == parents;
      MigratedSurvivors(before, done, savedParents, savedHosts, savedChildren);
      if |parents| == 0 {
        assert forall p :: p !in savedParents * before.groups;
      } else {
        assert parents[0] in parents;
      }
      return true;
    }

    /** Deletion in a transaction: a violated constraint undoes it. */
    method DeleteGroup(g: Group) returns (ok: bool)
      requires Valid(View()) && g in groups
      modifies this
      ensures ok <==> !LeavesDanglingLink(old(View()), g)
      ensures View() == if ok then Delete(old(View()), g) else old(View())
    {
      var before := (groups, children, hosts);
      SaveRelated(g);
      groups, children, hosts :=
        groups - {g}, map p | p in groups - {g} :: children[p] - {g}, hosts - {g};
      assert View() == RowDeleted(old(View()), g);
      assert savedParents * groups == Parents(old(View()), g) - {g};
      ok := MigrateChildren();
      if !ok {
        groups, children, hosts := before.0, before.1, before.2;
      }
    }
  }

  // ---------- Reachability ----------

  /** `y` is `n` child links below `x`. */
  ghost predicate Below(inv: Inventory, n: nat, x: Group, y: Group)
    requires Valid(inv)
  {
    if n == 0 then x == y
    else x in inv.groups && exists z :: z in inv.children[x] && Below(inv, n - 1, z, y)
  }

  ghost predicate Descends(inv: Inventory, x: Group, y: Group)
    requires Valid(inv)
  {
    exists n: nat :: n > 0 && Below(inv, n, x, y)
  }

  ghost predicate ReachesHost(inv: Inventory, x: Group, h: Host)
    requires Valid(inv)
  {
    exists y :: y in inv.groups && (y == x || Descends(inv, x, y)) && h in inv.hosts[y]
  }

  ghost predicate Acyclic(inv: Inventory)
    requires Valid(inv)
  {
    forall x :: !Descends(inv, x, x)
  }

  lemma DeleteIsValid(inv: Inventory, g: Group)
    requires Valid(inv) && g in inv.groups && !LeavesDanglingLink(inv, g)
    ensures Valid(Delete(inv, g))
  {
    var d := Delete(inv, g);
    forall p <- d.groups
      ensures d.children[p] <= d.groups
    {
      assert p in Parents(inv, g) ==> p in Parents(inv, g) - {g};
    }
  }

  /** One link of the new graph is one link of the old one, or two through the deleted group. */
  lemma NewLinks(inv: Inventory, g: Group, x: Group, z: Group)
    requires Valid(inv) && g in inv.groups && !LeavesDanglingLink(inv, g) && Valid(Delete(inv, g))
    requires x in inv.groups && x != g
    ensures z in Delete(inv, g).children[x] <==>
      z != g && (z in inv.children[x] || (g in inv.children[x] && z in inv.children[g]))
  {
    assert x in Parents(inv, g) <==> g in inv.children[x];
    assert x in Parents(inv, g) ==> x in Parents(inv, g) - {g};
  }

  lemma {:induction false} BelowFromNew(inv: Inventory, g: Group, n: nat, x: Group, y: Group) returns (m: nat)
    requires Valid(inv) && g in inv.groups && !LeavesDanglingLink(inv, g) && Valid(Delete(inv, g))
    requires Below(Delete(inv, g), n, x, y)
    ensures Below(inv, m, x, y) && m >= n
  {
    if n == 0 {
      m := 0;
    } else {
      var z :| z in Delete(inv, g).children[x] && Below(Delete(inv, g), n - 1, z, y);
      NewLinks(inv, g, x, z);
      var k := BelowFromNew(inv, g, n - 1, z, y);
      if z in inv.children[x] {
        m := k + 1;
      } else {
        assert Below(inv, k + 1, g, y);
        m := k + 2;
      }
    }
  }

  lemma {:induction false} BelowInNew(inv: Inventory, g: Group, n: nat, x: Group, y: Group) returns (m: nat)
    requires Valid(inv) && g in inv.groups && !LeavesDanglingLink(inv, g) && Valid(Delete(inv, g))
    requires Below(inv, n, x, y) && x != g && y != g
    ensures Below(Delete(inv, g), m, x, y) && (n > 0 ==> m > 0)
    decreases n
  {
    if n == 0 {
      m := 0;
    } else {
      var z :| z in inv.children[x] && Below(inv, n - 1, z, y);
      if z != g {
        NewLinks(inv, g, x, z);
        var k := BelowInNew(inv, g, n - 1, z, y);
        m := k + 1;
      } else {
        var w :| w in inv.children[g] && Below(inv, n - 2, w, y);
        assert x in Parents(inv, g) - {g};
        NewLinks(inv, g, x, w);
        var k := BelowInNew(inv, g, n - 2, w, y);
        m := k + 1;
      }
    }
  }

  /** Between surviving groups, deleting a group changes nothing about who descends from whom. */
  lemma DescentPreserved(inv: Inventory, g: Group, x: Group, y: Group)
    requires Valid(inv) && g in inv.groups && !LeavesDanglingLink(inv, g) && x != g && y != g
    ensures Valid(Delete(inv, g))
    ensures Descends(Delete(inv, g), x, y) <==> Descends(inv, x, y)
  {
    DeleteIsValid(inv, g);
    if n: nat :| n > 0 && Below(Delete(inv, g), n, x, y) {
      var m := BelowFromNew(inv, g, n, x, y);
    }
    if n: nat :| n > 0 && Below(inv, n, x, y) {
      var m := BelowInNew(inv, g, n, x, y);
    }
  }

  lemma HostsAfterDelete(inv: Inventory, g: Group, x: Group)
    requires Valid(inv) && g in inv.groups && x in inv.groups - {g}
    ensures Delete(inv, g).hosts[x] == inv.hosts[x] + (if g in inv.children[x] then inv.hosts[g] else {})
  {
  }

  /** A surviving parent of the deleted group on the way from `x`: the one that takes its hosts. */
  lemma {:induction false} ParentOnTheWay(inv: Inventory, n: nat, x: Group, g: Group) returns (p: Group)
    requires Valid(inv) && g in inv.groups && Below(inv, n, x, g) && n > 0 && x != g
    ensures p in inv.groups - {g} && g in inv.children[p] && (p == x || Descends(inv, x, p))
    decreases n
  {
    var z :| z in inv.children[x] && Below(inv, n - 1, z, g);
    if z == g {
      p := x;
    } else {
      p := ParentOnTheWay(inv, n - 1, z, g);
      if p == z {
        assert Below(inv, 0, z, z) && Below(inv, 1, x, z);
      } else {
        var k: nat :| k > 0 && Below(inv, k, z, p);
        assert Below(inv, k + 1, x, p);
      }
    }
  }

  lemma {:induction false} BelowSnoc(inv: Inventory, n: nat, x: Group, y: Group, z: Group)
    requires Valid(inv) && Below(inv, n, x, y) && y in inv.groups && z in inv.children[y]
    ensures Below(inv, n + 1, x, z)
  {
    if n == 0 {
      assert Below(inv, 0, z, z);
    } else {
      var w :| w in inv.children[x] && Below(inv, n - 1, w, y);
      BelowSnoc(inv, n - 1, w, y, z);
    }
  }

  lemma DescendsThrough(inv: Inventory, x: Group, y: Group, z: Group)
    requires Valid(inv) && Descends(inv, x, y) && z in inv.groups && y in inv.groups && z in inv.children[y]
    ensures Descends(inv, x, z)
  {
    var n: nat :| n > 0 && Below(inv, n, x, y);
    BelowSnoc(inv, n, x, y, z);
  }

  /** A surviving group reaches exactly the hosts it reached before. */
  lemma HostsPreserved(inv: Inventory, g: Group, x: Group, h: Host)
    requires Valid(inv) && g in inv.groups && !LeavesDanglingLink(inv, g) && x in inv.groups - {g}
    ensures Valid(Delete(inv, g))
    ensures ReachesHost(Delete(inv, g), x, h) <==> ReachesHost(inv, x, h)
  {
    var d := Delete(inv, g);
    DeleteIsValid(inv, g);
    if ReachesHost(d, x, h) {
      var y :| y in d.groups && (y == x || Descends(d, x, y)) && h in d.hosts[y];
      DescentPreserved(inv, g, x, y);
      HostsAfterDelete(inv, g, y);
      if h !in inv.hosts[y] {
        assert Below(inv, 0, g, g) && Below(inv, 1, y, g);
        if y != x {
          DescendsThrough(inv, x, y, g);
        }
        assert Descends(inv, x, g) && h in inv.hosts[g];
      }
    }
    if ReachesHost(inv, x, h) {
      var y :| y in inv.groups && (y == x || Descends(inv, x, y)) && h in inv.hosts[y];
      var p := y;
      if y == g {
        var n: nat :| n > 0 && Below(inv, n, x, g);
        p := ParentOnTheWay(inv, n, x, g);
      }
      DescentPreserved(inv, g, x, p);
      HostsAfterDelete(inv, g, p);
      assert p in d.groups && (p == x || Descends(d, x, p)) && h in d.hosts[p];
    }
  }

  lemma AcyclicHasNoSelfLink(inv: Inventory, g: Group)
    requires Valid(inv) && Acyclic(inv) && g in inv.groups
    ensures g !in inv.children[g] && !LeavesDanglingLink(inv, g)
  {
    if g in inv.children[g] {
      assert Below(inv, 0, g, g) && Below(inv, 1, g, g);
      assert Descends(inv, g, g);
    }
  }

  // ---------- Any number of deletions ----------

  function DeleteAll(inv: Inventory, gs: seq<Group>): Option<Inventory>
    decreases |gs|
  {
    if gs == [] then Some(inv)
    else if !Valid(inv) || gs[0] !in inv.groups || LeavesDanglingLink(inv, gs[0]) then None
    else DeleteAll(Delete(inv, gs[0]), gs[1..])
  }

  lemma DeleteKeepsAcyclic(inv: Inventory, g: Group)
    requires Valid(inv) && Acyclic(inv) && g in inv.groups
    ensures Valid(Delete(inv, g)) && Acyclic(Delete(inv, g))
  {
    AcyclicHasNoSelfLink(inv, g);
    DeleteIsValid(inv, g);
    var d := Delete(inv, g);
    forall x
      ensures !Descends(d, x, x)
    {
      if x != g {
        DescentPreserved(inv, g, x, x);
      } else if n: nat :| n > 0 && Below(d, n, g, g) {
        assert false;
      }
    }
  }

  /**
   Deleting groups one after the other, in any order and in any graph, cycles and self-links included: if no
   deletion fails, every surviving group keeps exactly the hosts it reached and its surviving descendants.
   */
  lemma {:induction false} DeletionsPreserveReachability(inv: Inventory, gs: seq<Group>, x: Group, y: Group, h: Host)
    requires Valid(inv) && DeleteAll(inv, gs).Some?
    requires x in inv.groups && x !in gs && y !in gs
    ensures var d := DeleteAll(inv, gs).value;
      && Valid(d) && d.groups == inv.groups - (set g | g in gs)
      && (Descends(d, x, y) <==> Descends(inv, x, y))
      && (ReachesHost(d, x, h) <==> ReachesHost(inv, x, h))
    decreases |gs|
  {
    if gs != [] {
      var g, rest := gs[0], gs[1..];
      assert g in gs && gs == [g] + rest;
      DescentPreserved(inv, g, x, y);
      HostsPreserved(inv, g, x, h);
      DeletionsPreserveReachability(Delete(inv, g), rest, x, y, h);
    }
  }

  /** In an acyclic inventory no deletion ever fails, and the graph stays acyclic. */
  lemma {:induction false} DeletionsKeepAcyclic(inv: Inventory, gs: seq<Group>)
    requires Valid(inv) && Acyclic(inv)
    requires (forall g <- gs :: g in inv.groups) && forall i, j | 0 <= i < j < |gs| :: gs[i] != gs[j]
    ensures DeleteAll(inv, gs).Some? && Valid(DeleteAll(inv, gs).value) && Acyclic(DeleteAll(inv, gs).value)
    decreases |gs|
  {
    if gs != [] {
      assert gs[0] in gs && forall g <- gs[1..] :: g in gs;
      AcyclicHasNoSelfLink(inv, gs[0]);
      DeleteKeepsAcyclic(inv, gs[0]);
      DeletionsKeepAcyclic(Delete(inv, gs[0]), gs[1..]);
    }
  }
}
