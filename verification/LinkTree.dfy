/** Finite trees inside a graph given by the children of each node. */
module LinkTree {
  type Id = nat
  type Graph = map<Id, set<Id>>

  predicate IsKid(g: Graph, c: Id, p: Id) {
    p in g && c in g[p]
  }

  /** `x` is `id` or at most `n` links below it. */
  ghost predicate Below(g: Graph, n: nat, id: Id, x: Id) {
    x == id || (n > 0 && exists c :: IsKid(g, c, id) && Below(g, n - 1, c, x))
  }

  /** `x` is at or below the child `c` of `id`. */
  ghost predicate Under(g: Graph, n: nat, id: Id, c: Id, x: Id) {
    n > 0 && IsKid(g, c, id) && Below(g, n - 1, c, x)
  }

  /** What is below `id` is a tree of height at most `n`. */
  ghost predicate IsTree(g: Graph, n: nat, id: Id) {
    && id in g
    && (forall c :: IsKid(g, c, id) ==> n > 0 && IsTree(g, n - 1, c))
    && (forall c :: !Under(g, n, id, c, id))
    && (forall c, d, x :: Under(g, n, id, c, x) && Under(g, n, id, d, x) ==> c == d)
  }

  lemma BelowMeans(g: Graph, n: nat, id: Id, x: Id)
    ensures Below(g, n, id, x) <==> x == id || exists c :: Under(g, n, id, c, x)
  {
    if n > 0 && x != id && Below(g, n, id, x) {
      var c :| IsKid(g, c, id) && Below(g, n - 1, c, x);
      assert Under(g, n, id, c, x);
    }
  }

  /** The child of `id` under which `x` is. */
  lemma Branch(g: Graph, n: nat, id: Id, x: Id) returns (k: Id)
    requires IsTree(g, n, id) && Below(g, n, id, x) && x != id
    ensures Under(g, n, id, k, x) && IsTree(g, n - 1, k)
  {
    k :| IsKid(g, k, id) && Below(g, n - 1, k, x);
  }

  lemma {:induction false} KidIsBelow(g: Graph, n: nat, id: Id, x: Id, c: Id)
    requires IsTree(g, n, id) && Below(g, n, id, x) && IsKid(g, c, x)
    ensures Below(g, n, id, c) && exists k :: Under(g, n, id, k, c)
  {
    if x == id {
      assert Under(g, n, id, c, c);
    } else {
      var k := Branch(g, n, id, x);
      KidIsBelow(g, n - 1, k, x, c);
      assert Under(g, n, id, k, c);
    }
  }

  lemma RootIsNoKid(g: Graph, n: nat, id: Id, x: Id)
    requires IsTree(g, n, id) && Below(g, n, id, x)
    ensures !IsKid(g, id, x)
  {
    if IsKid(g, id, x) {
      KidIsBelow(g, n, id, x, id);
    }
  }

  lemma KidOfRootOnly(g: Graph, n: nat, id: Id, y: Id, c: Id)
    requires IsTree(g, n, id) && Below(g, n, id, y) && y != id && IsKid(g, c, y)
    ensures !IsKid(g, c, id)
  {
    var k := Branch(g, n, id, y);
    KidIsBelow(g, n - 1, k, y, c);
    RootIsNoKid(g, n - 1, k, y);
    assert Under(g, n, id, k, c);
    assert IsKid(g, c, id) ==> Under(g, n, id, c, c);
  }

  lemma {:induction false} OneParent(g: Graph, n: nat, id: Id, x: Id, y: Id, c: Id)
    requires IsTree(g, n, id) && Below(g, n, id, x) && Below(g, n, id, y) && IsKid(g, c, x) && IsKid(g, c, y)
    ensures x == y
  {
    if x == id && y != id {
      KidOfRootOnly(g, n, id, y, c);
    } else if y == id && x != id {
      KidOfRootOnly(g, n, id, x, c);
    } else if x != id {
      var k := Branch(g, n, id, x);
      var l := Branch(g, n, id, y);
      KidIsBelow(g, n - 1, k, x, c);
      KidIsBelow(g, n - 1, l, y, c);
      assert Under(g, n, id, k, c) && Under(g, n, id, l, c);
      OneParent(g, n - 1, k, x, y, c);
    }
  }

  lemma {:induction false} HasParent(g: Graph, n: nat, id: Id, c: Id) returns (p: Id)
    requires IsTree(g, n, id) && Below(g, n, id, c) && c != id
    ensures Below(g, n, id, p) && IsKid(g, c, p)
  {
    var k := Branch(g, n, id, c);
    if c == k {
      p := id;
    } else {
      p := HasParent(g, n - 1, k, c);
      assert Under(g, n, id, k, p);
    }
  }

  lemma {:induction false} BelowIsInGraph(g: Graph, n: nat, id: Id, x: Id)
    requires IsTree(g, n, id) && Below(g, n, id, x)
    ensures x in g
  {
    if x != id {
      var k := Branch(g, n, id, x);
      BelowIsInGraph(g, n - 1, k, x);
    }
  }

  ghost predicate SameKids(g: Graph, g': Graph, x: Id) {
    x in g && x in g' && g[x] == g'[x]
  }

  lemma {:induction false} TreeUnchanged(g: Graph, g': Graph, n: nat, id: Id)
    requires IsTree(g, n, id)
    requires forall x :: Below(g, n, id, x) ==> SameKids(g, g', x)
    ensures IsTree(g', n, id) && forall x :: Below(g', n, id, x) <==> Below(g, n, id, x)
  {
    assert Below(g, n, id, id) && SameKids(g, g', id);
    forall c | IsKid(g, c, id)
      ensures IsTree(g', n - 1, c) && forall x :: Under(g', n, id, c, x) <==> Under(g, n, id, c, x)
    {
      assert forall x :: Under(g, n, id, c, x) ==> Below(g, n, id, x);
      assert forall x :: Below(g, n - 1, c, x) ==> Under(g, n, id, c, x);
      TreeUnchanged(g, g', n - 1, c);
    }
    assert forall c :: IsKid(g, c, id) <==> IsKid(g', c, id);
    assert forall c, x :: Under(g', n, id, c, x) <==> Under(g, n, id, c, x);
    forall x
      ensures Below(g', n, id, x) <==> Below(g, n, id, x)
    {
      BelowMeans(g, n, id, x);
      BelowMeans(g', n, id, x);
    }
  }

  /** If the nodes under a child keep their children, what is below it is the same tree as before. */
  lemma SubtreeUnchanged(g: Graph, g': Graph, n: nat, id: Id, c: Id)
    requires IsTree(g, n, id) && IsKid(g, c, id)
    requires forall x :: Under(g, n, id, c, x) ==> SameKids(g, g', x)
    ensures n > 0 && IsTree(g', n - 1, c)
    ensures forall x :: Below(g', n - 1, c, x) <==> Under(g, n, id, c, x)
  {
    assert forall x :: Below(g, n - 1, c, x) ==> Under(g, n, id, c, x);
    TreeUnchanged(g, g', n - 1, c);
  }
}
