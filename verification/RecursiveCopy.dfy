/**
 `CopyAPIView.copy_model_obj` below the top object: an object and everything under it along the
 preserved one-to-many links is copied, while the same tables are being queried and extended.
 */
module RecursiveCopy {
  import opened Wrappers
  import opened LinkTree

  type Field = string
  type Model = string
  type Value = string

  /** `links`: the foreign keys; `data`: the plain fields. */
  datatype Row = Row(model: Model, links: map<Field, Option<Id>>, data: map<Field, Value>)

  type Db = map<Id, Row>

  /** A one-to-many accessor: the rows of `model` whose foreign key `fk` is the object. */
  datatype Reverse = Reverse(name: Field, model: Model, fk: Field)

  datatype Schema = Schema(
    preserve: Model -> set<Field>,
    discard: Model -> set<Field>,
    reverses: Model -> seq<Reverse>,
    decrypt: (Model, Field, Value) -> Value,
    creator: Id)

  const CREATED_BY: Field := "created_by"
  const ALWAYS_BLOCKED: set<Field> :=
    {"id", "pk", "polymorphic_ctype", "unifiedjobtemplate_ptr", CREATED_BY, "modified_by"}

  predicate IsRoleField(f: Field) {
    |f| >= 5 && f[|f| - 5..] == "_role"
  }

  predicate Blocked(s: Schema, m: Model, f: Field) {
    f in s.discard(m) || f in ALWAYS_BLOCKED || IsRoleField(f)
  }

  // ---------- The links that are followed ----------

  function Kept(s: Schema, m: Model, rs: seq<Reverse>): seq<Reverse> {
    if rs == [] then []
    else
      var r := rs[|rs| - 1];
      Kept(s, m, rs[..|rs| - 1]) + (if r.name in s.preserve(m) && !Blocked(s, m, r.name) then [r] else [])
  }

  function Preserved(s: Schema, m: Model): seq<Reverse> {
    Kept(s, m, s.reverses(m))
  }

  predicate Refers(db: Db, c: Id, r: Reverse, p: Id) {
    c in db && db[c].model == r.model && r.fk in db[c].links && db[c].links[r.fk] == Some(p)
  }

  function Children(db: Db, r: Reverse, p: Id): set<Id> {
    set c | c in db && Refers(db, c, r, p)
  }

  /** `c` is found from `p` through some accessor that is preserved. */
  ghost predicate Follows(s: Schema, db: Db, c: Id, p: Id) {
    p in db && exists r :: r in Preserved(s, db[p].model) && Refers(db, c, r, p)
  }

  ghost function Links(s: Schema, db: Db): Graph {
    map p | p in db :: set c | c in db && Follows(s, db, c, p)
  }

  /** No object is found from `x` through two accessors. */
  ghost predicate OneLink(s: Schema, db: Db, x: Id) {
    x in db && forall i, j, c | 0 <= i < j < |Preserved(s, db[x].model)| ::
      !(Refers(db, c, Preserved(s, db[x].model)[i], x) && Refers(db, c, Preserved(s, db[x].model)[j], x))
  }

  // ---------- One row ----------

  function CopiedLink(s: Schema, row: Row, f: Field, oldParent: Id, newParent: Id): Option<Id>
    requires f in row.links
  {
    var v := row.links[f];
    if f == CREATED_BY then Some(s.creator)
    else if Blocked(s, row.model, f) || v.None? then None
    else if v == Some(oldParent) then Some(newParent)
    else if f in s.preserve(row.model) then v
    else None
  }

  function CopiedRow(s: Schema, row: Row, oldParent: Id, newParent: Id): Row {
    Row(row.model,
        map f | f in row.links :: CopiedLink(s, row, f, oldParent, newParent),
        map f | f in row.data && !Blocked(s, row.model, f) && f in s.preserve(row.model) ::
          s.decrypt(row.model, f, row.data[f]))
  }

  // ---------- A copy, finished or not ----------

  ghost predicate Extends(db: Db, db': Db) {
    db.Keys <= db'.Keys && forall x <- db :: db'[x] == db[x]
  }

  ghost predicate Injective(m: map<Id, Id>) {
    forall x, y | x in m && y in m && m[x] == m[y] :: x == y
  }

  /** `db` is `db0` with one new row for each key of `m`. */
  ghost predicate Grown(db0: Db, db: Db, m: map<Id, Id>) {
    Extends(db0, db) && db.Keys == db0.Keys + m.Values && m.Values !! db0.Keys && Injective(m)
  }

  /** One call: the tables it starts from, the height of the tree below `obj`, and its arguments. */
  datatype Call = Call(s: Schema, db: Db, n: nat, obj: Id, oldParent: Id, newParent: Id) {
    ghost function Tree(): Graph {
      Links(s, db)
    }

    ghost predicate Has(x: Id) {
      Below(Tree(), n, obj, x)
    }

    /** The preserved links form a tree, which holds neither the new parent nor the user who copies. */
    ghost predicate Ready() {
      && IsTree(Tree(), n, obj)
      && !Has(newParent) && !Has(s.creator)
      && forall x :: Has(x) ==> OneLink(s, db, x)
    }

    /** The call for a child, once the tables are `db'` and the copy of `obj` is `copy`. */
    function ForChild(db': Db, copy: Id, c: Id): Call
      requires n > 0
    {
      Call(s, db', n - 1, c, obj, copy)
    }
  }

  /** The simplest case: an object that nothing refers to. */
  lemma LoneObjectIsReady(s: Schema, db: Db, obj: Id, oldParent: Id, newParent: Id)
    requires obj in db && newParent != obj && s.creator != obj
    requires forall c, f | c in db && f in db[c].links :: db[c].links[f] != Some(obj)
    ensures Call(s, db, 0, obj, oldParent, newParent).Ready()
  {
    var k := Call(s, db, 0, obj, oldParent, newParent);
    assert forall c, r :: !Refers(db, c, r, obj);
    assert forall c :: !IsKid(k.Tree(), c, obj);
    assert forall x :: k.Has(x) ==> x == obj;
  }

  /** `x` is copied once all children of the first object but those in `todo` are. */
  ghost predicate Covered(k: Call, todo: set<Id>, x: Id) {
    x == k.obj || exists c :: c !in todo && Under(k.Tree(), k.n, k.obj, c, x)
  }

  ghost predicate Rows(k: Call, db: Db, todo: set<Id>, ret: map<Id, Id>) {
    && k.obj in ret && ret.Keys <= k.db.Keys && ret.Values <= db.Keys
    && db[ret[k.obj]] == CopiedRow(k.s, k.db[k.obj], k.oldParent, k.newParent)
    && forall p, c | p in ret && IsKid(k.Tree(), c, p) && !(p == k.obj && c in todo) ::
         c in ret && db[ret[c]] == CopiedRow(k.s, k.db[c], p, ret[p])
  }

  /** The call has got as far as `todo` says: the tables are `db` and the map so far is `ret`. */
  ghost predicate Copied(k: Call, db: Db, todo: set<Id>, ret: map<Id, Id>) {
    && (forall x :: x in ret <==> Covered(k, todo, x))
    && Grown(k.db, db, ret)
    && Rows(k, db, todo, ret)
  }

  /** A copied object other than the first has a parent that is copied too. */
  lemma CopiedParent(k: Call, todo: set<Id>, o: Id) returns (p: Id)
    requires k.Ready() && Covered(k, todo, o) && o != k.obj
    ensures k.Has(p) && IsKid(k.Tree(), o, p) && Covered(k, todo, p) && !(p == k.obj && o in todo)
  {
    var g := k.Tree();
    p := HasParent(g, k.n, k.obj, o);
    var c :| c !in todo && Under(g, k.n, k.obj, c, o);
    if p == k.obj {
      assert Under(g, k.n, k.obj, o, o);
    } else {
      var b := Branch(g, k.n, k.obj, p);
      KidIsBelow(g, k.n - 1, b, p, o);
      assert Under(g, k.n, k.obj, b, o);
    }
  }

  /** Which row a copied row is made from, and with which parents. */
  lemma Origin(k: Call, db: Db, todo: set<Id>, ret: map<Id, Id>, o: Id) returns (parent: Id, parent': Id)
    requires k.Ready() && Copied(k, db, todo, ret) && o in ret
    ensures ret[o] in db && o in k.db && db[ret[o]] == CopiedRow(k.s, k.db[o], parent, parent')
    ensures o == k.obj ==> parent == k.oldParent && parent' == k.newParent
    ensures o != k.obj ==> IsKid(k.Tree(), o, parent) && k.Has(parent) && parent in ret && parent' == ret[parent]
  {
    parent, parent' := k.oldParent, k.newParent;
    if o != k.obj {
      parent := CopiedParent(k, todo, o);
      parent' := ret[parent];
    }
  }

  /** A reference of a copied row to an object that is no new parent was there before. */
  lemma ReferenceIsOld(s: Schema, db0: Db, db: Db, o: Id, copy: Id, parent: Id, parent': Id, r: Reverse, x: Id)
    requires o in db0 && copy in db && db[copy] == CopiedRow(s, db0[o], parent, parent')
    requires Refers(db, copy, r, x) && x != parent' && x != s.creator
    ensures Refers(db0, o, r, x) && x != parent
  {
  }

  /** No new row is found from an object of the tree. */
  lemma NoNewKid(k: Call, db: Db, todo: set<Id>, ret: map<Id, Id>, x: Id, r: Reverse, o: Id)
    requires k.Ready() && Copied(k, db, todo, ret) && o in ret
    requires k.Has(x) && x in k.db && r in Preserved(k.s, k.db[x].model)
    ensures !Refers(db, ret[o], r, x)
  {
    var parent, parent' := Origin(k, db, todo, ret, o);
    assert parent' != x;
    if Refers(db, ret[o], r, x) {
      ReferenceIsOld(k.s, k.db, db, o, ret[o], parent, parent', r, x);
      assert IsKid(k.Tree(), o, x);
      if o == k.obj {
        RootIsNoKid(k.Tree(), k.n, k.obj, x);
      } else {
        OneParent(k.Tree(), k.n, k.obj, x, parent, o);
      }
    }
  }

  lemma TreeKept(k: Call, db: Db, todo: set<Id>, ret: map<Id, Id>, x: Id)
    requires k.Ready() && Copied(k, db, todo, ret) && k.Has(x)
    ensures SameKids(k.Tree(), Links(k.s, db), x)
    ensures x in k.db && forall r | r in Preserved(k.s, k.db[x].model) :: Children(db, r, x) == Children(k.db, r, x)
  {
    BelowIsInGraph(k.Tree(), k.n, k.obj, x);
    forall r, c | r in Preserved(k.s, k.db[x].model)
      ensures Refers(db, c, r, x) <==> Refers(k.db, c, r, x)
    {
      if Refers(db, c, r, x) && c !in k.db {
        var o :| o in ret && ret[o] == c;
        NoNewKid(k, db, todo, ret, x, r, o);
      }
    }
    forall c
      ensures Follows(k.s, db, c, x) <==> Follows(k.s, k.db, c, x)
    {
    }
  }

  // ---------- Adding the copy of one child ----------

  lemma OneLinkKept(s: Schema, db0: Db, db: Db, x: Id)
    requires OneLink(s, db0, x) && Extends(db0, db)
    requires forall r | r in Preserved(s, db0[x].model) :: Children(db, r, x) == Children(db0, r, x)
    ensures OneLink(s, db, x)
  {
    var rs := Preserved(s, db0[x].model);
    forall i, j, c | 0 <= i < j < |rs|
      ensures !(Refers(db, c, rs[i], x) && Refers(db, c, rs[j], x))
    {
      assert c in Children(db, rs[i], x) <==> c in Children(db0, rs[i], x);
      assert c in Children(db, rs[j], x) <==> c in Children(db0, rs[j], x);
    }
  }

  lemma UnderChildKept(k: Call, db: Db, todo: set<Id>, ret: map<Id, Id>, c: Id, x: Id)
    requires k.Ready() && Copied(k, db, todo, ret) && Under(k.Tree(), k.n, k.obj, c, x)
    ensures k.Has(x) && SameKids(k.Tree(), Links(k.s, db), x) && OneLink(k.s, db, x) && x in k.db
  {
    assert k.Has(x);
    TreeKept(k, db, todo, ret, x);
    OneLinkKept(k.s, k.db, db, x);
  }

  lemma ChildTree(k: Call, db: Db, todo: set<Id>, ret: map<Id, Id>, c: Id)
    requires k.Ready() && Copied(k, db, todo, ret) && IsKid(k.Tree(), c, k.obj)
    ensures k.n > 0 && IsTree(Links(k.s, db), k.n - 1, c)
    ensures forall x :: Below(Links(k.s, db), k.n - 1, c, x) <==> Under(k.Tree(), k.n, k.obj, c, x)
  {
    forall x | Under(k.Tree(), k.n, k.obj, c, x)
      ensures SameKids(k.Tree(), Links(k.s, db), x)
    {
      UnderChildKept(k, db, todo, ret, c, x);
    }
    SubtreeUnchanged(k.Tree(), Links(k.s, db), k.n, k.obj, c);
  }

  /** The tree below a child is still what it was, so the call for the child may be made. */
  lemma ChildIsReady(k: Call, db: Db, todo: set<Id>, ret: map<Id, Id>, c: Id)
    requires k.Ready() && Copied(k, db, todo, ret) && IsKid(k.Tree(), c, k.obj)
    ensures k.n > 0 && k.ForChild(db, ret[k.obj], c).Ready()
    ensures forall x :: k.ForChild(db, ret[k.obj], c).Has(x) <==> Under(k.Tree(), k.n, k.obj, c, x)
  {
    ChildTree(k, db, todo, ret, c);
    var k' := k.ForChild(db, ret[k.obj], c);
    assert k'.Tree() == Links(k.s, db);
    forall x
      ensures k'.Has(x) <==> Under(k.Tree(), k.n, k.obj, c, x)
    {
      assert k'.Has(x) <==> Below(Links(k.s, db), k.n - 1, c, x);
    }
    forall x | k'.Has(x)
      ensures OneLink(k.s, db, x) && k.Has(x) && x in k.db
    {
      UnderChildKept(k, db, todo, ret, c, x);
    }
    assert ret[k.obj] in ret.Values;
  }

  lemma CoveredMore(k: Call, todo: set<Id>, c: Id, x: Id)
    requires c in todo
    ensures Covered(k, todo - {c}, x) <==> Covered(k, todo, x) || Under(k.Tree(), k.n, k.obj, c, x)
  {
    if d :| d !in todo - {c} && Under(k.Tree(), k.n, k.obj, d, x) {
      assert d == c || d !in todo;
    }
    if d :| d !in todo && Under(k.Tree(), k.n, k.obj, d, x) {
      assert d !in todo - {c};
    }
    assert c !in todo - {c};
  }

  /** What is under the child `c` is under no child copied before. */
  lemma NotCoveredYet(k: Call, todo: set<Id>, c: Id, x: Id)
    requires k.Ready() && c in todo && Under(k.Tree(), k.n, k.obj, c, x)
    ensures !Covered(k, todo, x)
  {
  }

  lemma CoveredAll(k: Call, x: Id)
    ensures Covered(k, {}, x) <==> k.Has(x)
  {
    var todo: set<Id> := {};
    BelowMeans(k.Tree(), k.n, k.obj, x);
    if k.Has(x) && x != k.obj {
      var c :| Under(k.Tree(), k.n, k.obj, c, x);
      assert c !in todo;
      assert Covered(k, todo, x);
    }
  }

  /** What the copy of the child `c` adds. */
  lemma ChildKeys(k: Call, db: Db, db': Db, todo: set<Id>, ret: map<Id, Id>, c: Id, ret': map<Id, Id>)
    requires k.Ready() && Copied(k, db, todo, ret) && IsKid(k.Tree(), c, k.obj) && c in todo
    requires k.n > 0 && Copied(k.ForChild(db, ret[k.obj], c), db', {}, ret')
    ensures forall x :: x in ret' <==> Under(k.Tree(), k.n, k.obj, c, x)
    ensures ret.Keys !! ret'.Keys
    ensures forall x :: x in ret + ret' <==> Covered(k, todo - {c}, x)
  {
    ChildIsReady(k, db, todo, ret, c);
    forall x
      ensures x in ret' <==> Under(k.Tree(), k.n, k.obj, c, x)
      ensures x in ret' ==> x !in ret
      ensures x in ret + ret' <==> Covered(k, todo - {c}, x)
    {
      CoveredAll(k.ForChild(db, ret[k.obj], c), x);
      CoveredMore(k, todo, c, x);
      if Under(k.Tree(), k.n, k.obj, c, x) {
        NotCoveredYet(k, todo, c, x);
      }
    }
  }

  lemma RowsOfOthers(k: Call, db: Db, db': Db, todo: set<Id>, ret: map<Id, Id>, c: Id, ret': map<Id, Id>, p: Id, d: Id)
    requires Copied(k, db, todo, ret) && Extends(db, db') && ret.Keys !! ret'.Keys
    requires p in ret && IsKid(k.Tree(), d, p) && !(p == k.obj && d in todo)
    ensures d in ret && ret[d] in db' && db'[ret[d]] == CopiedRow(k.s, k.db[d], p, ret[p])
  {
  }

  lemma RowOfKid(k: Call, db: Db, ret: map<Id, Id>, p: Id, d: Id)
    requires Copied(k, db, {}, ret) && p in ret && IsKid(k.Tree(), d, p)
    ensures d in ret && d in k.db && db[ret[d]] == CopiedRow(k.s, k.db[d], p, ret[p])
  {
  }

  lemma RowsOfChild(k: Call, db: Db, db': Db, todo: set<Id>, ret: map<Id, Id>, c: Id, ret': map<Id, Id>, p: Id, d: Id)
    requires k.Ready() && Copied(k, db, todo, ret) && IsKid(k.Tree(), c, k.obj)
    requires k.n > 0 && Copied(k.ForChild(db, ret[k.obj], c), db', {}, ret')
    requires p in ret' && Under(k.Tree(), k.n, k.obj, c, p) && IsKid(k.Tree(), d, p)
    ensures d in ret' && d in k.db && db'[ret'[d]] == CopiedRow(k.s, k.db[d], p, ret'[p])
  {
    UnderChildKept(k, db, todo, ret, c, p);
    RowOfKid(k.ForChild(db, ret[k.obj], c), db', ret', p, d);
    assert d in k.db;
  }

  lemma ChildWasStored(k: Call, db: Db, todo: set<Id>, ret: map<Id, Id>, c: Id, ret': map<Id, Id>)
    requires k.Ready() && Copied(k, db, todo, ret)
    requires forall x :: x in ret' <==> Under(k.Tree(), k.n, k.obj, c, x)
    ensures ret'.Keys <= k.db.Keys
  {
    forall x | x in ret'
      ensures x in k.db
    {
      UnderChildKept(k, db, todo, ret, c, x);
    }
  }

  lemma ValuesOfUnion(m: map<Id, Id>, m': map<Id, Id>)
    requires m.Keys !! m'.Keys
    ensures (m + m').Values == m.Values + m'.Values
  {
    forall v | v in m.Values
      ensures v in (m + m').Values
    {
      var k :| k in m && m[k] == v;
      assert (m + m')[k] == v;
    }
    forall v | v in m'.Values
      ensures v in (m + m').Values
    {
      var k :| k in m' && m'[k] == v;
      assert (m + m')[k] == v;
    }
  }

  lemma ChildRows(k: Call, db: Db, db': Db, todo: set<Id>, ret: map<Id, Id>, c: Id, ret': map<Id, Id>)
    requires k.Ready() && Copied(k, db, todo, ret) && IsKid(k.Tree(), c, k.obj) && c in todo
    requires k.n > 0 && Copied(k.ForChild(db, ret[k.obj], c), db', {}, ret')
    requires forall x :: x in ret' <==> Under(k.Tree(), k.n, k.obj, c, x)
    requires ret.Keys !! ret'.Keys
    ensures Rows(k, db', todo - {c}, ret + ret')
  {
    var both := ret + ret';
    forall p, d | p in both && IsKid(k.Tree(), d, p) && !(p == k.obj && d in todo - {c})
      ensures d in both && both[d] in db' && db'[both[d]] == CopiedRow(k.s, k.db[d], p, both[p])
    {
      if p in ret' {
        RowsOfChild(k, db, db', todo, ret, c, ret', p, d);
      } else if p == k.obj && d == c {
        assert Under(k.Tree(), k.n, k.obj, c, c);
      } else {
        RowsOfOthers(k, db, db', todo, ret, c, ret', p, d);
      }
    }
    ChildWasStored(k, db, todo, ret, c, ret');
    ValuesOfUnion(ret, ret');
  }

  lemma UnionIsInjective(m: map<Id, Id>, m': map<Id, Id>, known: set<Id>)
    requires Injective(m) && Injective(m') && m.Values <= known && m'.Values !! known
    ensures Injective(m + m')
  {
    var both := m + m';
    forall x, y | x in both && y in both && both[x] == both[y]
      ensures x == y
    {
      assert x in m ==> m[x] in m.Values;
      assert y in m ==> m[y] in m.Values;
      assert x in m' ==> m'[x] in m'.Values;
      assert y in m' ==> m'[y] in m'.Values;
    }
  }

  lemma GrownTwice(db0: Db, db: Db, db': Db, m: map<Id, Id>, m': map<Id, Id>)
    requires Grown(db0, db, m) && Grown(db, db', m') && m.Keys !! m'.Keys
    ensures Grown(db0, db', m + m')
  {
    UnionIsInjective(m, m', db.Keys);
    ValuesOfUnion(m, m');
  }

  lemma ChildAdded(k: Call, db: Db, db': Db, todo: set<Id>, ret: map<Id, Id>, c: Id, ret': map<Id, Id>)
    requires k.Ready() && Copied(k, db, todo, ret) && IsKid(k.Tree(), c, k.obj) && c in todo
    requires k.n > 0 && Copied(k.ForChild(db, ret[k.obj], c), db', {}, ret')
    ensures Copied(k, db', todo - {c}, ret + ret')
  {
    ChildKeys(k, db, db', todo, ret, c, ret');
    ChildRows(k, db, db', todo, ret, c, ret');
    GrownTwice(k.db, db, db', ret, ret');
  }

  /** Where a call stands when its own object is copied and no child is. */
  lemma Started(k: Call, copy: Id)
    requires k.Ready() && copy !in k.db
    ensures Copied(k, k.db[copy := CopiedRow(k.s, k.db[k.obj], k.oldParent, k.newParent)], k.Tree()[k.obj],
      map[k.obj := copy])
  {
    assert forall c, x :: Under(k.Tree(), k.n, k.obj, c, x) ==> c in k.Tree()[k.obj];
    var ret := map[k.obj := copy];
    assert ret[k.obj] == copy && ret.Values == {copy};
  }

  /** What is found from `p` through the accessors from the `i`-th on. */
  ghost function Found(db: Db, rs: seq<Reverse>, i: nat, p: Id): set<Id>
    decreases |rs| - i
  {
    if i >= |rs| then {} else Children(db, rs[i], p) + Found(db, rs, i + 1, p)
  }

  lemma {:induction false} FoundMeans(db: Db, rs: seq<Reverse>, i: nat, p: Id, c: Id)
    ensures c in Found(db, rs, i, p) <==> exists j :: i <= j < |rs| && Refers(db, c, rs[j], p)
    decreases |rs| - i
  {
    if i < |rs| {
      FoundMeans(db, rs, i + 1, p, c);
    }
  }

  lemma KidsAreFound(k: Call)
    requires k.Ready()
    ensures k.obj in k.db && k.Tree()[k.obj] == Found(k.db, Preserved(k.s, k.db[k.obj].model), 0, k.obj)
  {
    var rs := Preserved(k.s, k.db[k.obj].model);
    forall c
      ensures c in k.Tree()[k.obj] <==> c in Found(k.db, rs, 0, k.obj)
    {
      FoundMeans(k.db, rs, 0, k.obj, c);
      if c in k.Tree()[k.obj] {
        var r :| r in rs && Refers(k.db, c, r, k.obj);
        var j :| 0 <= j < |rs| && rs[j] == r;
        assert Refers(k.db, c, rs[j], k.obj);
      }
    }
  }

  lemma FoundOnce(k: Call, i: nat)
    requires k.Ready() && k.obj in k.db && i < |Preserved(k.s, k.db[k.obj].model)|
    ensures var rs := Preserved(k.s, k.db[k.obj].model);
      Found(k.db, rs, i, k.obj) - Children(k.db, rs[i], k.obj) == Found(k.db, rs, i + 1, k.obj)
  {
    var rs := Preserved(k.s, k.db[k.obj].model);
    assert k.Has(k.obj) && OneLink(k.s, k.db, k.obj);
    forall c | c in Found(k.db, rs, i + 1, k.obj)
      ensures c !in Children(k.db, rs[i], k.obj)
    {
      FoundMeans(k.db, rs, i + 1, k.obj, c);
    }
  }

  /** What is left to copy after the first `i` of the objects found. */
  ghost function Left(todo: set<Id>, subs: seq<Id>, i: nat): set<Id>
    requires i <= |subs|
  {
    set c | c in todo && c !in subs[..i]
  }

  lemma LeftNext(todo: set<Id>, kids: set<Id>, subs: seq<Id>, i: nat)
    requires Lists(subs, kids) && kids <= todo && i < |subs|
    ensures subs[i] in kids && subs[i] in Left(todo, subs, i)
    ensures Left(todo, subs, i + 1) == Left(todo, subs, i) - {subs[i]}
  {
    ListsNext(subs, kids, i);
  }

  lemma LeftNone(todo: set<Id>, kids: set<Id>, subs: seq<Id>)
    requires Lists(subs, kids)
    ensures Left(todo, subs, |subs|) == todo - kids
  {
    assert subs[..|subs|] == subs;
  }

  // ---------- The view ----------

  class CopyView {
    const schema: Schema
    var db: Db
    var nextId: Id

    ghost predicate Valid()
      reads this
    {
      forall x <- db :: x < nextId
    }

    /** The new object from the keyword arguments collected field by field. */
    method Create(obj: Id, oldParent: Id, newParent: Id) returns (copy: Id)
      requires Valid() && obj in db
      modifies this
      ensures Valid() && copy !in old(db)
      ensures db == old(db)[copy := CopiedRow(schema, old(db)[obj], oldParent, newParent)]
    {
      var links := CollectLinks(db[obj], oldParent, newParent);
      var data := CollectData(db[obj]);
      copy := nextId;
      nextId := nextId + 1;
      db := db[copy := Row(db[obj].model, links, data)];
    }

    method CollectLinks(row: Row, oldParent: Id, newParent: Id) returns (links: map<Field, Option<Id>>)
      ensures links == map f | f in row.links :: CopiedLink(schema, row, f, oldParent, newParent)
    {
      var fields := SetToSeq(row.links.Keys);
      links := map[];
      for i := 0 to |fields|
        invariant links.Keys == set f | f in fields[..i]
        invariant forall f <- links :: links[f] == CopiedLink(schema, row, f, oldParent, newParent)
      {
        assert fields[i] in fields && fields[..i + 1] == fields[..i] + [fields[i]];
        var f := fields[i];
        var value: Option<Id> := None;
        if f == CREATED_BY {
          value := Some(schema.creator);
        } else if !Blocked(schema, row.model, f) && row.links[f].Some? {
          if row.links[f] == Some(oldParent) {
            value := Some(newParent);
          } else if f in schema.preserve(row.model) {
            value := row.links[f];
          }
        }
        links := links[f := value];
      }
      assert fields[..|fields|] == fields;
    }

    method CollectData(row: Row) returns (data: map<Field, Value>)
      ensures data == map f | f in row.data && !Blocked(schema, row.model, f) && f in schema.preserve(row.model) ::
        schema.decrypt(row.model, f, row.data[f])
    {
      var fields := SetToSeq(row.data.Keys);
      data := map[];
      for i := 0 to |fields|
        invariant data == map f | f in fields[..i] && f in row.data && !Blocked(schema, row.model, f) &&
          f in schema.preserve(row.model) ::
          schema.decrypt(row.model, f, row.data[f])
      {
        assert fields[i] in fields && fields[..i + 1] == fields[..i] + [fields[i]];
        if !Blocked(schema, row.model, fields[i]) && fields[i] in schema.preserve(row.model) {
          data := data[fields[i] := schema.decrypt(row.model, fields[i], row.data[fields[i]])];
        }
      }
      assert fields[..|fields|] == fields;
    }

    /** `copy_model_obj`; the children are queried while rows are being added. */
    method CopyModelObj(ghost n: nat, oldParent: Id, newParent: Id, obj: Id) returns (ret: map<Id, Id>)
      requires Valid() && Call(schema, db, n, obj, oldParent, newParent).Ready()
      modifies this
      ensures Valid() && Copied(Call(schema, old(db), n, obj, oldParent, newParent), db, {}, ret)
      decreases n, 3
    {
      ghost var k := Call(schema, db, n, obj, oldParent, newParent);
      var copy := Create(obj, oldParent, newParent);
      ret := map[obj := copy];
      Started(k, copy);
      var rs := Preserved(schema, db[obj].model);
      ghost var todo := k.Tree()[obj];
      KidsAreFound(k);
      for i := 0 to |rs|
        invariant Valid() && Copied(k, db, todo, ret)
        invariant todo == Found(k.db, rs, i, obj)
      {
        ret := CopyBranch(k, obj, rs[i], todo, ret);
        FoundOnce(k, i);
        todo := todo - Children(k.db, rs[i], obj);
      }
    }

    /** One pass of the loop over the accessors. */
    method CopyBranch(ghost k: Call, obj: Id, r: Reverse, ghost todo: set<Id>, ret: map<Id, Id>)
        returns (ret': map<Id, Id>)
      requires Valid() && k.s == schema && k.obj == obj && k.Ready() && Copied(k, db, todo, ret)
      requires r in Preserved(schema, k.db[obj].model) && Children(k.db, r, obj) <= todo
      modifies this
      ensures Valid() && Copied(k, db, todo - Children(k.db, r, obj), ret')
      decreases k.n, 2
    {
      TreeKept(k, db, todo, ret, obj);
      var subs := SetToSeq(Children(db, r, obj));
      ret' := CopySubObjects(k, obj, Children(k.db, r, obj), subs, todo, ret);
    }

    method CopySubObjects(ghost k: Call, obj: Id, ghost kids: set<Id>, subs: seq<Id>, ghost todo: set<Id>,
        ret: map<Id, Id>)
      returns (ret': map<Id, Id>)
      requires Valid() && k.s == schema && k.obj == obj && k.Ready() && Copied(k, db, todo, ret)
      requires Lists(subs, kids) && kids <= todo && forall c <- kids :: IsKid(k.Tree(), c, obj)
      modifies this
      ensures Valid() && Copied(k, db, todo - kids, ret')
      decreases k.n, 1
    {
      ret' := ret;
      ghost var left := todo;
      for i := 0 to |subs|
        invariant Valid() && Copied(k, db, left, ret')
        invariant left == Left(todo, subs, i)
      {
        LeftNext(todo, kids, subs, i);
        ret' := CopyChild(k, obj, subs[i], left, ret');
        left := left - {subs[i]};
      }
      LeftNone(todo, kids, subs);
    }

    method CopyChild(ghost k: Call, obj: Id, c: Id, ghost todo: set<Id>, ret: map<Id, Id>) returns (ret': map<Id, Id>)
      requires Valid() && k.s == schema && k.obj == obj && k.Ready() && Copied(k, db, todo, ret)
      requires IsKid(k.Tree(), c, obj) && c in todo
      modifies this
      ensures Valid() && Copied(k, db, todo - {c}, ret')
      decreases k.n, 0
    {
      ghost var before := db;
      ChildIsReady(k, db, todo, ret, c);
      var more := CopyModelObj(k.n - 1, obj, ret[obj], c);
      ChildAdded(k, before, db, todo, ret, c, more);
      ret' := ret + more;
    }
  }

  // ---------- The copy is an isomorphic tree ----------

  /** Every reference of a stored row is to a stored row. */
  ghost predicate Closed(db: Db) {
    forall x, f | x in db && f in db[x].links && db[x].links[f].Some? :: db[x].links[f].value in db
  }

  /** The tree below the first object, one to one onto new rows; every other row as it was. */
  lemma CopyIsOneToOne(k: Call, db: Db, ret: map<Id, Id>)
    requires k.Ready() && Copied(k, db, {}, ret)
    ensures forall x :: x in ret <==> k.Has(x)
    ensures Injective(ret) && ret.Values !! k.db.Keys
    ensures db.Keys == k.db.Keys + ret.Values && forall x <- k.db :: db[x] == k.db[x]
  {
    forall x
      ensures Covered(k, {}, x) <==> k.Has(x)
    {
      CoveredAll(k, x);
    }
  }

  /** A row that refers to a new row was copied as a child of what that row is a copy of. */
  lemma ReferenceToCopy(s: Schema, db0: Db, db: Db, o: Id, q: Id, q': Id, c: Id, r: Reverse, target: Id)
    requires Closed(db0) && s.creator in db0 && target !in db0
    requires o in db0 && c in db && db[c] == CopiedRow(s, db0[o], q, q') && Refers(db, c, r, target)
    ensures q' == target && !Blocked(s, r.model, r.fk) && Refers(db0, o, r, q)
  {
  }

  lemma ChildOfCopy(k: Call, db: Db, ret: map<Id, Id>, p: Id, r: Reverse, c: Id)
    requires k.Ready() && Copied(k, db, {}, ret) && Closed(k.db) && k.newParent in k.db && k.s.creator in k.db
    requires p in ret && p in k.db && Refers(db, c, r, ret[p])
    ensures !Blocked(k.s, r.model, r.fk) && exists o :: o in Children(k.db, r, p) && o in ret && ret[o] == c
  {
    assert ret[p] in ret.Values;
    assert c !in k.db;
    var o :| o in ret && ret[o] == c;
    var q, q' := Origin(k, db, {}, ret, o);
    ReferenceToCopy(k.s, k.db, db, o, q, q', c, r, ret[p]);
    assert o != k.obj && q == p;
    assert o in Children(k.db, r, p);
  }

  // ---------- Which links are followed ----------

  /** An accessor of the model that it preserves and does not block. */
  predicate IsPreserved(s: Schema, m: Model, r: Reverse) {
    r in s.reverses(m) && r.name in s.preserve(m) && !Blocked(s, m, r.name)
  }

  lemma {:induction false} KeptMeans(s: Schema, m: Model, rs: seq<Reverse>, r: Reverse)
    ensures r in Kept(s, m, rs) <==> r in rs && r.name in s.preserve(m) && !Blocked(s, m, r.name)
  {
    if rs != [] {
      var last := rs[|rs| - 1];
      KeptMeans(s, m, rs[..|rs| - 1], r);
      assert rs == rs[..|rs| - 1] + [last];
    }
  }

  /**
   The copied objects are the first one and exactly what is found, again and again, through the accessors
   the models preserve: each such child of a copied object is copied, and nothing else is.
   */
  lemma CopyFollowsPreserved(k: Call, db: Db, ret: map<Id, Id>, c: Id)
    requires k.Ready() && Copied(k, db, {}, ret)
    ensures ret.Keys <= k.db.Keys
    ensures c in ret <==>
      (c == k.obj || exists p, r :: p in ret && IsPreserved(k.s, k.db[p].model, r) && Refers(k.db, c, r, p))
  {
    forall p, r | p in ret && IsPreserved(k.s, k.db[p].model, r) && Refers(k.db, c, r, p)
      ensures c in ret
    {
      KeptMeans(k.s, k.db[p].model, k.s.reverses(k.db[p].model), r);
      assert IsKid(k.Tree(), c, p);
    }
    if c in ret && c != k.obj {
      var p, _ := Origin(k, db, {}, ret, c);
      var r :| r in Preserved(k.s, k.db[p].model) && Refers(k.db, c, r, p);
      KeptMeans(k.s, k.db[p].model, k.s.reverses(k.db[p].model), r);
      assert p in ret && IsPreserved(k.s, k.db[p].model, r);
    }
  }

  /** `parent'` stands in for `parent` in the copy of `x`: its own parent's copy, or the arguments of the call. */
  ghost predicate StandsIn(k: Call, ret: map<Id, Id>, x: Id, parent: Id, parent': Id) {
    if x == k.obj then parent == k.oldParent && parent' == k.newParent
    else parent in ret && IsKid(k.Tree(), x, parent) && parent' == ret[parent]
  }

  /** Nothing discarded or blocked is copied, and the creator is the user who copies. */
  ghost predicate DropsBlocked(s: Schema, row: Row, copy: Row) {
    && (forall f <- copy.data :: f !in s.discard(row.model) && f !in ALWAYS_BLOCKED && !IsRoleField(f))
    && (forall f <- copy.links | f in s.discard(row.model) || f in ALWAYS_BLOCKED || IsRoleField(f) ::
          copy.links[f] == if f == CREATED_BY then Some(s.creator) else None)
  }

  /** Of the plain fields exactly the preserved ones are copied, decrypted. */
  ghost predicate KeepsData(s: Schema, row: Row, copy: Row) {
    && (forall f :: f in copy.data <==> f in row.data && f in s.preserve(row.model) && !Blocked(s, row.model, f))
    && (forall f <- copy.data :: f in row.data && copy.data[f] == s.decrypt(row.model, f, row.data[f]))
  }

  /** References to the parent lead to its copy; others stay if preserved and go if not. */
  ghost predicate KeepsLinks(s: Schema, row: Row, copy: Row, parent: Id, parent': Id) {
    && copy.links.Keys == row.links.Keys
    && forall f | f in row.links && !Blocked(s, row.model, f) ::
         copy.links[f] ==
         if row.links[f] == Some(parent) then Some(parent')
         else if f in s.preserve(row.model) then row.links[f]
         else None
  }

  lemma CopiedRowFields(s: Schema, row: Row, parent: Id, parent': Id)
    ensures var copy := CopiedRow(s, row, parent, parent');
      copy.model == row.model && DropsBlocked(s, row, copy) && KeepsData(s, row, copy)
    ensures KeepsLinks(s, row, CopiedRow(s, row, parent, parent'), parent, parent')
  {
  }

  /** Field by field, over the whole copied tree. */
  lemma CopyKeepsFields(k: Call, db: Db, ret: map<Id, Id>, x: Id) returns (parent: Id, parent': Id)
    requires k.Ready() && Copied(k, db, {}, ret) && x in ret
    ensures x in k.db && ret[x] in db && StandsIn(k, ret, x, parent, parent')
    ensures var row, copy := k.db[x], db[ret[x]];
      && copy.model == row.model && DropsBlocked(k.s, row, copy) && KeepsData(k.s, row, copy)
      && KeepsLinks(k.s, row, copy, parent, parent')
  {
    parent, parent' := Origin(k, db, {}, ret, x);
    CopiedRowFields(k.s, k.db[x], parent, parent');
  }

  lemma ReferenceCopied(s: Schema, db0: Db, db: Db, o: Id, copy: Id, p: Id, p': Id, r: Reverse)
    requires Refers(db0, o, r, p) && copy in db && db[copy] == CopiedRow(s, db0[o], p, p') && s.creator != p'
    ensures Refers(db, copy, r, p') <==> !Blocked(s, r.model, r.fk)
  {
  }

  lemma CopyOfChild(k: Call, db: Db, ret: map<Id, Id>, p: Id, r: Reverse, o: Id)
    requires k.Ready() && Copied(k, db, {}, ret) && k.s.creator in k.db
    requires p in ret && p in k.db && IsPreserved(k.s, k.db[p].model, r) && Refers(k.db, o, r, p)
    ensures o in ret && (Refers(db, ret[o], r, ret[p]) <==> !Blocked(k.s, r.model, r.fk))
  {
    KeptMeans(k.s, k.db[p].model, k.s.reverses(k.db[p].model), r);
    assert IsKid(k.Tree(), o, p);
    RowOfKid(k, db, ret, p, o);
    assert ret[p] in ret.Values;
    ReferenceCopied(k.s, k.db, db, o, ret[o], p, ret[p], r);
  }

  /**
   The children of a copy, through each preserved accessor, are the copies of the children. They are
   lost, all of them, iff the model of the children does not copy the field that refers to the parent.
   */
  lemma CopyKeepsChildren(k: Call, db: Db, ret: map<Id, Id>, p: Id, r: Reverse)
    requires k.Ready() && Copied(k, db, {}, ret) && Closed(k.db) && k.newParent in k.db && k.s.creator in k.db
    requires p in ret && p in k.db && IsPreserved(k.s, k.db[p].model, r)
    ensures forall c <- Children(k.db, r, p) :: c in ret
    ensures Children(db, r, ret[p]) ==
      if Blocked(k.s, r.model, r.fk) then {} else set c | c in Children(k.db, r, p) :: ret[c]
  {
    forall o | o in Children(k.db, r, p)
      ensures o in ret
    {
      CopyOfChild(k, db, ret, p, r, o);
    }
    var copies := set c | c in Children(k.db, r, p) :: ret[c];
    forall c | Refers(db, c, r, ret[p])
      ensures !Blocked(k.s, r.model, r.fk) && c in copies
    {
      ChildOfCopy(k, db, ret, p, r, c);
    }
    forall c | c in copies
      ensures Refers(db, c, r, ret[p]) <==> !Blocked(k.s, r.model, r.fk)
    {
      var o :| o in Children(k.db, r, p) && ret[o] == c;
      CopyOfChild(k, db, ret, p, r, o);
    }
  }
}
