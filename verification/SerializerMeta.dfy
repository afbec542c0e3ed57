/**
 `BaseSerializerMetaclass`: how a field list of a serializer's `Meta` is merged from those of its bases
 and its own, in which "*" stands for everything inherited and "-name" takes a name out.
 */
module SerializerMeta {
  import opened Wrappers

  type Name = string
  type FieldList = Option<seq<Name>>

  const INHERIT: Name := "*"

  predicate Exclusion(v: Name) {
    v != "" && v[0] == '-'
  }

  predicate Marker(v: Name) {
    v == INHERIT || Exclusion(v)
  }

  /** A serializer class; `own` is the list in its own `Meta`, if it has both. */
  datatype Class = Class(bases: seq<Class>, own: FieldList)

  function Names(l: FieldList): seq<Name> {
    if l.Some? then l.value else []
  }

  // ---------- Merging ----------

  function Distinct(xs: seq<Name>): seq<Name> {
    if xs == [] then []
    else
      var front := Distinct(xs[..|xs| - 1]);
      if xs[|xs| - 1] in front then front else front + [xs[|xs| - 1]]
  }

  /** The own list with "*" expanded and exclusions taken out of the list of names. */
  function Expand(own: seq<Name>, inherited: seq<Name>): seq<Name> {
    if own == [] then []
    else
      var v := own[|own| - 1];
      Expand(own[..|own| - 1], inherited)
      + (if v == INHERIT then inherited else if Exclusion(v) then [] else [v])
  }

  function Excluded(own: seq<Name>): seq<Name> {
    if own == [] then []
    else
      var v := own[|own| - 1];
      Excluded(own[..|own| - 1]) + (if v != INHERIT && Exclusion(v) then [v[1..]] else [])
  }

  function Without(xs: seq<Name>, except: seq<Name>): seq<Name> {
    if xs == [] then []
    else Without(xs[..|xs| - 1], except) + (if xs[|xs| - 1] in except then [] else [xs[|xs| - 1]])
  }

  function MergeBase(meta: FieldList, base: FieldList): FieldList {
    if base.None? then meta else Some(Distinct(Names(meta) + base.value))
  }

  function MergeOwn(meta: FieldList, own: FieldList): FieldList {
    if own.None? then meta
    else Some(Distinct(Without(Expand(own.value, Names(meta)), Excluded(own.value))))
  }

  /** The bases are merged from the last to the first. */
  function MergeBases(lists: seq<FieldList>): FieldList {
    if lists == [] then None else MergeBase(MergeBases(lists[1..]), lists[0])
  }

  function Merged(lists: seq<FieldList>, own: FieldList): FieldList {
    MergeOwn(MergeBases(lists), own)
  }

  /** The field list that a class ends up with. */
  function Fields(c: Class): FieldList {
    Merged(seq(|c.bases|, i requires 0 <= i < |c.bases| => Fields(c.bases[i])), c.own)
  }

  lemma {:induction false} NothingExcepted(xs: seq<Name>)
    ensures Without(xs, []) == xs
  {
    if xs != [] {
      NothingExcepted(xs[..|xs| - 1]);
    }
  }

  // ---------- What a merged list holds ----------

  predicate NoRepeats(xs: seq<Name>) {
    forall i, j | 0 <= i < j < |xs| :: xs[i] != xs[j]
  }

  ghost predicate Clean(l: FieldList) {
    NoRepeats(Names(l)) && forall x <- Names(l) :: !Marker(x)
  }

  ghost predicate InSome(lists: seq<FieldList>, x: Name) {
    exists l :: l in lists && x in Names(l)
  }

  lemma {:induction false} DistinctSays(xs: seq<Name>)
    ensures NoRepeats(Distinct(xs)) && forall x :: x in Distinct(xs) <==> x in xs
  {
    if xs != [] {
      DistinctSays(xs[..|xs| - 1]);
      assert xs == xs[..|xs| - 1] + [xs[|xs| - 1]];
    }
  }

  lemma {:induction false} ExpandSays(own: seq<Name>, inherited: seq<Name>)
    ensures forall x :: x in Expand(own, inherited) <==> (x in own && !Marker(x)) || (INHERIT in own && x in inherited)
    ensures forall x :: x in Excluded(own) <==> ['-'] + x in own
  {
    if own != [] {
      var front, v := own[..|own| - 1], own[|own| - 1];
      assert own == front + [v];
      ExpandSays(front, inherited);
      forall x
        ensures x in Excluded(own) <==> x in Excluded(front) || v == ['-'] + x
      {
        if v == ['-'] + x {
          assert v[1..] == x && v[0] == '-' && INHERIT[0] == '*';
        }
        if v != INHERIT && Exclusion(v) && v[1..] == x {
          assert v == ['-'] + v[1..];
        }
      }
    }
  }

  lemma {:induction false} WithoutSays(xs: seq<Name>, except: seq<Name>)
    ensures forall x :: x in Without(xs, except) <==> x in xs && x !in except
  {
    if xs != [] {
      WithoutSays(xs[..|xs| - 1], except);
      assert xs == xs[..|xs| - 1] + [xs[|xs| - 1]];
    }
  }

  lemma {:induction false} MergeBasesSays(lists: seq<FieldList>)
    requires forall l <- lists :: Clean(l)
    ensures Clean(MergeBases(lists))
    ensures forall x :: x in Names(MergeBases(lists)) <==> InSome(lists, x)
  {
    if lists != [] {
      assert lists == [lists[0]] + lists[1..];
      MergeBasesSays(lists[1..]);
      assert Clean(lists[0]) && Clean(MergeBases(lists[1..]));
      DistinctSays(Names(MergeBases(lists[1..])) + Names(lists[0]));
      forall x
        ensures InSome(lists, x) <==> InSome(lists[1..], x) || x in Names(lists[0])
        ensures x in Names(MergeBases(lists)) <==> x in Names(MergeBases(lists[1..])) || x in Names(lists[0])
      {
      }
    }
  }

  lemma MergedSays(lists: seq<FieldList>, own: FieldList)
    requires forall l <- lists :: Clean(l)
    ensures Clean(Merged(lists, own))
    ensures forall x :: x in Names(Merged(lists, own)) <==>
      if own.None? then InSome(lists, x)
      else ((x in own.value && !Marker(x)) || (INHERIT in own.value && InSome(lists, x)))
           && ['-'] + x !in own.value
  {
    MergeBasesSays(lists);
    if own.Some? {
      var inherited := Names(MergeBases(lists));
      ExpandSays(own.value, inherited);
      WithoutSays(Expand(own.value, inherited), Excluded(own.value));
      DistinctSays(Without(Expand(own.value, inherited), Excluded(own.value)));
    }
  }

  /** Some base's list has the name. */
  ghost predicate Inherits(c: Class, x: Name) {
    exists b :: b in c.bases && x in Names(Fields(b))
  }

  /**
   Over every class hierarchy: the list has no repeats and no markers; a name is in it iff the class
   names it, or takes over its bases' lists and one of them has it, and does not exclude it.
   */
  lemma {:induction false} FieldsOfHierarchy(c: Class)
    ensures Clean(Fields(c))
    ensures forall x :: x in Names(Fields(c)) <==>
      if c.own.None? then Inherits(c, x)
      else
        && ((x in c.own.value && !Marker(x)) || (INHERIT in c.own.value && Inherits(c, x)))
        && ['-'] + x !in c.own.value
  {
    var lists := seq(|c.bases|, i requires 0 <= i < |c.bases| => Fields(c.bases[i]));
    forall l | l in lists
      ensures Clean(l)
    {
      var i :| 0 <= i < |lists| && lists[i] == l;
      FieldsOfHierarchy(c.bases[i]);
    }
    MergedSays(lists, c.own);
    forall x
      ensures InSome(lists, x) <==> Inherits(c, x)
    {
      if l :| l in lists && x in Names(l) {
        var i :| 0 <= i < |lists| && lists[i] == l;
        assert c.bases[i] in c.bases;
      }
      if b :| b in c.bases && x in Names(Fields(b)) {
        var i :| 0 <= i < |c.bases| && c.bases[i] == b;
        assert lists[i] in lists;
      }
    }
  }

  /** What one base excludes is back if another base lists it: an exclusion binds its own class only. */
  lemma ExclusionIsUndoneByAnotherBase(a: Class, b: Class, c: Class, x: Name)
    requires c.bases == [a, b] && (c.own.None? || (INHERIT in c.own.value && ['-'] + x !in c.own.value))
    requires a.own.Some? && ['-'] + x in a.own.value
    requires x in Names(Fields(b))
    ensures x !in Names(Fields(a)) && x in Names(Fields(c))
  {
    FieldsOfHierarchy(a);
    FieldsOfHierarchy(c);
    assert b in c.bases && Inherits(c, x);
  }

  // ---------- Order ----------

  ghost predicate FirstAt(xs: seq<Name>, x: Name, i: int) {
    0 <= i < |xs| && xs[i] == x && x !in xs[..i]
  }

  lemma {:induction false} FirstExists(xs: seq<Name>, x: Name)
    requires x in xs
    ensures exists i :: FirstAt(xs, x, i)
  {
    var front := xs[..|xs| - 1];
    assert xs == front + [xs[|xs| - 1]];
    if x in front {
      FirstExists(front, x);
      var i :| FirstAt(front, x, i);
      assert xs[..i] == front[..i];
      assert FirstAt(xs, x, i);
    } else {
      assert FirstAt(xs, x, |front|);
    }
  }

  /** Names keep the order of their first occurrences. */
  lemma {:induction false} DistinctKeepsFirstOrder(xs: seq<Name>, i: int, j: int, x: Name, y: Name)
    requires FirstAt(Distinct(xs), x, i) && FirstAt(Distinct(xs), y, j) && i < j
    ensures exists a, b :: FirstAt(xs, x, a) && FirstAt(xs, y, b) && a < b
    decreases |xs|
  {
    var front, v := xs[..|xs| - 1], xs[|xs| - 1];
    var ds := Distinct(front);
    DistinctSays(front);
    assert xs == front + [v];
    if j < |ds| {
      assert Distinct(xs)[..j] == ds[..j] && Distinct(xs)[..i] == ds[..i];
      DistinctKeepsFirstOrder(front, i, j, x, y);
      var a, b :| FirstAt(front, x, a) && FirstAt(front, y, b) && a < b;
      assert xs[..a] == front[..a] && xs[..b] == front[..b];
      assert FirstAt(xs, x, a) && FirstAt(xs, y, b);
    } else {
      assert x in ds && y == v && v !in front;
      FirstExists(front, x);
      var a :| FirstAt(front, x, a);
      assert xs[..a] == front[..a] && xs[..|front|] == front;
      assert FirstAt(xs, x, a) && FirstAt(xs, y, |front|);
    }
  }

  lemma {:induction false} DistinctOfDistinct(xs: seq<Name>)
    requires NoRepeats(xs)
    ensures Distinct(xs) == xs
  {
    if xs != [] {
      DistinctOfDistinct(xs[..|xs| - 1]);
      assert xs == xs[..|xs| - 1] + [xs[|xs| - 1]];
    }
  }

  /** The lists of the bases one after the other, from the last base to the first. */
  function Flattened(lists: seq<FieldList>): seq<Name> {
    if lists == [] then [] else Flattened(lists[1..]) + Names(lists[0])
  }

  lemma {:induction false} DistinctTwice(xs: seq<Name>, ys: seq<Name>)
    ensures Distinct(Distinct(xs) + ys) == Distinct(xs + ys)
    decreases |ys|
  {
    if ys == [] {
      assert Distinct(xs) + ys == Distinct(xs) && xs + ys == xs;
      DistinctSays(xs);
      DistinctOfDistinct(Distinct(xs));
    } else {
      var front, v := ys[..|ys| - 1], ys[|ys| - 1];
      DistinctTwice(xs, front);
      assert (Distinct(xs) + ys)[..|Distinct(xs) + ys| - 1] == Distinct(xs) + front;
      assert (xs + ys)[..|xs + ys| - 1] == xs + front;
    }
  }

  /** So a class without a list of its own has its bases' names in the order of the bases, the last base first. */
  lemma {:induction false} MergedBasesKeepOrder(lists: seq<FieldList>)
    ensures Names(MergeBases(lists)) == Distinct(Flattened(lists))
    ensures MergeBases(lists).None? <==> forall l <- lists :: l.None?
  {
    if lists != [] {
      assert lists == [lists[0]] + lists[1..];
      MergedBasesKeepOrder(lists[1..]);
      if lists[0].Some? {
        DistinctTwice(Flattened(lists[1..]), lists[0].value);
      } else {
        assert Flattened(lists) == Flattened(lists[1..]);
      }
    }
  }

  lemma {:induction false} NoMarkersToExpand(own: seq<Name>, inherited: seq<Name>)
    requires forall x <- own :: !Marker(x)
    ensures Expand(own, inherited) == own && Excluded(own) == []
  {
    if own != [] {
      var v := own[|own| - 1];
      assert v in own;
      NoMarkersToExpand(own[..|own| - 1], inherited);
      assert own == own[..|own| - 1] + [v];
    }
  }

  /** A merged list merged with itself, as for a class without a `Meta` of its own, stays as it is. */
  lemma MergingAgainChangesNothing(l: FieldList)
    requires Clean(l)
    ensures MergeOwn(l, l) == l
  {
    if l.Some? {
      var xs := l.value;
      NoMarkersToExpand(xs, xs);
      NothingExcepted(xs);
      DistinctOfDistinct(xs);
    }
  }

  // ---------- The metaclass ----------

  class Meta {
    var fields: FieldList

    constructor ()
      ensures fields == None
    {
      fields := None;
    }

    /** `_update_meta` for one attribute that is a list of names. */
    method Update(base: bool, other: FieldList)
      modifies this
      ensures fields == if base then MergeBase(old(fields), other) else MergeOwn(old(fields), other)
    {
      if other.None? {
        return;
      }
      var val := other.value;
      var metaVal := Names(fields);
      var newVals, exceptVals: seq<Name> := [], [];
      if base {
        newVals := metaVal;
      }
      for i := 0 to |val|
        invariant base ==> newVals == metaVal + val[..i] && exceptVals == []
        invariant !base ==> newVals == Expand(val[..i], metaVal) && exceptVals == Excluded(val[..i])
      {
        assert val[..i + 1][..i] == val[..i];
        if !base && val[i] == INHERIT {
          newVals := newVals + metaVal;
        } else if !base && Exclusion(val[i]) {
          exceptVals := exceptVals + [val[i][1..]];
        } else {
          newVals := newVals + [val[i]];
        }
      }
      assert val[..|val|] == val;
      var kept := Keep(newVals, exceptVals);
      NothingExcepted(newVals);
      fields := Some(kept);
    }

    static method Keep(newVals: seq<Name>, exceptVals: seq<Name>) returns (val: seq<Name>)
      ensures val == Distinct(Without(newVals, exceptVals))
    {
      val := [];
      for i := 0 to |newVals|
        invariant val == Distinct(Without(newVals[..i], exceptVals))
      {
        assert newVals[..i + 1][..i] == newVals[..i];
        ghost var kept := Without(newVals[..i], exceptVals);
        assert (kept + [newVals[i]])[..|kept|] == kept && kept + [] == kept;
        if newVals[i] !in exceptVals && newVals[i] !in val {
          val := val + [newVals[i]];
        }
      }
      assert newVals[..|newVals|] == newVals;
    }

    /** `__new__`: the bases in reverse order, then the class's own `Meta`, or the merged one again. */
    method New(bases: seq<FieldList>, hasMeta: bool, own: FieldList)
      requires fields == None
      requires forall b <- bases :: Clean(b)
      modifies this
      ensures fields == Merged(bases, if hasMeta then own else None)
    {
      var i := |bases|;
      assert bases[|bases|..] == [];
      while i > 0
        invariant 0 <= i <= |bases|
        invariant fields == MergeBases(bases[i..])
      {
        i := i - 1;
        assert bases[i..][1..] == bases[i + 1..];
        Update(true, bases[i]);
      }
      assert bases[0..] == bases;
      MergeBasesSays(bases);
      if hasMeta {
        Update(false, own);
      } else {
        MergingAgainChangesNothing(fields);
        Update(false, fields);
      }
    }
  }
}
