/**
 The registry of settings: what is registered, in order, and which settings must be invalidated with a
 given one. The dependency map it keeps up is what the settings cache relies on.
 */
module SettingsRegistry {
  import opened Wrappers
  import SettingsCache

  type Key = SettingsCache.Key

  const ALL: string := "all"
  const CHANGED: string := "changed"
  const USER_DEFAULTS: string := "user-defaults"
  const USER: string := "user"

  datatype Registration = Registration(slug: Option<string>, hasFieldClass: bool, readOnly: bool, dependsOn: set<Key>)

  datatype RegisterError = AlreadyRegistered | ReservedSlug | NoFieldClass

  /** `order`: the registered settings, oldest first. */
  datatype View = View(order: seq<Key>, settings: map<Key, Registration>, dependents: map<Key, set<Key>>)

  function At(dependents: map<Key, set<Key>>, x: Key): set<Key> {
    if x in dependents then dependents[x] else {}
  }

  function DependentsOf(v: View, x: Key): set<Key> {
    At(v.dependents, x)
  }

  /** The dependency map inverts the declarations of the settings registered now. */
  ghost predicate Inverts(v: View) {
    forall x, k :: k in At(v.dependents, x) <==> k in v.settings && x in v.settings[k].dependsOn
  }

  ghost predicate Valid(v: View) {
    Lists(v.order, v.settings.Keys) && Inverts(v)
  }

  function Refusal(v: View, k: Key, r: Registration): Option<RegisterError> {
    if k in v.settings then Some(AlreadyRegistered)
    else if r.slug.Some? && r.slug.value in {ALL, CHANGED, USER_DEFAULTS} then Some(ReservedSlug)
    else if !r.hasFieldClass then Some(NoFieldClass)
    else None
  }

  /** Which settings a query is for. */
  datatype Query = Query(slug: Option<string>, readOnly: Option<bool>, ignored: set<Option<string>>)

  function Category(slug: Option<string>): Option<string> {
    if slug == Some(USER_DEFAULTS) then Some(USER) else if slug == Some(CHANGED) then Some(ALL) else slug
  }

  /** The setting that read-only queries never leave out is the one that also has a row. */
  predicate Asked(v: View, q: Query, k: Key)
    requires k in v.settings
  {
    var r := v.settings[k];
    && (Category(q.slug) in {None, Some(ALL)} || Category(q.slug) == r.slug)
    && r.slug !in q.ignored
    && (q.readOnly.None? || r.readOnly == q.readOnly.value || k == SettingsCache.INSTALL_UUID)
  }

  predicate Increasing(positions: seq<nat>, bound: nat) {
    && (forall i | 0 <= i < |positions| :: positions[i] < bound)
    && (forall i, j | 0 <= i < j < |positions| :: positions[i] < positions[j])
  }

  function WithoutKey(ks: seq<Key>, k: Key): seq<Key> {
    if ks == [] then [] else (if ks[0] == k then [] else [ks[0]]) + WithoutKey(ks[1..], k)
  }

  lemma AppendLists(ks: seq<Key>, s: set<Key>, k: Key)
    requires Lists(ks, s) && k !in s
    ensures Lists(ks + [k], s + {k})
  {
  }

  lemma {:induction false} WithoutKeyLists(ks: seq<Key>, s: set<Key>, k: Key)
    requires Lists(ks, s)
    ensures Lists(WithoutKey(ks, k), s - {k})
  {
    if ks != [] {
      var tail := ks[1..];
      assert ks == [ks[0]] + tail;
      forall x
        ensures x in tail <==> x in s - {ks[0]}
      {
        if x in tail {
          var i :| 0 <= i < |tail| && tail[i] == x;
          assert ks[i + 1] == x && ks[0] != ks[i + 1];
        }
      }
      WithoutKeyLists(tail, s - {ks[0]}, k);
      assert s - {ks[0]} - {k} == if ks[0] == k then s - {k} else s - {k} - {ks[0]};
      assert ks[0] in ks;
    }
  }

  class Registry {
    var order: seq<Key>
    var settings: map<Key, Registration>
    var dependents: map<Key, set<Key>>

    function Now(): View
      reads this
    {
      View(order, settings, dependents)
    }

    constructor ()
      ensures Valid(Now()) && settings == map[]
    {
      order, settings, dependents := [], map[], map[];
    }

    /** `k` becomes a dependent of each setting it declares. */
    method AddDependent(k: Key, dependsOn: set<Key>)
      modifies this
      ensures order == old(order) && settings == old(settings)
      ensures forall x :: At(dependents, x) == At(old(dependents), x) + (if x in dependsOn then {k} else {})
    {
      var keys := SetToSeq(dependsOn);
      for i := 0 to |keys|
        invariant order == old(order) && settings == old(settings)
        invariant forall x :: At(dependents, x) == At(old(dependents), x) + (if x in keys[..i] then {k} else {})
      {
        assert keys[..i + 1] == keys[..i] + [keys[i]];
        dependents := dependents[keys[i] := At(dependents, keys[i]) + {k}];
      }
      assert keys[..|keys|] == keys;
    }

    method Register(k: Key, r: Registration) returns (error: Option<RegisterError>)
      requires Valid(Now())
      modifies this
      ensures Valid(Now()) && error == Refusal(old(Now()), k, r)
      ensures error.None? <==>
        k !in old(settings) && r.slug !in {Some("all"), Some("changed"), Some("user-defaults")} && r.hasFieldClass
      ensures error.Some? ==> Now() == old(Now())
      ensures error.None? ==> order == old(order) + [k] && settings == old(settings)[k := r]
    {
      if k in settings {
        return Some(AlreadyRegistered);
      }
      if r.slug.Some? && r.slug.value in {ALL, CHANGED, USER_DEFAULTS} {
        return Some(ReservedSlug);
      }
      if !r.hasFieldClass {
        return Some(NoFieldClass);
      }
      AppendLists(order, settings.Keys, k);
      order := order + [k];
      settings := settings[k := r];
      AddDependent(k, r.dependsOn);
      return None;
    }

    method Unregister(k: Key)
      requires Valid(Now())
      modifies this
      ensures Valid(Now()) && settings == old(settings) - {k}
      ensures order == WithoutKey(old(order), k)
    {
      WithoutKeyLists(order, settings.Keys, k);
      order := WithoutKey(order, k);
      settings := settings - {k};
      dependents := map x | x in dependents :: dependents[x] - {k};
      assert forall y :: At(dependents, y) == At(old(dependents), y) - {k};
    }

    method GetDependentSettings(k: Key) returns (keys: set<Key>)
      requires Valid(Now())
      ensures keys == set d | d in settings && k in settings[d].dependsOn
    {
      keys := if k in dependents then dependents[k] else {};
      assert keys == DependentsOf(Now(), k);
    }

    /** Exactly the settings asked for, in the order of their registration. */
    method GetRegisteredSettings(q: Query) returns (names: seq<Key>, ghost positions: seq<nat>)
      requires Valid(Now())
      ensures forall k :: k in names <==> k in settings && Asked(Now(), q, k)
      ensures |positions| == |names| && Increasing(positions, |order|)
      ensures forall i | 0 <= i < |names| :: names[i] == order[positions[i]]
    {
      names, positions := [], [];
      var category := Category(q.slug);
      for i := 0 to |order|
        invariant forall k :: k in names <==> k in order[..i] && k in settings && Asked(Now(), q, k)
        invariant |positions| == |names| && Increasing(positions, i)
        invariant forall j | 0 <= j < |names| :: names[j] == order[positions[j]]
      {
        assert order[i] in order && order[..i + 1] == order[..i] + [order[i]];
        var r := settings[order[i]];
        if category !in {None, Some(ALL)} && category != r.slug {
          continue;
        }
        if r.slug in q.ignored {
          continue;
        }
        if q.readOnly.Some? && r.readOnly != q.readOnly.value && order[i] != SettingsCache.INSTALL_UUID {
          continue;
        }
        names, positions := names + [order[i]], positions + [i];
      }
      assert order[..|order|] == order;
    }
  }

  // ---------- What the queries give ----------

  /**
   Asking for the read-only settings and for the others splits what a query gives in two; only the
   installation id is given both times.
   */
  lemma ReadOnlySplits(v: View, q: Query, k: Key)
    requires k in v.settings && q.readOnly.None?
    ensures Asked(v, q, k) <==> Asked(v, q.(readOnly := Some(true)), k) || Asked(v, q.(readOnly := Some(false)), k)
    ensures Asked(v, q.(readOnly := Some(true)), k) && Asked(v, q.(readOnly := Some(false)), k) <==>
      Asked(v, q, k) && k == SettingsCache.INSTALL_UUID
  {
  }

  /** Two categories have a second name, one stands for all settings, and any other gives its own settings. */
  lemma CategoriesGive(v: View, q: Query, k: Key)
    requires k in v.settings && q.readOnly.None? && q.ignored == {}
    ensures q.slug in {None, Some(ALL), Some(CHANGED)} ==> Asked(v, q, k)
    ensures q.slug == Some(USER_DEFAULTS) ==> (Asked(v, q, k) <==> v.settings[k].slug == Some(USER))
    ensures q.slug !in {None, Some(ALL), Some(CHANGED), Some(USER_DEFAULTS)} ==>
      (Asked(v, q, k) <==> v.settings[k].slug == q.slug)
  {
    assert USER != ALL && CHANGED != ALL;
  }

  // ---------- What the cache needs ----------

  predicate SameRows(db: SettingsCache.Db, db': SettingsCache.Db, keys: set<Key>) {
    forall k <- keys :: (k in db <==> k in db') && (k in db ==> db[k] == db'[k])
  }

  /** The default of a registered field reads no rows but those of the settings it declares. */
  ghost predicate DeclaresWhatItReads(v: View, r: SettingsCache.Rules) {
    && (forall k, db :: k !in v.settings ==> r.fieldDefault(k, db) == None)
    && (forall k, db, db' :: k in v.settings && SameRows(db, db', v.settings[k].dependsOn + {k}) ==>
          r.fieldDefault(k, db) == r.fieldDefault(k, db'))
  }

  /**
   With the dependents that the registry gives, the invalidation of one level is enough for the cache
   to refine the plain look-up, provided each registered field declares what its default reads.
   */
  lemma RegistryMakesInvalidationComplete(v: View, r: SettingsCache.Rules)
    requires Valid(v) && DeclaresWhatItReads(v, r)
    requires forall x, k :: k in r.dependents(x) <==> k in DependentsOf(v, x)
    ensures SettingsCache.DependenciesComplete(r)
  {
    forall k: Key, x: Key, db: SettingsCache.Db, value: SettingsCache.Value {:trigger r.fieldDefault(k, db[x := value])}
      | k != x && k !in r.dependents(x)
      ensures r.fieldDefault(k, db[x := value]) == r.fieldDefault(k, db)
    {
      assert k !in DependentsOf(v, x);
      if k in v.settings {
        assert SameRows(db[x := value], db, v.settings[k].dependsOn + {k});
      }
    }
    forall k: Key, x: Key, db: SettingsCache.Db {:trigger r.fieldDefault(k, db - {x})} | k != x && k !in r.dependents(x)
      ensures r.fieldDefault(k, db - {x}) == r.fieldDefault(k, db)
    {
      assert k !in DependentsOf(v, x);
      if k in v.settings {
        assert SameRows(db - {x}, db, v.settings[k].dependsOn + {k});
      }
    }
  }
}
