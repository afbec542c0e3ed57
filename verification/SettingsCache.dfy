/**
 The layered settings cache of one process: a short-lived memo in memory, a shared cache whose
 values are encoded with sentinels, the database rows, the defaults of the registered fields, and
 the defaults of the settings files. Reading through all of them refines one simple look-up.
 */
module SettingsCache {
  import opened Wrappers

  type Key = string

  datatype Value =
    | Null
    | Bool(b: bool)
    | Number(n: int)
    | Text(s: string)
    | Array(items: seq<Value>)
    | Object(fields: map<string, Value>)

  type Db = map<Key, Value>

  const MEMORY_TTL: nat := 5
  const CACHE_TIMEOUT: nat := 60

  const NOT_SET: Value := Text("___notset___")
  const EMPTY_LIST: Value := Text("___[]___")
  const EMPTY_DICT: Value := Text("___{}___")

  const INSTALL_UUID: Key := "INSTALL_UUID"

  /**
   The registry and the settings files. `dependents` lists what must be invalidated with a key.
   A field default may read other settings, so it depends on the rows; `None` means no default.
   `validate` may read other settings too; `None` means the value is refused. `represent` is what a written
   value is stored as, after conversion and validation; `None` means it is refused, and the write raises.
   */
  datatype Rules = Rules(
    registered: set<Key>,
    readOnly: set<Key>,
    dependents: Key -> seq<Key>,
    fieldDefault: (Key, Db) -> Option<Value>,
    validate: (Key, Db, Value) -> Option<Value>,
    represent: (Key, Db, Value) -> Option<Value>,
    fileDefault: map<Key, Value>)

  // ---------- Sentinels ----------

  function Encode(v: Value): Value {
    match v
    case Null => NOT_SET
    case Array(items) => if items == [] then EMPTY_LIST else v
    case Object(fields) => if fields == map[] then EMPTY_DICT else v
    case _ => v
  }

  /** What a cached value stands for; `None` when the cache says "not set". */
  function Decode(c: Value): Option<Value> {
    if c == NOT_SET then None
    else if c == EMPTY_LIST then Some(Array([]))
    else if c == EMPTY_DICT then Some(Object(map[]))
    else Some(c)
  }

  predicate Unset(v: Value) {
    v == Null || v == NOT_SET
  }

  predicate Sentinel(v: Value) {
    v == EMPTY_LIST || v == EMPTY_DICT
  }

  /** The cache gives back what was put in, except a text that looks like an empty collection. */
  lemma CacheRoundTrip(v: Value)
    ensures Decode(Encode(v)) == (if Unset(v) then None else Some(v)) <==> !Sentinel(v)
  {
  }

  // ---------- The simple look-up ----------

  predicate ReadsDb(r: Rules, k: Key) {
    k !in r.readOnly || k == INSTALL_UUID
  }

  function Row(r: Rules, k: Key, db: Db): Option<Value> {
    if ReadsDb(r, k) && k in db then Some(db[k]) else None
  }

  /** The row if there is one, else the field's default; a null value counts as not set. */
  function Fetch(r: Rules, k: Key, db: Db): Value {
    var v := match Row(r, k, db)
      case Some(v) => v
      case None => (match r.fieldDefault(k, db) case Some(d) => d case None => NOT_SET);
    if v == Null then NOT_SET else v
  }

  function Served(r: Rules, k: Key, db: Db, v: Value): Option<Value> {
    if v == NOT_SET then None else r.validate(k, db, v)
  }

  function OrFile(r: Rules, k: Key, v: Option<Value>): Option<Value> {
    if v.Some? then v else if k in r.fileDefault then Some(r.fileDefault[k]) else None
  }

  /** Reading a setting with no cache at all; `None` is an attribute error. */
  function Lookup(r: Rules, k: Key, db: Db): Option<Value> {
    OrFile(r, k, if k in r.registered then Served(r, k, db, Fetch(r, k, db)) else None)
  }

  // ---------- The caches ----------

  datatype Entry<T> = Entry(value: T, expires: nat)

  /** `marker` and `localMarker` are the expiry of the last preload, shared and as this process knows it. */
  datatype Store = Store(
    now: nat,
    db: Db,
    shared: map<Key, Entry<Value>>,
    marker: Option<nat>,
    localMarker: Option<nat>,
    memo: map<Key, Entry<Option<Value>>>)

  function Preloaded(r: Rules): set<Key> {
    set k | k in r.registered && ReadsDb(r, k)
  }

  /** What a preload stores for a key: unlike `Fetch`, it lets a default stand in for a null row. */
  function PreloadValue(r: Rules, k: Key, db: Db): Value {
    var row := if k in db then Encode(db[k]) else NOT_SET;
    if row != NOT_SET then row
    else match r.fieldDefault(k, db) case Some(d) => Encode(d) case None => NOT_SET
  }

  function Preload(r: Rules, s: Store): Store {
    if s.localMarker.Some? && s.localMarker.value > s.now then s
    else
      var s1 := s.(localMarker := Some(s.now + CACHE_TIMEOUT));
      if s.marker.Some? && s.now < s.marker.value then s1
      else s1.(marker := Some(s.now + CACHE_TIMEOUT),
               shared := s.shared + map k | k in Preloaded(r) :: Entry(PreloadValue(r, k, s.db), s.now + CACHE_TIMEOUT))
  }

  function Cached(s: Store, k: Key): Option<Value> {
    if k in s.shared && s.now < s.shared[k].expires then Some(s.shared[k].value) else None
  }

  function Memoized(s: Store, k: Key): Option<Option<Value>> {
    if k in s.memo && s.now < s.memo[k].expires then Some(s.memo[k].value) else None
  }

  function GetLocal(r: Rules, s0: Store, k: Key): (Store, Option<Value>) {
    var s := Preload(r, s0);
    var c := Cached(s, k);
    var found := if c.Some? then Decode(c.value) else None;
    if found.Some? then (s, Served(r, k, s.db, found.value))
    else
      var v := Fetch(r, k, s.db);
      (if c != Some(v) then s.(shared := s.shared[k := Entry(Encode(v), s.now + CACHE_TIMEOUT)]) else s,
       Served(r, k, s.db, v))
  }

  function GetAttr(r: Rules, s: Store, k: Key): (Store, Option<Value>) {
    if k !in r.registered then (s, OrFile(r, k, None))
    else match Memoized(s, k)
      case Some(m) => (s, OrFile(r, k, m))
      case None =>
        var (s1, m) := GetLocal(r, s, k);
        (s1.(memo := s1.memo[k := Entry(m, s1.now + MEMORY_TTL)]), OrFile(r, k, m))
  }

  function ReadAll(r: Rules, s: Store, keys: seq<Key>): Store {
    if keys == [] then s else GetAttr(r, ReadAll(r, s, keys[..|keys| - 1]), keys[|keys| - 1]).0
  }

  /** `handle_setting_change`: drop the key and its dependents, forget the memo, and read them again. */
  function HandleChange(r: Rules, s: Store, k: Key): Store {
    var keys := [k] + r.dependents(k);
    ReadAll(r, s.(shared := s.shared - (set x | x in keys), memo := map[]), keys)
  }

  datatype Op =
    | Read(key: Key)
    | Write(key: Key, value: Value)
    | Remove(key: Key)
    | Wait(seconds: nat)
    | Evict(shared: set<Key>, memo: set<Key>, marker: bool)

  /**
   Writing or deleting a read-only setting raises and changes nothing, and so does writing a value that is
   refused; writing an equal value changes nothing. The shared cache may evict anything, the marker included.
   */
  function Do(r: Rules, s: Store, op: Op): Store {
    match op
    case Read(k) => GetAttr(r, s, k).0
    case Write(k, v) =>
      var stored := r.represent(k, s.db, v);
      if k in r.readOnly || stored.None? || (k in s.db && s.db[k] == stored.value) then s
      else HandleChange(r, s.(db := s.db[k := stored.value]), k)
    case Remove(k) =>
      if k in r.readOnly || k !in s.db then s
      else HandleChange(r, s.(db := s.db - {k}), k)
    case Wait(n) => s.(now := s.now + n)
    case Evict(shared, memo, marker) =>
      s.(shared := s.shared - shared, memo := s.memo - memo, marker := if marker then None else s.marker)
  }

  function DoAll(r: Rules, s: Store, ops: seq<Op>): Store {
    if ops == [] then s else Do(r, DoAll(r, s, ops[..|ops| - 1]), ops[|ops| - 1])
  }

  function Cold(db: Db): Store {
    Store(0, db, map[], None, None, map[])
  }

  // ---------- The object ----------

  class SettingsWrapper {
    const rules: Rules
    var now: nat
    var db: Db
    var shared: map<Key, Entry<Value>>
    var marker: Option<nat>
    var localMarker: Option<nat>
    var memo: map<Key, Entry<Option<Value>>>

    function View(): Store
      reads this
    {
      Store(now, db, shared, marker, localMarker, memo)
    }

    constructor (rules: Rules, db: Db)
      ensures this.rules == rules && View() == Cold(db)
    {
      this.rules, this.db := rules, db;
      now, shared, marker, localMarker, memo := 0, map[], None, None, map[];
    }

    /** Every key that may have a row starts as not set and takes the value of its row, if any. */
    method CollectRows(keys: seq<Key>) returns (values: map<Key, Value>)
      ensures values == map k | k in keys :: if k in db then Encode(db[k]) else NOT_SET
    {
      values := map[];
      for i := 0 to |keys|
        invariant values == map k | k in keys[..i] :: if k in db then Encode(db[k]) else NOT_SET
      {
        assert keys[..i + 1] == keys[..i] + [keys[i]];
        values := values[keys[i] := NOT_SET];
        if keys[i] in db {
          values := values[keys[i] := Encode(db[keys[i]])];
        }
      }
      assert keys[..|keys|] == keys;
    }

    /** Keys still not set take the default of their field, if any. */
    method AddDefaults(rows: map<Key, Value>) returns (values: map<Key, Value>)
      requires forall k <- rows :: rows[k] == if k in db then Encode(db[k]) else NOT_SET
      ensures values == map k | k in rows :: PreloadValue(rules, k, db)
    {
      var keys := SetToSeq(rows.Keys);
      values := rows;
      for i := 0 to |keys|
        invariant values.Keys == rows.Keys
        invariant forall j | 0 <= j < i :: values[keys[j]] == PreloadValue(rules, keys[j], db)
        invariant forall j | i <= j < |keys| :: values[keys[j]] == rows[keys[j]]
      {
        if values[keys[i]] == NOT_SET {
          var d := rules.fieldDefault(keys[i], db);
          if d.Some? {
            values := values[keys[i] := Encode(d.value)];
          }
        }
      }
      assert forall k <- rows :: k in keys;
    }

    method PreloadEntries() returns (entries: map<Key, Entry<Value>>)
      ensures entries == map k | k in Preloaded(rules) :: Entry(PreloadValue(rules, k, db), now + CACHE_TIMEOUT)
    {
      var keys := SetToSeq(Preloaded(rules));
      var rows := CollectRows(keys);
      var values := AddDefaults(rows);
      entries := map k | k in values :: Entry(values[k], now + CACHE_TIMEOUT);
    }

    method PreloadCache()
      modifies this
      ensures View() == Preload(rules, old(View()))
    {
      if localMarker.Some? && localMarker.value > now {
        return;
      }
      localMarker := Some(now + CACHE_TIMEOUT);
      if marker.Some? && now < marker.value {
        return;
      }
      var entries := PreloadEntries();
      marker := localMarker;
      shared := shared + entries;
    }

    method GetLocalValue(name: Key) returns (value: Option<Value>)
      modifies this
      ensures (View(), value) == GetLocal(rules, old(View()), name)
    {
      PreloadCache();
      var cacheValue := Cached(View(), name);
      var found := if cacheValue.Some? then Decode(cacheValue.value) else None;
      if found.Some? {
        return Served(rules, name, db, found.value);
      }
      var fetched := NOT_SET;
      if (name !in rules.readOnly || name == INSTALL_UUID) && name in db {
        fetched := db[name];
      } else {
        var d := rules.fieldDefault(name, db);
        if d.Some? {
          fetched := d.value;
        }
      }
      if fetched == Null {
        fetched := NOT_SET;
      }
      if cacheValue != Some(fetched) {
        shared := shared[name := Entry(Encode(fetched), now + CACHE_TIMEOUT)];
      }
      value := Served(rules, name, db, fetched);
    }

    method GetAttribute(name: Key) returns (value: Option<Value>)
      modifies this
      ensures (View(), value) == GetAttr(rules, old(View()), name)
    {
      var local: Option<Value> := None;
      if name in rules.registered {
        if name in memo && now < memo[name].expires {
          local := memo[name].value;
        } else {
          local := GetLocalValue(name);
          memo := memo[name := Entry(local, now + MEMORY_TTL)];
        }
      }
      value := OrFile(rules, name, local);
    }

    method HandleSettingChange(key: Key)
      modifies this
      ensures View() == HandleChange(rules, old(View()), key)
    {
      var keys := [key] + rules.dependents(key);
      shared := shared - (set x | x in keys);
      memo := map[];
      ghost var dropped := View();
      for i := 0 to |keys|
        invariant View() == ReadAll(rules, dropped, keys[..i])
      {
        assert keys[..i + 1][..i] == keys[..i];
        var _ := GetAttribute(keys[i]);
      }
      assert keys[..|keys|] == keys;
    }

    method SetLocal(name: Key, value: Value) returns (ok: bool)
      modifies this
      ensures ok <==> name !in rules.readOnly && rules.represent(name, old(db), value).Some?
      ensures View() == Do(rules, old(View()), Write(name, value))
    {
      if name in rules.readOnly {
        return false;
      }
      var dbValue := rules.represent(name, db, value);
      if dbValue.None? {
        return false;
      }
      if name !in db || db[name] != dbValue.value {
        db := db[name := dbValue.value];
        HandleSettingChange(name);
      }
      return true;
    }

    method DelLocal(name: Key) returns (ok: bool)
      modifies this
      ensures ok <==> name !in rules.readOnly
      ensures View() == Do(rules, old(View()), Remove(name))
    {
      if name in rules.readOnly {
        return false;
      }
      if name in db {
        db := db - {name};
        HandleSettingChange(name);
      }
      return true;
    }
  }

  // ---------- Refinement ----------

  /** Declared dependencies are complete: a default changes only with rows that name it as a dependent. */
  ghost predicate DependenciesComplete(r: Rules) {
    && (forall k: Key, x: Key, db: Db, v: Value {:trigger r.fieldDefault(k, db[x := v])} ::
          k != x && k !in r.dependents(x) ==> r.fieldDefault(k, db[x := v]) == r.fieldDefault(k, db))
    && (forall k: Key, x: Key, db: Db {:trigger r.fieldDefault(k, db - {x})} ::
          k != x && k !in r.dependents(x) ==> r.fieldDefault(k, db - {x}) == r.fieldDefault(k, db))
  }

  /**
   A row that counts as not set hides a default that is set. A preload puts the default in the
   cache, a direct read does not use it.
   */
  predicate NullRowHidesDefault(r: Rules, k: Key, db: Db) {
    && Row(r, k, db).Some? && Unset(Row(r, k, db).value)
    && r.fieldDefault(k, db).Some? && !Unset(r.fieldDefault(k, db).value)
  }

  predicate Plain(r: Rules, k: Key, db: Db) {
    !Sentinel(Fetch(r, k, db)) && !NullRowHidesDefault(r, k, db)
  }

  /** What a cached value makes a read serve. */
  function ReadFrom(r: Rules, k: Key, db: Db, c: Value): Option<Value> {
    Served(r, k, db, match Decode(c) case Some(v) => v case None => Fetch(r, k, db))
  }

  /** The two values the shared cache can hold for a key. */
  predicate Cacheable(r: Rules, k: Key, db: Db, c: Value) {
    c == Encode(Fetch(r, k, db)) || (k in Preloaded(r) && c == PreloadValue(r, k, db))
  }

  ghost predicate Answer(r: Rules, k: Key, db: Db, m: Option<Value>) {
    m == Served(r, k, db, Fetch(r, k, db)) || exists c :: Cacheable(r, k, db, c) && m == ReadFrom(r, k, db, c)
  }

  ghost predicate Consistent(r: Rules, s: Store) {
    && (forall k :: Cached(s, k).Some? ==> Cacheable(r, k, s.db, Cached(s, k).value))
    && (forall k :: Memoized(s, k).Some? ==> Answer(r, k, s.db, Memoized(s, k).value))
  }

  lemma PlainAnswersAgree(r: Rules, k: Key, db: Db, m: Option<Value>)
    requires Plain(r, k, db) && Answer(r, k, db, m)
    ensures m == Served(r, k, db, Fetch(r, k, db))
  {
  }

  lemma PreloadKeeps(r: Rules, s: Store)
    requires Consistent(r, s)
    ensures Consistent(r, Preload(r, s)) && Preload(r, s).db == s.db && Preload(r, s).now == s.now
  {
    var s1 := Preload(r, s);
    forall k | Cached(s1, k).Some?
      ensures Cacheable(r, k, s1.db, Cached(s1, k).value)
    {
      assert Cached(s1, k) == Cached(s, k) || (k in Preloaded(r) && Cached(s1, k) == Some(PreloadValue(r, k, s.db)));
    }
    assert forall k :: Memoized(s1, k) == Memoized(s, k);
  }

  lemma GetLocalKeeps(r: Rules, s: Store, k: Key)
    requires Consistent(r, s)
    ensures var (s1, m) := GetLocal(r, s, k);
      Consistent(r, s1) && s1.db == s.db && s1.now == s.now && Answer(r, k, s.db, m)
  {
    PreloadKeeps(r, s);
    var s0 := Preload(r, s);
    var (s1, m) := GetLocal(r, s, k);
    assert forall x :: Memoized(s1, x) == Memoized(s0, x);
    assert forall x :: x != k ==> Cached(s1, x) == Cached(s0, x);
    var c := Cached(s0, k);
    if c.Some? && Decode(c.value).Some? {
      assert m == ReadFrom(r, k, s.db, c.value);
    }
  }

  lemma MemoKeeps(r: Rules, s: Store, k: Key, m: Option<Value>)
    requires Consistent(r, s) && Answer(r, k, s.db, m)
    ensures Consistent(r, s.(memo := s.memo[k := Entry(m, s.now + MEMORY_TTL)]))
  {
    var s1 := s.(memo := s.memo[k := Entry(m, s.now + MEMORY_TTL)]);
    assert forall x :: Cached(s1, x) == Cached(s, x);
    assert forall x :: x != k ==> Memoized(s1, x) == Memoized(s, x);
    assert Memoized(s1, k) == Some(m);
  }

  lemma GetAttrKeeps(r: Rules, s: Store, k: Key)
    requires Consistent(r, s)
    ensures var (s1, v) := GetAttr(r, s, k);
      && Consistent(r, s1) && s1.db == s.db && s1.now == s.now
      && (k in r.registered ==> exists m :: Answer(r, k, s.db, m) && v == OrFile(r, k, m))
      && (k !in r.registered ==> v == Lookup(r, k, s.db))
  {
    if k in r.registered && Memoized(s, k).None? {
      GetLocalKeeps(r, s, k);
      MemoKeeps(r, GetLocal(r, s, k).0, k, GetLocal(r, s, k).1);
    }
  }

  lemma {:induction false} ReadAllKeeps(r: Rules, s: Store, keys: seq<Key>)
    requires Consistent(r, s)
    ensures Consistent(r, ReadAll(r, s, keys)) && ReadAll(r, s, keys).db == s.db
  {
    if keys != [] {
      ReadAllKeeps(r, s, keys[..|keys| - 1]);
      GetAttrKeeps(r, ReadAll(r, s, keys[..|keys| - 1]), keys[|keys| - 1]);
    }
  }

  /** Invalidating a key with its declared dependents is enough, if the declarations are complete. */
  lemma ChangeKeeps(r: Rules, s: Store, k: Key, db': Db)
    requires Consistent(r, s) && DependenciesComplete(r)
    requires db' == s.db - {k} || (k in db' && db' == s.db[k := db'[k]])
    ensures Consistent(r, HandleChange(r, s.(db := db'), k)) && HandleChange(r, s.(db := db'), k).db == db'
  {
    var keys := [k] + r.dependents(k);
    var s1 := s.(db := db', shared := s.shared - (set x | x in keys), memo := map[]);
    forall x | Cached(s1, x).Some?
      ensures Cacheable(r, x, s1.db, Cached(s1, x).value)
    {
      assert x !in keys && x != k && x !in r.dependents(k);
      assert r.fieldDefault(x, db') == r.fieldDefault(x, s.db);
      assert Cached(s1, x) == Cached(s, x);
    }
    ReadAllKeeps(r, s1, keys);
  }

  lemma DoKeeps(r: Rules, s: Store, op: Op)
    requires Consistent(r, s) && DependenciesComplete(r)
    ensures Consistent(r, Do(r, s, op))
  {
    match op {
      case Read(k) => GetAttrKeeps(r, s, k);
      case Write(k, v) =>
        if r.represent(k, s.db, v).Some? {
          ChangeKeeps(r, s, k, s.db[k := r.represent(k, s.db, v).value]);
        }
      case Remove(k) => ChangeKeeps(r, s, k, s.db - {k});
      case _ =>
        var s1 := Do(r, s, op);
        assert forall x :: Cached(s1, x).Some? ==> Cached(s1, x) == Cached(s, x);
        assert forall x :: Memoized(s1, x).Some? ==> Memoized(s1, x) == Memoized(s, x);
    }
  }

  lemma {:induction false} DoAllKeeps(r: Rules, db: Db, ops: seq<Op>)
    requires DependenciesComplete(r)
    ensures Consistent(r, DoAll(r, Cold(db), ops))
  {
    if ops != [] {
      DoAllKeeps(r, db, ops[..|ops| - 1]);
      DoKeeps(r, DoAll(r, Cold(db), ops[..|ops| - 1]), ops[|ops| - 1]);
    }
  }

  /**
   After any run of reads, writes, deletions, waits and evictions, a read through the caches gives
   what the simple look-up gives on the rows as they are.
   */
  lemma CachedReadIsLookup(r: Rules, db: Db, ops: seq<Op>, k: Key)
    requires DependenciesComplete(r)
    requires Plain(r, k, DoAll(r, Cold(db), ops).db)
    ensures var s := DoAll(r, Cold(db), ops);
      GetAttr(r, s, k).1 == Lookup(r, k, s.db)
  {
    DoAllKeeps(r, db, ops);
    var s := DoAll(r, Cold(db), ops);
    GetAttrKeeps(r, s, k);
    if k in r.registered {
      var m :| Answer(r, k, s.db, m) && GetAttr(r, s, k).1 == OrFile(r, k, m);
      PlainAnswersAgree(r, k, s.db, m);
    }
  }

  // ---------- What a read serves ----------

  predicate ServesFile(r: Rules, k: Key, served: Option<Value>) {
    if k in r.fileDefault then served == Some(r.fileDefault[k]) else served == None
  }

  /** `served` is the value where validation passes it, in the form it gives it, and the file default where not. */
  predicate ServesValid(r: Rules, k: Key, db: Db, v: Value, served: Option<Value>) {
    && (r.validate(k, db, v).Some? ==> served == r.validate(k, db, v))
    && (r.validate(k, db, v).None? ==> ServesFile(r, k, served))
  }

  /** Rows are read for all settings but the read-only ones, except the installation id. */
  predicate HasRow(r: Rules, k: Key, db: Db) {
    k in db && (k in r.readOnly ==> k == INSTALL_UUID)
  }

  /** After any run: a setting with a row is served from the row. */
  lemma RowIsServed(r: Rules, db: Db, ops: seq<Op>, k: Key)
    requires DependenciesComplete(r) && k in r.registered
    requires var d := DoAll(r, Cold(db), ops).db; HasRow(r, k, d) && !Unset(d[k]) && !Sentinel(d[k])
    ensures var s := DoAll(r, Cold(db), ops); ServesValid(r, k, s.db, s.db[k], GetAttr(r, s, k).1)
  {
    CachedReadIsLookup(r, db, ops, k);
  }

  /** One without a row from its field's default; a row of a read-only setting does not count. */
  lemma DefaultIsServed(r: Rules, db: Db, ops: seq<Op>, k: Key, d: Value)
    requires DependenciesComplete(r) && k in r.registered && !Unset(d) && !Sentinel(d)
    requires var e := DoAll(r, Cold(db), ops).db; !HasRow(r, k, e) && r.fieldDefault(k, e) == Some(d)
    ensures var s := DoAll(r, Cold(db), ops); ServesValid(r, k, s.db, d, GetAttr(r, s, k).1)
  {
    CachedReadIsLookup(r, db, ops, k);
  }

  /** One with neither, and a name that is not registered, from the settings files. */
  lemma FileDefaultIsServed(r: Rules, db: Db, ops: seq<Op>, k: Key)
    requires DependenciesComplete(r)
    requires var e := DoAll(r, Cold(db), ops).db;
      k in r.registered ==> (HasRow(r, k, e) ==> Unset(e[k])) && r.fieldDefault(k, e).None?
    ensures ServesFile(r, k, GetAttr(r, DoAll(r, Cold(db), ops), k).1)
  {
    if k in r.registered {
      CachedReadIsLookup(r, db, ops, k);
    }
  }

  lemma {:induction false} ReadAllKeepsRows(r: Rules, s: Store, keys: seq<Key>)
    ensures ReadAll(r, s, keys).db == s.db && ReadAll(r, s, keys).now == s.now
  {
    if keys != [] {
      ReadAllKeepsRows(r, s, keys[..|keys| - 1]);
    }
  }

  /** The rows after an operation: a write and a removal change their own, unless refused; nothing else does. */
  lemma RowsAfter(r: Rules, s: Store, op: Op)
    ensures var d := Do(r, s, op).db;
      match op
      case Write(k, v) =>
        d == if k in r.readOnly || r.represent(k, s.db, v).None? then s.db
             else s.db[k := r.represent(k, s.db, v).value]
      case Remove(k) => d == if k in r.readOnly then s.db else s.db - {k}
      case _ => d == s.db
  {
    match op {
      case Write(k, v) =>
        var stored := r.represent(k, s.db, v);
        if stored.Some? {
          var s1 := s.(db := s.db[k := stored.value]);
          var keys := [k] + r.dependents(k);
          ReadAllKeepsRows(r, s1.(shared := s1.shared - (set x | x in keys), memo := map[]), keys);
          assert k in s.db && s.db[k] == stored.value ==> s.db[k := stored.value] == s.db;
        }
      case Remove(k) =>
        var s1 := s.(db := s.db - {k});
        var keys := [k] + r.dependents(k);
        ReadAllKeepsRows(r, s1.(shared := s1.shared - (set x | x in keys), memo := map[]), keys);
        assert k !in s.db ==> s.db - {k} == s.db;
      case _ =>
    }
  }

  lemma DoLast(r: Rules, s: Store, ops: seq<Op>, op: Op)
    ensures DoAll(r, s, ops + [op]) == Do(r, DoAll(r, s, ops), op)
  {
    assert (ops + [op])[..|ops|] == ops;
  }

  /** Read your write: after any run, what was just written is served, in its stored form as validated. */
  lemma WrittenIsRead(r: Rules, db: Db, ops: seq<Op>, k: Key, v: Value, w: Value)
    requires DependenciesComplete(r) && k in r.registered && k !in r.readOnly
    requires r.represent(k, DoAll(r, Cold(db), ops).db, v) == Some(w) && !Unset(w) && !Sentinel(w)
    ensures var s := DoAll(r, Cold(db), ops + [Write(k, v)]);
      s.db == DoAll(r, Cold(db), ops).db[k := w] && ServesValid(r, k, s.db, w, GetAttr(r, s, k).1)
  {
    DoLast(r, Cold(db), ops, Write(k, v));
    RowsAfter(r, DoAll(r, Cold(db), ops), Write(k, v));
    RowIsServed(r, db, ops + [Write(k, v)], k);
  }

  /** After a removal the field's default is served, or without one that of the files. */
  lemma RemovedFallsBack(r: Rules, db: Db, ops: seq<Op>, k: Key)
    requires DependenciesComplete(r) && k in r.registered && k !in r.readOnly
    requires var d := r.fieldDefault(k, DoAll(r, Cold(db), ops).db - {k});
      d.Some? ==> !Unset(d.value) && !Sentinel(d.value)
    ensures var s := DoAll(r, Cold(db), ops + [Remove(k)]);
      && s.db == DoAll(r, Cold(db), ops).db - {k}
      && match r.fieldDefault(k, s.db)
         case Some(d) => ServesValid(r, k, s.db, d, GetAttr(r, s, k).1)
         case None => ServesFile(r, k, GetAttr(r, s, k).1)
  {
    DoLast(r, Cold(db), ops, Remove(k));
    RowsAfter(r, DoAll(r, Cold(db), ops), Remove(k));
    var s := DoAll(r, Cold(db), ops + [Remove(k)]);
    match r.fieldDefault(k, s.db) {
      case Some(d) => DefaultIsServed(r, db, ops + [Remove(k)], k, d);
      case None => FileDefaultIsServed(r, db, ops + [Remove(k)], k);
    }
  }

  // ---------- One preload a minute ----------

  /**
   For sixty seconds after a preload the process does not preload again, whatever happens to the rows and the
   cache; and it leaves the cache as it is when another process's preload is in force.
   */
  lemma PreloadsOncePerTimeout(r: Rules, s: Store, later: Store)
    requires s.localMarker.None? || s.localMarker.value <= s.now
    requires s.now <= later.now < s.now + CACHE_TIMEOUT && later.localMarker == Preload(r, s).localMarker
    ensures Preload(r, later) == later
    ensures s.marker.Some? && s.now < s.marker.value ==>
      Preload(r, s).shared == s.shared && Preload(r, s).marker == s.marker
    ensures s.marker.None? || s.marker.value <= s.now ==>
      && Preload(r, s).marker == Some(s.now + CACHE_TIMEOUT)
      && forall k | k in r.registered && (k in r.readOnly ==> k == INSTALL_UUID) :: Cached(Preload(r, s), k).Some?
  {
  }

  // ---------- A change reads again ----------

  lemma {:induction false} ReadAllMemoizes(r: Rules, s: Store, keys: seq<Key>, k: Key)
    requires k in r.registered && (k in keys || Memoized(s, k).Some?)
    ensures Memoized(ReadAll(r, s, keys), k).Some? && ReadAll(r, s, keys).now == s.now
  {
    if keys != [] {
      assert keys == keys[..|keys| - 1] + [keys[|keys| - 1]];
      ReadAllKeepsRows(r, s, keys[..|keys| - 1]);
      if k in keys[..|keys| - 1] || Memoized(s, k).Some? {
        ReadAllMemoizes(r, s, keys[..|keys| - 1], k);
      }
    }
  }

  lemma {:induction false} ReadAllMemoizesOnly(r: Rules, s: Store, keys: seq<Key>, k: Key)
    requires k !in keys && k !in s.memo
    ensures k !in ReadAll(r, s, keys).memo
  {
    if keys != [] {
      ReadAllMemoizesOnly(r, s, keys[..|keys| - 1], k);
    }
  }

  /** Right after a change the setting and its dependents are in the memo again, and no other setting is. */
  lemma ChangeReadsAgain(r: Rules, s: Store, x: Key, k: Key)
    requires k in r.registered
    ensures Memoized(HandleChange(r, s, x), k).Some? <==> k == x || k in r.dependents(x)
  {
    var keys := [x] + r.dependents(x);
    var dropped := s.(shared := s.shared - (set y | y in keys), memo := map[]);
    if k in keys {
      ReadAllMemoizes(r, dropped, keys, k);
    } else {
      ReadAllMemoizesOnly(r, dropped, keys, k);
    }
  }

  // ---------- Staleness wears off ----------

  /** No entry outlives its time-out. */
  ghost predicate Timed(s: Store) {
    && (forall k <- s.shared :: s.shared[k].expires <= s.now + CACHE_TIMEOUT)
    && (forall k <- s.memo :: s.memo[k].expires <= s.now + MEMORY_TTL)
  }

  lemma GetAttrKeepsTimed(r: Rules, s: Store, k: Key)
    requires Timed(s)
    ensures Timed(GetAttr(r, s, k).0)
  {
    assert Timed(Preload(r, s));
  }

  lemma {:induction false} ReadAllKeepsTimed(r: Rules, s: Store, keys: seq<Key>)
    requires Timed(s)
    ensures Timed(ReadAll(r, s, keys))
  {
    if keys != [] {
      ReadAllKeepsTimed(r, s, keys[..|keys| - 1]);
      GetAttrKeepsTimed(r, ReadAll(r, s, keys[..|keys| - 1]), keys[|keys| - 1]);
    }
  }

  lemma ChangeKeepsTimed(r: Rules, s: Store, k: Key)
    requires Timed(s)
    ensures Timed(HandleChange(r, s, k))
  {
    var keys := [k] + r.dependents(k);
    ReadAllKeepsTimed(r, s.(shared := s.shared - (set x | x in keys), memo := map[]), keys);
  }

  lemma {:induction false} DoAllKeepsTimed(r: Rules, db: Db, ops: seq<Op>)
    ensures Timed(DoAll(r, Cold(db), ops))
  {
    if ops != [] {
      var s, op := DoAll(r, Cold(db), ops[..|ops| - 1]), ops[|ops| - 1];
      DoAllKeepsTimed(r, db, ops[..|ops| - 1]);
      match op {
        case Read(k) => GetAttrKeepsTimed(r, s, k);
        case Write(k, v) =>
          if r.represent(k, s.db, v).Some? {
            ChangeKeepsTimed(r, s.(db := s.db[k := r.represent(k, s.db, v).value]), k);
          }
        case Remove(k) => ChangeKeepsTimed(r, s.(db := s.db - {k}), k);
        case _ =>
      }
    }
  }

  /** Whatever the declarations miss: sixty seconds after any run a plain setting is read as it is. */
  lemma StalenessWearsOff(r: Rules, db: Db, ops: seq<Op>, k: Key)
    requires Plain(r, k, DoAll(r, Cold(db), ops).db)
    ensures var s := DoAll(r, Cold(db), ops + [Wait(CACHE_TIMEOUT)]);
      s.db == DoAll(r, Cold(db), ops).db && GetAttr(r, s, k).1 == Lookup(r, k, s.db)
  {
    DoLast(r, Cold(db), ops, Wait(CACHE_TIMEOUT));
    DoAllKeepsTimed(r, db, ops);
    var s := DoAll(r, Cold(db), ops + [Wait(CACHE_TIMEOUT)]);
    assert forall x :: Cached(s, x).None? && Memoized(s, x).None?;
    GetAttrKeeps(r, s, k);
    if k in r.registered {
      var m :| Answer(r, k, s.db, m) && GetAttr(r, s, k).1 == OrFile(r, k, m);
      PlainAnswersAgree(r, k, s.db, m);
    }
  }

  // ---------- When the refinement fails ----------

  /** What a read serves when nothing is cached: it preloads first. */
  lemma ColdReadServesPreload(r: Rules, db: Db, k: Key)
    requires k in Preloaded(r)
    ensures GetAttr(r, Cold(db), k).1 == OrFile(r, k, ReadFrom(r, k, db, PreloadValue(r, k, db)))
  {
    var s := Preload(r, Cold(db));
    assert Cached(s, k) == Some(PreloadValue(r, k, db));
  }

  /** Validation and conversion that accept every value as it is. */
  ghost predicate AcceptsAll(r: Rules) {
    && (forall k, db, v :: r.validate(k, db, v) == Some(v))
    && (forall k, db, v :: r.represent(k, db, v) == Some(v))
  }

  /**
   The condition is exact. Where validation does not blur the difference and the file default is
   not the value at stake, the first read of a key agrees with the look-up iff the key is plain.
   */
  lemma ColdReadIsLookupIffPlain(r: Rules, db: Db, k: Key)
    requires k in Preloaded(r) && AcceptsAll(r)
    requires k in r.fileDefault ==>
      r.fieldDefault(k, db) != Some(r.fileDefault[k]) && r.fileDefault[k] !in {Array([]), Object(map[])}
    ensures GetAttr(r, Cold(db), k).1 == Lookup(r, k, db) <==> Plain(r, k, db)
  {
    ColdReadServesPreload(r, db, k);
  }

  /** While this process has a preload in force, reading one key leaves the cache entries of others. */
  lemma ReadLeavesOthers(r: Rules, s: Store, k: Key, other: Key)
    requires k != other && s.localMarker.Some? && s.localMarker.value > s.now
    ensures var s1 := GetAttr(r, s, k).0;
      && Cached(s1, other) == Cached(s, other) && Memoized(s1, other) == Memoized(s, other)
      && s1.localMarker == s.localMarker && s1.now == s.now && s1.db == s.db
  {
  }

  lemma {:induction false} ReadAllLeavesOthers(r: Rules, s: Store, keys: seq<Key>, other: Key)
    requires other !in keys && s.localMarker.Some? && s.localMarker.value > s.now
    ensures var s1 := ReadAll(r, s, keys);
      && Cached(s1, other) == Cached(s, other) && Memoized(s1, other) == Memoized(s, other)
      && s1.localMarker == s.localMarker && s1.now == s.now && s1.db == s.db
  {
    if keys != [] {
      ReadAllLeavesOthers(r, s, keys[..|keys| - 1], other);
      ReadLeavesOthers(r, ReadAll(r, s, keys[..|keys| - 1]), keys[|keys| - 1], other);
    }
  }

  /** A change of `x` leaves the cache entry of a key that is neither `x` nor declared dependent on it. */
  lemma ChangeLeavesUndeclared(r: Rules, s: Store, x: Key, other: Key)
    requires other != x && other !in r.dependents(x)
    requires s.localMarker.Some? && s.localMarker.value > s.now
    ensures var s1 := HandleChange(r, s, x);
      && Cached(s1, other) == Cached(s, other) && Memoized(s1, other).None?
      && s1.localMarker == s.localMarker && s1.now == s.now && s1.db == s.db
  {
    var keys := [x] + r.dependents(x);
    var dropped := s.(shared := s.shared - (set y | y in keys), memo := map[]);
    ReadAllLeavesOthers(r, dropped, keys, other);
  }

  lemma DoTwo(r: Rules, s: Store, a: Op, b: Op)
    ensures DoAll(r, s, [a, b]) == Do(r, Do(r, s, a), b)
  {
    assert [a, b][..1] == [a] && [a][..0] == [];
    assert DoAll(r, s, [a][..0]) == s;
    assert DoAll(r, s, [a]) == Do(r, s, a);
  }

  /** Reading an unset key on a cold cache puts its default there. */
  lemma ReadCachesDefault(r: Rules, db: Db, k: Key, d: Value)
    requires r.readOnly == {} && k in r.registered && k !in db
    requires r.fieldDefault(k, db) == Some(d) && !Unset(d) && !Sentinel(d)
    ensures var s := Do(r, Cold(db), Read(k));
      && Cached(s, k) == Some(Encode(d)) && s.db == db && s.now == 0 && s.localMarker == Some(CACHE_TIMEOUT)
  {
    assert Cached(Preload(r, Cold(db)), k) == Some(Encode(d));
  }

  /** While the default is in the cache it is served. */
  lemma CachedDefaultIsServed(r: Rules, s: Store, k: Key, d: Value)
    requires AcceptsAll(r) && k in r.registered && !Unset(d) && !Sentinel(d)
    requires Cached(s, k) == Some(Encode(d)) && Memoized(s, k).None?
    requires s.localMarker.Some? && s.localMarker.value > s.now
    ensures GetAttr(r, s, k).1 == Some(d)
  {
    assert Preload(r, s) == s;
  }

  /**
   Completeness is needed. Whenever the default of an unset key changes with a row that does not name the key
   as a dependent, reading the key and then writing that row leaves the old default in the cache.
   */
  lemma UndeclaredDependenceGoesStale(r: Rules, db: Db, k: Key, x: Key, w: Value, d: Value, d': Value)
    requires AcceptsAll(r) && r.readOnly == {} && k in r.registered && k !in db
    requires k != x && k !in r.dependents(x)
    requires r.fieldDefault(k, db) == Some(d) && r.fieldDefault(k, db[x := w]) == Some(d') && d != d'
    requires !Unset(d) && !Sentinel(d) && !Unset(d')
    ensures var s := DoAll(r, Cold(db), [Read(k), Write(x, w)]);
      GetAttr(r, s, k).1 == Some(d) && Lookup(r, k, s.db) == Some(d')
  {
    ReadCachesDefault(r, db, k, d);
    var s1 := Do(r, Cold(db), Read(k));
    assert x in db && db[x] == w ==> db[x := w] == db;
    ChangeLeavesUndeclared(r, s1.(db := db[x := w]), x, k);
    DoTwo(r, Cold(db), Read(k), Write(x, w));
    CachedDefaultIsServed(r, Do(r, s1, Write(x, w)), k, d);
  }

  /** Invalidation goes one level: a default that depends on a row through another default goes stale. */
  lemma TwoLevelDependencyGoesStale(r: Rules, a: Key, b: Key, c: Key, v: Value, w: Value)
    requires AcceptsAll(r) && r.readOnly == {} && c in r.registered && a != b && a != c && b != c
    requires r.dependents(a) == [b] && r.dependents(b) == [c]
    requires forall db :: r.fieldDefault(b, db) == if a in db then Some(db[a]) else None
    requires forall db :: r.fieldDefault(c, db) == if b in db then Some(db[b]) else r.fieldDefault(b, db)
    requires v != w && !Unset(v) && !Unset(w) && !Sentinel(v)
    ensures var s := DoAll(r, Cold(map[a := v]), [Read(c), Write(a, w)]);
      GetAttr(r, s, c).1 == Some(v) && Lookup(r, c, s.db) == Some(w)
  {
    UndeclaredDependenceGoesStale(r, map[a := v], c, a, w, v, w);
  }
}
