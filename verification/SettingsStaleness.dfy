/**
 Several processes over one shared settings cache and one database. Reads of the database, writes
 to the shared cache, and writes to a process's memo are separate steps that interleave freely with
 commits and invalidations; the question is how old a served value can be.
 */
module SettingsStaleness {
  import opened Wrappers
  import opened SettingsCache

  type Process = nat

  /** A committed state of the settings rows and when it was committed. */
  datatype Snapshot = Snapshot(at: nat, db: Db)

  /** A cached value, and where it came from: the snapshot it was read from and when. */
  datatype Filled = Filled(value: Value, expires: nat, version: nat, readAt: nat)

  /**
   A read in progress. `fetched`: it read the database, and writes the shared cache (`stored`)
   before the memo. Otherwise it found the value in the shared cache.
   */
  datatype Item = Item(proc: Process, key: Key, value: Value, version: nat, readAt: nat, since: nat, fetched: bool,
      stored: bool)

  datatype Cluster = Cluster(
    now: nat,
    versions: seq<Snapshot>,
    shared: map<Key, Filled>,
    memo: map<(Process, Key), Filled>,
    flight: set<Item>)

  datatype Step =
    | Tick
    | Commit(db: Db)
    | Fetch(proc: Process, key: Key)
    | Put(item: Item)
    | Hit(proc: Process, key: Key)
    | Memoize(item: Item)
    | Abandon(item: Item)
    | DeleteShared(keys: set<Key>)
    | ClearMemo(proc: Process)

  function Current(s: Cluster): nat
    requires s.versions != []
  {
    |s.versions| - 1
  }

  predicate SharedLive(s: Cluster, k: Key) {
    k in s.shared && s.now < s.shared[k].expires
  }

  predicate MemoLive(s: Cluster, p: Process, k: Key) {
    (p, k) in s.memo && s.now < s.memo[(p, k)].expires
  }

  predicate Enabled(s: Cluster, e: Step) {
    && s.versions != []
    && match e
       case Put(i) => i in s.flight && i.fetched && !i.stored
       case Hit(_, k) => SharedLive(s, k)
       case Memoize(i) => i in s.flight && (i.fetched ==> i.stored)
       case Abandon(i) => i in s.flight
       case _ => true
  }

  /** `raw` is the uncached value of a key for given rows. */
  function Next(raw: (Key, Db) -> Value, s: Cluster, e: Step): Cluster
    requires Enabled(s, e)
  {
    match e
    case Tick => s.(now := s.now + 1)
    case Commit(db) => s.(versions := s.versions + [Snapshot(s.now, db)])
    case Fetch(p, k) =>
      s.(flight := s.flight + {Item(p, k, raw(k, s.versions[Current(s)].db), Current(s), s.now, s.now, true, false)})
    case Put(i) =>
      s.(shared := s.shared[i.key := Filled(i.value, s.now + CACHE_TIMEOUT, i.version, i.readAt)],
         flight := s.flight - {i} + {i.(stored := true)})
    case Hit(p, k) =>
      var f := s.shared[k];
      s.(flight := s.flight + {Item(p, k, f.value, f.version, f.readAt, s.now, false, false)})
    case Memoize(i) =>
      // An unexpired entry made meanwhile stays: the memo is written with `setdefault`.
      var read := Filled(i.value, s.now + MEMORY_TTL, i.version, i.readAt);
      s.(memo := if MemoLive(s, i.proc, i.key) then s.memo else s.memo[(i.proc, i.key) := read],
         flight := s.flight - {i})
    case Abandon(i) => s.(flight := s.flight - {i})
    case DeleteShared(keys) => s.(shared := s.shared - keys)
    case ClearMemo(p) => s.(memo := map pk | pk in s.memo && pk.0 != p :: s.memo[pk])
  }

  ghost predicate IsRun(raw: (Key, Db) -> Value, s: Cluster, es: seq<Step>)
    decreases |es|
  {
    es == [] || (Enabled(s, es[0]) && IsRun(raw, Next(raw, s, es[0]), es[1..]))
  }

  ghost function After(raw: (Key, Db) -> Value, s: Cluster, es: seq<Step>): Cluster
    requires IsRun(raw, s, es)
    decreases |es|
  {
    if es == [] then s else After(raw, Next(raw, s, es[0]), es[1..])
  }

  lemma FirstStep(raw: (Key, Db) -> Value, s: Cluster, e: Step, es: seq<Step>)
    requires Enabled(s, e) && IsRun(raw, Next(raw, s, e), es)
    ensures IsRun(raw, s, [e] + es) && After(raw, s, [e] + es) == After(raw, Next(raw, s, e), es)
  {
    assert ([e] + es)[1..] == es;
  }

  function Boot(db: Db): Cluster {
    Cluster(0, [Snapshot(0, db)], map[], map[], {})
  }

  // ---------- Age ----------

  /** Snapshot `v` was the committed state at time `u` (one of them, if several commits share it). */
  predicate WasCurrent(versions: seq<Snapshot>, v: nat, u: nat) {
    v < |versions| && versions[v].at <= u && (v + 1 < |versions| ==> u <= versions[v + 1].at)
  }

  predicate Genuine(raw: (Key, Db) -> Value, versions: seq<Snapshot>, k: Key, value: Value, v: nat, u: nat) {
    WasCurrent(versions, v, u) && value == raw(k, versions[v].db)
  }

  /** Every cached value is what the look-up gave when it was read, and lives no longer than its age allows. */
  ghost predicate Dated(raw: (Key, Db) -> Value, s: Cluster, d: nat) {
    && s.versions != []
    && (forall v | 0 <= v < |s.versions| :: s.versions[v].at <= s.now)
    && (forall k <- s.shared :: var f := s.shared[k];
          Genuine(raw, s.versions, k, f.value, f.version, f.readAt) && f.readAt <= s.now &&
            f.expires <= f.readAt + d + CACHE_TIMEOUT)
    && (forall pk <- s.memo :: var f := s.memo[pk];
          Genuine(raw, s.versions, pk.1, f.value, f.version, f.readAt) && f.readAt <= s.now
          && f.expires <= f.readAt + 2 * d + CACHE_TIMEOUT + MEMORY_TTL)
    && (forall i <- s.flight ::
          Genuine(raw, s.versions, i.key, i.value, i.version, i.readAt) && i.readAt <= i.since <= s.now
          && (if i.fetched then i.since == i.readAt else i.since <= i.readAt + d + CACHE_TIMEOUT))
  }

  /** No read takes more than `d` seconds from its database or cache access to its own cache write. */
  predicate Prompt(s: Cluster, e: Step, d: nat) {
    match e
    case Put(i) => s.now <= i.since + d
    case Memoize(i) => s.now <= i.since + d
    case _ => true
  }

  ghost predicate AllPrompt(raw: (Key, Db) -> Value, s: Cluster, es: seq<Step>, d: nat)
    requires IsRun(raw, s, es)
    decreases |es|
  {
    es == [] || (Prompt(s, es[0], d) && AllPrompt(raw, Next(raw, s, es[0]), es[1..], d))
  }

  lemma CommitKeepsGenuine(raw: (Key, Db) -> Value, s: Cluster, db: Db, k: Key, value: Value, v: nat, u: nat)
    requires Genuine(raw, s.versions, k, value, v, u) && u <= s.now
    ensures Genuine(raw, s.versions + [Snapshot(s.now, db)], k, value, v, u)
  {
  }

  lemma StepKeepsDated(raw: (Key, Db) -> Value, s: Cluster, e: Step, d: nat)
    requires Dated(raw, s, d) && Enabled(s, e) && Prompt(s, e, d)
    ensures Dated(raw, Next(raw, s, e), d)
  {
    var s' := Next(raw, s, e);
    if e.Commit? {
      forall k <- s.shared {
        CommitKeepsGenuine(raw, s, e.db, k, s.shared[k].value, s.shared[k].version, s.shared[k].readAt);
      }
      forall pk <- s.memo {
        CommitKeepsGenuine(raw, s, e.db, pk.1, s.memo[pk].value, s.memo[pk].version, s.memo[pk].readAt);
      }
      forall i <- s.flight {
        CommitKeepsGenuine(raw, s, e.db, i.key, i.value, i.version, i.readAt);
      }
    }
  }

  lemma {:induction false} RunKeepsDated(raw: (Key, Db) -> Value, s: Cluster, es: seq<Step>, d: nat)
    requires Dated(raw, s, d) && IsRun(raw, s, es) && AllPrompt(raw, s, es, d)
    ensures Dated(raw, After(raw, s, es), d)
    decreases |es|
  {
    if es != [] {
      StepKeepsDated(raw, s, es[0], d);
      RunKeepsDated(raw, Next(raw, s, es[0]), es[1..], d);
    }
  }

  /** `value` was the uncached value of `k` at time `u`, less than 65 + 2d seconds ago, in snapshot `v`. */
  predicate WasValueAt(raw: (Key, Db) -> Value, s: Cluster, k: Key, value: Value, d: nat, u: nat, v: nat) {
    u <= s.now < u + CACHE_TIMEOUT + MEMORY_TTL + 2 * d && Genuine(raw, s.versions, k, value, v, u)
  }

  ghost predicate RecentValue(raw: (Key, Db) -> Value, s: Cluster, k: Key, value: Value, d: nat) {
    exists u: nat, v: nat :: WasValueAt(raw, s, k, value, d, u, v)
  }

  /**
   Whatever the interleaving of fills, commits and invalidations: a value a process serves from its
   memo at time t was the uncached value at some time after t - 65 - 2d, where d bounds how long a
   read may dawdle before writing what it read. With fills in one step (d = 0) that is 65 seconds.
   */
  lemma BoundedStaleness(raw: (Key, Db) -> Value, db: Db, es: seq<Step>, d: nat, p: Process, k: Key)
    requires IsRun(raw, Boot(db), es) && AllPrompt(raw, Boot(db), es, d)
    requires MemoLive(After(raw, Boot(db), es), p, k)
    ensures var s := After(raw, Boot(db), es);
      RecentValue(raw, s, k, s.memo[(p, k)].value, d)
  {
    RunKeepsDated(raw, Boot(db), es, d);
    var s := After(raw, Boot(db), es);
    var f := s.memo[(p, k)];
    assert (p, k) in s.memo && (p, k).1 == k;
    assert WasValueAt(raw, s, k, f.value, d, f.readAt, f.version);
  }

  // ---------- A process sees its own write ----------

  /** No database read of `k` older than version `n` is still waiting to write the shared cache. */
  ghost predicate NoOldFillInFlight(s: Cluster, k: Key, n: nat) {
    forall i <- s.flight :: i.key == k && i.fetched && !i.stored ==> i.version >= n
  }

  /** No read of `k` by another thread of `p` is still waiting to write the memo with something older. */
  ghost predicate NoOldReadInFlight(s: Cluster, p: Process, k: Key, n: nat) {
    forall i <- s.flight :: i.key == k && i.proc == p ==> i.version >= n
  }

  /** Everything the shared cache holds, or will be given by reads in progress, is at least version `n`. */
  ghost predicate SharedSince(s: Cluster, k: Key, n: nat) {
    && n < |s.versions|
    && (k in s.shared ==> s.shared[k].version >= n)
    && (forall i <- s.flight :: i.key == k && i.fetched && !i.stored ==> i.version >= n)
  }

  /** Everything process `p` can serve for `k` is at least version `n`. */
  ghost predicate SeesSince(s: Cluster, p: Process, k: Key, n: nat) {
    && SharedSince(s, k, n)
    && ((p, k) in s.memo ==> s.memo[(p, k)].version >= n)
    && (forall i <- s.flight :: i.key == k && i.proc == p ==> i.version >= n)
  }

  lemma StepKeepsSharedSince(raw: (Key, Db) -> Value, s: Cluster, e: Step, k: Key, n: nat)
    requires Enabled(s, e) && SharedSince(s, k, n)
    ensures SharedSince(Next(raw, s, e), k, n)
  {
  }

  lemma StepKeepsSeesSince(raw: (Key, Db) -> Value, s: Cluster, e: Step, p: Process, k: Key, n: nat)
    requires Enabled(s, e) && SeesSince(s, p, k, n)
    ensures SeesSince(Next(raw, s, e), p, k, n)
  {
    StepKeepsSharedSince(raw, s, e, k, n);
  }

  lemma {:induction false} RunKeepsSharedSince(raw: (Key, Db) -> Value, s: Cluster, es: seq<Step>, k: Key, n: nat)
    requires IsRun(raw, s, es) && SharedSince(s, k, n)
    ensures SharedSince(After(raw, s, es), k, n)
    decreases |es|
  {
    if es != [] {
      StepKeepsSharedSince(raw, s, es[0], k, n);
      RunKeepsSharedSince(raw, Next(raw, s, es[0]), es[1..], k, n);
    }
  }

  lemma {:induction false} RunKeepsSeesSince(raw: (Key, Db) -> Value, s: Cluster, es: seq<Step>, p: Process, k: Key,
      n: nat)
    requires IsRun(raw, s, es) && SeesSince(s, p, k, n)
    ensures SeesSince(After(raw, s, es), p, k, n)
    decreases |es|
  {
    if es != [] {
      StepKeepsSeesSince(raw, s, es[0], p, k, n);
      RunKeepsSeesSince(raw, Next(raw, s, es[0]), es[1..], p, k, n);
    }
  }

  /**
   A process whose write is committed, and which has then dropped the key from the shared cache
   (`s` to `s1`) and later cleared its memo (`s2` to `s3`), only ever serves that key from its own
   write or a later one, provided no older fill of the key was in flight when it was dropped, and no other
   thread of the process was still reading an older value when the memo was cleared.
   */
  lemma OwnWriteIsSeen(raw: (Key, Db) -> Value, s: Cluster, keys: set<Key>, between: seq<Step>, later: seq<Step>,
                       p: Process, k: Key, n: nat)
    requires n < |s.versions| && k in keys && NoOldFillInFlight(s, k, n)
    requires IsRun(raw, Next(raw, s, DeleteShared(keys)), between)
    requires Enabled(After(raw, Next(raw, s, DeleteShared(keys)), between), ClearMemo(p))
    requires NoOldReadInFlight(After(raw, Next(raw, s, DeleteShared(keys)), between), p, k, n)
    requires IsRun(raw, Next(raw, After(raw, Next(raw, s, DeleteShared(keys)), between), ClearMemo(p)), later)
    ensures var s3 := Next(raw, After(raw, Next(raw, s, DeleteShared(keys)), between), ClearMemo(p));
      var end := After(raw, s3, later);
      && (MemoLive(end, p, k) ==> end.memo[(p, k)].version >= n)
      && (forall i <- end.flight :: i.proc == p && i.key == k ==> i.version >= n)
  {
    var s1 := Next(raw, s, DeleteShared(keys));
    assert SharedSince(s1, k, n);
    RunKeepsSharedSince(raw, s1, between, k, n);
    var s2 := After(raw, s1, between);
    var s3 := Next(raw, s2, ClearMemo(p));
    assert SeesSince(s3, p, k, n);
    RunKeepsSeesSince(raw, s3, later, p, k, n);
  }

  /**
   A fill that read the rows before may still bring its value to any process, which then serves it unless its
   memo already holds an entry for the key.
   */
  lemma FillInFlightUndoesInvalidation(raw: (Key, Db) -> Value, s: Cluster, i: Item, p: Process)
    requires s.versions != [] && i in s.flight && i.fetched && !i.stored
    ensures var hit := Item(p, i.key, i.value, i.version, i.readAt, s.now, false, false);
      var es := [Put(i), Hit(p, i.key), Memoize(hit)];
      && IsRun(raw, s, es)
      && MemoLive(After(raw, s, es), p, i.key)
      && var f := After(raw, s, es).memo[(p, i.key)];
         if MemoLive(s, p, i.key) then f == s.memo[(p, i.key)] else f.version == i.version && f.value == i.value
  {
    var hit := Item(p, i.key, i.value, i.version, i.readAt, s.now, false, false);
    var s1 := Next(raw, s, Put(i));
    var s2 := Next(raw, s1, Hit(p, i.key));
    assert hit in s2.flight;
    FirstStep(raw, s2, Memoize(hit), []);
    FirstStep(raw, s1, Hit(p, i.key), [Memoize(hit)]);
    FirstStep(raw, s, Put(i), [Hit(p, i.key), Memoize(hit)]);
  }

  /** A read that another thread of the process has in flight writes its value to a memo without the key. */
  lemma ReadInFlightUndoesClearing(raw: (Key, Db) -> Value, s: Cluster, i: Item)
    requires s.versions != [] && i in s.flight && (i.fetched ==> i.stored)
    ensures IsRun(raw, s, [Memoize(i)])
    ensures MemoLive(After(raw, s, [Memoize(i)]), i.proc, i.key)
    ensures var f := After(raw, s, [Memoize(i)]).memo[(i.proc, i.key)];
      if MemoLive(s, i.proc, i.key) then f == s.memo[(i.proc, i.key)] else f.version == i.version && f.value == i.value
  {
    FirstStep(raw, s, Memoize(i), []);
  }

  /** The key and then the memo are dropped, with nothing in between. */
  function Invalidated(raw: (Key, Db) -> Value, s: Cluster, keys: set<Key>, p: Process): Cluster
    requires s.versions != []
  {
    Next(raw, Next(raw, s, DeleteShared(keys)), ClearMemo(p))
  }

  /** In no continuation does the process serve the key from an older version. */
  ghost predicate NeverServesOlder(raw: (Key, Db) -> Value, s: Cluster, p: Process, k: Key, n: nat) {
    forall es | IsRun(raw, s, es) ::
      MemoLive(After(raw, s, es), p, k) ==> After(raw, s, es).memo[(p, k)].version >= n
  }

  /** The provisos are exact: they say when an invalidation is final. */
  lemma InvalidationIsFinalIff(raw: (Key, Db) -> Value, s: Cluster, keys: set<Key>, p: Process, k: Key, n: nat)
    requires n < |s.versions| && k in keys
    ensures NeverServesOlder(raw, Invalidated(raw, s, keys, p), p, k, n) <==>
      NoOldFillInFlight(s, k, n) && NoOldReadInFlight(s, p, k, n)
  {
    var s1 := Next(raw, s, DeleteShared(keys));
    var s2 := Invalidated(raw, s, keys, p);
    if NoOldFillInFlight(s, k, n) && NoOldReadInFlight(s, p, k, n) {
      forall es | IsRun(raw, s2, es)
        ensures MemoLive(After(raw, s2, es), p, k) ==> After(raw, s2, es).memo[(p, k)].version >= n
      {
        assert IsRun(raw, s1, []) && After(raw, s1, []) == s1;
        OwnWriteIsSeen(raw, s, keys, [], es, p, k, n);
      }
    } else if !NoOldFillInFlight(s, k, n) {
      var i :| i in s.flight && i.key == k && i.fetched && !i.stored && i.version < n;
      FillInFlightUndoesInvalidation(raw, s2, i, p);
    } else {
      var i :| i in s.flight && i.key == k && i.proc == p && i.version < n;
      ReadInFlightUndoesClearing(raw, s2, i);
    }
  }

  /** A commit alone leaves the shared cache as it is, and a hit finds what was there before. */
  lemma CommitThenHit(raw: (Key, Db) -> Value, s: Cluster, after: Db, p: Process, k: Key)
    requires s.versions != [] && SharedLive(s, k)
    ensures var es, f := [Commit(after), Hit(p, k)], s.shared[k];
      && IsRun(raw, s, es)
      && |After(raw, s, es).versions| == |s.versions| + 1
      && Item(p, k, f.value, f.version, f.readAt, s.now, false, false) in After(raw, s, es).flight
  {
    var s1 := Next(raw, s, Commit(after));
    FirstStep(raw, s1, Hit(p, k), []);
    FirstStep(raw, s, Commit(after), [Hit(p, k)]);
  }

  /** So is the order commit, then invalidate: a fill between an early invalidation and the commit stays. */
  lemma InvalidatingBeforeCommitLeavesOldValue(raw: (Key, Db) -> Value, before: Db, after: Db, k: Key, p: Process,
      q: Process)
    requires p != q
    ensures var i := Item(q, k, raw(k, before), 0, 0, 0, true, false);
      var es := [DeleteShared({k}), ClearMemo(p), Fetch(q, k), Put(i), Commit(after), Hit(p, k)];
      && IsRun(raw, Boot(before), es)
      && |After(raw, Boot(before), es).versions| == 2
      && Item(p, k, raw(k, before), 0, 0, 0, false, false) in After(raw, Boot(before), es).flight
  {
    var i := Item(q, k, raw(k, before), 0, 0, 0, true, false);
    var s0 := Boot(before);
    var s1 := Next(raw, s0, DeleteShared({k}));
    var s2 := Next(raw, s1, ClearMemo(p));
    assert s2 == s0;
    var s3 := Next(raw, s2, Fetch(q, k));
    assert s3 == s0.(flight := {i});
    var s4 := Next(raw, s3, Put(i));
    CommitThenHit(raw, s4, after, p, k);
    FirstStep(raw, s3, Put(i), [Commit(after), Hit(p, k)]);
    FirstStep(raw, s2, Fetch(q, k), [Put(i), Commit(after), Hit(p, k)]);
    FirstStep(raw, s1, ClearMemo(p), [Fetch(q, k), Put(i), Commit(after), Hit(p, k)]);
    FirstStep(raw, s0, DeleteShared({k}), [ClearMemo(p), Fetch(q, k), Put(i), Commit(after), Hit(p, k)]);
  }
}
