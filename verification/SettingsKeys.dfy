/**
 The encryption of one cached setting. A cached value is sealed under the primary key of its row,
 and a second cache entry remembers which key that was; a reader falls back on the row itself when
 that entry is gone. The two entries have different lifetimes and are invalidated differently.
 */
module SettingsKeys {
  import opened Wrappers

  const CACHE_TIMEOUT: nat := 60
  /** Id entries are written without a time-out, so they get the default one of the cache framework. */
  const ID_TIMEOUT: nat := 300

  const NOT_SET: string := "___notset___"

  type Pk = Option<nat>

  /** Encryption as an opaque seal: only the same primary key opens it. An empty text is not encrypted. */
  datatype Stored = Clear(text: string) | Sealed(pk: Pk, text: string)

  function Encrypt(pk: Pk, text: string): Stored {
    if text == "" then Clear(text) else Sealed(pk, text)
  }

  function Decrypt(pk: Pk, c: Stored): Option<string> {
    if c.Clear? || c.pk == pk then Some(c.text) else None
  }

  datatype Row = Row(pk: nat, value: Stored)
  datatype Entry<T> = Entry(value: T, expires: nat)

  /** Everything stored about one encrypted setting; `nextPk` is the database's next primary key. */
  datatype Store = Store(now: nat, nextPk: nat, row: Option<Row>, id: Option<Entry<Pk>>, value: Option<Entry<Stored>>)

  predicate Live<T>(s: Store, e: Option<Entry<T>>) {
    e.Some? && s.now < e.value.expires
  }

  /** The primary key a reader or writer of the cache uses now. */
  function Pick(s: Store): Pk {
    if Live(s, s.id) then s.id.value.value
    else if s.row.Some? then Some(s.row.value.pk)
    else None
  }

  datatype Answer = Got(text: string) | Unset | Failed

  /** What an uncached read finds: the text, and the id to remember with it, if any. */
  function Fetch(default: Option<string>, s: Store): (Option<string>, Option<Pk>) {
    match s.row
    case Some(row) => (Decrypt(Some(row.pk), row.value), Some(Some(row.pk)))
    case None =>
      match default
      case Some(d) => (Some(d), Some(None))
      case None => (Some(NOT_SET), None)
  }

  function Fill(s: Store, text: string, id: Option<Pk>): Store {
    var s1 := if id.Some? then s.(id := Some(Entry(id.value, s.now + ID_TIMEOUT))) else s;
    s1.(value := Some(Entry(Encrypt(Pick(s1), text), s1.now + CACHE_TIMEOUT)))
  }

  function AnswerOf(text: string): Answer {
    if text == NOT_SET then Unset else Got(text)
  }

  function Read(default: Option<string>, s: Store): (Store, Answer) {
    var cached := if Live(s, s.value) then Decrypt(Pick(s), s.value.value.value) else Some(NOT_SET);
    if cached.None? then (s, Failed)
    else if cached.value != NOT_SET then (s, Got(cached.value))
    else
      var (text, id) := Fetch(default, s);
      if text.None? then (s, Failed)
      else if Live(s, s.value) && text.value == NOT_SET then (s, Unset)
      else (Fill(s, text.value, id), AnswerOf(text.value))
  }

  /** A preload stores what an uncached read would find; an unreadable row makes it raise. */
  function Preload(default: Option<string>, s: Store): (Store, Answer) {
    var (text, id) := Fetch(default, s);
    if text.None? then (s, Failed) else (Fill(s, text.value, id), AnswerOf(text.value))
  }

  /** A change drops the value entry, not the id entry, and reads the setting again. */
  function HandleChange(default: Option<string>, s: Store): (Store, Answer) {
    Read(default, s.(value := None))
  }

  /** `Setting.save`: a new row is first written with an empty value, then again with the sealed one. */
  function Save(default: Option<string>, s: Store, text: string): (Store, Answer) {
    match s.row
    case Some(row) => HandleChange(default, s.(row := Some(Row(row.pk, Encrypt(Some(row.pk), text)))))
    case None =>
      var pk := s.nextPk;
      var (s1, a) := HandleChange(default, s.(nextPk := pk + 1, row := Some(Row(pk, Clear("")))));
      if a.Failed? then (s1, a)
      else HandleChange(default, s1.(row := Some(Row(pk, Encrypt(Some(pk), text)))))
  }

  function Delete(default: Option<string>, s: Store): (Store, Answer) {
    if s.row.None? then (s, Unset) else HandleChange(default, s.(row := None))
  }

  datatype Op = ReadIt | PreloadIt | SaveIt(text: string) | DeleteIt | Wait(seconds: nat) | EvictValue

  function Do(default: Option<string>, s: Store, op: Op): (Store, Answer) {
    match op
    case ReadIt => Read(default, s)
    case PreloadIt => Preload(default, s)
    case SaveIt(text) => Save(default, s, text)
    case DeleteIt => Delete(default, s)
    case Wait(n) => (s.(now := s.now + n), Unset)
    case EvictValue => (s.(value := None), Unset)
  }

  function Run(default: Option<string>, s: Store, ops: seq<Op>): Store {
    if ops == [] then s else Do(default, Run(default, s, ops[..|ops| - 1]), ops[|ops| - 1]).0
  }

  const EMPTY: Store := Store(0, 1, None, None, None)

  // ---------- The objects ----------

  /** A model instance: `pk` is absent until the first save. */
  class Setting {
    var pk: Option<nat>
    var value: Stored
    var savedValue: Stored

    constructor (text: string)
      ensures pk == None && value == Clear(text)
    {
      pk, value, savedValue := None, Clear(text), Clear("");
    }
  }

  class Backend {
    const default: Option<string>
    var now: nat
    var nextPk: nat
    var row: Option<Row>
    var id: Option<Entry<Pk>>
    var value: Option<Entry<Stored>>

    function View(): Store
      reads this
    {
      Store(now, nextPk, row, id, value)
    }

    method Fetched() returns (text: Option<string>, settingId: Option<Pk>)
      ensures (text, settingId) == Fetch(default, View())
    {
      if row.Some? {
        return Decrypt(Some(row.value.pk), row.value.value), Some(Some(row.value.pk));
      } else if default.Some? {
        return default, Some(None);
      }
      return Some(NOT_SET), None;
    }

    method GetLocal() returns (answer: Answer)
      modifies this
      ensures (View(), answer) == Read(default, old(View()))
    {
      var cached := Some(NOT_SET);
      if value.Some? && now < value.value.expires {
        cached := Decrypt(Pick(View()), value.value.value);
      }
      if cached.None? {
        return Failed;
      }
      if cached.value != NOT_SET {
        return Got(cached.value);
      }
      var text, settingId := Fetched();
      if text.None? {
        return Failed;
      }
      if !(Live(View(), value) && text.value == NOT_SET) {
        if settingId.Some? {
          id := Some(Entry(settingId.value, now + ID_TIMEOUT));
        }
        value := Some(Entry(Encrypt(Pick(View()), text.value), now + CACHE_TIMEOUT));
      }
      return AnswerOf(text.value);
    }

    /** The base class's save followed by the `post_save` handler. */
    method BaseSave(setting: Setting) returns (answer: Answer)
      requires setting.pk.Some? || row.None?
      requires setting.pk.Some? ==> row.Some? && row.value.pk == setting.pk.value
      modifies this, setting`pk
      ensures setting.pk == if old(setting.pk).Some? then old(setting.pk) else Some(old(nextPk))
      ensures old(setting.pk).Some? ==>
        (View(), answer) == HandleChange(default, old(View()).(row := Some(Row(setting.pk.value, setting.value))))
      ensures old(setting.pk).None? ==>
        (View(), answer) == HandleChange(default,
          old(View()).(nextPk := old(nextPk) + 1, row := Some(Row(old(nextPk), setting.value))))
    {
      if setting.pk.None? {
        setting.pk := Some(nextPk);
        nextPk := nextPk + 1;
      }
      row := Some(Row(setting.pk.value, setting.value));
      value := None;
      answer := GetLocal();
    }

    /** `Setting.save` of an encrypted setting whose `value` is a plain text. */
    method SaveSetting(setting: Setting) returns (answer: Answer)
      requires setting.value.Clear?
      requires setting.pk.Some? <==> row.Some?
      requires setting.pk.Some? ==> row.value.pk == setting.pk.value
      modifies this, setting
      ensures (View(), answer) == Save(default, old(View()), old(setting.value.text))
      decreases setting.pk.None?
    {
      if setting.pk.None? {
        setting.savedValue := setting.value;
        setting.value := Clear("");
        answer := BaseSave(setting);
        if answer.Failed? {
          return;
        }
        setting.value := setting.savedValue;
        answer := SaveSetting(setting);
      } else {
        setting.value := Encrypt(setting.pk, setting.value.text);
        answer := BaseSave(setting);
      }
    }
  }

  // ---------- The cache always opens, if the field has a default ----------

  /**
   The row opens under its own key. A live cached value is sealed under an id entry that outlives it, and
   opens to what an uncached read would find.
   */
  ghost predicate Openable(default: string, s: Store) {
    && (s.row.Some? ==> s.row.value.value.Clear? || s.row.value.value.pk == Some(s.row.value.pk))
    && (Live(s, s.value) ==>
          && s.id.Some? && s.value.value.expires <= s.id.value.expires
          && Decrypt(s.id.value.value, s.value.value.value) == Fetch(Some(default), s).0)
  }

  /** Between a change of the row and the read that follows, the value entry is gone. */
  ghost predicate RowOpens(s: Store) {
    s.value.None? && (s.row.Some? ==> s.row.value.value.Clear? || s.row.value.value.pk == Some(s.row.value.pk))
  }

  lemma ReadKeepsOpenable(d: string, s: Store)
    requires Openable(d, s)
    ensures Openable(d, Read(Some(d), s).0) && !Read(Some(d), s).1.Failed?
    ensures Read(Some(d), s).0.row == s.row && Read(Some(d), s).0.nextPk == s.nextPk
  {
  }

  lemma ChangeMakesOpenable(d: string, s: Store)
    requires RowOpens(s.(value := None))
    ensures Openable(d, HandleChange(Some(d), s).0) && !HandleChange(Some(d), s).1.Failed?
  {
    ReadKeepsOpenable(d, s.(value := None));
  }

  lemma SaveKeepsOpenable(d: string, s: Store, text: string)
    requires Openable(d, s)
    ensures Openable(d, Save(Some(d), s, text).0) && !Save(Some(d), s, text).1.Failed?
  {
    if s.row.Some? {
      ChangeMakesOpenable(d, s.(row := Some(Row(s.row.value.pk, Encrypt(Some(s.row.value.pk), text)))));
    } else {
      var s0 := s.(nextPk := s.nextPk + 1, row := Some(Row(s.nextPk, Clear(""))));
      ChangeMakesOpenable(d, s0);
      ChangeMakesOpenable(d, HandleChange(Some(d), s0).0.(row := Some(Row(s.nextPk, Encrypt(Some(s.nextPk), text)))));
    }
  }

  lemma StepKeepsOpenable(d: string, s: Store, op: Op)
    requires Openable(d, s)
    ensures Openable(d, Do(Some(d), s, op).0) && !Do(Some(d), s, op).1.Failed?
  {
    match op {
      case ReadIt => ReadKeepsOpenable(d, s);
      case SaveIt(text) => SaveKeepsOpenable(d, s, text);
      case DeleteIt =>
        if s.row.Some? {
          ChangeMakesOpenable(d, s.(row := None));
        }
      case _ =>
    }
  }

  lemma {:induction false} RunKeepsOpenable(d: string, ops: seq<Op>)
    ensures Openable(d, Run(Some(d), EMPTY, ops))
  {
    if ops != [] {
      RunKeepsOpenable(d, ops[..|ops| - 1]);
      StepKeepsOpenable(d, Run(Some(d), EMPTY, ops[..|ops| - 1]), ops[|ops| - 1]);
    }
  }

  /**
   In every reachable state of a setting with a default: what is cached opens under the key that a reader
   picks now, to exactly the text an uncached read would find now, across creation, the two-phase save,
   deletion, default caching and preload.
   */
  lemma CachedTextIsFetched(d: string, ops: seq<Op>)
    ensures var s := Run(Some(d), EMPTY, ops);
      Live(s, s.value) ==>
        && Decrypt(Pick(s), s.value.value.value) == Fetch(Some(d), s).0
        && Fetch(Some(d), s).0.Some?
  {
    RunKeepsOpenable(d, ops);
  }

  // ---------- What was saved is read ----------

  /** A change never fails, and what it finds in the row is what the next read answers. */
  lemma ChangeIsRead(default: Option<string>, s: Store, pk: nat, text: string)
    requires s.row == Some(Row(pk, Encrypt(Some(pk), text)))
    ensures var (s1, a) := HandleChange(default, s);
      a == AnswerOf(text) && Read(default, s1).1 == AnswerOf(text) && s1.row == s.row && s1.nextPk == s.nextPk
  {
  }

  /** The row opens under its own primary key to the text, and under no other unless there is nothing to hide. */
  ghost predicate Keeps(row: Option<Row>, text: string) {
    && row.Some?
    && Decrypt(Some(row.value.pk), row.value.value) == Some(text)
    && forall key: Pk :: text != "" && key != Some(row.value.pk) ==> Decrypt(key, row.value.value) == None
  }

  /**
   The round trip of a save, in any state and with any default: it does not fail, the row keeps the text and
   its primary key, a new row takes a fresh one, and the next read answers with the text.
   */
  lemma SavedIsRead(default: Option<string>, s: Store, text: string)
    ensures var (s1, a) := Save(default, s, text);
      && a == AnswerOf(text) && Read(default, s1).1 == AnswerOf(text) && Keeps(s1.row, text)
      && s1.row.value.pk == (if s.row.Some? then s.row.value.pk else s.nextPk)
      && s1.nextPk == (if s.row.Some? then s.nextPk else s.nextPk + 1)
  {
    if s.row.Some? {
      var pk := s.row.value.pk;
      ChangeIsRead(default, s.(row := Some(Row(pk, Encrypt(Some(pk), text)))), pk, text);
    } else {
      var pk := s.nextPk;
      var s0 := s.(nextPk := pk + 1, row := Some(Row(pk, Clear(""))));
      ChangeIsRead(default, s0, pk, "");
      var s1 := HandleChange(default, s0).0;
      ChangeIsRead(default, s1.(row := Some(Row(pk, Encrypt(Some(pk), text)))), pk, text);
    }
  }

  /** So is a deletion: the next read answers with the default, or with nothing. */
  lemma DeletedIsUnset(default: Option<string>, s: Store)
    requires s.row.Some?
    ensures var (s1, a) := Delete(default, s);
      s1.row.None? && a == match default case Some(d) => AnswerOf(d) case None => Unset
  {
  }

  /** The row keeps the text, and a live cached value opens to it under an id entry that outlives it. */
  ghost predicate Serving(s: Store, text: string) {
    && Keeps(s.row, text)
    && (Live(s, s.value) ==>
          && s.id.Some? && s.value.value.expires <= s.id.value.expires
          && Decrypt(s.id.value.value, s.value.value.value) == Some(text))
  }

  lemma SaveServes(default: Option<string>, s: Store, text: string)
    ensures Serving(Save(default, s, text).0, text)
  {
    SavedIsRead(default, s, text);
  }

  /** Operations that leave the row alone. */
  predicate Quiet(op: Op) {
    op.ReadIt? || op.PreloadIt? || op.Wait? || op.EvictValue?
  }

  lemma QuietKeepsServing(default: Option<string>, s: Store, op: Op, text: string)
    requires Serving(s, text) && Quiet(op)
    ensures Serving(Do(default, s, op).0, text)
    ensures Read(default, s).1 == AnswerOf(text)
  {
  }

  lemma {:induction false} QuietRunKeepsServing(default: Option<string>, s: Store, ops: seq<Op>, text: string)
    requires Serving(s, text) && forall op <- ops :: Quiet(op)
    ensures Serving(Run(default, s, ops), text)
  {
    if ops != [] {
      QuietRunKeepsServing(default, s, ops[..|ops| - 1], text);
      QuietKeepsServing(default, Run(default, s, ops[..|ops| - 1]), ops[|ops| - 1], text);
    }
  }

  /**
   From any state and with any default: the last text saved is what every later read answers, through any
   number of reads, preloads, expiries and evictions, until the next save or deletion.
   */
  lemma LastSavedIsRead(default: Option<string>, s: Store, text: string, later: seq<Op>)
    requires forall op <- later :: Quiet(op)
    ensures Read(default, Run(default, Save(default, s, text).0, later)).1 == AnswerOf(text)
  {
    SaveServes(default, s, text);
    QuietRunKeepsServing(default, Save(default, s, text).0, later, text);
    QuietKeepsServing(default, Run(default, Save(default, s, text).0, later), ReadIt, text);
  }

  // ---------- Nothing is stored in clear ----------

  predicate Hidden(c: Stored) {
    c.Clear? ==> c.text == ""
  }

  ghost predicate AllHidden(s: Store) {
    (s.row.Some? ==> Hidden(s.row.value.value)) && (s.value.Some? ==> Hidden(s.value.value.value))
  }

  /** In no reachable state does the row or the cache hold a text in clear, unless it is empty. */
  lemma {:induction false} NothingInClear(default: Option<string>, ops: seq<Op>)
    ensures AllHidden(Run(default, EMPTY, ops))
  {
    if ops != [] {
      NothingInClear(default, ops[..|ops| - 1]);
    }
  }

  // ---------- A stale id entry ----------

  lemma RunSnoc(default: Option<string>, s: Store, ops: seq<Op>, op: Op)
    ensures Run(default, s, ops + [op]) == Do(default, Run(default, s, ops), op).0
  {
    assert (ops + [op])[..|ops|] == ops;
  }

  lemma RunTwo(default: Option<string>, s: Store, ops: seq<Op>, a: Op, b: Op)
    ensures Run(default, s, ops + [a, b]) == Do(default, Do(default, Run(default, s, ops), a).0, b).0
  {
    RunSnoc(default, s, ops, a);
    RunSnoc(default, s, ops + [a], b);
    assert ops + [a] + [b] == ops + [a, b];
  }

  /** After a save and a deletion the id entry is left, and no row. */
  lemma DeletionLeavesId(text: string)
    ensures Run(None, EMPTY, [SaveIt(text), DeleteIt]) ==
      Store(0, 2, None, Some(Entry(Some(1), ID_TIMEOUT)), Some(Entry(Encrypt(Some(1), NOT_SET), CACHE_TIMEOUT)))
  {
    RunTwo(None, EMPTY, [], SaveIt(text), DeleteIt);
    assert [] + [SaveIt(text), DeleteIt] == [SaveIt(text), DeleteIt];
  }

  /** A stale id entry seals the not-set marker and expires before it: the next read cannot open it. */
  lemma StaleIdSealsMarker(text: string)
    ensures Read(None, Run(None, EMPTY, [SaveIt(text), DeleteIt, Wait(290), PreloadIt, Wait(20)])).1 == Failed
  {
    DeletionLeavesId(text);
    var s2 := Run(None, EMPTY, [SaveIt(text), DeleteIt]);
    RunTwo(None, EMPTY, [SaveIt(text), DeleteIt], Wait(290), PreloadIt);
    RunSnoc(None, EMPTY, [SaveIt(text), DeleteIt] + [Wait(290), PreloadIt], Wait(20));
    assert [SaveIt(text), DeleteIt] + [Wait(290), PreloadIt] + [Wait(20)]
      == [SaveIt(text), DeleteIt, Wait(290), PreloadIt, Wait(20)];
    var s4 := Do(None, Do(None, s2, Wait(290)).0, PreloadIt).0;
    assert s4.value == Some(Entry(Sealed(Some(1), NOT_SET), 350)) && s4.id == s2.id && s4.row == None;
  }

  /**
   Exactly the fields with a default can always be read back: over every run of saves, deletions,
   reads, preloads, waits and evictions of the value, no read fails to decrypt iff there is a default.
   */
  lemma AlwaysDecryptsIffDefault(default: Option<string>)
    ensures (forall ops :: !Read(default, Run(default, EMPTY, ops)).1.Failed?) <==> default.Some?
  {
    if default.Some? {
      forall ops
        ensures !Read(default, Run(default, EMPTY, ops)).1.Failed?
      {
        RunKeepsOpenable(default.value, ops);
        ReadKeepsOpenable(default.value, Run(default, EMPTY, ops));
      }
    } else {
      StaleIdSealsMarker("x");
    }
  }
}
