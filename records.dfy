/** The active-record container the batch engine and the loggers work on:
    current attributes, the attributes last read from or written to the
    table, and the "new record" flag. */
module Records {
  import opened Php

  /** A record at one moment: its column names in table order, the values
      set on it, the values last persisted, whether it has never been saved,
      and the primary-key column names of its table. */
  datatype RecordState = RecordState(
    columns: seq<string>,
    attrs: map<string, Value>,
    oldAttrs: map<string, Value>,
    isNew: bool,
    primaryKey: seq<string>)

  /** Array read that yields null for a missing key. */
  function Get(m: map<string, Value>, name: string): Value {
    if name in m then m[name] else Null
  }

  /** `hasAttribute`: a column of the table, or a non-null value set on it. */
  predicate HasAttribute(s: RecordState, name: string) {
    (name in s.attrs && s.attrs[name] != Null) || name in s.columns
  }

  /** `getDirtyAttributes()`: values set since the last save, where "changed"
      is strict (`!==`) inequality or a missing old value. */
  function Dirty(s: RecordState): map<string, Value> {
    map n | n in s.attrs && (n !in s.oldAttrs || s.attrs[n] != s.oldAttrs[n]) :: s.attrs[n]
  }

  /** The changed-attributes map handed to the after-save listeners: each
      dirty name mapped to the value it had before (null when it had none). */
  function ChangedMap(s: RecordState): map<string, Value> {
    map n | n in Dirty(s) :: Get(s.oldAttrs, n)
  }

  /** `setOldAttribute` for every dirty name: the saved values become the old ones. */
  function Commit(s: RecordState): RecordState {
    s.(oldAttrs := s.oldAttrs + Dirty(s))
  }

  /** After a commit the old attributes hold every current value, so nothing
      is dirty; the changed map names exactly the dirty attributes, with
      their prior old values. */
  lemma CommitSpec(s: RecordState)
    ensures Commit(s).attrs == s.attrs && Commit(s).isNew == s.isNew
    ensures forall n :: n in s.attrs ==> n in Commit(s).oldAttrs && Commit(s).oldAttrs[n] == s.attrs[n]
    ensures forall n :: n in s.oldAttrs && n !in s.attrs ==> Commit(s).oldAttrs[n] == s.oldAttrs[n]
    ensures Dirty(Commit(s)) == map[]
    ensures ChangedMap(s).Keys == Dirty(s).Keys
    ensures forall n :: n in ChangedMap(s) ==> ChangedMap(s)[n] == (if n in s.oldAttrs then s.oldAttrs[n] else Null)
  {
    var c := Commit(s);
    forall n | n in s.attrs
      ensures n in c.oldAttrs && c.oldAttrs[n] == s.attrs[n]
    {
      if n !in Dirty(s) {
        assert n in s.oldAttrs && s.attrs[n] == s.oldAttrs[n];
      }
    }
    assert Dirty(c).Keys == {};
  }

  /** Reading `$record->name`: the value set on it, null for a column with
      no value yet, and no such property otherwise. */
  function ReadProperty(s: RecordState, name: string): (r: Option<Value>)
    ensures r.Some? <==> name in s.attrs || name in s.columns
    ensures name in s.attrs ==> r == Some(s.attrs[name])
    ensures name !in s.attrs && name in s.columns ==> r == Some(Null)
  {
    if name in s.attrs then Some(s.attrs[name])
    else if name in s.columns then Some(Null)
    else None
  }

  /** The key columns set to `id`. */
  function WithId(s: RecordState, id: int): map<string, Value> {
    s.attrs + map k | k in s.primaryKey :: Int(id)
  }

  /** A new record once its table has assigned it `id`: `id` on every key
      column, and no longer new. Clearing the new-record flag
      (`setIsNewRecord(false)`) makes the current attributes the old ones. */
  function AssignId(s: RecordState, id: int): RecordState {
    s.(attrs := WithId(s, id), oldAttrs := WithId(s, id), isNew := false)
  }

  /** A record that has just been given its id has nothing dirty, so a
      later commit leaves it as it is and reports no change. */
  lemma AssignIdClean(s: RecordState, id: int)
    ensures forall k :: k in s.primaryKey ==> AssignId(s, id).attrs[k] == Int(id)
    ensures forall n :: n in s.attrs && n !in s.primaryKey ==> AssignId(s, id).attrs[n] == s.attrs[n]
    ensures Dirty(AssignId(s, id)) == map[]
    ensures Commit(AssignId(s, id)) == AssignId(s, id)
    ensures ChangedMap(AssignId(s, id)) == map[]
  {
    var r := AssignId(s, id);
    assert Dirty(r).Keys == {};
    assert r.oldAttrs + Dirty(r) == r.oldAttrs;
  }

  class Record {
    const className: string
    const columns: seq<string>
    const primaryKey: seq<string>
    var attrs: map<string, Value>
    var oldAttrs: map<string, Value>
    var isNew: bool

    function State(): RecordState
      reads this
    {
      RecordState(columns, attrs, oldAttrs, isNew, primaryKey)
    }

    /** A fresh, never-saved record of `className` holding `attrs`. */
    constructor (className: string, columns: seq<string>, primaryKey: seq<string>, attrs: map<string, Value>)
      ensures this.className == className
      ensures State() == RecordState(columns, attrs, map[], true, primaryKey)
    {
      this.className := className;
      this.columns := columns;
      this.primaryKey := primaryKey;
      this.attrs := attrs;
      this.oldAttrs := map[];
      this.isNew := true;
    }

    /** Several attribute assignments at once; later keys overwrite. */
    method SetAttributes(values: map<string, Value>)
      modifies this
      ensures State() == old(State()).(attrs := old(attrs) + values)
    {
      attrs := attrs + values;
    }

    /** Assignment through `$record->name = v` or `setAttribute`: allowed
        only for an attribute of the record, and refused otherwise. */
    method Assign(name: string, v: Value) returns (ok: bool)
      modifies this
      ensures ok == HasAttribute(old(State()), name)
      ensures State() == if ok then old(State()).(attrs := old(attrs)[name := v]) else old(State())
    {
      ok := (name in attrs && attrs[name] != Null) || name in columns;
      if ok {
        attrs := attrs[name := v];
      }
    }

    /** Writes `id` into every primary-key attribute and marks the record
        as saved, which makes its attributes the old ones. */
    method AssignPrimaryKey(id: int)
      modifies this
      ensures State() == AssignId(old(State()), id)
    {
      var k := 0;
      while k < |primaryKey|
        invariant 0 <= k <= |primaryKey|
        invariant attrs == old(attrs) + map j | j in primaryKey[..k] :: Int(id)
        invariant oldAttrs == old(oldAttrs) && isNew == old(isNew)
      {
        assert primaryKey[..k + 1] == primaryKey[..k] + [primaryKey[k]];
        attrs := attrs[primaryKey[k] := Int(id)];
        k := k + 1;
      }
      assert primaryKey[..k] == primaryKey;
      isNew := false;
      oldAttrs := attrs;
    }

    /** For each dirty attribute: remember its old value, then make the
        current value the old one. Returns the changed-attributes map. */
    method CommitDirty() returns (changed: map<string, Value>)
      modifies this
      ensures State() == Commit(old(State()))
      ensures changed == ChangedMap(old(State()))
    {
      var olds;
      olds, changed := CommitNames(oldAttrs, Dirty(State()));
      oldAttrs := olds;
    }
  }

  /** The per-name loop of the commit: for each dirty name, record its
      old value (null when it has none) and make the dirty value the old
      one. */
  method CommitNames(before: map<string, Value>, dirty: map<string, Value>)
    returns (olds: map<string, Value>, changed: map<string, Value>)
    ensures olds == before + dirty
    ensures changed == map n | n in dirty :: Get(before, n)
  {
    olds, changed := before, map[];
    var pending := dirty.Keys;
    while pending != {}
      invariant pending <= dirty.Keys
      invariant olds.Keys == before.Keys + (dirty.Keys - pending)
      invariant forall n :: n in olds ==> olds[n] == if n in dirty && n !in pending then dirty[n] else before[n]
      invariant changed.Keys == dirty.Keys - pending
      invariant forall n :: n in changed ==> changed[n] == Get(before, n)
      decreases pending
    {
      var n :| n in pending;
      changed := changed[n := Get(olds, n)];
      olds := olds[n := dirty[n]];
      pending := pending - {n};
    }
    assert olds.Keys == (before + dirty).Keys && changed.Keys == dirty.Keys;
  }
}
