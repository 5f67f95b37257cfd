/** The `MultipleLog` behavior: the `Log` behavior's counterpart for
    records saved through the batch queue. Before the batch it decides
    which records take part in the stale check; before each record's
    write it works out the changed attributes and renews the version;
    after the write it queues one log record on the log class's own batch
    queue, which is flushed when the batch ends. */
module MultipleLog {
  import opened Php
  import opened Records
  import opened LogBehavior
  import opened MultipleActiveRecord

  /** Who made the change, as the application context reports it. */
  datatype Actor = Console | Guest | User(id: Value)

  /** The changed-by value: null in a console application and for a
      guest, the user's id otherwise. */
  function ChangedBy(actor: Actor): (v: Value)
    ensures actor.User? ==> v == actor.id
    ensures !actor.User? ==> v == Null
  {
    match actor
    case Console => Null
    case Guest => Null
    case User(id) => id
  }

  /** PHP truthiness of `$model->versionField`. */
  predicate VersionTruthy(versionField: Option<string>) {
    versionField.Some? && TruthyString(versionField.value)
  }

  // ----- logToSaveMultiple -----

  /** Which queued records take part in the stale check: the test skips
      every saved record and every record with a version field, so exactly
      the new, unversioned records remain. */
  function Participation(states: seq<RecordState>, versionFields: seq<Option<string>>): (m: seq<bool>)
    requires |versionFields| == |states|
    ensures |m| == |states|
    ensures forall k :: 0 <= k < |states| ==> (m[k] <==> states[k].isNew && !VersionTruthy(versionFields[k]))
  {
    seq(|states|, k requires 0 <= k < |states| => states[k].isNew && !VersionTruthy(versionFields[k]))
  }

  /** The records a stale check could judge: saved records (a row exists
      to compare with) that carry a version field (a value to compare). */
  function Checkable(states: seq<RecordState>, versionFields: seq<Option<string>>): (m: seq<bool>)
    requires |versionFields| == |states|
    ensures |m| == |states|
    ensures forall k :: 0 <= k < |states| ==> (m[k] <==> !states[k].isNew && VersionTruthy(versionFields[k]))
  {
    seq(|states|, k requires 0 <= k < |states| => !states[k].isNew && VersionTruthy(versionFields[k]))
  }

  /** The skip test is the inverse of what its comment describes: no
      record a stale check could judge ever takes part, and no record that
      takes part has a version to compare. */
  lemma ParticipationInverted(states: seq<RecordState>, versionFields: seq<Option<string>>, k: nat)
    requires |versionFields| == |states| && k < |states|
    ensures !(Participation(states, versionFields)[k] && Checkable(states, versionFields)[k])
    ensures Participation(states, versionFields)[k] ==> !VersionTruthy(versionFields[k])
  {
  }

  /** A saved, versioned record and a new one: only the new one takes
      part, though only the saved one could be checked. */
  lemma StaleCheckSkipsSavedRecords()
    ensures var states := [RecordState(["id", "version"], map["id" := Int(1)], map["id" := Int(1)], false, ["id"]),
                           RecordState(["id"], map[], map[], true, ["id"])];
            var vfs := [Some("version"), None];
            Participation(states, vfs) == [false, true] && Checkable(states, vfs) == [true, false]
  {
  }

  /** `logToSaveMultiple`: gathers the participating records in queue
      order; with none it succeeds without querying, otherwise it fails
      as stale exactly when the query reports a mismatch. */
  method LogToSaveMultiple(models: seq<Record>, versionFields: seq<Option<string>>, faultyCount: int)
    returns (participants: seq<Record>, queried: bool, err: Option<Failure>)
    requires |versionFields| == |models|
    ensures participants == Select(models, Participation(States(models), versionFields))
    ensures queried <==> |participants| > 0
    ensures err == Some(Stale) <==> queried && faultyCount > 0
    ensures err.None? || err == Some(Stale)
  {
    ghost var m := Participation(States(models), versionFields);
    participants := [];
    var i := 0;
    while i < |models|
      invariant 0 <= i <= |models|
      invariant participants == SelectUpTo(models, m, i)
    {
      if models[i].isNew == false || VersionTruthy(versionFields[i]) {
        i := i + 1;
        continue;
      }
      participants := participants + [models[i]];
      i := i + 1;
    }
    assert models[..|models|] == models && m[..|models|] == m;
    SelectUpToPrefix(models, m, |models|);
    if |participants| == 0 {
      return participants, false, None;
    }
    queried := true;
    err := if faultyCount > 0 then Some(Stale) else None;
  }

  /** Of a queue of distinct records, a record takes part exactly when it
      is new and unversioned, and only queued records take part. */
  lemma ParticipantsAreNew(models: seq<Record>, versionFields: seq<Option<string>>)
    requires |versionFields| == |models| && Distinct(models)
    ensures var m := Participation(States(models), versionFields);
            && (forall k :: 0 <= k < |models| ==>
                  (models[k] in Select(models, m) <==> models[k].isNew && !VersionTruthy(versionFields[k])))
            && (forall r :: r in Select(models, m) ==> r in models)
  {
    var m := Participation(States(models), versionFields);
    forall k | 0 <= k < |models|
      ensures models[k] in Select(models, m) <==> m[k]
    {
      if m[k] {
        SelectAt(models, m, k);
      } else {
        SelectExcludes(models, m, k);
      }
    }
    forall r | r in Select(models, m)
      ensures r in models
    {
      SelectFrom(models, m, r);
    }
  }

  // ----- logBeforeSaveMultiple -----

  /** The names `logAttributes` lists as values: a named entry's name and a
      static entry's text; a Closure entry cannot serve as a name. */
  function EntryNames(entries: seq<LogAttribute>): (r: Result<seq<string>>)
    ensures r.Ok? ==> |r.value| == |entries|
    ensures r.Ok? <==> forall k :: 0 <= k < |entries| ==> !entries[k].Computed?
    decreases |entries|
  {
    if |entries| == 0 then Ok([])
    else
      match entries[0]
      case Computed(k) => Err(NotAName(k))
      case Named(n) => (match EntryNames(entries[1..]) case Ok(rest) => Ok([n] + rest) case Err(f) => Err(f))
      case Fixed(_, v) => (match EntryNames(entries[1..]) case Ok(rest) => Ok([ToString(v)] + rest) case Err(f) => Err(f))
  }

  datatype Result<T> = Ok(value: T) | Err(failure: Failure)

  /** `array_diff_assoc(getDirtyAttributes($names), $oldAttributes)`: the
      tracked attributes whose value has no old counterpart or differs
      from it as text. */
  function Diff(s: RecordState, names: seq<string>): map<string, Value> {
    map n | n in Dirty(s) && n in names && (n !in s.oldAttrs || ToString(s.oldAttrs[n]) != ToString(s.attrs[n])) :: s.attrs[n]
  }

  /** A tracked attribute is in the diff exactly when it is set and either
      has no old value or one whose text differs; the diff is part of the
      dirty attributes and keeps their values. */
  lemma DiffSpec(s: RecordState, names: seq<string>, n: string)
    ensures n in Diff(s, names) <==>
              n in names && n in s.attrs && (n !in s.oldAttrs || ToString(s.oldAttrs[n]) != ToString(s.attrs[n]))
    ensures n in Diff(s, names) ==> n in Dirty(s) && Diff(s, names)[n] == Dirty(s)[n]
  {
  }

  /** The keys of `m` in the order of `order`. */
  function InOrder(order: seq<string>, m: map<string, Value>): (r: seq<string>)
    ensures forall n :: n in r <==> n in order && n in m
  {
    if order == [] then []
    else InOrder(order[..|order| - 1], m) + (if order[|order| - 1] in m then [order[|order| - 1]] else [])
  }

  /** The version step of the multi-record logger: a new version whenever
      a version field is set. */
  function RenewAlways(c: Config, s: RecordState, toSave: map<string, Value>, changed: seq<string>, flag: bool, rand: nat)
    : BeforeSaveResult
    requires rand <= RandMax
  {
    match c.versionField
    case None => BeforeSaveResult(None, s, toSave, changed, flag)
    case Some(vf) =>
      if HasAttribute(s, vf) then
        BeforeSaveResult(None, s.(attrs := s.attrs[vf := Str(NatToDecimal(NewVersion(rand)))]), toSave, changed, flag)
      else BeforeSaveResult(Some(NoAttribute(vf)), s, toSave, changed, flag)
  }

  /** `logBeforeSaveMultiple` as a function of the record and the
      behavior's log flag. */
  function BeforeSaveMultiple(c: Config, s: RecordState, toSave: map<string, Value>, changed0: seq<string>,
                              flag0: bool, time: string, rand: nat): BeforeSaveResult
    requires rand <= RandMax
  {
    match EntryNames(c.logAttributes)
    case Err(f) => BeforeSaveResult(Some(f), s, toSave, changed0, flag0)
    case Ok(names) =>
      var diff := Diff(s, Without(names, [c.timeField]));
      StampDiff(c, s, toSave, InOrder(s.columns, diff), flag0, |diff| > 0, time, rand)
  }

  /** What follows the diff: the time stamp when something differs, then
      the version step. */
  function StampDiff(c: Config, s: RecordState, toSave: map<string, Value>, changed: seq<string>,
                     flag0: bool, differs: bool, time: string, rand: nat): BeforeSaveResult
    requires rand <= RandMax
  {
    if !differs then RenewAlways(c, s, toSave, changed, false, rand)
    else if !HasAttribute(s, c.timeField) then BeforeSaveResult(Some(UnknownProperty(c.timeField)), s, toSave, changed, flag0)
    else RenewAlways(c, s.(attrs := s.attrs[c.timeField := Str(time)]), toSave, changed, true, rand)
  }

  /** The log flag goes up and the time is stamped exactly when some
      tracked attribute other than the time field differs; the changed
      list names exactly those attributes (in column order). */
  lemma BeforeSaveMultipleChanged(c: Config, s: RecordState, toSave: map<string, Value>, changed0: seq<string>,
                                  flag0: bool, time: string, rand: nat)
    requires rand <= RandMax && EntryNames(c.logAttributes).Ok? && HasAttribute(s, c.timeField)
    requires VersionName(c) != c.timeField
    ensures var names := Without(EntryNames(c.logAttributes).value, [c.timeField]);
            var diff := Diff(s, names);
            var o := BeforeSaveMultiple(c, s, toSave, changed0, flag0, time, rand);
            && (o.toSaveLog <==> |diff| > 0)
            && (forall n :: n in o.changed <==> n in s.columns && n in diff)
            && c.timeField !in o.changed
            && (|diff| > 0 ==> o.owner.attrs[c.timeField] == Str(time))
            && (|diff| == 0 ==> Get(o.owner.attrs, c.timeField) == Get(s.attrs, c.timeField))
  {
    var names := Without(EntryNames(c.logAttributes).value, [c.timeField]);
    var diff := Diff(s, names);
    var changed := InOrder(s.columns, diff);
    var o := BeforeSaveMultiple(c, s, toSave, changed0, flag0, time, rand);
    assert c.timeField !in diff by {
      if c.timeField in diff {
        DiffSpec(s, names, c.timeField);
      }
    }
    if |diff| > 0 {
      var s1 := s.(attrs := s.attrs[c.timeField := Str(time)]);
      assert o == RenewAlways(c, s1, toSave, changed, true, rand);
      RenewAlwaysKeeps(c, s1, toSave, changed, true, rand, c.timeField);
    } else {
      assert o == RenewAlways(c, s, toSave, changed, false, rand);
      RenewAlwaysKeeps(c, s, toSave, changed, false, rand, c.timeField);
    }
  }

  /** The version step keeps the changed list and the flag, and touches
      no attribute other than the version field. */
  lemma RenewAlwaysKeeps(c: Config, s: RecordState, toSave: map<string, Value>, changed: seq<string>, flag: bool,
                         rand: nat, n: string)
    requires rand <= RandMax && n != VersionName(c)
    ensures var o := RenewAlways(c, s, toSave, changed, flag, rand);
            o.changed == changed && o.toSaveLog == flag && Get(o.owner.attrs, n) == Get(s.attrs, n)
  {
  }

  /** A version field gets a new version whether or not anything changed. */
  lemma BeforeSaveMultipleVersion(c: Config, s: RecordState, toSave: map<string, Value>, changed0: seq<string>,
                                  flag0: bool, time: string, rand: nat)
    requires rand <= RandMax && EntryNames(c.logAttributes).Ok? && HasAttribute(s, c.timeField)
    requires c.versionField.Some? && HasAttribute(s, c.versionField.value)
    ensures var o := BeforeSaveMultiple(c, s, toSave, changed0, flag0, time, rand);
            o.err == None && o.owner.attrs[c.versionField.value] == Str(NatToDecimal(NewVersion(rand)))
  {
    var names := Without(EntryNames(c.logAttributes).value, [c.timeField]);
    var vf := c.versionField.value;
    if |Diff(s, names)| > 0 {
      assert HasAttribute(s.(attrs := s.attrs[c.timeField := Str(time)]), vf);
    }
  }

  /** `logBeforeSaveMultiple` on the behavior attached to one record. */
  method LogBeforeSaveMultiple(log: Log, time: string, rand: nat) returns (err: Option<Failure>)
    requires rand <= RandMax
    modifies log, log.owner
    ensures var o := BeforeSaveMultiple(log.cfg, old(log.owner.State()), old(log.toSaveAttributes),
                                        old(log.changedAttributes), old(log.toSaveLog), time, rand);
            err == o.err && log.owner.State() == o.owner && log.toSaveAttributes == o.toSave
            && log.changedAttributes == o.changed && log.toSaveLog == o.toSaveLog
    ensures log.logClass == old(log.logClass)
  {
    var names := EntryNames(log.cfg.logAttributes);
    if names.Err? {
      return Some(names.failure);
    }
    var s := log.owner.State();
    var diff := Diff(s, Without(names.value, [log.cfg.timeField]));
    err := StampMultiple(log, InOrder(s.columns, diff), |diff| > 0, time, rand);
  }

  /** The part of `logBeforeSaveMultiple` after the diff. */
  method StampMultiple(log: Log, changed: seq<string>, differs: bool, time: string, rand: nat) returns (err: Option<Failure>)
    requires rand <= RandMax
    modifies log, log.owner
    ensures var o := StampDiff(log.cfg, old(log.owner.State()), old(log.toSaveAttributes), changed, old(log.toSaveLog),
                               differs, time, rand);
            err == o.err && log.owner.State() == o.owner && log.toSaveAttributes == o.toSave
            && log.changedAttributes == o.changed && log.toSaveLog == o.toSaveLog
    ensures log.logClass == old(log.logClass)
  {
    log.changedAttributes := changed;
    if differs {
      var ok := log.owner.Assign(log.cfg.timeField, Str(time));
      if !ok {
        return Some(UnknownProperty(log.cfg.timeField));
      }
      log.toSaveLog := true;
    } else {
      log.toSaveLog := false;
    }
    err := RenewVersionMultiple(log, rand);
  }

  /** The closing `setNewVersion` of `logBeforeSaveMultiple`. */
  method RenewVersionMultiple(log: Log, rand: nat) returns (err: Option<Failure>)
    requires rand <= RandMax
    modifies log.owner
    ensures var o := RenewAlways(log.cfg, old(log.owner.State()), log.toSaveAttributes, log.changedAttributes, log.toSaveLog, rand);
            err == o.err && log.owner.State() == o.owner
  {
    if log.cfg.versionField.Some? {
      var ok := log.SetNewVersion(rand);
      if !ok {
        return Some(NoAttribute(log.cfg.versionField.value));
      }
    }
    return None;
  }

  // ----- logAfterSaveMultiple -----

  /** `$owner->getAttributes($names)`: every name read as a property of
      the record, or the first name that is none. */
  function ReadAll(s: RecordState, names: seq<string>): (r: Result<map<string, Value>>)
    ensures r.Ok? ==> r.value.Keys == set n | n in names
    ensures r.Ok? ==> forall n :: n in names ==> ReadProperty(s, n) == Some(r.value[n])
    ensures r.Ok? <==> forall n :: n in names ==> ReadProperty(s, n).Some?
    decreases |names|
  {
    if names == [] then Ok(map[])
    else
      var last := names[|names| - 1];
      match ReadAll(s, names[..|names| - 1])
      case Err(f) => Err(f)
      case Ok(m) =>
        match ReadProperty(s, last)
        case None => Err(UnknownProperty(last))
        case Some(v) => Ok(m[last := v])
  }

  /** The row handed to the log record's constructor. */
  function RowMultiple(c: Config, s: RecordState, changed: seq<string>, actor: Actor): Result<map<string, Value>> {
    match EntryNames(c.logAttributes)
    case Err(f) => Err(f)
    case Ok(names) =>
      match ReadAll(s, names)
      case Err(f) => Err(f)
      case Ok(attributes) =>
        var m := (attributes["doc_id" := Get(attributes, "id")] - {"id"})[c.changedAttributesField := Str(BraceList(changed))];
        Ok(if TruthyString(c.changedByField) then m[c.changedByField := ChangedBy(actor)] else m)
  }

  /** The row: `doc_id` holds what `id` read, `id` is gone, the changed
      list is a brace literal, the changed-by field holds the actor, and
      every other logged attribute holds its value. */
  lemma RowMultipleContents(c: Config, s: RecordState, changed: seq<string>, actor: Actor)
    requires RowMultiple(c, s, changed, actor).Ok?
    requires c.changedAttributesField !in {"id", "doc_id"} && TruthyString(c.changedByField)
    requires c.changedByField !in {"id", "doc_id", c.changedAttributesField}
    ensures var row := RowMultiple(c, s, changed, actor).value;
            var names := EntryNames(c.logAttributes).value;
            && "id" !in row
            && row["doc_id"] == (if "id" in names then ReadProperty(s, "id").value else Null)
            && row[c.changedAttributesField] == Str(BraceList(changed))
            && row[c.changedByField] == ChangedBy(actor)
            && (forall n :: n in names && n !in {"id", "doc_id", c.changedAttributesField, c.changedByField} ==>
                  n in row && Some(row[n]) == ReadProperty(s, n))
  {
  }

  /** `logAfterSaveMultiple`: after a logged change, one new log record
      holding the row joins the log class's queue; a row key that is no
      column of the log table fails the construction. */
  method LogAfterSaveMultiple(log: Log, event: AfterEvent, actor: Actor, logQueue: SaveQueue,
                              logClassName: string, logColumns: seq<string>, logPk: seq<string>)
    returns (entry: Option<Record>, err: Option<Failure>)
    modifies logQueue
    ensures !Proceeds(event, log.toSaveLog) ==> entry == None && err == None && logQueue.models == old(logQueue.models)
    ensures Proceeds(event, log.toSaveLog) ==>
              match RowMultiple(log.cfg, log.owner.State(), log.changedAttributes, actor)
              case Err(f) => entry == None && err == Some(f) && logQueue.models == old(logQueue.models)
              case Ok(row) =>
                if row.Keys <= set n | n in logColumns then
                  && entry.Some? && fresh(entry.value) && err == None
                  && entry.value.State() == RecordState(logColumns, row, map[], true, logPk)
                  && logQueue.models == old(logQueue.models) + [entry.value]
                else
                  && entry == None && logQueue.models == old(logQueue.models)
                  && err.Some? && err.value.UnknownProperty? && err.value.name in row && err.value.name !in logColumns
    ensures logQueue.toInsertModels == old(logQueue.toInsertModels) && logQueue.toUpdateModels == old(logQueue.toUpdateModels)
  {
    if !event.AfterSave? || event.changedAttributes.None? || !log.toSaveLog {
      return None, None;
    }
    var row := RowMultiple(log.cfg, log.owner.State(), log.changedAttributes, actor);
    if row.Err? {
      return None, Some(row.failure);
    }
    if !(row.value.Keys <= set n | n in logColumns) {
      var k :| k in row.value && k !in logColumns;
      return None, Some(UnknownProperty(k));
    }
    var r := new Record(logClassName, logColumns, logPk, row.value);
    logQueue.AddSaveMultiple(Single(r));
    return Some(r), None;
  }

  // ----- the changed-by field as the source reads it -----

  /** As written, `logAfterSaveMultiple` reads `$this->changedByField`,
      which neither behavior declares: past its guards and the reading of
      the logged attributes it always ends in an unknown-property
      exception. */
  function AfterSaveMultipleAsWritten(c: Config, s: RecordState, event: AfterEvent, toSaveLog: bool): (err: Option<Failure>)
    ensures err.Some? <==> Proceeds(event, toSaveLog)
  {
    if !Proceeds(event, toSaveLog) then None
    else
      match EntryNames(c.logAttributes)
      case Err(f) => Some(f)
      case Ok(names) =>
        match ReadAll(s, names)
        case Err(f) => Some(f)
        case Ok(_) => Some(UnknownProperty("changedByField"))
  }

  /** Wherever the corrected behavior builds a row, the code as written
      fails on the undeclared field; where the row cannot be built, both
      fail alike. */
  lemma AsWrittenFailsWhereRowBuilds(c: Config, s: RecordState, event: AfterEvent, toSaveLog: bool,
                                     changed: seq<string>, actor: Actor)
    requires Proceeds(event, toSaveLog)
    ensures RowMultiple(c, s, changed, actor).Ok? ==>
              AfterSaveMultipleAsWritten(c, s, event, toSaveLog) == Some(UnknownProperty("changedByField"))
    ensures RowMultiple(c, s, changed, actor).Err? ==>
              AfterSaveMultipleAsWritten(c, s, event, toSaveLog) == Some(RowMultiple(c, s, changed, actor).failure)
  {
  }

  /** A logged change on an otherwise well-formed behavior: as written it
      fails; with the field declared it queues a log row. */
  lemma ChangedByAsWritten()
    ensures var c := DefaultConfig([Named("id"), Named("a")], None);
            var s := RecordState(["id", "a"], map["id" := Int(7), "a" := Int(2)], map["id" := Int(7), "a" := Int(1)], false, ["id"]);
            var event := AfterSave(Some(map["a" := Int(1)]));
            && AfterSaveMultipleAsWritten(c, s, event, true) == Some(UnknownProperty("changedByField"))
            && RowMultiple(c, s, ["a"], Guest) ==
                 Ok(map["a" := Int(2), "doc_id" := Int(7), "changed_attributes" := Str("{a}"), "changed_by" := Null])
  {
    var c := DefaultConfig([Named("id"), Named("a")], None);
    var s := RecordState(["id", "a"], map["id" := Int(7), "a" := Int(2)], map["id" := Int(7), "a" := Int(1)], false, ["id"]);
    assert c.logAttributes[1..] == [Named("a")] && [Named("a")][1..] == [];
    var e: seq<LogAttribute> := [Named("a")];
    assert e[0] == Named("a") && e[1..] == [];
    assert EntryNames(e[1..]) == Ok([]);
    assert ["a"] + [] == ["a"];
    assert EntryNames(e) == Ok(["a"]);
    assert ["id"] + ["a"] == ["id", "a"];
    assert EntryNames(c.logAttributes) == Ok(["id", "a"]);
    assert ["id", "a"][..1] == ["id"] && ["id"][..0] == [];
    assert ReadAll(s, ["id"]) == Ok(map["id" := Int(7)]);
    assert ReadAll(s, ["id", "a"]) == Ok(map["id" := Int(7), "a" := Int(2)]);
    assert BraceList(["a"]) == "{a}";
    var attributes := map["id" := Int(7), "a" := Int(2)];
    assert attributes["doc_id" := Int(7)] - {"id"} == map["a" := Int(2), "doc_id" := Int(7)];
    assert TruthyString(c.changedByField);
  }

  // ----- logSavedMultiple -----

  /** `logSavedMultiple`: the log class's `saveMultiple()` with no new
      models and validation on; its result is the batch's. */
  method LogSavedMultiple(logQueue: SaveQueue, proceed: bool, valid: seq<bool>, hooks: seq<Hook>,
                          types: map<string, string>, quote: Value -> string, affectedRows: int, lastId: int)
    returns (ok: bool)
    requires Distinct(logQueue.models)
    requires |valid| == |logQueue.models| && |hooks| == |logQueue.models|
    modifies logQueue, set r | r in logQueue.models
    ensures var s0 := old(States(logQueue.models));
            var o := SaveOutcome(logQueue.tableName, s0, true, proceed, valid, hooks, types, quote, affectedRows, lastId);
            && ok == o.ok
            && logQueue.models == (if ok then [] else old(logQueue.models))
            && forall k :: 0 <= k < |old(logQueue.models)| ==> old(logQueue.models)[k].State() == o.states[k]
  {
    assert logQueue.models + Added(Models([])) == logQueue.models;
    var insert, update, changed;
    ok, insert, update, changed := logQueue.SaveMultiple(Models([]), true, proceed, valid, hooks, types, quote, affectedRows, lastId);
  }
}
