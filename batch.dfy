/** The batch-save queue of one record class and its `saveMultiple`
    engine. The queue and the two group lists are the class's static
    fields; the records are shared objects the engine updates in place.
    Listener outcomes, validation and database results come in as
    parameters. */
module MultipleActiveRecord {
  import opened Php
  import opened Records
  import opened BulkWrite

  /** The argument of `addSaveMultiple`: a list of records, one record, or
      a falsy value. */
  datatype SaveArg = Models(items: seq<Record>) | Single(item: Record) | Falsy

  /** What the argument contributes to the queue, in order. */
  function Added(arg: SaveArg): (rs: seq<Record>)
    ensures arg.Models? ==> rs == arg.items
    ensures arg.Single? ==> rs == [arg.item]
    ensures arg.Falsy? ==> rs == []
  {
    match arg
    case Models(items) => items
    case Single(item) => [item]
    case Falsy => []
  }

  /** The effect of one record's `beforeSaveMultiple` listeners: attribute
      writes, then whether the save may go on. */
  datatype Hook = Hook(writes: map<string, Value>, proceed: bool)

  /** What is handed to `batchInsert`. */
  datatype InsertPlan = InsertPlan(table: string, columns: seq<string>, rows: seq<map<string, Value>>)

  function States(rs: seq<Record>): (ss: seq<RecordState>)
    reads set r | r in rs
    ensures |ss| == |rs| && forall k :: 0 <= k < |rs| ==> ss[k] == rs[k].State()
  {
    seq(|rs|, k reads set r | r in rs requires 0 <= k < |rs| => rs[k].State())
  }

  /** Every record after its listeners wrote their attributes. */
  function Hooked(s0: seq<RecordState>, hooks: seq<Hook>): seq<RecordState>
    requires |hooks| == |s0|
  {
    seq(|s0|, k requires 0 <= k < |s0| => s0[k].(attrs := s0[k].attrs + hooks[k].writes))
  }

  /** Record j stops the save: it fails validation, or a listener vetoes it. */
  predicate Fails(runValidation: bool, valid: seq<bool>, hooks: seq<Hook>, j: nat)
    requires |valid| == |hooks| && j < |hooks|
  {
    (runValidation && !valid[j]) || !hooks[j].proceed
  }

  /** The first record that stops the save, or the queue length if none does. */
  function FirstFailure(runValidation: bool, valid: seq<bool>, hooks: seq<Hook>): (f: nat)
    requires |valid| == |hooks|
    ensures f <= |hooks|
    ensures forall j :: 0 <= j < f ==> !Fails(runValidation, valid, hooks, j)
    ensures f < |hooks| ==> Fails(runValidation, valid, hooks, f)
  {
    if hooks == [] then 0
    else if Fails(runValidation, valid, hooks, 0) then 0
    else
      var r := FirstFailure(runValidation, valid[1..], hooks[1..]);
      assert forall j :: 1 <= j < |hooks| ==>
               Fails(runValidation, valid, hooks, j) == Fails(runValidation, valid[1..], hooks[1..], j - 1);
      1 + r
  }

  /** The first failure is the index every earlier record passes and
      which is the end or fails itself. */
  lemma FirstFailureIs(runValidation: bool, valid: seq<bool>, hooks: seq<Hook>, i: nat)
    requires |valid| == |hooks| && i <= |hooks|
    requires forall j :: 0 <= j < i ==> !Fails(runValidation, valid, hooks, j)
    requires i == |hooks| || Fails(runValidation, valid, hooks, i)
    ensures FirstFailure(runValidation, valid, hooks) == i
  {
  }

  /** How many records were sorted into the insert and update groups. */
  function Processed(proceed: bool, runValidation: bool, valid: seq<bool>, hooks: seq<Hook>): nat
    requires |valid| == |hooks|
  {
    if proceed then FirstFailure(runValidation, valid, hooks) else 0
  }

  /** Whether record k's listeners ran: it was sorted into a group, or it is
      the record a listener vetoed. */
  predicate HookRan(proceed: bool, runValidation: bool, valid: seq<bool>, hooks: seq<Hook>, k: nat)
    requires |valid| == |hooks|
  {
    var f := FirstFailure(runValidation, valid, hooks);
    proceed && (k < f || (k == f && f < |hooks| && (!runValidation || valid[k])))
  }

  /** The records are sorted in queue order, so nothing after the first
      failure is processed and a batch veto processes nothing. */
  lemma ProcessedSpec(proceed: bool, runValidation: bool, valid: seq<bool>, hooks: seq<Hook>)
    requires |valid| == |hooks|
    ensures Processed(proceed, runValidation, valid, hooks) == |hooks| <==>
              |hooks| == 0 || (proceed && forall j :: 0 <= j < |hooks| ==> !Fails(runValidation, valid, hooks, j))
    ensures forall k :: 0 <= k < |hooks| && HookRan(proceed, runValidation, valid, hooks, k) ==>
              proceed && forall j :: 0 <= j < k ==> !Fails(runValidation, valid, hooks, j)
    ensures !proceed ==> forall k :: 0 <= k < |hooks| ==> !HookRan(proceed, runValidation, valid, hooks, k)
  {
  }

  /** What a `saveMultiple` call ends with: whether the batch was saved,
      the insert and the update it hands to the database, each record's
      changed-attributes map, every queued record's state, and how many
      records were sorted into the insert and update groups. */
  datatype Outcome = Outcome(
    ok: bool,
    insert: Option<InsertPlan>,
    update: Option<string>,
    changed: seq<map<string, Value>>,
    states: seq<RecordState>,
    processed: nat)

  /** Every record's state when the batch stops early: the listeners of
      the records they ran on have written their attributes. */
  function ListenedStates(s0: seq<RecordState>, proceed: bool, runValidation: bool, valid: seq<bool>,
                          hooks: seq<Hook>): seq<RecordState>
    requires |valid| == |s0| && |hooks| == |s0|
  {
    seq(|s0|, k requires 0 <= k < |s0| =>
          if HookRan(proceed, runValidation, valid, hooks, k) then Hooked(s0, hooks)[k] else s0[k])
  }

  /** Every record's state at the end of a batch that passed. */
  function SavedStates(s1: seq<RecordState>, first: int): seq<RecordState> {
    seq(|s1|, k requires 0 <= k < |s1| => Saved(s1, k, first))
  }

  /** Every record's changed-attributes map in a batch that passed. */
  function ChangedMaps(s1: seq<RecordState>, first: int): seq<map<string, Value>> {
    seq(|s1|, k requires 0 <= k < |s1| => ChangedMap(Stamped(s1, k, first)))
  }

  /** The outcome of saving a queue whose records start in the states `s0`. */
  function SaveOutcome(table: string, s0: seq<RecordState>, runValidation: bool, proceed: bool,
                       valid: seq<bool>, hooks: seq<Hook>, types: map<string, string>, quote: Value -> string,
                       affectedRows: int, lastId: int): (o: Outcome)
    requires |valid| == |s0| && |hooks| == |s0|
    ensures o.processed <= |s0| && |o.states| == |s0|
    ensures o.ok <==> proceed && o.processed == |s0|
  {
    var s1 := Hooked(s0, hooks);
    var p := Processed(proceed, runValidation, valid, hooks);
    if proceed && p == |s0| then
      var union := AttributeUnion(s0);
      var pks := PrimaryKeys(s0);
      var rows := InsertRows(s1, union, pks);
      var tuples := UpdateTuples(s1, union, types, quote);
      var first := FirstId(lastId, affectedRows);
      Outcome(true,
              if rows == [] then None else Some(InsertPlan(table, InsertColumns(union, pks), rows)),
              if tuples == [] then None else Some(UpdateSql(table, union, SetListKeys(s1), pks, tuples)),
              ChangedMaps(s1, first),
              SavedStates(s1, first),
              p)
    else
      Outcome(false, None, None, [], ListenedStates(s0, proceed, runValidation, valid, hooks), p)
  }

  /** A vetoed or failed batch writes nothing and leaves each record as
      its listeners left it. */
  lemma OutcomeAborted(table: string, s0: seq<RecordState>, runValidation: bool, proceed: bool,
                       valid: seq<bool>, hooks: seq<Hook>, types: map<string, string>, quote: Value -> string,
                       affectedRows: int, lastId: int)
    requires |valid| == |s0| && |hooks| == |s0|
    requires !proceed || Processed(proceed, runValidation, valid, hooks) < |s0|
    ensures var o := SaveOutcome(table, s0, runValidation, proceed, valid, hooks, types, quote, affectedRows, lastId);
            && !o.ok && o.insert == None && o.update == None && o.changed == []
            && o.processed == Processed(proceed, runValidation, valid, hooks)
            && (!proceed ==> o.states == s0)
            && (proceed ==>
                  var f := FirstFailure(runValidation, valid, hooks);
                  var s1 := Hooked(s0, hooks);
                  && |o.states| == |s0|
                  && (forall k :: 0 <= k < f ==> o.states[k] == s1[k])
                  && (f < |s0| ==> o.states[f] == if !runValidation || valid[f] then s1[f] else s0[f])
                  && (forall k :: f < k < |s0| ==> o.states[k] == s0[k]))
  {
  }

  /** A batch that passed inserts the new records' rows, updates the
      others, and leaves every record saved. */
  lemma OutcomeSaved(table: string, s0: seq<RecordState>, runValidation: bool, proceed: bool,
                     valid: seq<bool>, hooks: seq<Hook>, types: map<string, string>, quote: Value -> string,
                     affectedRows: int, lastId: int)
    requires |valid| == |s0| && |hooks| == |s0|
    requires proceed && Processed(proceed, runValidation, valid, hooks) == |s0|
    ensures var o := SaveOutcome(table, s0, runValidation, proceed, valid, hooks, types, quote, affectedRows, lastId);
            var s1 := Hooked(s0, hooks);
            var union := AttributeUnion(s0);
            var pks := PrimaryKeys(s0);
            var rows := InsertRows(s1, union, pks);
            var tuples := UpdateTuples(s1, union, types, quote);
            var first := FirstId(lastId, affectedRows);
            && o.ok && o.processed == |s0|
            && o.insert == (if rows == [] then None else Some(InsertPlan(table, InsertColumns(union, pks), rows)))
            && o.update == (if tuples == [] then None else Some(UpdateSql(table, union, SetListKeys(s1), pks, tuples)))
            && o.changed == ChangedMaps(s1, first) && o.states == SavedStates(s1, first)
  {
  }

  /** In a batch that passed, each inserted record reports an empty
      changed map and ends up stamped with its id and clean; each updated
      record reports its dirty attributes and commits them. */
  lemma OutcomeCommitted(table: string, s0: seq<RecordState>, runValidation: bool, proceed: bool,
                         valid: seq<bool>, hooks: seq<Hook>, types: map<string, string>, quote: Value -> string,
                         affectedRows: int, lastId: int)
    requires |valid| == |s0| && |hooks| == |s0|
    requires proceed && Processed(proceed, runValidation, valid, hooks) == |s0|
    ensures var o := SaveOutcome(table, s0, runValidation, proceed, valid, hooks, types, quote, affectedRows, lastId);
            var s1 := Hooked(s0, hooks);
            var first := FirstId(lastId, affectedRows);
            forall k :: 0 <= k < |s0| ==>
              if s0[k].isNew then
                o.changed[k] == map[] && o.states[k] == AssignId(s1[k], first + InsertRank(s1, k))
              else
                o.changed[k] == ChangedMap(s1[k]) && o.states[k] == Commit(s1[k])
  {
    OutcomeSaved(table, s0, runValidation, proceed, valid, hooks, types, quote, affectedRows, lastId);
    var s1 := Hooked(s0, hooks);
    assert forall k :: 0 <= k < |s0| ==> s1[k].isNew == s0[k].isNew;
    SavedStatesSpec(s1, FirstId(lastId, affectedRows));
  }

  /** An inserted record reports an empty changed map and keeps its
      stamped attributes as the old ones; an updated record reports its
      dirty attributes and commits them. */
  lemma SavedStatesSpec(s1: seq<RecordState>, first: int)
    ensures forall k :: 0 <= k < |s1| ==>
              if s1[k].isNew then
                ChangedMaps(s1, first)[k] == map[] && SavedStates(s1, first)[k] == AssignId(s1[k], first + InsertRank(s1, k))
              else
                ChangedMaps(s1, first)[k] == ChangedMap(s1[k]) && SavedStates(s1, first)[k] == Commit(s1[k])
  {
    forall k | 0 <= k < |s1| && s1[k].isNew
      ensures ChangedMap(Stamped(s1, k, first)) == map[] && Saved(s1, k, first) == AssignId(s1[k], first + InsertRank(s1, k))
    {
      AssignIdClean(s1[k], first + InsertRank(s1, k));
    }
  }

  /** The insert rows as `saveMultiple` builds them: each record's values
      are read before its listeners run, so the rows hold the states `s0`
      while the commit afterwards records the listeners' values as stored. */
  function InsertRowsAsWritten(s0: seq<RecordState>, union: seq<string>, pks: seq<string>): (rows: seq<map<string, Value>>)
    ensures forall j :: 0 <= j < |s0| && s0[j].isNew ==>
              InsertRank(s0, j) < |rows| && rows[InsertRank(s0, j)] == InsertRow(s0[j], union, pks)
  {
    PartitionSpec(s0, union, pks, map[], (v: Value) => "");
    InsertRows(s0, union, pks)
  }

  /** A listener that stamps the time on a new record: as written the row
      inserted still holds the old time, yet the saved record believes the
      new time is stored. */
  lemma ListenerWritesLost()
    ensures InsertRowsAsWritten([Unstamped()], ["id", "atime"], ["id"]) == [map["atime" := Str("t0")]]
    ensures Saved(Hooked([Unstamped()], [Hook(map["atime" := Str("t1")], true)]), 0, 1).oldAttrs["atime"] == Str("t1")
  {
    UnstampedRow();
    var s1 := Hooked([Unstamped()], [Hook(map["atime" := Str("t1")], true)]);
    assert s1[0].attrs == map["atime" := Str("t1")];
    CommitSpec(Stamped(s1, 0, 1));
  }

  /** A new record of a table with columns `id` and `atime`, holding the
      time `t0`. */
  function Unstamped(): RecordState {
    RecordState(["id", "atime"], map["atime" := Str("t0")], map[], true, ["id"])
  }

  lemma UnstampedRow()
    ensures InsertRows([Unstamped()], ["id", "atime"], ["id"]) == [map["atime" := Str("t0")]]
  {
    var s0 := [Unstamped()];
    assert s0[..0] == [] && NewMask(s0)[..0] == [];
    assert Select(s0, NewMask(s0)) == s0;
    assert InsertRow(s0[0], ["id", "atime"], ["id"]) == map["atime" := Str("t0")];
  }

  /** With the rows built after the listeners, a new record's insert row
      holds every value its listeners wrote to a non-key column. */
  lemma ListenerWritesInserted(s0: seq<RecordState>, hooks: seq<Hook>, union: seq<string>, pks: seq<string>, j: nat)
    requires |hooks| == |s0| && j < |s0| && s0[j].isNew
    ensures var s1 := Hooked(s0, hooks);
            var rows := InsertRows(s1, union, pks);
            && InsertRank(s1, j) < |rows|
            && forall a :: a in hooks[j].writes && a in s0[j].columns && a in union && a !in pks ==>
                 a in rows[InsertRank(s1, j)] && rows[InsertRank(s1, j)][a] == hooks[j].writes[a]
  {
    var s1 := Hooked(s0, hooks);
    SelectAt(s1, NewMask(s1), j);
    InsertRowSpec(s1[j], union, pks);
  }

  /** The update tuples as `saveMultiple` builds them: like the insert
      rows, they hold each record's values from before its listeners ran. */
  function UpdateTuplesAsWritten(s0: seq<RecordState>, union: seq<string>, types: map<string, string>,
                                 quote: Value -> string): (tuples: seq<string>)
    ensures forall j :: 0 <= j < |s0| && !s0[j].isNew ==>
              CountTrue(Negate(NewMask(s0))[..j]) < |tuples| &&
              tuples[CountTrue(Negate(NewMask(s0))[..j])] == UpdateTuple(s0[j], union, types, quote)
  {
    PartitionSpec(s0, union, [], types, quote);
    UpdateTuples(s0, union, types, quote)
  }

  /** A stored record of a table with columns `id` and `atime`, holding
      the time `t0`. */
  function Stored(): RecordState {
    RecordState(["id", "atime"], map["id" := Int(1), "atime" := Str("t0")],
                map["id" := Int(1), "atime" := Str("t0")], false, ["id"])
  }

  /** A listener that stamps the time on a stored record: as written the
      update tuple still carries the old time, yet the saved record
      believes the new time is stored. */
  lemma ListenerUpdateLost(quote: Value -> string)
    ensures UpdateTuplesAsWritten([Stored()], ["id", "atime"], map[], quote) == [UpdateTuple(Stored(), ["id", "atime"], map[], quote)]
    ensures Slots(Stored(), ["id", "atime"], map[], quote)[1] == Slot(Str("t0"), "", quote)
    ensures Saved(Hooked([Stored()], [Hook(map["atime" := Str("t1")], true)]), 0, 1).oldAttrs["atime"] == Str("t1")
  {
    var s0 := [Stored()];
    assert s0[..0] == [] && Negate(NewMask(s0))[..0] == [];
    UpdateSlotsSpec(Stored(), ["id", "atime"], map[], quote);
    var s1 := Hooked(s0, [Hook(map["atime" := Str("t1")], true)]);
    assert s1[0].attrs["atime"] == Str("t1");
    CommitSpec(Stamped(s1, 0, 1));
  }

  /** With the tuples built after the listeners, a stored record's update
      tuple carries every value its listeners wrote to one of its columns,
      in that column's slot. */
  lemma ListenerWritesUpdated(s0: seq<RecordState>, hooks: seq<Hook>, union: seq<string>,
                              types: map<string, string>, quote: Value -> string, j: nat)
    requires |hooks| == |s0| && j < |s0| && !s0[j].isNew
    ensures var s1 := Hooked(s0, hooks);
            var tuples := UpdateTuples(s1, union, types, quote);
            var r := CountTrue(Negate(NewMask(s1))[..j]);
            && r < |tuples| && tuples[r] == UpdateTuple(s1[j], union, types, quote)
            && forall k :: 0 <= k < |union| && union[k] in hooks[j].writes && union[k] in s0[j].columns ==>
                 Slots(s1[j], union, types, quote)[k] == Slot(hooks[j].writes[union[k]], TypeOf(types, union[k]), quote)
  {
    var s1 := Hooked(s0, hooks);
    SelectAt(s1, Negate(NewMask(s1)), j);
    UpdateSlotsSpec(s1[j], union, types, quote);
  }

  class SaveQueue {
    const tableName: string
    var models: seq<Record>
    var toInsertModels: seq<Record>
    var toUpdateModels: seq<Record>

    constructor (tableName: string)
      ensures this.tableName == tableName
      ensures models == [] && toInsertModels == [] && toUpdateModels == []
    {
      this.tableName := tableName;
      models := [];
      toInsertModels := [];
      toUpdateModels := [];
    }

    /** `addSaveMultiple`: appends a list in order, or one truthy record. */
    method AddSaveMultiple(arg: SaveArg)
      modifies this
      ensures models == old(models) + Added(arg)
      ensures toInsertModels == old(toInsertModels) && toUpdateModels == old(toUpdateModels)
    {
      match arg {
        case Models(items) =>
          models := models + items;
        case Single(item) =>
          models := models + [item];
        case Falsy =>
      }
    }

    /** `getSaveMultiple`. */
    method GetSaveMultiple() returns (rs: seq<Record>)
      ensures rs == models
    {
      rs := models;
    }

    /** `clearSaveMultiple`. */
    method ClearSaveMultiple()
      modifies this
      ensures models == []
      ensures toInsertModels == old(toInsertModels) && toUpdateModels == old(toUpdateModels)
    {
      models := [];
    }

    /** `savedMultiple`: the end-of-batch notification, then the queue is
        emptied. */
    method SavedMultiple()
      modifies this
      ensures models == []
      ensures toInsertModels == old(toInsertModels) && toUpdateModels == old(toUpdateModels)
    {
      ClearSaveMultiple();
    }

    /** `saveMultiple($arg, $runValidation)`. `proceed` is the batch veto,
        `valid[j]` and `hooks[j]` the validation and listener outcomes of
        the j-th queued record, `types` the column types, `quote` the
        driver's value quoting, `affectedRows` and `lastId` what the insert
        reports. Returns whether the batch was saved, the insert and the
        update it issues, and each record's changed-attributes map. */
    method SaveMultiple(arg: SaveArg, runValidation: bool, proceed: bool, valid: seq<bool>, hooks: seq<Hook>,
                        types: map<string, string>, quote: Value -> string, affectedRows: int, lastId: int)
      returns (ok: bool, insert: Option<InsertPlan>, update: Option<string>, changed: seq<map<string, Value>>)
      requires Distinct(models + Added(arg))
      requires |valid| == |models + Added(arg)| && |hooks| == |models + Added(arg)|
      modifies this, set r | r in models + Added(arg)
      ensures var q := old(models) + Added(arg);
              var s0 := old(States(q));
              var o := SaveOutcome(tableName, s0, runValidation, proceed, valid, hooks, types, quote, affectedRows, lastId);
              && ok == o.ok && insert == o.insert && update == o.update && changed == o.changed
              && models == (if ok then [] else q)
              && toInsertModels == Select(q[..o.processed], NewMask(s0)[..o.processed])
              && toUpdateModels == Select(q[..o.processed], Negate(NewMask(s0)[..o.processed]))
              && forall k :: 0 <= k < |q| ==> q[k].State() == o.states[k]
    {
      ghost var s0 := States(old(models) + Added(arg));
      if |Added(arg)| > 0 {
        AddSaveMultiple(arg);
      }
      assert models == old(models) + Added(arg);
      ok, insert, update, changed := SaveQueued(runValidation, proceed, valid, hooks, types, quote, affectedRows, lastId, s0);
    }

    /** `saveMultiple` once the argument has been queued, its records in
        the states `s0`. */
    method SaveQueued(runValidation: bool, proceed: bool, valid: seq<bool>, hooks: seq<Hook>,
                      types: map<string, string>, quote: Value -> string, affectedRows: int, lastId: int,
                      ghost s0: seq<RecordState>)
      returns (ok: bool, insert: Option<InsertPlan>, update: Option<string>, changed: seq<map<string, Value>>)
      requires Distinct(models)
      requires |valid| == |models| && |hooks| == |models| && |s0| == |models|
      requires forall k :: 0 <= k < |models| ==> models[k].State() == s0[k]
      modifies this, set r | r in models
      ensures var q := old(models);
              var o := SaveOutcome(tableName, s0, runValidation, proceed, valid, hooks, types, quote, affectedRows, lastId);
              && ok == o.ok && insert == o.insert && update == o.update && changed == o.changed
              && models == (if ok then [] else q)
              && toInsertModels == Select(q[..o.processed], NewMask(s0)[..o.processed])
              && toUpdateModels == Select(q[..o.processed], Negate(NewMask(s0)[..o.processed]))
              && forall k :: 0 <= k < |q| ==> q[k].State() == o.states[k]
    {
      var q := models;
      ok, insert, update, changed, toInsertModels, toUpdateModels :=
        Flush(q, s0, tableName, runValidation, proceed, valid, hooks, types, quote, affectedRows, lastId);
      if ok {
        SavedMultiple();
      }
    }
  }

  /** The body of `saveMultiple` once the queue `q` is known, its records
      starting in the states `s0`: the column scan, the batch veto, the
      per-record pass and, when every record passed, the writes. Also
      returns the insert and update groups. */
  method Flush(q: seq<Record>, ghost s0: seq<RecordState>, table: string, runValidation: bool, proceed: bool,
               valid: seq<bool>, hooks: seq<Hook>, types: map<string, string>, quote: Value -> string,
               affectedRows: int, lastId: int)
    returns (ok: bool, insert: Option<InsertPlan>, update: Option<string>, changed: seq<map<string, Value>>,
             toInsert: seq<Record>, toUpdate: seq<Record>)
    requires Distinct(q) && |valid| == |q| && |hooks| == |q| && |s0| == |q|
    requires forall k :: 0 <= k < |q| ==> q[k].State() == s0[k]
    modifies set r | r in q
    ensures var o := SaveOutcome(table, s0, runValidation, proceed, valid, hooks, types, quote, affectedRows, lastId);
            && ok == o.ok && insert == o.insert && update == o.update && changed == o.changed
            && toInsert == Select(q[..o.processed], NewMask(s0)[..o.processed])
            && toUpdate == Select(q[..o.processed], Negate(NewMask(s0)[..o.processed]))
            && forall k :: 0 <= k < |q| ==> q[k].State() == o.states[k]
  {
    var columns, pks := CollectColumns(q, s0);
    var union := Dedup(columns);
    if !proceed {
      OutcomeAborted(table, s0, runValidation, proceed, valid, hooks, types, quote, affectedRows, lastId);
      return false, None, None, [], [], [];
    }
    ok, insert, update, changed, toInsert, toUpdate :=
      Run(q, s0, table, union, pks, runValidation, valid, hooks, types, quote, affectedRows, lastId);
  }

  /** `saveMultiple` past the batch veto, given the name union and the
      primary keys of the queue. */
  method Run(q: seq<Record>, ghost s0: seq<RecordState>, table: string, union: seq<string>, pks: seq<string>,
             runValidation: bool, valid: seq<bool>, hooks: seq<Hook>, types: map<string, string>,
             quote: Value -> string, affectedRows: int, lastId: int)
    returns (ok: bool, insert: Option<InsertPlan>, update: Option<string>, changed: seq<map<string, Value>>,
             toInsert: seq<Record>, toUpdate: seq<Record>)
    requires Distinct(q) && |valid| == |q| && |hooks| == |q| && |s0| == |q|
    requires forall k :: 0 <= k < |q| ==> q[k].State() == s0[k]
    requires union == AttributeUnion(s0) && pks == PrimaryKeys(s0)
    modifies set r | r in q
    ensures var o := SaveOutcome(table, s0, runValidation, true, valid, hooks, types, quote, affectedRows, lastId);
            && ok == o.ok && insert == o.insert && update == o.update && changed == o.changed
            && toInsert == Select(q[..o.processed], NewMask(s0)[..o.processed])
            && toUpdate == Select(q[..o.processed], Negate(NewMask(s0)[..o.processed]))
            && forall k :: 0 <= k < |q| ==> q[k].State() == o.states[k]
  {
    ghost var s1 := Hooked(s0, hooks);
    var n, passed, inserts, updates;
    n, passed, inserts, updates, toInsert, toUpdate := Prepare(q, s0, s1, union, pks, runValidation, valid, hooks, types, quote);
    if !passed {
      OutcomeAborted(table, s0, runValidation, true, valid, hooks, types, quote, affectedRows, lastId);
      AbortedStates(q, s0, s1, n, table, runValidation, valid, hooks, types, quote, affectedRows, lastId);
      return false, None, None, [], toInsert, toUpdate;
    }
    assert q[..n] == q && s1[..n] == s1;
    MaskPrefix(s0, s1, n);
    insert, update, changed :=
      Complete(q, s0, s1, table, union, pks, inserts, updates, toInsert, runValidation, valid, hooks, types, quote,
               affectedRows, lastId);
    ok := true;
  }

  /** When record `n` is the first to fail, the queue is left as the
      aborted outcome describes it. */
  lemma AbortedStates(q: seq<Record>, s0: seq<RecordState>, s1: seq<RecordState>, n: nat, table: string,
                      runValidation: bool, valid: seq<bool>, hooks: seq<Hook>, types: map<string, string>,
                      quote: Value -> string, affectedRows: int, lastId: int)
    requires |valid| == |q| && |hooks| == |q| && |s0| == |q| && s1 == Hooked(s0, hooks)
    requires n == FirstFailure(runValidation, valid, hooks) && n < |q|
    requires forall k :: 0 <= k < n ==> q[k].State() == s1[k]
    requires q[n].State() == if !runValidation || valid[n] then s1[n] else s0[n]
    requires forall k :: n < k < |q| ==> q[k].State() == s0[k]
    ensures forall k :: 0 <= k < |q| ==>
              q[k].State() == SaveOutcome(table, s0, runValidation, true, valid, hooks, types, quote, affectedRows, lastId).states[k]
  {
    OutcomeAborted(table, s0, runValidation, true, valid, hooks, types, quote, affectedRows, lastId);
  }

  /** The writes of a batch every record of which passed, stated against
      its outcome. */
  method Complete(q: seq<Record>, ghost s0: seq<RecordState>, ghost s1: seq<RecordState>, table: string,
                  union: seq<string>, pks: seq<string>, inserts: seq<map<string, Value>>, updates: seq<string>,
                  toInsert: seq<Record>, runValidation: bool, valid: seq<bool>, hooks: seq<Hook>,
                  types: map<string, string>, quote: Value -> string, affectedRows: int, lastId: int)
    returns (insert: Option<InsertPlan>, update: Option<string>, changed: seq<map<string, Value>>)
    requires Distinct(q) && |valid| == |q| && |hooks| == |q| && |s0| == |q|
    requires s1 == Hooked(s0, hooks) && FirstFailure(runValidation, valid, hooks) == |q|
    requires forall k :: 0 <= k < |q| ==> q[k].State() == s1[k]
    requires union == AttributeUnion(s0) && pks == PrimaryKeys(s0)
    requires inserts == InsertRows(s1, union, pks) && updates == UpdateTuples(s1, union, types, quote)
    requires toInsert == Select(q, NewMask(s1))
    modifies set r | r in q
    ensures var o := SaveOutcome(table, s0, runValidation, true, valid, hooks, types, quote, affectedRows, lastId);
            && insert == o.insert && update == o.update && changed == o.changed
            && forall k :: 0 <= k < |q| ==> q[k].State() == o.states[k]
  {
    OutcomeSaved(table, s0, runValidation, true, valid, hooks, types, quote, affectedRows, lastId);
    insert, update, changed := Finish(q, s1, union, pks, inserts, updates, toInsert, table, FirstId(lastId, affectedRows));
  }

  /** The per-record loop of `saveMultiple`, run as a listener pass up to
      the first failure followed by the sorting of the records that
      passed. Each record's state changes only in its own iteration, so
      sorting the hooked states afterwards sees what the loop sees. */
  method Prepare(q: seq<Record>, ghost s0: seq<RecordState>, ghost s1: seq<RecordState>,
                 union: seq<string>, pks: seq<string>, runValidation: bool, valid: seq<bool>, hooks: seq<Hook>,
                 types: map<string, string>, quote: Value -> string)
    returns (n: nat, passed: bool, inserts: seq<map<string, Value>>, updates: seq<string>,
             toInsert: seq<Record>, toUpdate: seq<Record>)
    requires Distinct(q) && |valid| == |q| && |hooks| == |q| && |s0| == |q|
    requires forall k :: 0 <= k < |q| ==> q[k].State() == s0[k]
    requires s1 == Hooked(s0, hooks)
    modifies set r | r in q
    ensures n == FirstFailure(runValidation, valid, hooks) && passed == (n == |q|)
    ensures toInsert == Select(q[..n], NewMask(s0)[..n])
    ensures toUpdate == Select(q[..n], Negate(NewMask(s0)[..n]))
    ensures inserts == InsertRows(s1[..n], union, pks)
    ensures updates == UpdateTuples(s1[..n], union, types, quote)
    ensures forall k :: 0 <= k < n ==> q[k].State() == s1[k]
    ensures n < |q| ==> q[n].State() == if !runValidation || valid[n] then s1[n] else s0[n]
    ensures forall k :: n < k < |q| ==> q[k].State() == s0[k]
  {
    n, passed := RunHooks(q, runValidation, valid, hooks, s0, s1);
    inserts, updates, toInsert, toUpdate := Sort(q[..n], union, pks, types, quote);
    assert States(q[..n]) == s1[..n];
    SortSpec(q[..n], s1[..n], union, pks, types, quote);
    MaskPrefix(s0, s1, n);
  }

  /** The writes of a batch that passed, on records in the states `s1`:
      the insert with the ids handed back, the update, and the commit of
      every record. */
  method Finish(q: seq<Record>, ghost s1: seq<RecordState>, union: seq<string>, pks: seq<string>,
                inserts: seq<map<string, Value>>, updates: seq<string>, toInsert: seq<Record>, table: string, first: int)
    returns (insert: Option<InsertPlan>, update: Option<string>, changed: seq<map<string, Value>>)
    requires Distinct(q) && |s1| == |q|
    requires forall k :: 0 <= k < |q| ==> q[k].State() == s1[k]
    requires inserts == InsertRows(s1, union, pks)
    requires toInsert == Select(q, NewMask(s1))
    requires updates != [] ==> q != []
    modifies set r | r in q
    ensures insert == if inserts == [] then None else Some(InsertPlan(table, InsertColumns(union, pks), inserts))
    ensures update == if updates == [] then None else Some(UpdateSql(table, union, SetListKeys(s1), pks, updates))
    ensures changed == ChangedMaps(s1, first)
    ensures forall k :: 0 <= k < |q| ==> q[k].State() == SavedStates(s1, first)[k]
  {
    insert := WriteInserts(q, s1, union, pks, inserts, toInsert, table, first);
    update := WriteUpdates(q, s1, union, pks, updates, toInsert, table);
    changed := CommitAll(q);
  }

  /** The listeners only write attributes, so the new-record mask before
      and after them agree, on every prefix. */
  lemma MaskPrefix(s0: seq<RecordState>, s1: seq<RecordState>, n: nat)
    requires |s0| == |s1| && n <= |s0|
    requires forall k :: 0 <= k < |s0| ==> s1[k].isNew == s0[k].isNew
    ensures NewMask(s1[..n]) == NewMask(s0)[..n]
    ensures Negate(NewMask(s1[..n])) == Negate(NewMask(s0)[..n])
  {
  }

  /** The per-record pass up to the first failure: validate (when asked),
      run the record's `beforeSaveMultiple` listeners, stop when either
      fails. Returns how many records passed. */
  method RunHooks(q: seq<Record>, runValidation: bool, valid: seq<bool>, hooks: seq<Hook>,
                  ghost s0: seq<RecordState>, ghost s1: seq<RecordState>)
    returns (n: nat, passed: bool)
    requires Distinct(q) && |hooks| == |q| && |valid| == |q| && |s0| == |q| && |s1| == |q|
    requires forall k :: 0 <= k < |q| ==> q[k].State() == s0[k]
    requires forall k :: 0 <= k < |q| ==> s1[k] == s0[k].(attrs := s0[k].attrs + hooks[k].writes)
    modifies set r | r in q
    ensures n == FirstFailure(runValidation, valid, hooks) && passed == (n == |q|)
    ensures forall k :: 0 <= k < n ==> q[k].State() == s1[k]
    ensures n < |q| ==> q[n].State() == if !runValidation || valid[n] then s1[n] else s0[n]
    ensures forall k :: n < k < |q| ==> q[k].State() == s0[k]
  {
    var i := 0;
    while i < |q|
      invariant 0 <= i <= |q|
      invariant forall j :: 0 <= j < i ==> !Fails(runValidation, valid, hooks, j)
      invariant forall k :: 0 <= k < |q| ==> q[k].State() == if k < i then s1[k] else s0[k]
    {
      if runValidation && !valid[i] {
        FirstFailureIs(runValidation, valid, hooks, i);
        return i, false;
      }
      label Before:
      q[i].SetAttributes(hooks[i].writes);
      forall k | 0 <= k < |q|
        ensures q[k].State() == if k < i + 1 then s1[k] else s0[k]
      {
        if k != i {
          assert q[k] != q[i];
          assert q[k].State() == old@Before(q[k].State());
        }
      }
      if !hooks[i].proceed {
        FirstFailureIs(runValidation, valid, hooks, i);
        return i, false;
      }
      i := i + 1;
    }
    FirstFailureIs(runValidation, valid, hooks, i);
    return i, true;
  }

  /** The sorting loop's accumulators: insert rows, update tuples, and
      the insert and update groups. */
  datatype Sorting = Sorting(inserts: seq<map<string, Value>>, updates: seq<string>,
                             toInsert: seq<Record>, toUpdate: seq<Record>)

  /** One record sorted: a new record contributes its row and joins the
      insert group, any other its value tuple and the update group. */
  function SortStep(acc: Sorting, r: Record, s: RecordState, union: seq<string>, pks: seq<string>,
                    types: map<string, string>, quote: Value -> string): Sorting
  {
    if s.isNew then acc.(inserts := acc.inserts + [InsertRow(s, union, pks)], toInsert := acc.toInsert + [r])
    else acc.(updates := acc.updates + [UpdateTuple(s, union, types, quote)], toUpdate := acc.toUpdate + [r])
  }

  /** The accumulators after the first `i` records. */
  function SortUpTo(q: seq<Record>, states: seq<RecordState>, union: seq<string>, pks: seq<string>,
                    types: map<string, string>, quote: Value -> string, i: nat): Sorting
    requires |q| == |states| && i <= |q|
  {
    if i == 0 then Sorting([], [], [], [])
    else SortStep(SortUpTo(q, states, union, pks, types, quote, i - 1), q[i - 1], states[i - 1], union, pks, types, quote)
  }

  /** Sorting the whole queue yields the rows of its new records, the
      tuples of the others, and the two groups, each in queue order. */
  lemma SortSpec(q: seq<Record>, states: seq<RecordState>, union: seq<string>, pks: seq<string>,
                 types: map<string, string>, quote: Value -> string)
    requires |q| == |states|
    ensures SortUpTo(q, states, union, pks, types, quote, |q|) ==
              Sorting(InsertRows(states, union, pks), UpdateTuples(states, union, types, quote),
                      Select(q, NewMask(states)), Select(q, Negate(NewMask(states))))
  {
    var m := NewMask(states);
    SortUpToSpec(q, states, union, pks, types, quote, |q|);
    assert q[..|q|] == q && m[..|q|] == m && Negate(m)[..|q|] == Negate(m) && states[..|q|] == states;
    SelectUpToPrefix(q, m, |q|);
    SelectUpToPrefix(q, Negate(m), |q|);
    UpToPrefix(states, union, pks, types, quote, |q|);
  }

  lemma {:induction false} SortUpToSpec(q: seq<Record>, states: seq<RecordState>, union: seq<string>, pks: seq<string>,
                                        types: map<string, string>, quote: Value -> string, i: nat)
    requires |q| == |states| && i <= |q|
    ensures var r := SortUpTo(q, states, union, pks, types, quote, i);
            && r.inserts == InsertRowsUpTo(states, union, pks, i)
            && r.updates == UpdateTuplesUpTo(states, union, types, quote, i)
            && r.toInsert == SelectUpTo(q, NewMask(states), i)
            && r.toUpdate == SelectUpTo(q, Negate(NewMask(states)), i)
    decreases i
  {
    if i > 0 {
      SortUpToSpec(q, states, union, pks, types, quote, i - 1);
      var m := NewMask(states);
      var prev := SortUpTo(q, states, union, pks, types, quote, i - 1);
      assert m[i - 1] == states[i - 1].isNew && Negate(m)[i - 1] == !states[i - 1].isNew;
      assert SortUpTo(q, states, union, pks, types, quote, i) == SortStep(prev, q[i - 1], states[i - 1], union, pks, types, quote);
    }
  }

  /** The sorting half of the per-record loop, over the states the
      listeners left. */
  method Sort(q: seq<Record>, union: seq<string>, pks: seq<string>,
              types: map<string, string>, quote: Value -> string)
    returns (inserts: seq<map<string, Value>>, updates: seq<string>, toInsert: seq<Record>, toUpdate: seq<Record>)
    ensures Sorting(inserts, updates, toInsert, toUpdate) == SortUpTo(q, States(q), union, pks, types, quote, |q|)
  {
    ghost var states := States(q);
    inserts, updates, toInsert, toUpdate := [], [], [], [];
    var i := 0;
    while i < |q|
      invariant 0 <= i <= |q|
      invariant Sorting(inserts, updates, toInsert, toUpdate) == SortUpTo(q, states, union, pks, types, quote, i)
    {
      var s := q[i].State();
      assert s == states[i];
      if s.isNew {
        inserts := inserts + [InsertRow(s, union, pks)];
        toInsert := toInsert + [q[i]];
      } else {
        var tuple := BuildTuple(s, union, types, quote);
        updates := updates + [tuple];
        toUpdate := toUpdate + [q[i]];
      }
      i := i + 1;
    }
  }

  /** Without new records nothing is stamped. */
  lemma NothingStamped(s: seq<RecordState>, union: seq<string>, pks: seq<string>, first: int)
    requires InsertRows(s, union, pks) == []
    ensures forall k :: 0 <= k < |s| ==> Stamped(s, k, first) == s[k]
  {
    var m := NewMask(s);
    SelectLength(s, m);
    assert m[..|m|] == m;
    forall k | 0 <= k < |s|
      ensures !s[k].isNew
    {
      CountTruePrefix(m, k, |m|);
    }
  }

  /** The key list the SET filter consults: that of the last new record
      when there is one, else that of the last record. */
  lemma SetListKeysFrom(q: seq<Record>, s: seq<RecordState>, toInsert: seq<Record>)
    requires |q| == |s| && |q| > 0 && toInsert == Select(q, NewMask(s))
    requires forall k :: 0 <= k < |q| ==> q[k].primaryKey == s[k].primaryKey
    ensures SetListKeys(s) == if |toInsert| > 0 then toInsert[|toInsert| - 1].primaryKey else q[|q| - 1].primaryKey
  {
    var m := NewMask(s);
    SelectLength(q, m);
    if CountTrue(m) > 0 {
      SelectLast(q, m);
    }
  }

  /** The insert of a batch that passed, with the ids handed back to its
      new records. */
  method WriteInserts(q: seq<Record>, ghost s1: seq<RecordState>, union: seq<string>, pks: seq<string>,
                      inserts: seq<map<string, Value>>, toInsert: seq<Record>, table: string, first: int)
    returns (insert: Option<InsertPlan>)
    requires Distinct(q) && |s1| == |q|
    requires forall k :: 0 <= k < |q| ==> q[k].State() == s1[k]
    requires inserts == InsertRows(s1, union, pks)
    requires toInsert == Select(q, NewMask(s1))
    modifies set r | r in q
    ensures insert == if inserts == [] then None else Some(InsertPlan(table, InsertColumns(union, pks), inserts))
    ensures forall k :: 0 <= k < |q| ==> q[k].State() == Stamped(s1, k, first)
  {
    if |inserts| > 0 {
      insert := Some(InsertPlan(table, Without(union, pks), inserts));
      StampIds(q, s1, toInsert, first);
    } else {
      insert := None;
      NothingStamped(s1, union, pks, first);
    }
  }

  /** The update of a batch that passed, if any record was not new. */
  method WriteUpdates(q: seq<Record>, ghost s1: seq<RecordState>, union: seq<string>, pks: seq<string>,
                      updates: seq<string>, toInsert: seq<Record>, table: string)
    returns (update: Option<string>)
    requires |s1| == |q| && toInsert == Select(q, NewMask(s1))
    requires forall k :: 0 <= k < |q| ==> q[k].primaryKey == s1[k].primaryKey
    requires updates != [] ==> q != []
    ensures update == if updates == [] then None else Some(UpdateSql(table, union, SetListKeys(s1), pks, updates))
  {
    update := None;
    if |updates| > 0 {
      var setPk: seq<string>;
      if |toInsert| > 0 {
        setPk := toInsert[|toInsert| - 1].primaryKey;
      } else {
        setPk := q[|q| - 1].primaryKey;
      }
      SetListKeysFrom(q, s1, toInsert);
      var sql := ComposeUpdate(table, union, setPk, pks, updates);
      update := Some(sql);
    }
  }

  /** The id loop run on the new records of the queue, stated per record. */
  method StampIds(q: seq<Record>, ghost s: seq<RecordState>, toInsert: seq<Record>, first: int)
    requires Distinct(q) && |s| == |q|
    requires forall k :: 0 <= k < |q| ==> q[k].State() == s[k]
    requires toInsert == Select(q, NewMask(s))
    modifies set r | r in q
    ensures forall k :: 0 <= k < |q| ==> q[k].State() == Stamped(s, k, first)
  {
    ghost var m := NewMask(s);
    SelectDistinct(q, m);
    forall r | r in toInsert
      ensures r in q
    {
      SelectFrom(q, m, r);
    }
    AssignIds(toInsert, first);
    forall k | 0 <= k < |q|
      ensures q[k].State() == Stamped(s, k, first)
    {
      if s[k].isNew {
        SelectAt(q, m, k);
      } else {
        SelectExcludes(q, m, k);
      }
    }
  }

  /** The UPDATE ... FROM (VALUES ...) statement, from its SET and WHERE lists. */
  method ComposeUpdate(table: string, union: seq<string>, setPk: seq<string>, pks: seq<string>, updates: seq<string>)
    returns (sql: string)
    ensures sql == UpdateSql(table, union, setPk, pks, updates)
  {
    var sets := BuildSetList(union, setPk);
    var where := BuildWhereList(pks);
    sql := "UPDATE {{%" + table + "}} as t "
           + "SET " + Join(", ", sets) + " "
           + "FROM (VALUES " + Join(", ", updates) + ") as v([[" + Join("]], [[", union) + "]]) "
           + "WHERE " + Join(" AND ", where);
  }

  /** The scan over the queue: every record's column names in order, and
      the first non-empty primary-key list. */
  method CollectColumns(q: seq<Record>, ghost s: seq<RecordState>) returns (columns: seq<string>, pks: seq<string>)
    requires |s| == |q|
    requires forall k :: 0 <= k < |q| ==> q[k].columns == s[k].columns && q[k].primaryKey == s[k].primaryKey
    ensures columns == AllColumns(s) && pks == PrimaryKeys(s)
  {
    columns, pks := [], [];
    var i := 0;
    while i < |q|
      invariant 0 <= i <= |q|
      invariant columns == AllColumns(s[..i]) && pks == PrimaryKeys(s[..i])
    {
      assert s[..i + 1][..i] == s[..i];
      columns := columns + q[i].columns;
      if |pks| == 0 && |q[i].primaryKey| > 0 {
        pks := q[i].primaryKey;
      }
      i := i + 1;
    }
    assert s[..i] == s;
  }

  /** The `(v1::t1, v2::t2, ...)` tuple of one record, slot by slot. */
  method BuildTuple(s: RecordState, union: seq<string>, types: map<string, string>, quote: Value -> string)
    returns (tuple: string)
    ensures tuple == UpdateTuple(s, union, types, quote)
  {
    var values := Values(s, union);
    var slots: seq<string> := [];
    var k := 0;
    while k < |union|
      invariant 0 <= k <= |union|
      invariant |slots| == k
      invariant forall j :: 0 <= j < k ==> slots[j] == Slot(values[union[j]], TypeOf(types, union[j]), quote)
    {
      var a := union[k];
      if values[a] == Null {
        slots := slots + ["NULL::" + TypeOf(types, a)];
      } else {
        slots := slots + [quote(values[a]) + "::" + TypeOf(types, a)];
      }
      k := k + 1;
    }
    assert slots == Slots(s, union, types, quote);
    tuple := "(" + Join(", ", slots) + ")";
  }

  /** `[[a]] = [[v.a]]` for every union name outside `pk`. */
  method BuildSetList(union: seq<string>, pk: seq<string>) returns (sets: seq<string>)
    ensures sets == SetList(union, pk)
  {
    sets := [];
    ghost var cols: seq<string> := [];
    var k := 0;
    while k < |union|
      invariant 0 <= k <= |union|
      invariant cols == Without(union[..k], pk)
      invariant sets == seq(|cols|, j requires 0 <= j < |cols| => SetClause(cols[j]))
    {
      assert union[..k + 1][..k] == union[..k];
      if union[k] !in pk {
        sets := sets + [SetClause(union[k])];
        cols := cols + [union[k]];
      }
      k := k + 1;
    }
    assert union[..k] == union;
  }

  /** `[[t.pk]] = [[v.pk]]` for every primary key. */
  method BuildWhereList(pks: seq<string>) returns (where: seq<string>)
    ensures where == WhereList(pks)
  {
    where := [];
    var k := 0;
    while k < |pks|
      invariant 0 <= k <= |pks|
      invariant where == WhereList(pks[..k])
    {
      where := where + [PkMatch(pks[k])];
      k := k + 1;
    }
    assert pks[..k] == pks;
  }

  /** The id loop: the k-th inserted record gets `first + k` on its key
      columns and stops being new. */
  method AssignIds(rs: seq<Record>, first: int)
    requires Distinct(rs)
    modifies set r | r in rs
    ensures forall k :: 0 <= k < |rs| ==> rs[k].State() == AssignId(old(rs[k].State()), first + k)
  {
    var current := first;
    var k := 0;
    while k < |rs|
      invariant 0 <= k <= |rs| && current == first + k
      invariant forall j :: 0 <= j < |rs| ==>
                  rs[j].State() == if j < k then AssignId(old(rs[j].State()), first + j) else old(rs[j].State())
    {
      label Before:
      rs[k].AssignPrimaryKey(current);
      forall j | 0 <= j < |rs|
        ensures rs[j].State() == if j < k + 1 then AssignId(old(rs[j].State()), first + j) else old(rs[j].State())
      {
        if j != k {
          assert rs[j] != rs[k];
          assert rs[j].State() == old@Before(rs[j].State());
        }
      }
      current := current + 1;
      k := k + 1;
    }
  }

  /** The closing loop: every record's dirty values become its old ones,
      collecting each record's changed-attributes map. */
  method CommitAll(rs: seq<Record>) returns (changed: seq<map<string, Value>>)
    requires Distinct(rs)
    modifies set r | r in rs
    ensures |changed| == |rs|
    ensures forall k :: 0 <= k < |rs| ==>
              rs[k].State() == Commit(old(rs[k].State())) && changed[k] == ChangedMap(old(rs[k].State()))
  {
    changed := [];
    var k := 0;
    while k < |rs|
      invariant 0 <= k <= |rs| && |changed| == k
      invariant forall j :: 0 <= j < |rs| ==>
                  rs[j].State() == if j < k then Commit(old(rs[j].State())) else old(rs[j].State())
      invariant forall j :: 0 <= j < k ==> changed[j] == ChangedMap(old(rs[j].State()))
    {
      label Before:
      var c := rs[k].CommitDirty();
      forall j | 0 <= j < |rs|
        ensures rs[j].State() == if j < k + 1 then Commit(old(rs[j].State())) else old(rs[j].State())
      {
        if j != k {
          assert rs[j] != rs[k];
          assert rs[j].State() == old@Before(rs[j].State());
        }
      }
      changed := changed + [c];
      k := k + 1;
    }
  }
}
