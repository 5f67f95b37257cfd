/** What one `saveMultiple` call computes from the queued records: the
    attribute union, the primary-key list, the NULL-filled insert rows, the
    typed update tuples with their UPDATE ... FROM (VALUES ...) statement,
    the ids handed back to inserted records and each record's state once
    saved. Everything here is a function of record snapshots. */
module BulkWrite {
  import opened Php
  import opened Records

  /** Every record's column names, concatenated in queue order. */
  function AllColumns(rs: seq<RecordState>): seq<string> {
    if rs == [] then [] else AllColumns(rs[..|rs| - 1]) + rs[|rs| - 1].columns
  }

  lemma {:induction false} AllColumnsSpec(rs: seq<RecordState>)
    ensures forall a :: a in AllColumns(rs) ==> exists i :: 0 <= i < |rs| && a in rs[i].columns
    ensures forall i, a :: 0 <= i < |rs| && a in rs[i].columns ==> a in AllColumns(rs)
    decreases |rs|
  {
    if rs != [] {
      var n := |rs| - 1;
      AllColumnsSpec(rs[..n]);
      forall a | a in AllColumns(rs)
        ensures exists i :: 0 <= i < |rs| && a in rs[i].columns
      {
        if a in AllColumns(rs[..n]) {
          var i :| 0 <= i < n && a in rs[..n][i].columns;
          assert a in rs[i].columns;
        } else {
          assert a in rs[n].columns;
        }
      }
      forall i, a | 0 <= i < |rs| && a in rs[i].columns
        ensures a in AllColumns(rs)
      {
        if i < n {
          assert a in rs[..n][i].columns;
        }
      }
    }
  }

  /** The attribute names of the batch: `array_unique` of the concatenation. */
  function AttributeUnion(rs: seq<RecordState>): seq<string> {
    Dedup(AllColumns(rs))
  }

  /** The union names every column of every record once, in the order each
      name is first met when walking the queue. */
  lemma AttributeUnionSpec(rs: seq<RecordState>)
    ensures Distinct(AttributeUnion(rs))
    ensures forall i, a :: 0 <= i < |rs| && a in rs[i].columns ==> a in AttributeUnion(rs)
    ensures forall a :: a in AttributeUnion(rs) ==> exists i :: 0 <= i < |rs| && a in rs[i].columns
    ensures forall a :: a in AttributeUnion(rs) ==> a in AllColumns(rs)
    ensures forall i, j :: 0 <= i < j < |AttributeUnion(rs)| ==>
              FirstIndex(AllColumns(rs), AttributeUnion(rs)[i]) < FirstIndex(AllColumns(rs), AttributeUnion(rs)[j])
  {
    AllColumnsSpec(rs);
    DedupSpec(AllColumns(rs));
  }

  /** The primary-key list of the batch: that of the first record that has one. */
  function PrimaryKeys(rs: seq<RecordState>): seq<string> {
    if rs == [] then []
    else
      var p := PrimaryKeys(rs[..|rs| - 1]);
      if |p| == 0 && |rs[|rs| - 1].primaryKey| > 0 then rs[|rs| - 1].primaryKey else p
  }

  lemma {:induction false} PrimaryKeysSpec(rs: seq<RecordState>)
    ensures PrimaryKeys(rs) == [] <==> forall i :: 0 <= i < |rs| ==> rs[i].primaryKey == []
    ensures PrimaryKeys(rs) != [] ==>
              exists k :: 0 <= k < |rs| && rs[k].primaryKey == PrimaryKeys(rs) &&
                forall i :: 0 <= i < k ==> rs[i].primaryKey == []
    decreases |rs|
  {
    if rs != [] {
      var n := |rs| - 1;
      PrimaryKeysSpec(rs[..n]);
      var p := PrimaryKeys(rs[..n]);
      if p == [] {
        assert forall i :: 0 <= i < n ==> rs[i].primaryKey == rs[..n][i].primaryKey == [];
        if rs[n].primaryKey != [] {
          assert rs[n].primaryKey == PrimaryKeys(rs);
        }
      } else {
        var k :| 0 <= k < n && rs[..n][k].primaryKey == p && forall i :: 0 <= i < k ==> rs[..n][i].primaryKey == [];
        assert rs[k].primaryKey == p;
        assert forall i :: 0 <= i < k ==> rs[i].primaryKey == rs[..n][i].primaryKey;
        assert rs[k].primaryKey != [];
      }
    }
  }

  /** `$model->attributes + array_fill_keys($attributes, NULL)`: the record's
      own columns, then every other union name as null. */
  function Values(s: RecordState, union: seq<string>): map<string, Value> {
    map n | n in s.columns + union :: if n in s.columns then Get(s.attrs, n) else Null
  }

  /** One insert row: the values without the primary-key columns. */
  function InsertRow(s: RecordState, union: seq<string>, pks: seq<string>): map<string, Value> {
    var v := Values(s, union);
    map n | n in v && n !in pks :: v[n]
  }

  /** The row holds every non-key union name: the record's value where the
      record has that column, null elsewhere, and no primary-key column. */
  lemma InsertRowSpec(s: RecordState, union: seq<string>, pks: seq<string>)
    ensures forall a :: a in InsertRow(s, union, pks) ==> a !in pks
    ensures forall a :: a in union && a !in pks ==>
              a in InsertRow(s, union, pks) &&
              InsertRow(s, union, pks)[a] == (if a in s.columns then Get(s.attrs, a) else Null)
  {
  }

  /** The INSERT column list: the union without the primary keys. */
  function InsertColumns(union: seq<string>, pks: seq<string>): seq<string> {
    Without(union, pks)
  }

  function NewMask(rs: seq<RecordState>): (m: seq<bool>)
    ensures |m| == |rs| && forall i :: 0 <= i < |rs| ==> m[i] == rs[i].isNew
  {
    seq(|rs|, i requires 0 <= i < |rs| => rs[i].isNew)
  }

  /** Rows of the new records, in queue order. */
  function InsertRows(rs: seq<RecordState>, union: seq<string>, pks: seq<string>): seq<map<string, Value>> {
    var news := Select(rs, NewMask(rs));
    seq(|news|, k requires 0 <= k < |news| => InsertRow(news[k], union, pks))
  }

  /** `is_null($v) ? 'NULL::t' : quote($v) . '::t'`. */
  function Slot(v: Value, t: string, quote: Value -> string): string {
    if v == Null then "NULL::" + t else quote(v) + "::" + t
  }

  /** The column's database type; an unknown column reads as the empty string. */
  function TypeOf(types: map<string, string>, a: string): string {
    if a in types then types[a] else ""
  }

  function Slots(s: RecordState, union: seq<string>, types: map<string, string>, quote: Value -> string): seq<string> {
    var v := Values(s, union);
    seq(|union|, k requires 0 <= k < |union| => Slot(v[union[k]], TypeOf(types, union[k]), quote))
  }

  /** One `(v1::t1, v2::t2, ...)` tuple of the VALUES list. */
  function UpdateTuple(s: RecordState, union: seq<string>, types: map<string, string>, quote: Value -> string): string {
    "(" + Join(", ", Slots(s, union, types, quote)) + ")"
  }

  /** Tuples of the records already in the table, in queue order. */
  function UpdateTuples(rs: seq<RecordState>, union: seq<string>, types: map<string, string>, quote: Value -> string): seq<string> {
    var olds := Select(rs, Negate(NewMask(rs)));
    seq(|olds|, k requires 0 <= k < |olds| => UpdateTuple(olds[k], union, types, quote))
  }

  /** The tuple has one slot per union name, positioned like the alias list
      `v(a1, a2, ...)`; slot k casts the record's value of the k-th name
      (null where the record lacks that column) to that column's type. */
  lemma UpdateSlotsSpec(s: RecordState, union: seq<string>, types: map<string, string>, quote: Value -> string)
    ensures |Slots(s, union, types, quote)| == |union|
    ensures forall k :: 0 <= k < |union| ==>
              var v := if union[k] in s.columns then Get(s.attrs, union[k]) else Null;
              Slots(s, union, types, quote)[k] ==
                (if v == Null then "NULL::" else quote(v) + "::") + TypeOf(types, union[k])
  {
  }

  /** New records go to the insert rows and the others to the update tuples,
      each group in queue order, and together they account for every record. */
  lemma {:induction false} PartitionSpec(rs: seq<RecordState>, union: seq<string>, pks: seq<string>,
                                          types: map<string, string>, quote: Value -> string)
    ensures |InsertRows(rs, union, pks)| + |UpdateTuples(rs, union, types, quote)| == |rs|
    ensures forall j :: 0 <= j < |rs| && rs[j].isNew ==>
              CountTrue(NewMask(rs)[..j]) < |InsertRows(rs, union, pks)| &&
              InsertRows(rs, union, pks)[CountTrue(NewMask(rs)[..j])] == InsertRow(rs[j], union, pks)
    ensures forall j :: 0 <= j < |rs| && !rs[j].isNew ==>
              CountTrue(Negate(NewMask(rs))[..j]) < |UpdateTuples(rs, union, types, quote)| &&
              UpdateTuples(rs, union, types, quote)[CountTrue(Negate(NewMask(rs))[..j])] == UpdateTuple(rs[j], union, types, quote)
  {
    var m := NewMask(rs);
    SelectLength(rs, m);
    SelectLength(rs, Negate(m));
    CountTrueSplit(m);
    forall j | 0 <= j < |rs| && rs[j].isNew
      ensures CountTrue(m[..j]) < |InsertRows(rs, union, pks)| &&
              InsertRows(rs, union, pks)[CountTrue(m[..j])] == InsertRow(rs[j], union, pks)
    {
      SelectAt(rs, m, j);
    }
    forall j | 0 <= j < |rs| && !rs[j].isNew
      ensures CountTrue(Negate(m)[..j]) < |UpdateTuples(rs, union, types, quote)| &&
              UpdateTuples(rs, union, types, quote)[CountTrue(Negate(m)[..j])] == UpdateTuple(rs[j], union, types, quote)
    {
      SelectAt(rs, Negate(m), j);
    }
  }

  lemma InsertRowsSnoc(rs: seq<RecordState>, union: seq<string>, pks: seq<string>, i: nat)
    requires i < |rs|
    ensures InsertRows(rs[..i + 1], union, pks) ==
              InsertRows(rs[..i], union, pks) + (if rs[i].isNew then [InsertRow(rs[i], union, pks)] else [])
  {
    var a := rs[..i + 1];
    assert a[..i] == rs[..i];
    assert NewMask(a)[..i] == NewMask(rs[..i]);
  }

  lemma UpdateTuplesSnoc(rs: seq<RecordState>, union: seq<string>, types: map<string, string>, quote: Value -> string, i: nat)
    requires i < |rs|
    ensures UpdateTuples(rs[..i + 1], union, types, quote) ==
              UpdateTuples(rs[..i], union, types, quote) + (if rs[i].isNew then [] else [UpdateTuple(rs[i], union, types, quote)])
  {
    var a := rs[..i + 1];
    assert a[..i] == rs[..i];
    assert Negate(NewMask(a))[..i] == Negate(NewMask(rs[..i]));
  }

  /** The insert rows and update tuples of the first `i` records, built one
      record at a time as the per-record loop does. */
  function InsertRowsUpTo(rs: seq<RecordState>, union: seq<string>, pks: seq<string>, i: nat): seq<map<string, Value>>
    requires i <= |rs|
  {
    if i == 0 then [] else
      InsertRowsUpTo(rs, union, pks, i - 1) + (if rs[i - 1].isNew then [InsertRow(rs[i - 1], union, pks)] else [])
  }

  function UpdateTuplesUpTo(rs: seq<RecordState>, union: seq<string>, types: map<string, string>, quote: Value -> string, i: nat): seq<string>
    requires i <= |rs|
  {
    if i == 0 then [] else
      UpdateTuplesUpTo(rs, union, types, quote, i - 1) + (if rs[i - 1].isNew then [] else [UpdateTuple(rs[i - 1], union, types, quote)])
  }

  lemma {:induction false} UpToPrefix(rs: seq<RecordState>, union: seq<string>, pks: seq<string>,
                                      types: map<string, string>, quote: Value -> string, i: nat)
    requires i <= |rs|
    ensures InsertRowsUpTo(rs, union, pks, i) == InsertRows(rs[..i], union, pks)
    ensures UpdateTuplesUpTo(rs, union, types, quote, i) == UpdateTuples(rs[..i], union, types, quote)
    decreases i
  {
    if i > 0 {
      UpToPrefix(rs, union, pks, types, quote, i - 1);
      InsertRowsSnoc(rs, union, pks, i - 1);
      UpdateTuplesSnoc(rs, union, types, quote, i - 1);
    }
  }

  /** `[[a]] = [[v.a]]`. */
  function SetClause(a: string): string {
    "[[" + a + "]] = [[v." + a + "]]"
  }

  function SetList(union: seq<string>, pk: seq<string>): seq<string> {
    var cols := Without(union, pk);
    seq(|cols|, k requires 0 <= k < |cols| => SetClause(cols[k]))
  }

  /** `[[t.pk]] = [[v.pk]]`. */
  function PkMatch(pk: string): string {
    "[[t." + pk + "]] = [[v." + pk + "]]"
  }

  function WhereList(pks: seq<string>): seq<string> {
    seq(|pks|, k requires 0 <= k < |pks| => PkMatch(pks[k]))
  }

  /** The key list that filters the SET list is that of the record the
      loop variable last held: the last new record when there are inserts,
      otherwise the last queued record. */
  function SetListKeys(rs: seq<RecordState>): seq<string> {
    if CountTrue(NewMask(rs)) > 0 then rs[LastTrue(NewMask(rs))].primaryKey
    else if rs != [] then rs[|rs| - 1].primaryKey
    else []
  }

  /** The statement handed to `quoteSql`. `setPk` is the key list consulted
      when filtering the SET list, `pks` the batch's key list. */
  function UpdateSql(table: string, union: seq<string>, setPk: seq<string>, pks: seq<string>, tuples: seq<string>): string {
    "UPDATE {{%" + table + "}} as t "
    + "SET " + Join(", ", SetList(union, setPk)) + " "
    + "FROM (VALUES " + Join(", ", tuples) + ") as v([[" + Join("]], [[", union) + "]]) "
    + "WHERE " + Join(" AND ", WhereList(pks))
  }

  lemma {:induction false} SetClauseInjective(a: string, b: string)
    requires SetClause(a) == SetClause(b)
    ensures a == b
  {
    var sa, sb := SetClause(a), SetClause(b);
    assert |sa| == 2 * |a| + 13 && |sb| == 2 * |b| + 13;
    assert sa[2..2 + |a|] == a;
    assert sb[2..2 + |b|] == b;
  }

  /** The SET list assigns every union column outside the key list and no
      other, and the WHERE clause pairs `t.pk` with `v.pk` for every key. */
  lemma UpdateSqlSpec(union: seq<string>, pk: seq<string>)
    ensures forall a :: a in union && a !in pk ==> SetClause(a) in SetList(union, pk)
    ensures forall a :: SetClause(a) in SetList(union, pk) ==> a in union && a !in pk
    ensures |WhereList(pk)| == |pk| && forall k :: 0 <= k < |pk| ==> WhereList(pk)[k] == PkMatch(pk[k])
  {
    var cols := Without(union, pk);
    forall a | a in union && a !in pk
      ensures SetClause(a) in SetList(union, pk)
    {
      var k :| 0 <= k < |cols| && cols[k] == a;
      assert SetList(union, pk)[k] == SetClause(a);
    }
    forall a | SetClause(a) in SetList(union, pk)
      ensures a in union && a !in pk
    {
      var k :| 0 <= k < |cols| && SetList(union, pk)[k] == SetClause(a);
      SetClauseInjective(cols[k], a);
    }
  }

  /** The first id of a contiguous block of `affected` rows ending at `lastId`. */
  function FirstId(lastId: int, affected: int): int {
    lastId - affected + 1
  }

  /** Position of record j among the batch's new records. */
  function InsertRank(rs: seq<RecordState>, j: nat): nat
    requires j <= |rs|
  {
    CountTrue(NewMask(rs)[..j])
  }

  /** Record j after the id loop. */
  function Stamped(rs: seq<RecordState>, j: nat, firstId: int): RecordState
    requires j < |rs|
  {
    if rs[j].isNew then AssignId(rs[j], firstId + InsertRank(rs, j)) else rs[j]
  }

  /** Record j at the end of a successful batch save. */
  function Saved(rs: seq<RecordState>, j: nat, firstId: int): RecordState
    requires j < |rs|
  {
    Commit(Stamped(rs, j, firstId))
  }

  /** The k-th new record gets `firstId + k` on every key column; distinct new
      records get distinct, increasing ids; all saved records are no longer
      new and have nothing dirty. */
  lemma SequentialIds(rs: seq<RecordState>, firstId: int, i: nat, j: nat)
    requires i < j < |rs|
    ensures !Saved(rs, j, firstId).isNew
    ensures Dirty(Saved(rs, j, firstId)) == map[]
    ensures rs[j].isNew ==> forall k :: k in rs[j].primaryKey ==>
              Saved(rs, j, firstId).attrs[k] == Int(firstId + InsertRank(rs, j))
    ensures rs[i].isNew && rs[j].isNew ==> InsertRank(rs, i) < InsertRank(rs, j)
    ensures !rs[j].isNew ==> Saved(rs, j, firstId).attrs == rs[j].attrs
    ensures (forall k :: 0 <= k < |rs| ==> rs[k].isNew) ==> InsertRank(rs, j) == j
    ensures rs[j].isNew ==> ChangedMap(Stamped(rs, j, firstId)) == map[]
  {
    var m := NewMask(rs);
    CommitSpec(Stamped(rs, j, firstId));
    if rs[j].isNew {
      AssignIdClean(rs[j], firstId + InsertRank(rs, j));
    }
    CountTruePrefix(m, i, j);
    if forall k :: 0 <= k < |rs| ==> rs[k].isNew {
      AllTrueCount(m[..j]);
    }
  }

  lemma {:induction false} AllTrueCount(m: seq<bool>)
    requires forall k :: 0 <= k < |m| ==> m[k]
    ensures CountTrue(m) == |m|
    decreases |m|
  {
    if m != [] {
      AllTrueCount(m[..|m| - 1]);
    }
  }

  /** What the statements write agrees with what the saved record believes
      is stored: every value of an insert row or update tuple that the record
      had set becomes that attribute's old value, provided the batch's key
      columns include the record's own. */
  lemma WrittenMatchesSaved(rs: seq<RecordState>, union: seq<string>, pks: seq<string>, firstId: int, j: nat)
    requires j < |rs|
    requires forall k :: k in rs[j].primaryKey ==> k in pks
    ensures rs[j].isNew ==> forall a :: a in InsertRow(rs[j], union, pks) && a in rs[j].attrs && a in rs[j].columns ==>
              Saved(rs, j, firstId).oldAttrs[a] == InsertRow(rs[j], union, pks)[a]
    ensures !rs[j].isNew ==> forall a :: a in union && a in rs[j].attrs && a in rs[j].columns ==>
              Saved(rs, j, firstId).oldAttrs[a] == Values(rs[j], union)[a]
  {
    var st := Stamped(rs, j, firstId);
    CommitSpec(st);
    if rs[j].isNew {
      forall a | a in InsertRow(rs[j], union, pks) && a in rs[j].attrs && a in rs[j].columns
        ensures Saved(rs, j, firstId).oldAttrs[a] == InsertRow(rs[j], union, pks)[a]
      {
        assert a !in rs[j].primaryKey;
        assert st.attrs[a] == rs[j].attrs[a];
      }
    }
  }
}
