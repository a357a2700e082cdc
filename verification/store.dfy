/** The persistence contract of `Saveable`: `to_db` (insert, or merge the
    set fields into an existing row), `to_db_patch` (update-only merge)
    and `is_present_in_db` (key membership), over an abstract store that
    maps each table to its rows keyed by `listing_id`. A row maps column
    names to values; a column missing from a row reads as NULL.

    The SQL text is reduced to the parts that decide the outcome: the
    column list, the placeholders, the bound values and the
    `ON DUPLICATE KEY UPDATE` list of an insert; the `SET` list and the
    named parameters of an update. A cursor that raises for a reason
    outside the model (lost connection, schema constraint) is the `fault`
    input. */
module Store {
  import opened Wrappers
  import opened Records

  type Row = map<string, Value>
  type Table = map<Value, Row>
  type Db = map<string, Table>

  /** Every stored row holds its own key in the `listing_id` column. */
  predicate KeyConsistent(db: Db) {
    forall t, k | t in db && k in db[t] :: KeyColumn in db[t][k] && db[t][k][KeyColumn] == k
  }

  // ---------------------------------------------------------------------
  // model_dump(exclude_none=True)

  /** The set fields of a model, in declaration order, as (column, value)
      bindings. */
  function Dump(fields: seq<Field>): (d: seq<(string, Value)>)
    ensures |d| <= |fields|
    ensures forall i | 0 <= i < |d| :: Field(d[i].0, Some(d[i].1)) in fields
  {
    if |fields| == 0 then []
    else
      var rest := Dump(fields[1..]);
      assert forall f | f in fields[1..] :: f in fields;
      match fields[0].value
      case None => rest
      case Some(v) =>
        var d := [(fields[0].name, v)] + rest;
        assert forall i | 1 <= i < |d| :: d[i] == rest[i - 1];
        d
  }

  /** The row a sequence of bindings describes (the first binding of a
      column wins; the statements built here never repeat a column). */
  function RowOf(d: seq<(string, Value)>): (row: Row)
    ensures forall i | 0 <= i < |d| :: d[i].0 in row
    ensures forall c | c in row :: exists i | 0 <= i < |d| :: d[i].0 == c
  {
    if |d| == 0 then map[]
    else
      var rest := RowOf(d[1..]);
      assert forall i | 1 <= i < |d| :: d[i] == d[1..][i - 1];
      rest[d[0].0 := d[0].1]
  }

  /** The set fields of a model as a row. */
  function FieldsRow(fields: seq<Field>): (row: Row)
    ensures forall i | 0 <= i < |fields| && fields[i].value.Some? :: fields[i].name in row
    ensures forall c | c in row :: exists i | 0 <= i < |fields| :: fields[i].name == c && fields[i].value.Some?
  {
    if |fields| == 0 then map[]
    else
      var rest := FieldsRow(fields[1..]);
      assert forall i | 1 <= i < |fields| :: fields[i] == fields[1..][i - 1];
      match fields[0].value
      case None => rest
      case Some(v) => rest[fields[0].name := v]
  }

  /** Binding the dumped fields yields the row of set fields. */
  lemma {:induction false} RowOfDump(fields: seq<Field>)
    ensures RowOf(Dump(fields)) == FieldsRow(fields)
  {
    if |fields| > 0 {
      RowOfDump(fields[1..]);
      match fields[0].value
      case None =>
      case Some(v) =>
        assert ([(fields[0].name, v)] + Dump(fields[1..]))[1..] == Dump(fields[1..]);
    }
  }

  /** With distinct field names, the row of set fields holds each set
      field's own value and no unset field. */
  lemma {:induction false} FieldsRowExact(fields: seq<Field>)
    requires Distinct(Names(fields))
    ensures forall i | 0 <= i < |fields| && fields[i].value.Some? ::
      FieldsRow(fields)[fields[i].name] == fields[i].value.value
    ensures forall i | 0 <= i < |fields| && fields[i].value.None? :: fields[i].name !in FieldsRow(fields)
  {
    if |fields| > 0 {
      var tail := fields[1..];
      assert Distinct(Names(tail)) by {
        forall i, j | 0 <= i < j < |tail|
          ensures Names(tail)[i] != Names(tail)[j]
        {
          assert Names(tail)[i] == Names(fields)[i + 1];
          assert Names(tail)[j] == Names(fields)[j + 1];
        }
      }
      FieldsRowExact(tail);
      var row := FieldsRow(fields);
      var rest := FieldsRow(tail);
      assert row == if fields[0].value.Some? then rest[fields[0].name := fields[0].value.value] else rest;
      forall i | 1 <= i < |fields|
        ensures fields[i].name != fields[0].name && fields[i] == tail[i - 1]
      {
        assert Names(fields)[0] != Names(fields)[i];
      }
    }
  }

  /** The columns a successful `to_db` writes: the record's set fields. */
  function Written(s: Saveable): Row
    requires WellFormed(s)
  {
    FieldsRow(s.fields)
  }

  /** The written row holds exactly the set fields with their values; an
      unset field is not written at all, so it cannot overwrite a stored
      value with NULL. */
  lemma WrittenIsExactlySetFields(s: Saveable)
    requires WellFormed(s)
    ensures forall i | 0 <= i < |s.fields| && s.fields[i].value.Some? ::
      s.fields[i].name in Written(s) && Written(s)[s.fields[i].name] == s.fields[i].value.value
    ensures forall i | 0 <= i < |s.fields| && s.fields[i].value.None? :: s.fields[i].name !in Written(s)
    ensures forall c | c in Written(s) :: exists i | 0 <= i < |s.fields| :: s.fields[i].name == c && s.fields[i].value.Some?
    ensures KeyColumn in Written(s) && Written(s)[KeyColumn] == KeyOf(s)
  {
    FieldsRowExact(s.fields);
    var k :| 0 <= k < |s.fields| && s.fields[k] == Field(KeyColumn, Some(KeyOf(s)));
  }

  /** Whether the record sets any field besides the key. */
  predicate HasNonKeyField(s: Saveable) {
    exists i | 0 <= i < |s.fields| :: s.fields[i].name != KeyColumn && s.fields[i].value.Some?
  }

  /** The stored row after merging the written columns of an upsert or a
      patch into it: written columns take the new value, all others keep
      theirs, and the key column is never rewritten. */
  function Merge(stored: Row, written: Row): Row {
    stored + (written - {KeyColumn})
  }

  // ---------------------------------------------------------------------
  // to_db: INSERT ... ON DUPLICATE KEY UPDATE

  datatype InsertStatement = InsertStatement(
    table: string,
    columns: seq<string>,
    placeholders: seq<string>,
    values: seq<Value>,
    updateColumns: seq<string>)

  /** The non-key columns, in order. */
  function NonKey(columns: seq<string>): (r: seq<string>)
    ensures forall c :: c in r <==> c in columns && c != KeyColumn
  {
    if |columns| == 0 then []
    else (if columns[0] == KeyColumn then [] else [columns[0]]) + NonKey(columns[1..])
  }

  /** The statement `to_db` sends: one column, one `%s` placeholder and one
      bound value per set field, and an update list naming every set column
      except the key. */
  function BuildInsert(s: Saveable): (q: InsertStatement)
    ensures q.table == s.table
    ensures |q.columns| == |q.placeholders| == |q.values| == |Dump(s.fields)|
    ensures forall i | 0 <= i < |q.placeholders| :: q.placeholders[i] == "%s"
    ensures forall i | 0 <= i < |q.columns| :: (q.columns[i], q.values[i]) == Dump(s.fields)[i]
    ensures forall i | 0 <= i < |q.columns| :: Field(q.columns[i], Some(q.values[i])) in s.fields
    ensures forall c :: c in q.updateColumns <==> c in q.columns && c != KeyColumn
  {
    var d := Dump(s.fields);
    var columns := seq(|d|, i requires 0 <= i < |d| => d[i].0);
    InsertStatement(
      s.table,
      columns,
      seq(|d|, i => "%s"),
      seq(|d|, i requires 0 <= i < |d| => d[i].1),
      NonKey(columns))
  }

  /** `BuildInsert` emits an `ON DUPLICATE KEY UPDATE` clause exactly when
      the record sets a field besides the key. */
  lemma UpdateClauseIffNonKeyField(s: Saveable)
    requires WellFormed(s)
    ensures |BuildInsert(s).updateColumns| > 0 <==> HasNonKeyField(s)
  {
    if HasNonKeyField(s) {
      NonKeyFieldIsUpdated(s);
    }
    var q := BuildInsert(s);
    if |q.updateColumns| > 0 {
      var c := q.updateColumns[0];
      assert c in q.columns;
      var j :| 0 <= j < |q.columns| && q.columns[j] == c;
      assert Field(c, Some(q.values[j])) in s.fields;
      var i :| 0 <= i < |s.fields| && s.fields[i] == Field(c, Some(q.values[j]));
    }
  }

  /** A set field besides the key appears in the update clause. */
  lemma NonKeyFieldIsUpdated(s: Saveable)
    requires WellFormed(s) && HasNonKeyField(s)
    ensures |BuildInsert(s).updateColumns| > 0
  {
    var q := BuildInsert(s);
    var d := Dump(s.fields);
    var i :| 0 <= i < |s.fields| && s.fields[i].name != KeyColumn && s.fields[i].value.Some?;
    var c := s.fields[i].name;
    var j := SetFieldIsDumped(s.fields, i);
    assert q.columns[j] == c;
    assert c in q.columns;
  }

  /** The position among the dumped bindings of the `i`-th field, when set. */
  lemma {:induction false} SetFieldIsDumped(fields: seq<Field>, i: int) returns (j: int)
    requires 0 <= i < |fields| && fields[i].value.Some?
    ensures 0 <= j < |Dump(fields)| && Dump(fields)[j] == (fields[i].name, fields[i].value.value)
  {
    if i == 0 {
      j := 0;
    } else {
      var k := SetFieldIsDumped(fields[1..], i - 1);
      j := if fields[0].value.Some? then k + 1 else k;
    }
  }

  /** Every written column is one of the dumped bindings. */
  lemma DumpedColumns(s: Saveable)
    requires WellFormed(s)
    ensures forall c | c in Written(s) :: exists j | 0 <= j < |Dump(s.fields)| :: Dump(s.fields)[j].0 == c
  {
    RowOfDump(s.fields);
  }

  /** The columns of `row` named in an update list, with their values. */
  function UpdateOf(row: Row, columns: seq<string>): Row {
    map c | c in row && c in columns :: row[c]
  }

  /** An update list naming every column of the row but the key selects
      the row without its key column. */
  lemma UpdateOfNonKey(row: Row, columns: seq<string>)
    requires forall c | c in row :: (c in columns <==> c != KeyColumn)
    ensures UpdateOf(row, columns) == row - {KeyColumn}
  {
  }

  lemma MergeIdempotent(stored: Row, written: Row)
    ensures Merge(Merge(stored, written), written) == Merge(stored, written)
    ensures Merge(written, written) == written
  {
  }

  /** The bindings of a statement's columns to its values. */
  function Bindings(columns: seq<string>, values: seq<Value>): (d: seq<(string, Value)>)
    requires |columns| == |values|
    ensures |d| == |columns|
    ensures forall i | 0 <= i < |d| :: d[i] == (columns[i], values[i])
  {
    seq(|columns|, i requires 0 <= i < |columns| => (columns[i], values[i]))
  }

  /** MySQL's reading of the insert: a missing table, a
      missing key or a duplicate key without an update clause raise; a new
      key inserts the row; an existing key with an update clause merges the
      listed columns (`col = VALUES(col)`) into the stored row. */
  function ExecuteInsert(db: Db, q: InsertStatement): Option<Db> {
    if q.table !in db || |q.columns| != |q.values| then None
    else
        var row := RowOf(Bindings(q.columns, q.values));
        if KeyColumn !in row then None
        else
          var key := row[KeyColumn];
          var table := db[q.table];
          if key !in table then Some(db[q.table := table[key := row]])
          else if |q.updateColumns| == 0 then None
          else
            Some(db[q.table := table[key := table[key] + UpdateOf(row, q.updateColumns)]])
  }

  /** The update clause of an insert rewrites every written column but the key. */
  lemma InsertUpdatesAreWritten(s: Saveable)
    requires WellFormed(s)
    ensures UpdateOf(Written(s), BuildInsert(s).updateColumns) == Written(s) - {KeyColumn}
  {
    var q := BuildInsert(s);
    var w := Written(s);
    var d := Dump(s.fields);
    DumpedColumns(s);
    forall c | c in w
      ensures c in q.updateColumns <==> c != KeyColumn
    {
      var j :| 0 <= j < |d| && d[j].0 == c;
      assert q.columns[j] == c;
    }
    UpdateOfNonKey(w, q.updateColumns);
  }

  /** The row an upsert leaves under `key`: the written row for a new key,
      the written columns merged into the stored row for an existing one. */
  function UpsertRow(t: Table, key: Value, w: Row): Row {
    if key in t then Merge(t[key], w) else w
  }

  /** The outcome of sending a record's insert statement. */
  lemma ExecuteInsertOfRecord(db: Db, s: Saveable)
    requires WellFormed(s)
    ensures ExecuteInsert(db, BuildInsert(s)) ==
      if s.table in db && (KeyOf(s) !in db[s.table] || HasNonKeyField(s))
      then Some(db[s.table := db[s.table][KeyOf(s) := UpsertRow(db[s.table], KeyOf(s), Written(s))]])
      else None
  {
    var q := BuildInsert(s);
    var d := Dump(s.fields);
    assert Bindings(q.columns, q.values) == d;
    RowOfDump(s.fields);
    WrittenIsExactlySetFields(s);
    UpdateClauseIffNonKeyField(s);
    InsertUpdatesAreWritten(s);
  }

  /** `Saveable.to_db`: send the insert; report `true` iff the cursor did
      not raise. On success a new key gets exactly the written row, an
      existing key gets the written columns merged in; on failure nothing
      changes. */
  function ToDb(db: Db, s: Saveable, fault: bool): (r: (Db, bool))
    requires WellFormed(s)
    ensures !r.1 ==> r.0 == db
    ensures r.1 <==> !fault && s.table in db && (KeyOf(s) !in db[s.table] || HasNonKeyField(s))
    ensures r.1 && KeyOf(s) !in db[s.table] ==>
      r.0 == db[s.table := db[s.table][KeyOf(s) := Written(s)]]
    ensures r.1 && KeyOf(s) in db[s.table] ==>
      r.0 == db[s.table := db[s.table][KeyOf(s) := Merge(db[s.table][KeyOf(s)], Written(s))]]
    ensures r.1 ==> r.0 == db[s.table := db[s.table][KeyOf(s) := UpsertRow(db[s.table], KeyOf(s), Written(s))]]
  {
    if fault then (db, false)
    else
      ExecuteInsertOfRecord(db, s);
      match ExecuteInsert(db, BuildInsert(s))
      case Some(db') => (db', true)
      case None => (db, false)
  }

  // ---------------------------------------------------------------------
  // to_db_patch: UPDATE ... SET ... WHERE listing_id = ...

  datatype UpdateStatement = UpdateStatement(
    table: string,
    setColumns: seq<string>,
    params: map<string, Value>)

  /** The statement `to_db_patch` sends: a `SET` entry for every set column
      except the key, and the set fields as named parameters. */
  function BuildPatch(s: Saveable): (q: UpdateStatement)
    requires WellFormed(s)
    ensures q.table == s.table
    ensures q.params == Written(s)
    ensures forall c :: c in q.setColumns <==> c in Written(s) && c != KeyColumn
  {
    var d := Dump(s.fields);
    var columns := seq(|d|, i requires 0 <= i < |d| => d[i].0);
    DumpedColumns(s);
    assert forall c | c in Written(s) :: c in columns by {
      forall c | c in Written(s)
        ensures c in columns
      {
        var j :| 0 <= j < |d| && d[j].0 == c;
        assert columns[j] == c;
      }
    }
    assert forall c | c in columns :: c in Written(s) by {
      forall c | c in columns
        ensures c in Written(s)
      {
        var j :| 0 <= j < |d| && columns[j] == c;
        assert Field(d[j].0, Some(d[j].1)) in s.fields;
        WrittenIsExactlySetFields(s);
      }
    }
    UpdateStatement(s.table, NonKey(columns), Written(s))
  }

  /** MySQL's reading of the update: a missing table or an empty `SET`
      list raises; otherwise the row with the given key, if any, gets the
      `SET` columns, and no row is ever created. */
  function ExecuteUpdate(db: Db, q: UpdateStatement): Option<Db> {
    if q.table !in db || |q.setColumns| == 0 || KeyColumn !in q.params then None
    else
      var key := q.params[KeyColumn];
      var table := db[q.table];
      if key !in table then Some(db)
      else
        Some(db[q.table := table[key := table[key] + UpdateOf(q.params, q.setColumns)]])
  }

  /** `Saveable.to_db_patch`: an update-only merge. It reports `true` iff
      the cursor did not raise, which needs a set field besides the key; it
      never creates a row, and only the row with the record's key changes,
      by merging the written columns into it. */
  function ToDbPatch(db: Db, s: Saveable, fault: bool): (r: (Db, bool))
    requires WellFormed(s)
    ensures !r.1 ==> r.0 == db
    ensures r.1 <==> !fault && s.table in db && HasNonKeyField(s)
    ensures r.1 && KeyOf(s) !in db[s.table] ==> r.0 == db
    ensures r.1 && KeyOf(s) in db[s.table] ==>
      r.0 == db[s.table := db[s.table][KeyOf(s) := Merge(db[s.table][KeyOf(s)], Written(s))]]
  {
    if fault then (db, false)
    else
      ExecuteUpdateOfRecord(db, s);
      match ExecuteUpdate(db, BuildPatch(s))
      case Some(db') => (db', true)
      case None => (db, false)
  }

  /** The outcome of sending a record's update statement. */
  lemma ExecuteUpdateOfRecord(db: Db, s: Saveable)
    requires WellFormed(s)
    ensures ExecuteUpdate(db, BuildPatch(s)) ==
      if s.table !in db || !HasNonKeyField(s) then None
      else if KeyOf(s) !in db[s.table] then Some(db)
      else Some(db[s.table := db[s.table][KeyOf(s) := Merge(db[s.table][KeyOf(s)], Written(s))]])
  {
    var q := BuildPatch(s);
    WrittenIsExactlySetFields(s);
    assert |q.setColumns| > 0 <==> HasNonKeyField(s) by {
      if HasNonKeyField(s) {
        var i :| 0 <= i < |s.fields| && s.fields[i].name != KeyColumn && s.fields[i].value.Some?;
        assert s.fields[i].name in q.setColumns;
      }
      if |q.setColumns| > 0 {
        var c := q.setColumns[0];
        assert c in Written(s);
      }
    }
    UpdateOfNonKey(q.params, q.setColumns);
  }

  // ---------------------------------------------------------------------
  // is_present_in_db: SELECT listing_id ... WHERE listing_id = ...

  /** The `listing_id`s a keyed select returns. */
  function SelectKey(table: Table, key: Value): (ids: seq<Value>)
    ensures |ids| <= 1
    ensures forall k | k in ids :: k == key && key in table
    ensures key in table ==> ids == [key]
  {
    if key in table then [key] else []
  }

  /** `Saveable.is_present_in_db`: `true` iff a row with the record's key
      exists; a cursor error (including a missing table) reads as `false`. */
  function IsPresentInDb(db: Db, s: Saveable, fault: bool): (r: bool)
    requires WellFormed(s)
    ensures r <==> !fault && s.table in db && KeyOf(s) in db[s.table]
  {
    if fault || s.table !in db then false
    else |SelectKey(db[s.table], KeyOf(s))| > 0
  }

  // ---------------------------------------------------------------------
  // Properties relating the operations

  /** After a successful `to_db`, every set field holds its new value,
      every unset field keeps what the row held before (nothing is erased),
      the key is in the table once, and all other rows and tables are as
      they were. */
  lemma ToDbNothingElseChanges(db: Db, s: Saveable, db': Db)
    requires WellFormed(s) && s.table in db
    requires ToDb(db, s, false) == (db', true)
    ensures db'.Keys == db.Keys
    ensures forall t | t in db && t != s.table :: db'[t] == db[t]
    ensures db'[s.table].Keys == db[s.table].Keys + {KeyOf(s)}
    ensures forall k | k in db[s.table] && k != KeyOf(s) :: db'[s.table][k] == db[s.table][k]
    ensures db'[s.table][KeyOf(s)] == UpsertRow(db[s.table], KeyOf(s), Written(s))
  {
    var key := KeyOf(s);
    var row := UpsertRow(db[s.table], key, Written(s));
    assert db' == db[s.table := db[s.table][key := row]];
    PutRowFacts(db, s.table, key, row);
  }

  /** Replacing one row touches no other table and no other row. */
  lemma PutRowFacts(db: Db, table: string, key: Value, row: Row)
    requires table in db
    ensures var db' := db[table := db[table][key := row]];
      && db'.Keys == db.Keys
      && (forall t | t in db && t != table :: db'[t] == db[t])
      && db'[table].Keys == db[table].Keys + {key}
      && (forall k | k in db[table] && k != key :: db'[table][k] == db[table][k])
      && db'[table][key] == row
  {
  }

  /** The row a successful `to_db` leaves under the record's key holds
      every set field's new value, and every unset field keeps what the row
      held before: a `None` field neither erases nor adds a column. */
  lemma UpsertedRowFields(t: Table, s: Saveable)
    requires WellFormed(s)
    ensures forall i | 0 <= i < |s.fields| && s.fields[i].value.Some? && s.fields[i].name != KeyColumn ::
      UpsertRow(t, KeyOf(s), Written(s))[s.fields[i].name] == s.fields[i].value.value
    ensures forall i | 0 <= i < |s.fields| && s.fields[i].value.None? && KeyOf(s) in t ::
      var c := s.fields[i].name;
      (c in UpsertRow(t, KeyOf(s), Written(s)) <==> c in t[KeyOf(s)]) &&
      (c in t[KeyOf(s)] ==> UpsertRow(t, KeyOf(s), Written(s))[c] == t[KeyOf(s)][c])
  {
    WrittenIsExactlySetFields(s);
    UpsertRowFacts(t, KeyOf(s), Written(s));
  }

  /** The upserted row holds every written column but the key with its
      written value, and keeps every column that was not written. */
  lemma UpsertRowFacts(t: Table, key: Value, w: Row)
    ensures forall c | c in w && c != KeyColumn :: c in UpsertRow(t, key, w) && UpsertRow(t, key, w)[c] == w[c]
    ensures key in t ==> forall c | c !in w ::
      (c in UpsertRow(t, key, w) <==> c in t[key]) &&
      (c in t[key] ==> UpsertRow(t, key, w)[c] == t[key][c])
  {
  }

  /** Merging the same written columns again changes nothing. */
  lemma UpsertRowAbsorbs(t: Table, key: Value, w: Row)
    ensures Merge(UpsertRow(t, key, w), w) == UpsertRow(t, key, w)
  {
    if key in t {
      MergeIdempotent(t[key], w);
    } else {
      MergeIdempotent(w, w);
    }
  }

  /** Upserting the same columns into the same row a second time leaves
      the store as the first upsert left it. */
  lemma UpsertTwice(db: Db, table: string, key: Value, w: Row)
    requires table in db
    ensures var once := db[table := db[table][key := UpsertRow(db[table], key, w)]];
      table in once && key in once[table] &&
      once[table := once[table][key := Merge(once[table][key], w)]] == once
  {
    var row := UpsertRow(db[table], key, w);
    var once := db[table := db[table][key := row]];
    UpsertRowAbsorbs(db[table], key, w);
    assert once[table][key := Merge(row, w)] == once[table];
  }

  /** Writing the same record twice leaves the store as writing it once. */
  lemma ToDbIdempotent(db: Db, s: Saveable)
    requires WellFormed(s)
    ensures var once := ToDb(db, s, false).0; ToDb(once, s, false).0 == once
  {
    if ToDb(db, s, false).1 {
      UpsertTwice(db, s.table, KeyOf(s), Written(s));
    }
  }

  /** A record whose only set field is the key yields no update clause, so
      writing it over an existing key raises and `to_db` returns `false`,
      leaving the store unchanged. */
  lemma OnlyKeyFailsOnExisting(db: Db, s: Saveable)
    requires WellFormed(s) && s.table in db && KeyOf(s) in db[s.table]
    requires forall i | 0 <= i < |s.fields| && s.fields[i].value.Some? :: s.fields[i].name == KeyColumn
    ensures |BuildInsert(s).updateColumns| == 0
    ensures ToDb(db, s, false) == (db, false)
  {
    UpdateClauseIffNonKeyField(s);
  }

  /** `to_db` and `to_db_patch` keep every row's key column equal to its key. */
  lemma WritesKeepKeysConsistent(db: Db, s: Saveable, fault: bool)
    requires WellFormed(s) && KeyConsistent(db)
    ensures KeyConsistent(ToDb(db, s, fault).0)
    ensures KeyConsistent(ToDbPatch(db, s, fault).0)
  {
    WrittenIsExactlySetFields(s);
    var key := KeyOf(s);
    var w := Written(s);
    if s.table in db {
      var t := db[s.table];
      if key in t {
        KeyKeptByMerge(db, s.table, key, w);
      } else {
        KeyKeptByInsert(db, s.table, key, w);
      }
    }
  }

  /** Inserting a row that holds its own key keeps the store key-consistent. */
  lemma KeyKeptByInsert(db: Db, table: string, key: Value, w: Row)
    requires KeyConsistent(db) && table in db
    requires KeyColumn in w && w[KeyColumn] == key
    ensures KeyConsistent(db[table := db[table][key := w]])
  {
  }

  /** Merging a row that does not rewrite the key keeps the store key-consistent. */
  lemma KeyKeptByMerge(db: Db, table: string, key: Value, w: Row)
    requires KeyConsistent(db) && table in db && key in db[table]
    ensures KeyConsistent(db[table := db[table][key := Merge(db[table][key], w)]])
  {
    var stored := db[table][key];
    assert Merge(stored, w)[KeyColumn] == stored[KeyColumn];
  }

  /** A patch never adds a key to any table, and after a successful upsert
      the record is present. */
  lemma PatchNeverInsertsUpsertMakesPresent(db: Db, s: Saveable)
    requires WellFormed(s)
    ensures var db' := ToDbPatch(db, s, false).0;
      db'.Keys == db.Keys && forall t | t in db :: db'[t].Keys == db[t].Keys
    ensures ToDb(db, s, false).1 ==> IsPresentInDb(ToDb(db, s, false).0, s, false)
  {
  }
}
