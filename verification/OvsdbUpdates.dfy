/**
  Table update notifications of RFC 7047, section 4.1.6, turned into commands on keyed tables
  (rust/template/ovsdb/lib.rs), and what replaying these commands does to the tables.
 */
module OvsdbUpdates {
  import opened Wrappers
  import opened Records
  import opened Ovsdb

  type Fields = seq<(string, Record)>

  // ---- the translation -------------------------------------------------------------------

  /** `str::to_uppercase` of a character can be several characters; `upper` stands for it. */
  function UppercaseFirst(upper: char -> string, s: string): string {
    if s == [] then "" else upper(s[0]) + s[1..]
  }

  function Lookup(m: seq<(string, Json)>, key: string): Option<Json> {
    if m == [] then None
    else if m[0].0 == key then Some(m[0].1)
    else Lookup(m[1..], key)
  }

  function FieldsFromMembers(m: seq<(string, Json)>): Result<Fields> {
    if m == [] then Ok([])
    else
      var r :- RecordFromVal(m[0].1);
      var rs :- FieldsFromMembers(m[1..]);
      Ok([(m[0].0, r)] + rs)
  }

  function RowFromObj(v: Json): Result<Fields> {
    if v.JObj? then FieldsFromMembers(v.members) else Err
  }

  /** What a row update says about its row. */
  datatype Change =
    | Added(row: Fields)
    | Patched(delta: Fields)
    | Removed
    | Replaced(row: Fields)

  /** The two formats of a row update, in the order in which the code looks for them. */
  function ChangeOf(update: Json): Result<Change> {
    if !update.JObj? then Err
    else
      var m := update.members;
      var added := if Lookup(m, "insert").Some? then Lookup(m, "insert") else Lookup(m, "initial");
      if added.Some? then (var row :- RowFromObj(added.value); Ok(Added(row)))
      else if Lookup(m, "modify").Some? then (var row :- RowFromObj(Lookup(m, "modify").value); Ok(Patched(row)))
      else if Lookup(m, "delete").Some? then Ok(Removed)
      else
        match (Lookup(m, "old"), Lookup(m, "new"))
        case (None, None) => Err
        case (Some(_), None) => Ok(Removed)
        case (None, Some(v)) => (var row :- RowFromObj(v); Ok(Added(row)))
        case (Some(_), Some(v)) => (var row :- RowFromObj(v); Ok(Replaced(row)))
  }

  /** A row of a table, with its UUID, and what happens to it. */
  datatype Row = Row(table: string, uuid: int, change: Change)

  function RowOf(upper: char -> string, table: string, uuid: string, update: Json): Result<Row> {
    var i :- ParseUuid(uuid);
    var change :- ChangeOf(update);
    Ok(Row(UppercaseFirst(upper, table), i, change))
  }

  function WithUuid(fields: Fields, uuid: int): Fields {
    fields + [("_uuid", Int(uuid))]
  }

  /** The commands of a row.  An update with both an old and a new row deletes and inserts. */
  function RowCommands(r: Row): seq<UpdCmd> {
    match r.change
    case Added(row) => [Insert(r.table, NamedStruct(r.table, WithUuid(row, r.uuid)))]
    case Patched(delta) => [Modify(r.table, Int(r.uuid), NamedStruct(r.table, delta))]
    case Removed => [DeleteKey(r.table, Int(r.uuid))]
    case Replaced(row) =>
      [DeleteKey(r.table, Int(r.uuid)), Insert(r.table, NamedStruct(r.table, WithUuid(row, r.uuid)))]
  }

  function AllCommands(rows: seq<Row>): seq<UpdCmd> {
    if rows == [] then [] else AllCommands(rows[..|rows| - 1]) + RowCommands(rows[|rows| - 1])
  }

  function TableRows(upper: char -> string, table: string, m: seq<(string, Json)>): Result<seq<Row>> {
    if m == [] then Ok([])
    else
      var rows :- TableRows(upper, table, m[..|m| - 1]);
      var row :- RowOf(upper, table, m[|m| - 1].0, m[|m| - 1].1);
      Ok(rows + [row])
  }

  /** All rows of a notification, table by table. */
  function AllRows(upper: char -> string, prefix: string, m: seq<(string, Json)>): Result<seq<Row>> {
    if m == [] then Ok([])
    else
      var rows :- AllRows(upper, prefix, m[..|m| - 1]);
      var (table, updates) := m[|m| - 1];
      var more :- (if updates.JObj? then TableRows(upper, prefix + table, updates.members) else Err);
      Ok(rows + more)
  }

  lemma {:induction false} CommandsCat(a: seq<Row>, b: seq<Row>)
    ensures AllCommands(a + b) == AllCommands(a) + AllCommands(b)
  {
    if b == [] {
      assert a + b == a;
    } else {
      var init, last := b[..|b| - 1], b[|b| - 1];
      assert (a + b)[..|a + b| - 1] == a + init;
      CommandsCat(a, init);
      assert AllCommands(a) + AllCommands(init) + RowCommands(last) ==
        AllCommands(a) + (AllCommands(init) + RowCommands(last));
    }
  }

  /** The vector of commands that the translation pushes onto. */
  class Commands {
    var cmds: seq<UpdCmd>

    constructor ()
      ensures cmds == []
    {
      cmds := [];
    }

    /** `cmd_from_row_update`.  On an error the vector may have grown; callers drop it then. */
    method RowUpdate(upper: char -> string, table: string, uuid: string, update: Json) returns (r: Result<()>)
      modifies this
      ensures r.Ok? <==> RowOf(upper, table, uuid, update).Ok?
      ensures r.Ok? ==> cmds == old(cmds) + RowCommands(RowOf(upper, table, uuid, update).value)
    {
      var id :- ParseUuid(uuid);
      var key := Int(id);
      var name := UppercaseFirst(upper, table);
      if !update.JObj? {
        return Err;
      }
      var m := update.members;
      var added := Lookup(m, "insert");
      if added.None? {
        added := Lookup(m, "initial");
      }
      if added.Some? {
        var insert :- RowFromObj(added.value);
        insert := insert + [("_uuid", key)];
        cmds := cmds + [Insert(name, NamedStruct(name, insert))];
        return Ok(());
      }
      var modified := Lookup(m, "modify");
      if modified.Some? {
        var delta :- RowFromObj(modified.value);
        cmds := cmds + [Modify(name, key, NamedStruct(name, delta))];
        return Ok(());
      }
      if Lookup(m, "delete").Some? {
        cmds := cmds + [DeleteKey(name, key)];
        return Ok(());
      }
      var had := Lookup(m, "old").Some?;
      var new_ := Lookup(m, "new");
      if new_.None? && !had {
        return Err;
      }
      if had {
        cmds := cmds + [DeleteKey(name, key)];
      }
      if new_.Some? {
        var fields :- RowFromObj(new_.value);
        fields := fields + [("_uuid", key)];
        cmds := cmds + [Insert(name, NamedStruct(name, fields))];
        assert had ==> cmds == old(cmds) + [DeleteKey(name, key), Insert(name, NamedStruct(name, fields))];
      }
      return Ok(());
    }

    /** `cmds_from_table_update`. */
    method TableUpdate(upper: char -> string, table: string, updates: Json) returns (r: Result<()>)
      modifies this
      ensures r.Ok? <==> updates.JObj? && TableRows(upper, table, updates.members).Ok?
      ensures r.Ok? ==> cmds == old(cmds) + AllCommands(TableRows(upper, table, updates.members).value)
    {
      if !updates.JObj? {
        return Err;
      }
      var m := updates.members;
      ghost var rows: seq<Row> := [];
      for i := 0 to |m|
        invariant TableRows(upper, table, m[..i]) == Ok(rows) && cmds == old(cmds) + AllCommands(rows)
      {
        var ok := RowUpdate(upper, table, m[i].0, m[i].1);
        if !ok.Ok? {
          RowsFail(upper, table, m, i);
          return ok;
        }
        ghost var row := RowOf(upper, table, m[i].0, m[i].1).value;
        RowsNext(upper, table, m, i, rows, row);
        CommandsNext(old(cmds), rows, row);
        rows := rows + [row];
      }
      assert m[..|m|] == m;
      return Ok(());
    }

    /** `cmds_from_table_updates`. */
    static method TableUpdates(upper: char -> string, prefix: string, upds: seq<(string, Json)>)
    returns (r: Result<seq<UpdCmd>>)
      ensures r.Ok? <==> AllRows(upper, prefix, upds).Ok?
      ensures r.Ok? ==> r.value == AllCommands(AllRows(upper, prefix, upds).value)
    {
      var commands := new Commands();
      for i := 0 to |upds|
        invariant fresh(commands)
        invariant AllRows(upper, prefix, upds[..i]).Ok?
        invariant commands.cmds == AllCommands(AllRows(upper, prefix, upds[..i]).value)
      {
        AllRowsStep(upper, prefix, upds, i);
        var ok := commands.TableUpdate(upper, prefix + upds[i].0, upds[i].1);
        if !ok.Ok? {
          return ok.PropagateFailure();
        }
      }
      assert upds[..|upds|] == upds;
      return Ok(commands.cmds);
    }
  }

  /** One more table, or the failure of one. */
  lemma AllRowsStep(upper: char -> string, prefix: string, m: seq<(string, Json)>, i: nat)
    requires i < |m| && AllRows(upper, prefix, m[..i]).Ok?
    ensures var (table, updates) := m[i];
      var good := updates.JObj? && TableRows(upper, prefix + table, updates.members).Ok?;
      && (good ==>
            && AllRows(upper, prefix, m[..i + 1]).Ok?
            && AllCommands(AllRows(upper, prefix, m[..i + 1]).value) ==
               AllCommands(AllRows(upper, prefix, m[..i]).value) +
               AllCommands(TableRows(upper, prefix + table, updates.members).value))
      && (!good ==> !AllRows(upper, prefix, m).Ok?)
  {
    var (table, updates) := m[i];
    assert m[..i + 1][..i] == m[..i];
    if updates.JObj? && TableRows(upper, prefix + table, updates.members).Ok? {
      CommandsCat(AllRows(upper, prefix, m[..i]).value, TableRows(upper, prefix + table, updates.members).value);
    } else {
      AllRowsFail(upper, prefix, m, i + 1);
    }
  }

  /** One more row. */
  lemma RowsNext(upper: char -> string, table: string, m: seq<(string, Json)>, i: nat, rows: seq<Row>, row: Row)
    requires i < |m| && TableRows(upper, table, m[..i]) == Ok(rows) && RowOf(upper, table, m[i].0, m[i].1) == Ok(row)
    ensures TableRows(upper, table, m[..i + 1]) == Ok(rows + [row])
  {
    assert m[..i + 1][..i] == m[..i];
  }

  lemma CommandsNext(cmds: seq<UpdCmd>, rows: seq<Row>, row: Row)
    ensures cmds + AllCommands(rows + [row]) == cmds + AllCommands(rows) + RowCommands(row)
  {
    CommandsSnoc(rows, row);
  }

  lemma CommandsSnoc(rows: seq<Row>, row: Row)
    ensures AllCommands(rows + [row]) == AllCommands(rows) + RowCommands(row)
  {
    assert (rows + [row])[..|rows|] == rows;
  }

  /** The failure of one. */
  lemma RowsFail(upper: char -> string, table: string, m: seq<(string, Json)>, i: nat)
    requires i < |m| && TableRows(upper, table, m[..i]).Ok? && !RowOf(upper, table, m[i].0, m[i].1).Ok?
    ensures !TableRows(upper, table, m).Ok?
  {
    assert m[..i + 1][..i] == m[..i];
    TableRowsFail(upper, table, m, i + 1);
  }

  lemma {:induction false} TableRowsFail(upper: char -> string, table: string, m: seq<(string, Json)>, i: nat)
    requires i <= |m| && !TableRows(upper, table, m[..i]).Ok?
    ensures !TableRows(upper, table, m).Ok?
    decreases |m|
  {
    if i == |m| {
      assert m[..i] == m;
    } else {
      var init := m[..|m| - 1];
      assert init[..i] == m[..i];
      TableRowsFail(upper, table, init, i);
    }
  }

  lemma {:induction false} AllRowsFail(upper: char -> string, prefix: string, m: seq<(string, Json)>, i: nat)
    requires i <= |m| && !AllRows(upper, prefix, m[..i]).Ok?
    ensures !AllRows(upper, prefix, m).Ok?
    decreases |m|
  {
    if i == |m| {
      assert m[..i] == m;
    } else {
      var init := m[..|m| - 1];
      assert init[..i] == m[..i];
      AllRowsFail(upper, prefix, init, i);
    }
  }

  // ---- tables ----------------------------------------------------------------------------

  /** Rows by table name and key. */
  type Tables = map<(string, int), Fields>

  /** The primary key of a record is its first `_uuid` field. */
  function KeyOf(fields: Fields): Option<int> {
    if fields == [] then None
    else if fields[0].0 == "_uuid" then (if fields[0].1.Int? then Some(fields[0].1.i) else None)
    else KeyOf(fields[1..])
  }

  /** One command on tables with primary keys, under the preconditions of the command API: an
      insertion needs a new key, deletion and modification an existing one. */
  function Exec(patch: (Fields, Fields) -> Fields, db: Tables, cmd: UpdCmd): Option<Tables> {
    match cmd
    case Insert(table, NamedStruct(_, fields)) =>
      (match KeyOf(fields)
       case None => None
       case Some(k) => if (table, k) in db then None else Some(db[(table, k) := fields]))
    case DeleteKey(table, Int(k)) => if (table, k) in db then Some(db - {(table, k)}) else None
    case Modify(table, Int(k), NamedStruct(_, delta)) =>
      if (table, k) in db then Some(db[(table, k) := patch(db[(table, k)], delta)]) else None
    case _ => None
  }

  function ExecAll(patch: (Fields, Fields) -> Fields, db: Tables, cmds: seq<UpdCmd>): Option<Tables>
    decreases |cmds|
  {
    if cmds == [] then Some(db)
    else
      match Exec(patch, db, cmds[0])
      case None => None
      case Some(db') => ExecAll(patch, db', cmds[1..])
  }

  /** The first `_uuid` column, if there is one, holds the given UUID. */
  predicate UuidAgrees(fields: Fields, uuid: int) {
    if fields == [] then true
    else if fields[0].0 == "_uuid" then fields[0].1 == Int(uuid)
    else UuidAgrees(fields[1..], uuid)
  }

  /** An inserted row has no `_uuid` column of its own, or one that agrees with its UUID. */
  predicate WellFormed(r: Row) {
    (r.change.Added? || r.change.Replaced?) ==> UuidAgrees(r.change.row, r.uuid)
  }

  function Key(r: Row): (string, int) {
    (r.table, r.uuid)
  }

  /** A row update fits the tables: what is added is new, what is changed is there. */
  predicate Agrees(db: Tables, r: Row) {
    if r.change.Added? then Key(r) !in db else Key(r) in db
  }

  function Get(db: Tables, k: (string, int)): Option<Fields> {
    if k in db then Some(db[k]) else None
  }

  /** The row after its update, given the row before it. */
  function NewRow(patch: (Fields, Fields) -> Fields, r: Row, before: Option<Fields>): Option<Fields> {
    match r.change
    case Added(row) => Some(WithUuid(row, r.uuid))
    case Replaced(row) => Some(WithUuid(row, r.uuid))
    case Removed => None
    case Patched(delta) => if before.Some? then Some(patch(before.value, delta)) else None
  }

  ghost predicate DistinctKeys(rows: seq<Row>) {
    forall i, j :: 0 <= i < j < |rows| ==> Key(rows[i]) != Key(rows[j])
  }

  /** The inserted record has the UUID of its row for its primary key exactly if the columns of the
      row do not say otherwise. */
  lemma {:induction false} KeyOfRow(fields: Fields, uuid: int)
    ensures KeyOf(WithUuid(fields, uuid)) == Some(uuid) <==> UuidAgrees(fields, uuid)
  {
    if fields != [] {
      assert WithUuid(fields, uuid)[1..] == WithUuid(fields[1..], uuid);
      KeyOfRow(fields[1..], uuid);
    }
  }

  lemma {:induction false} ExecCat(patch: (Fields, Fields) -> Fields, db: Tables, a: seq<UpdCmd>, b: seq<UpdCmd>)
    ensures ExecAll(patch, db, a + b) ==
            match ExecAll(patch, db, a) case None => None case Some(db') => ExecAll(patch, db', b)
    decreases |a|
  {
    if a == [] {
      assert a + b == b;
    } else {
      assert (a + b)[1..] == a[1..] + b;
      match Exec(patch, db, a[0])
      case None =>
      case Some(db') => ExecCat(patch, db', a[1..], b);
    }
  }

  ghost predicate Untouched(rows: seq<Row>, k: (string, int)) {
    forall i :: 0 <= i < |rows| ==> Key(rows[i]) != k
  }

  /** Each row is what its update says, and every other row is as it was. */
  ghost predicate Updated(patch: (Fields, Fields) -> Fields, db: Tables, rows: seq<Row>, db': Tables) {
    && (forall i :: 0 <= i < |rows| ==> Get(db', Key(rows[i])) == NewRow(patch, rows[i], Get(db, Key(rows[i]))))
    && (forall k :: Untouched(rows, k) ==> Get(db', k) == Get(db, k))
  }

  /** The commands of a row succeed exactly if it fits, and change only its own key. */
  ghost predicate DoesAsItSays(patch: (Fields, Fields) -> Fields, db: Tables, r: Row) {
    var o := ExecAll(patch, db, RowCommands(r));
    && (o.Some? <==> Agrees(db, r))
    && (o.Some? ==>
          && Get(o.value, Key(r)) == NewRow(patch, r, Get(db, Key(r)))
          && forall k :: k != Key(r) ==> Get(o.value, k) == Get(db, k))
  }

  lemma ExecRow(patch: (Fields, Fields) -> Fields, db: Tables, r: Row)
    requires WellFormed(r)
    ensures DoesAsItSays(patch, db, r)
  {
    match r.change
    case Added(row) =>
      KeyOfRow(row, r.uuid);
      OneCommand(patch, db, RowCommands(r)[0]);
    case Patched(delta) => OneCommand(patch, db, RowCommands(r)[0]);
    case Removed => OneCommand(patch, db, RowCommands(r)[0]);
    case Replaced(row) =>
      KeyOfRow(row, r.uuid);
      var cmds := RowCommands(r);
      assert cmds[1..] == [cmds[1]];
      if Key(r) in db {
        OneCommand(patch, db - {Key(r)}, cmds[1]);
      }
  }

  /** A row that is not well formed goes astray on some tables. */
  lemma Astray(patch: (Fields, Fields) -> Fields, r: Row) returns (db: Tables)
    requires !WellFormed(r)
    ensures !DoesAsItSays(patch, db, r)
  {
    var cmds := RowCommands(r);
    KeyOfRow(r.change.row, r.uuid);
    if r.change.Added? {
      db := map[];
      OneCommand(patch, db, cmds[0]);
    } else {
      db := map[Key(r) := []];
      assert cmds[1..] == [cmds[1]];
      assert db - {Key(r)} == map[];
      OneCommand(patch, map[], cmds[1]);
    }
  }

  /** A row does as it says on all tables if and only if it is well formed. */
  lemma RowExact(patch: (Fields, Fields) -> Fields, r: Row)
    ensures WellFormed(r) <==> forall db :: DoesAsItSays(patch, db, r)
  {
    if WellFormed(r) {
      forall db
        ensures DoesAsItSays(patch, db, r)
      {
        ExecRow(patch, db, r);
      }
    } else {
      var db := Astray(patch, r);
    }
  }

  lemma OneCommand(patch: (Fields, Fields) -> Fields, db: Tables, cmd: UpdCmd)
    ensures ExecAll(patch, db, [cmd]) == Exec(patch, db, cmd)
  {
    assert [cmd][1..] == [];
  }

  /** One more row, on tables where the earlier rows are updated. */
  lemma UpdatedStep(patch: (Fields, Fields) -> Fields, db: Tables, init: seq<Row>, last: Row, mid: Tables, db': Tables)
    requires DistinctKeys(init + [last]) && Updated(patch, db, init, mid)
    requires Get(db', Key(last)) == NewRow(patch, last, Get(mid, Key(last)))
    requires forall k :: k != Key(last) ==> Get(db', k) == Get(mid, k)
    ensures Get(mid, Key(last)) == Get(db, Key(last))
    ensures Updated(patch, db, init + [last], db')
  {
    LastUntouched(init, last);
    var rows := init + [last];
    forall i | 0 <= i < |rows|
      ensures Get(db', Key(rows[i])) == NewRow(patch, rows[i], Get(db, Key(rows[i])))
    {
      if i < |init| {
        assert rows[i] == init[i] && Key(init[i]) != Key(last);
      }
    }
    forall k | Untouched(rows, k)
      ensures Get(db', k) == Get(db, k)
    {
      assert rows[|init|] == last;
      assert forall i :: 0 <= i < |init| ==> init[i] == rows[i];
      assert Untouched(init, k);
    }
  }

  lemma LastUntouched(init: seq<Row>, last: Row)
    requires DistinctKeys(init + [last])
    ensures DistinctKeys(init) && Untouched(init, Key(last))
  {
    var rows := init + [last];
    assert forall i :: 0 <= i < |init| ==> init[i] == rows[i];
    assert rows[|init|] == last;
  }

  /** The commands of a notification can be executed if and only if every row update fits the tables
      as they were before; each row is then what its update says, and all else is as it was. */
  ghost predicate ReplaysAsItSays(patch: (Fields, Fields) -> Fields, db: Tables, rows: seq<Row>) {
    var o := ExecAll(patch, db, AllCommands(rows));
    && (o.Some? <==> forall i :: 0 <= i < |rows| ==> Agrees(db, rows[i]))
    && (o.Some? ==> Updated(patch, db, rows, o.value))
  }

  /** A notification with distinct keys and well-formed rows does as it says on all tables. */
  lemma {:induction false} ReplayTheorem(patch: (Fields, Fields) -> Fields, db: Tables, rows: seq<Row>)
    requires DistinctKeys(rows) && forall i :: 0 <= i < |rows| ==> WellFormed(rows[i])
    ensures ReplaysAsItSays(patch, db, rows)
  {
    if rows != [] {
      var init, last := rows[..|rows| - 1], rows[|rows| - 1];
      assert rows == init + [last];
      LastUntouched(init, last);
      ReplayTheorem(patch, db, init);
      ExecCat(patch, db, AllCommands(init), RowCommands(last));
      var o := ExecAll(patch, db, AllCommands(init));
      if o.Some? {
        ExecRow(patch, o.value, last);
        assert Get(o.value, Key(last)) == Get(db, Key(last));
        var o' := ExecAll(patch, db, AllCommands(rows));
        if o'.Some? {
          UpdatedStep(patch, db, init, last, o.value, o'.value);
        }
      }
    }
  }

  /** The row at `k`, if any, holds the key it is at. */
  predicate KeyHeld(db: Tables, k: (string, int)) {
    k in db ==> KeyOf(db[k]) == Some(k.1)
  }

  lemma {:induction false} HoldsOn(patch: (Fields, Fields) -> Fields, db: Tables, rows: seq<Row>, k: (string, int))
    requires KeyHeld(db, k) && ExecAll(patch, db, AllCommands(rows)).Some?
    requires forall i :: 0 <= i < |rows| && Key(rows[i]) == k ==> !rows[i].change.Patched?
    ensures KeyHeld(ExecAll(patch, db, AllCommands(rows)).value, k)
  {
    if rows != [] {
      var init, last := rows[..|rows| - 1], rows[|rows| - 1];
      ExecCat(patch, db, AllCommands(init), RowCommands(last));
      HoldsOn(patch, db, init, k);
      RowHoldsOn(patch, ExecAll(patch, db, AllCommands(init)).value, last, k);
    }
  }

  lemma RowHoldsOn(patch: (Fields, Fields) -> Fields, db: Tables, r: Row, k: (string, int))
    requires KeyHeld(db, k) && ExecAll(patch, db, RowCommands(r)).Some?
    requires Key(r) == k ==> !r.change.Patched?
    ensures KeyHeld(ExecAll(patch, db, RowCommands(r)).value, k)
  {
    var cmds := RowCommands(r);
    OneCommand(patch, db, cmds[0]);
    if r.change.Replaced? {
      assert cmds[1..] == [cmds[1]];
      OneCommand(patch, db - {Key(r)}, cmds[1]);
    }
  }

  /** Tables that every one of the rows fits. */
  function Fitting(rows: seq<Row>): (db: Tables)
    ensures forall k :: k in db <==> exists i :: 0 <= i < |rows| && !rows[i].change.Added? && k == Key(rows[i])
    ensures forall k :: KeyHeld(db, k)
  {
    map k | k in (set i | 0 <= i < |rows| && !rows[i].change.Added? :: Key(rows[i])) :: [("_uuid", Int(k.1))]
  }

  lemma RowsAstray(patch: (Fields, Fields) -> Fields, rows: seq<Row>, i: nat)
    requires DistinctKeys(rows) && i < |rows| && !WellFormed(rows[i])
    ensures !ReplaysAsItSays(patch, Fitting(rows), rows)
  {
    var db, k := Fitting(rows), Key(rows[i]);
    forall j | 0 <= j < |rows|
      ensures Agrees(db, rows[j])
    {
    }
    if ExecAll(patch, db, AllCommands(rows)).Some? {
      HoldsOn(patch, db, rows, k);
      KeyOfRow(rows[i].change.row, rows[i].uuid);
    }
  }

  /** And only then: with distinct keys, it does so on all tables if and only if every row is well
      formed. */
  lemma ReplayExact(patch: (Fields, Fields) -> Fields, rows: seq<Row>)
    requires DistinctKeys(rows)
    ensures (forall db :: ReplaysAsItSays(patch, db, rows)) <==> forall i :: 0 <= i < |rows| ==> WellFormed(rows[i])
  {
    if i :| 0 <= i < |rows| && !WellFormed(rows[i]) {
      RowsAstray(patch, rows, i);
    } else {
      forall db
        ensures ReplaysAsItSays(patch, db, rows)
      {
        ReplayTheorem(patch, db, rows);
      }
    }
  }

  lemma SameTables(a: Tables, b: Tables)
    requires forall k :: Get(a, k) == Get(b, k)
    ensures a == b
  {
    forall k
      ensures k in a <==> k in b
      ensures k in a ==> a[k] == b[k]
    {
      assert Get(a, k) == Get(b, k);
    }
  }

  lemma Occurs<T>(s: seq<T>, t: seq<T>, i: nat) returns (j: nat)
    requires multiset(s) == multiset(t) && i < |s|
    ensures j < |t| && t[j] == s[i]
  {
    assert s[i] in multiset(s);
    assert s[i] in t;
    j :| j < |t| && t[j] == s[i];
  }

  /** The order of the rows does not matter: any permutation gives the same outcome. */
  lemma OrderIndependence(patch: (Fields, Fields) -> Fields, db: Tables, rows: seq<Row>, rows': seq<Row>)
    requires DistinctKeys(rows) && DistinctKeys(rows') && multiset(rows) == multiset(rows')
    requires forall i :: 0 <= i < |rows| ==> WellFormed(rows[i])
    ensures ExecAll(patch, db, AllCommands(rows)) == ExecAll(patch, db, AllCommands(rows'))
  {
    forall i | 0 <= i < |rows'|
      ensures WellFormed(rows'[i])
      ensures rows'[i] in rows
    {
      var j := Occurs(rows', rows, i);
    }
    forall i | 0 <= i < |rows|
      ensures rows[i] in rows'
    {
      var j := Occurs(rows, rows', i);
    }
    ReplayTheorem(patch, db, rows);
    ReplayTheorem(patch, db, rows');
    var o, o' := ExecAll(patch, db, AllCommands(rows)), ExecAll(patch, db, AllCommands(rows'));
    if o.Some? && o'.Some? {
      forall k
        ensures Get(o.value, k) == Get(o'.value, k)
      {
        if i :| 0 <= i < |rows| && k == Key(rows[i]) {
          var j := Occurs(rows, rows', i);
        } else {
          assert Untouched(rows, k) && Untouched(rows', k);
        }
      }
      SameTables(o.value, o'.value);
    }
  }

  lemma TwoRows(patch: (Fields, Fields) -> Fields, db: Tables, a: Row, b: Row)
    ensures ExecAll(patch, db, AllCommands([a, b])) ==
            match ExecAll(patch, db, RowCommands(a))
            case None => None
            case Some(db') => ExecAll(patch, db', RowCommands(b))
  {
    CommandsSnoc([], a);
    CommandsSnoc([a], b);
    assert [] + [a] == [a] && [a] + [b] == [a, b] && [] + RowCommands(a) == RowCommands(a);
    ExecCat(patch, db, RowCommands(a), RowCommands(b));
  }

  /** Not so for a row whose `_uuid` column names another row: inserted before that row is deleted,
      it makes the deletion possible. */
  lemma OrderMatters(patch: (Fields, Fields) -> Fields, table: string)
    ensures var a, b := Row(table, 1, Added([("_uuid", Int(2))])), Row(table, 2, Removed);
      && DistinctKeys([a, b]) && !WellFormed(a)
      && ExecAll(patch, map[], AllCommands([a, b])) == Some(map[])
      && ExecAll(patch, map[], AllCommands([b, a])) == None
  {
    var a, b := Row(table, 1, Added([("_uuid", Int(2))])), Row(table, 2, Removed);
    var row := WithUuid([("_uuid", Int(2))], 1);
    var db := map[(table, 2) := row];
    assert row[0] == ("_uuid", Int(2));
    TwoRows(patch, map[], a, b);
    TwoRows(patch, map[], b, a);
    OneCommand(patch, map[], RowCommands(a)[0]);
    OneCommand(patch, map[], RowCommands(b)[0]);
    OneCommand(patch, db, RowCommands(b)[0]);
    assert db - {(table, 2)} == map[];
  }
}
