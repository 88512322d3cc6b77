/**
  What a table update notification of RFC 7047, section 4.1.6, means, in terms of its JSON alone,
  and that the commands returned for it (rust/template/ovsdb/lib.rs) do just that.
 */
module OvsdbNotifications {
  import opened Wrappers
  import opened Records
  import opened Ovsdb
  import opened OvsdbUpdates

  // ---- whole notifications ---------------------------------------------------------------

  /** No two tables of the notification have the same name in the program. */
  ghost predicate DistinctTables(upper: char -> string, prefix: string, m: seq<(string, Json)>) {
    forall i, j :: 0 <= i < j < |m| ==> UppercaseFirst(upper, prefix + m[i].0) != UppercaseFirst(upper, prefix + m[j].0)
  }

  /** No two rows of a table have the same UUID, however it is written. */
  ghost predicate DistinctUuids(m: seq<(string, Json)>) {
    forall i, j :: 0 <= i < j < |m| ==> ParseUuid(m[i].0) != ParseUuid(m[j].0)
  }

  lemma RowPlace(upper: char -> string, table: string, uuid: string, update: Json)
    ensures var r := RowOf(upper, table, uuid, update);
      r.Ok? ==> r.value.table == UppercaseFirst(upper, table) && ParseUuid(uuid) == Ok(r.value.uuid)
  {
  }

  lemma LastRow(upper: char -> string, table: string, m: seq<(string, Json)>)
    requires m != [] && TableRows(upper, table, m).Ok?
    ensures var init, last := m[..|m| - 1], m[|m| - 1];
      && TableRows(upper, table, init).Ok? && RowOf(upper, table, last.0, last.1).Ok?
      && TableRows(upper, table, m).value ==
         TableRows(upper, table, init).value + [RowOf(upper, table, last.0, last.1).value]
  {
  }

  lemma {:induction false} TableRowCount(upper: char -> string, table: string, m: seq<(string, Json)>)
    requires TableRows(upper, table, m).Ok?
    ensures |TableRows(upper, table, m).value| == |m|
  {
    if m != [] {
      LastRow(upper, table, m);
      TableRowCount(upper, table, m[..|m| - 1]);
    }
  }

  /** The rows without the last, and the last. */
  lemma TableRowSplit(upper: char -> string, table: string, m: seq<(string, Json)>, i: nat)
    requires i < |m| && TableRows(upper, table, m).Ok?
    ensures TableRows(upper, table, m[..|m| - 1]).Ok? && |TableRows(upper, table, m).value| == |m|
    ensures i < |m| - 1 ==>
      && |TableRows(upper, table, m[..|m| - 1]).value| == |m| - 1
      && TableRows(upper, table, m).value[i] == TableRows(upper, table, m[..|m| - 1]).value[i]
    ensures i == |m| - 1 ==> Ok(TableRows(upper, table, m).value[i]) == RowOf(upper, table, m[i].0, m[i].1)
  {
    LastRow(upper, table, m);
    TableRowCount(upper, table, m[..|m| - 1]);
  }

  lemma {:induction false} TableRowAt(upper: char -> string, table: string, m: seq<(string, Json)>, i: nat)
    requires TableRows(upper, table, m).Ok?
    ensures |TableRows(upper, table, m).value| == |m|
    ensures i < |m| ==> Ok(TableRows(upper, table, m).value[i]) == RowOf(upper, table, m[i].0, m[i].1)
    decreases |m|
  {
    TableRowCount(upper, table, m);
    if i < |m| {
      TableRowSplit(upper, table, m, i);
      if i < |m| - 1 {
        TableRowAt(upper, table, m[..|m| - 1], i);
      }
    }
  }

  lemma TableKeys(upper: char -> string, table: string, m: seq<(string, Json)>)
    requires TableRows(upper, table, m).Ok? && DistinctUuids(m)
    ensures var rows := TableRows(upper, table, m).value;
      DistinctKeys(rows) && forall i :: 0 <= i < |rows| ==> rows[i].table == UppercaseFirst(upper, table)
  {
    var rows := TableRows(upper, table, m).value;
    TableRowAt(upper, table, m, 0);
    forall i | 0 <= i < |rows|
      ensures rows[i].table == UppercaseFirst(upper, table) && ParseUuid(m[i].0) == Ok(rows[i].uuid)
    {
      TableRowAt(upper, table, m, i);
      RowPlace(upper, table, m[i].0, m[i].1);
    }
  }

  ghost predicate FromTables(upper: char -> string, prefix: string, m: seq<(string, Json)>, rows: seq<Row>) {
    forall r :: r in rows ==> exists i :: 0 <= i < |m| && r.table == UppercaseFirst(upper, prefix + m[i].0)
  }

  lemma JoinKeys(a: seq<Row>, b: seq<Row>)
    requires DistinctKeys(a) && DistinctKeys(b)
    requires forall r, s :: r in a && s in b ==> r.table != s.table
    ensures DistinctKeys(a + b)
  {
    var rows := a + b;
    forall i, j | 0 <= i < j < |rows|
      ensures Key(rows[i]) != Key(rows[j])
    {
      if i < |a| <= j {
        assert rows[i] in a && rows[j] in b;
      }
    }
  }

  lemma {:induction false} NotificationKeys(upper: char -> string, prefix: string, m: seq<(string, Json)>)
    requires AllRows(upper, prefix, m).Ok? && DistinctTables(upper, prefix, m)
    requires forall i :: 0 <= i < |m| && m[i].1.JObj? ==> DistinctUuids(m[i].1.members)
    ensures DistinctKeys(AllRows(upper, prefix, m).value)
    ensures FromTables(upper, prefix, m, AllRows(upper, prefix, m).value)
    decreases |m|
  {
    if m != [] {
      var init, last := m[..|m| - 1], m[|m| - 1];
      NotificationKeys(upper, prefix, init);
      TableKeys(upper, prefix + last.0, last.1.members);
      var a, b := AllRows(upper, prefix, init).value, TableRows(upper, prefix + last.0, last.1.members).value;
      forall r, s | r in a && s in b
        ensures r.table != s.table
      {
        var i :| 0 <= i < |init| && r.table == UppercaseFirst(upper, prefix + init[i].0);
        assert init[i] == m[i];
      }
      JoinKeys(a, b);
      forall r | r in a + b
        ensures exists i :: 0 <= i < |m| && r.table == UppercaseFirst(upper, prefix + m[i].0)
      {
        if r in a {
          var i :| 0 <= i < |init| && r.table == UppercaseFirst(upper, prefix + init[i].0);
          assert init[i] == m[i];
        } else {
          assert r.table == UppercaseFirst(upper, prefix + m[|m| - 1].0);
        }
      }
    }
  }

  /** The JSON notification itself: if it can be translated, its tables have different names and the
      rows of each different UUIDs, then the commands returned for it do on all tables as it says
      if and only if no inserted row has a `_uuid` column that disagrees with its UUID. */
  lemma NotificationExact(patch: (Fields, Fields) -> Fields, upper: char -> string, prefix: string,
                          m: seq<(string, Json)>)
    requires AllRows(upper, prefix, m).Ok? && DistinctTables(upper, prefix, m)
    requires forall i :: 0 <= i < |m| && m[i].1.JObj? ==> DistinctUuids(m[i].1.members)
    ensures var rows := AllRows(upper, prefix, m).value;
      (forall db :: ReplaysAsItSays(patch, db, rows)) <==> forall i :: 0 <= i < |rows| ==> WellFormed(rows[i])
  {
    NotificationKeys(upper, prefix, m);
    ReplayExact(patch, AllRows(upper, prefix, m).value);
  }

  // ---- what the JSON says ----------------------------------------------------------------

  ghost predicate Has(m: seq<(string, Json)>, key: string) {
    exists k :: 0 <= k < |m| && m[k].0 == key
  }

  /** `v` is the member `key` of an object; the first, if there are several. */
  ghost predicate Member(m: seq<(string, Json)>, key: string, v: Json) {
    exists k :: 0 <= k < |m| && m[k] == (key, v) && forall j :: 0 <= j < k ==> m[j].0 != key
  }

  /** The columns of a row object, in its order. */
  ghost predicate Columns(v: Json, cols: Fields) {
    && v.JObj? && |cols| == |v.members|
    && forall k :: 0 <= k < |cols| ==>
         cols[k].0 == v.members[k].0 && RecordFromVal(v.members[k].1) == Ok(cols[k].1)
  }

  ghost predicate HasRow(m: seq<(string, Json)>, key: string) {
    exists v, cols :: Member(m, key, v) && Columns(v, cols)
  }

  /** A row update in one of the two formats.  Members that other members overrule are not read. */
  ghost predicate Readable(m: seq<(string, Json)>) {
    if Has(m, "insert") then HasRow(m, "insert")
    else if Has(m, "initial") then HasRow(m, "initial")
    else if Has(m, "modify") then HasRow(m, "modify")
    else if Has(m, "delete") then true
    else if Has(m, "new") then HasRow(m, "new")
    else Has(m, "old")
  }

  /** The member that holds the columns of an inserted row. */
  ghost predicate InsertedBy(m: seq<(string, Json)>, key: string) {
    if Has(m, "insert") then key == "insert"
    else if Has(m, "initial") then key == "initial"
    else key == "new" && Has(m, "new") && !Has(m, "modify") && !Has(m, "delete")
  }

  /** The row is new, rather than changed or deleted. */
  ghost predicate Adds(m: seq<(string, Json)>) {
    Has(m, "insert") || Has(m, "initial") ||
    (Has(m, "new") && !Has(m, "old") && !Has(m, "modify") && !Has(m, "delete"))
  }

  ghost predicate Fits(db: Tables, k: (string, int), m: seq<(string, Json)>) {
    if Adds(m) then k !in db else k in db
  }

  ghost predicate Inserted(m: seq<(string, Json)>, key: string, id: int, after: Option<Fields>) {
    exists v, cols :: Member(m, key, v) && Columns(v, cols) && after == Some(cols + [("_uuid", Int(id))])
  }

  ghost predicate Modified(patch: (Fields, Fields) -> Fields, m: seq<(string, Json)>, before: Option<Fields>,
                           after: Option<Fields>)
  {
    exists v, delta ::
      Member(m, "modify", v) && Columns(v, delta) && before.Some? && after == Some(patch(before.value, delta))
  }

  /** The row before and after its update. */
  ghost predicate Outcome(patch: (Fields, Fields) -> Fields, m: seq<(string, Json)>, id: int, before: Option<Fields>,
                          after: Option<Fields>)
  {
    if exists key :: InsertedBy(m, key) then exists key :: InsertedBy(m, key) && Inserted(m, key, id, after)
    else if Has(m, "modify") then Modified(patch, m, before, after)
    else after == None
  }

  /** No `_uuid` column of an inserted row disagrees with its UUID. */
  ghost predicate Agreeing(m: seq<(string, Json)>, id: int) {
    forall key, v, cols :: InsertedBy(m, key) && Member(m, key, v) && Columns(v, cols) ==> UuidAgrees(cols, id)
  }

  // ---- one row ---------------------------------------------------------------------------

  lemma {:induction false} LookupExact(m: seq<(string, Json)>, key: string)
    ensures Lookup(m, key).Some? <==> Has(m, key)
    ensures forall v :: Member(m, key, v) <==> Lookup(m, key) == Some(v)
  {
    if m != [] {
      var t := m[1..];
      LookupExact(t, key);
      assert forall k :: 0 <= k < |t| ==> t[k] == m[k + 1];
      if m[0].0 == key {
        assert Member(m, key, m[0].1);
      } else {
        forall v
          ensures Member(m, key, v) <==> Member(t, key, v)
        {
          if Member(t, key, v) {
            var k :| 0 <= k < |t| && t[k] == (key, v) && forall j :: 0 <= j < k ==> t[j].0 != key;
            assert m[k + 1] == (key, v) && forall j :: 0 <= j < k + 1 ==> m[j].0 != key;
          }
          if Member(m, key, v) {
            var k :| 0 <= k < |m| && m[k] == (key, v) && forall j :: 0 <= j < k ==> m[j].0 != key;
            assert t[k - 1] == (key, v) && forall j :: 0 <= j < k - 1 ==> t[j].0 != key;
          }
        }
      }
    }
  }

  lemma {:induction false} FieldsExact(m: seq<(string, Json)>, cols: Fields)
    ensures Columns(JObj(m), cols) <==> FieldsFromMembers(m) == Ok(cols)
  {
    if m != [] {
      if cols != [] {
        FieldsExact(m[1..], cols[1..]);
        assert cols == [cols[0]] + cols[1..];
        assert forall k :: 0 <= k < |cols[1..]| ==> cols[1..][k] == cols[k + 1];
        assert forall k :: 0 <= k < |m[1..]| ==> m[1..][k] == m[k + 1];
        if Columns(JObj(m[1..]), cols[1..]) && cols[0].0 == m[0].0 && RecordFromVal(m[0].1) == Ok(cols[0].1) {
          forall k | 0 <= k < |cols|
            ensures cols[k].0 == m[k].0 && RecordFromVal(m[k].1) == Ok(cols[k].1)
          {
            if k > 0 {
              assert cols[1..][k - 1] == cols[k];
            }
          }
        }
      }
    }
  }

  lemma RowExact(m: seq<(string, Json)>, key: string)
    ensures Lookup(m, key).Some? ==>
      && (RowFromObj(Lookup(m, key).value).Ok? <==> HasRow(m, key))
      && forall v, cols :: Member(m, key, v) && Columns(v, cols) <==>
           v == Lookup(m, key).value && RowFromObj(v) == Ok(cols)
    ensures Lookup(m, key).Some? <==> Has(m, key)
  {
    LookupExact(m, key);
    if Lookup(m, key).Some? {
      var v := Lookup(m, key).value;
      forall cols
        ensures Columns(v, cols) <==> RowFromObj(v) == Ok(cols)
      {
        if v.JObj? {
          FieldsExact(v.members, cols);
        }
      }
      if RowFromObj(v).Ok? {
        assert Member(m, key, v) && Columns(v, RowFromObj(v).value);
      }
    }
  }

  /** Which row updates can be translated. */
  lemma ReadableExact(upper: char -> string, table: string, uuid: string, update: Json)
    ensures RowOf(upper, table, uuid, update).Ok? <==>
            ParseUuid(uuid).Ok? && update.JObj? && Readable(update.members)
  {
    if update.JObj? {
      var m := update.members;
      RowExact(m, "insert");
      RowExact(m, "initial");
      RowExact(m, "modify");
      RowExact(m, "delete");
      RowExact(m, "new");
      RowExact(m, "old");
    }
  }

  /** The row of an update says what the JSON says. */
  lemma RowSays(patch: (Fields, Fields) -> Fields, db: Tables, m: seq<(string, Json)>, r: Row)
    requires ChangeOf(JObj(m)) == Ok(r.change)
    ensures Agrees(db, r) <==> Fits(db, Key(r), m)
    ensures WellFormed(r) <==> Agreeing(m, r.uuid)
    ensures Agrees(db, r) ==> Outcome(patch, m, r.uuid, Get(db, Key(r)), NewRow(patch, r, Get(db, Key(r))))
  {
    RowExact(m, "insert");
    RowExact(m, "initial");
    RowExact(m, "modify");
    RowExact(m, "delete");
    RowExact(m, "new");
    RowExact(m, "old");
    if r.change.Added? || r.change.Replaced? {
      var key := if Has(m, "insert") then "insert" else if Has(m, "initial") then "initial" else "new";
      assert InsertedBy(m, key);
      assert Member(m, key, Lookup(m, key).value) && Columns(Lookup(m, key).value, r.change.row);
    } else if r.change.Patched? {
      assert Member(m, "modify", Lookup(m, "modify").value) && Columns(Lookup(m, "modify").value, r.change.delta);
    }
  }

  // ---- the whole notification ------------------------------------------------------------

  /** There is a `j`-th row in the `i`-th table. */
  ghost predicate At(m: seq<(string, Json)>, i: int, j: int) {
    0 <= i < |m| && m[i].1.JObj? && 0 <= j < |m[i].1.members| && m[i].1.members[j].1.JObj?
  }

  /** Its update. */
  ghost function UpdateAt(m: seq<(string, Json)>, i: int, j: int): seq<(string, Json)>
    requires At(m, i, j)
  {
    m[i].1.members[j].1.members
  }

  /** The program's table and key for it: the prefix and the name of the table, beginning with a
      capital, and the number that is the UUID of the row. */
  ghost predicate NamesRow(upper: char -> string, prefix: string, m: seq<(string, Json)>, i: int, j: int,
                           k: (string, int))
    requires At(m, i, j)
  {
    var name := prefix + m[i].0;
    && k.0 == (if name == "" then "" else upper(name[0]) + name[1..])
    && ParseUuid(m[i].1.members[j].0) == Ok(k.1)
  }

  /** A notification that can be translated. */
  ghost predicate AllReadable(m: seq<(string, Json)>) {
    forall i :: 0 <= i < |m| ==>
      && m[i].1.JObj?
      && forall j :: 0 <= j < |m[i].1.members| ==>
           ParseUuid(m[i].1.members[j].0).Ok? && At(m, i, j) && Readable(UpdateAt(m, i, j))
  }

  lemma LastReadable(upper: char -> string, table: string, m: seq<(string, Json)>)
    requires m != []
    ensures var last := m[|m| - 1];
      TableRows(upper, table, m).Ok? <==>
      TableRows(upper, table, m[..|m| - 1]).Ok? && RowOf(upper, table, last.0, last.1).Ok?
  {
  }

  /** What holds of a list if it holds of the list without its last element and of that. */
  lemma {:induction false} OneByOne<E>(whole: seq<E> -> bool, one: E -> bool, m: seq<E>)
    requires whole([])
    requires forall s :: s != [] ==> (whole(s) <==> whole(s[..|s| - 1]) && one(s[|s| - 1]))
    ensures whole(m) <==> forall j :: 0 <= j < |m| ==> one(m[j])
  {
    if m != [] {
      var init := m[..|m| - 1];
      OneByOne(whole, one, init);
      assert forall j :: 0 <= j < |init| ==> init[j] == m[j];
    }
  }

  lemma TableReadable(upper: char -> string, table: string, m: seq<(string, Json)>)
    ensures TableRows(upper, table, m).Ok? <==>
            forall j :: 0 <= j < |m| ==> RowOf(upper, table, m[j].0, m[j].1).Ok?
  {
    var whole := (s: seq<(string, Json)>) => TableRows(upper, table, s).Ok?;
    var one := (e: (string, Json)) => RowOf(upper, table, e.0, e.1).Ok?;
    forall s: seq<(string, Json)> | s != []
      ensures whole(s) <==> whole(s[..|s| - 1]) && one(s[|s| - 1])
    {
      LastReadable(upper, table, s);
    }
    OneByOne(whole, one, m);
    assert forall j :: 0 <= j < |m| ==> (one(m[j]) <==> RowOf(upper, table, m[j].0, m[j].1).Ok?);
  }

  lemma LastTableReadable(upper: char -> string, prefix: string, m: seq<(string, Json)>)
    requires m != []
    ensures var (table, updates) := m[|m| - 1];
      AllRows(upper, prefix, m).Ok? <==>
      AllRows(upper, prefix, m[..|m| - 1]).Ok? && updates.JObj? &&
      TableRows(upper, prefix + table, updates.members).Ok?
  {
  }

  lemma TablesReadable(upper: char -> string, prefix: string, m: seq<(string, Json)>)
    ensures AllRows(upper, prefix, m).Ok? <==>
            forall i :: 0 <= i < |m| ==> m[i].1.JObj? && TableRows(upper, prefix + m[i].0, m[i].1.members).Ok?
  {
    var whole := (s: seq<(string, Json)>) => AllRows(upper, prefix, s).Ok?;
    var one := (e: (string, Json)) => e.1.JObj? && TableRows(upper, prefix + e.0, e.1.members).Ok?;
    forall s: seq<(string, Json)> | s != []
      ensures whole(s) <==> whole(s[..|s| - 1]) && one(s[|s| - 1])
    {
      LastTableReadable(upper, prefix, s);
    }
    OneByOne(whole, one, m);
    assert forall i :: 0 <= i < |m| ==>
      (one(m[i]) <==> m[i].1.JObj? && TableRows(upper, prefix + m[i].0, m[i].1.members).Ok?);
  }

  /** The commands are returned exactly for notifications in which every table is an object, every row
      has a UUID that can be parsed, and every update is in one of the two formats. */
  lemma TranslationExact(upper: char -> string, prefix: string, m: seq<(string, Json)>)
    ensures AllRows(upper, prefix, m).Ok? <==> AllReadable(m)
  {
    TablesReadable(upper, prefix, m);
    forall i | 0 <= i < |m| && m[i].1.JObj?
      ensures TableRows(upper, prefix + m[i].0, m[i].1.members).Ok? <==>
              forall j :: 0 <= j < |m[i].1.members| ==>
                ParseUuid(m[i].1.members[j].0).Ok? && At(m, i, j) && Readable(UpdateAt(m, i, j))
    {
      var rows := m[i].1.members;
      TableReadable(upper, prefix + m[i].0, rows);
      forall j | 0 <= j < |rows|
        ensures RowOf(upper, prefix + m[i].0, rows[j].0, rows[j].1).Ok? <==>
                ParseUuid(rows[j].0).Ok? && At(m, i, j) && Readable(UpdateAt(m, i, j))
      {
        ReadableExact(upper, prefix + m[i].0, rows[j].0, rows[j].1);
      }
    }
  }

  /** `r` is the row of the `j`-th update in the `i`-th table. */
  ghost predicate IsRowAt(upper: char -> string, prefix: string, m: seq<(string, Json)>, i: int, j: int, r: Row) {
    At(m, i, j) && NamesRow(upper, prefix, m, i, j, Key(r)) && ChangeOf(JObj(UpdateAt(m, i, j))) == Ok(r.change)
  }

  lemma RowIsAt(upper: char -> string, prefix: string, m: seq<(string, Json)>, i: nat, j: nat, r: Row)
    requires i < |m| && m[i].1.JObj? && j < |m[i].1.members|
    requires RowOf(upper, prefix + m[i].0, m[i].1.members[j].0, m[i].1.members[j].1) == Ok(r)
    ensures IsRowAt(upper, prefix, m, i, j, r)
  {
  }

  lemma StillAt(upper: char -> string, prefix: string, m: seq<(string, Json)>, n: nat, i: int, j: int, r: Row)
    requires n <= |m| && IsRowAt(upper, prefix, m[..n], i, j, r)
    ensures IsRowAt(upper, prefix, m, i, j, r)
  {
    assert m[..n][i] == m[i];
  }

  /** The rows of the last table. */
  lemma LastRows(upper: char -> string, prefix: string, m: seq<(string, Json)>)
    requires m != [] && AllRows(upper, prefix, m).Ok?
    ensures var (table, updates) := m[|m| - 1];
      && AllRows(upper, prefix, m[..|m| - 1]).Ok? && updates.JObj?
      && TableRows(upper, prefix + table, updates.members).Ok?
      && var b := TableRows(upper, prefix + table, updates.members).value;
         && AllRows(upper, prefix, m).value == AllRows(upper, prefix, m[..|m| - 1]).value + b
         && |b| == |updates.members| && forall j :: 0 <= j < |b| ==> IsRowAt(upper, prefix, m, |m| - 1, j, b[j])
  {
    var (table, updates) := m[|m| - 1];
    var b := TableRows(upper, prefix + table, updates.members).value;
    TableRowAt(upper, prefix + table, updates.members, 0);
    forall j | 0 <= j < |b|
      ensures IsRowAt(upper, prefix, m, |m| - 1, j, b[j])
    {
      TableRowAt(upper, prefix + table, updates.members, j);
      RowIsAt(upper, prefix, m, |m| - 1, j, b[j]);
    }
  }

  /** Every row comes from an update. */
  lemma {:induction false} RowsFrom(upper: char -> string, prefix: string, m: seq<(string, Json)>, r: Row)
    returns (i: int, j: int)
    requires AllRows(upper, prefix, m).Ok? && r in AllRows(upper, prefix, m).value
    ensures IsRowAt(upper, prefix, m, i, j, r)
    decreases |m|
  {
    var n := |m| - 1;
    LastRows(upper, prefix, m);
    if r in AllRows(upper, prefix, m[..n]).value {
      i, j := RowsFrom(upper, prefix, m[..n], r);
      StillAt(upper, prefix, m, n, i, j, r);
    } else {
      var b := TableRows(upper, prefix + m[n].0, m[n].1.members).value;
      i := n;
      j :| 0 <= j < |b| && b[j] == r;
    }
  }

  lemma AtInit(m: seq<(string, Json)>, n: nat, i: int, j: int)
    requires n <= |m| && At(m, i, j) && i < n
    ensures At(m[..n], i, j)
  {
    assert m[..n][i] == m[i];
  }

  lemma InCat<T>(a: seq<T>, b: seq<T>)
    ensures forall x :: x in a ==> x in a + b
    ensures forall j :: 0 <= j < |b| ==> b[j] in a + b
  {
  }

  lemma InitRow(upper: char -> string, prefix: string, m: seq<(string, Json)>, i: int, j: int, r: Row)
    requires m != [] && AllRows(upper, prefix, m).Ok? && AllRows(upper, prefix, m[..|m| - 1]).Ok?
    requires r in AllRows(upper, prefix, m[..|m| - 1]).value && IsRowAt(upper, prefix, m[..|m| - 1], i, j, r)
    ensures r in AllRows(upper, prefix, m).value && IsRowAt(upper, prefix, m, i, j, r)
  {
    var last := m[|m| - 1];
    LastRows(upper, prefix, m);
    InCat(AllRows(upper, prefix, m[..|m| - 1]).value, TableRows(upper, prefix + last.0, last.1.members).value);
    StillAt(upper, prefix, m, |m| - 1, i, j, r);
  }

  lemma LastRowAt(upper: char -> string, prefix: string, m: seq<(string, Json)>, j: int) returns (r: Row)
    requires m != [] && AllRows(upper, prefix, m).Ok? && At(m, |m| - 1, j)
    ensures r in AllRows(upper, prefix, m).value && IsRowAt(upper, prefix, m, |m| - 1, j, r)
  {
    var last := m[|m| - 1];
    LastRows(upper, prefix, m);
    var b := TableRows(upper, prefix + last.0, last.1.members).value;
    InCat(AllRows(upper, prefix, m[..|m| - 1]).value, b);
    r := b[j];
  }

  lemma InitOk(upper: char -> string, prefix: string, m: seq<(string, Json)>)
    requires m != [] && AllRows(upper, prefix, m).Ok?
    ensures AllRows(upper, prefix, m[..|m| - 1]).Ok?
  {
  }

  /** Every update has a row. */
  lemma {:induction false} RowFor(upper: char -> string, prefix: string, m: seq<(string, Json)>, i: int, j: int)
    returns (r: Row)
    requires AllRows(upper, prefix, m).Ok? && At(m, i, j)
    ensures r in AllRows(upper, prefix, m).value && IsRowAt(upper, prefix, m, i, j, r)
    decreases |m|
  {
    if i < |m| - 1 {
      InitOk(upper, prefix, m);
      AtInit(m, |m| - 1, i, j);
      r := RowFor(upper, prefix, m[..|m| - 1], i, j);
      InitRow(upper, prefix, m, i, j, r);
    } else {
      r := LastRowAt(upper, prefix, m, j);
    }
  }

  /** Rows and updates belong to each other. */
  lemma RowsCover(upper: char -> string, prefix: string, m: seq<(string, Json)>)
    requires AllRows(upper, prefix, m).Ok?
    ensures forall r :: r in AllRows(upper, prefix, m).value ==> exists i, j :: IsRowAt(upper, prefix, m, i, j, r)
    ensures forall i, j :: At(m, i, j) ==>
              exists r :: r in AllRows(upper, prefix, m).value && IsRowAt(upper, prefix, m, i, j, r)
  {
    forall r | r in AllRows(upper, prefix, m).value
      ensures exists i, j :: IsRowAt(upper, prefix, m, i, j, r)
    {
      var i, j := RowsFrom(upper, prefix, m, r);
    }
    forall i, j | At(m, i, j)
      ensures exists r :: r in AllRows(upper, prefix, m).value && IsRowAt(upper, prefix, m, i, j, r)
    {
      var r := RowFor(upper, prefix, m, i, j);
    }
  }

  /** No inserted row of a notification has a `_uuid` column that disagrees with its UUID. */
  ghost predicate AllAgree(m: seq<(string, Json)>) {
    forall i, j, id :: At(m, i, j) && ParseUuid(m[i].1.members[j].0) == Ok(id) ==> Agreeing(UpdateAt(m, i, j), id)
  }

  /** Tables on which the rows of the notification are there, or not, as it takes them to be. */
  ghost predicate AllFit(upper: char -> string, prefix: string, m: seq<(string, Json)>, db: Tables) {
    forall i, j, k :: At(m, i, j) && NamesRow(upper, prefix, m, i, j, k) ==> Fits(db, k, UpdateAt(m, i, j))
  }

  /** Every row is what the notification says of it, and every other row is as it was. */
  ghost predicate AllSaid(patch: (Fields, Fields) -> Fields, upper: char -> string, prefix: string,
                          m: seq<(string, Json)>, db: Tables, db': Tables)
  {
    && (forall i, j, k :: At(m, i, j) && NamesRow(upper, prefix, m, i, j, k) ==>
          Outcome(patch, UpdateAt(m, i, j), k.1, Get(db, k), Get(db', k)))
    && (forall k :: (forall i, j :: At(m, i, j) ==> !NamesRow(upper, prefix, m, i, j, k)) ==> Get(db', k) == Get(db, k))
  }

  lemma FitExact(patch: (Fields, Fields) -> Fields, upper: char -> string, prefix: string, m: seq<(string, Json)>,
                 db: Tables)
    requires AllRows(upper, prefix, m).Ok?
    ensures (forall r :: r in AllRows(upper, prefix, m).value ==> Agrees(db, r)) <==> AllFit(upper, prefix, m, db)
    ensures AllAgree(m) ==> forall r :: r in AllRows(upper, prefix, m).value ==> WellFormed(r)
  {
    var rows := AllRows(upper, prefix, m).value;
    RowsCover(upper, prefix, m);
    forall i, j, r | IsRowAt(upper, prefix, m, i, j, r)
      ensures Agrees(db, r) <==> Fits(db, Key(r), UpdateAt(m, i, j))
      ensures WellFormed(r) <==> Agreeing(UpdateAt(m, i, j), r.uuid)
    {
      RowSays(patch, db, UpdateAt(m, i, j), r);
    }
    if forall r :: r in rows ==> Agrees(db, r) {
      forall i, j, k | At(m, i, j) && NamesRow(upper, prefix, m, i, j, k)
        ensures Fits(db, k, UpdateAt(m, i, j))
      {
        var r :| r in rows && IsRowAt(upper, prefix, m, i, j, r);
        assert Key(r) == k;
      }
    }
    if AllFit(upper, prefix, m, db) {
      forall r | r in rows
        ensures Agrees(db, r)
      {
        var i, j :| IsRowAt(upper, prefix, m, i, j, r);
      }
    }
    if AllAgree(m) {
      forall r | r in rows
        ensures WellFormed(r)
      {
        var i, j :| IsRowAt(upper, prefix, m, i, j, r);
      }
    }
  }

  lemma RowSaid(patch: (Fields, Fields) -> Fields, upper: char -> string, prefix: string, m: seq<(string, Json)>,
                db: Tables, db': Tables, i: int, j: int, k: (string, int))
    requires AllRows(upper, prefix, m).Ok? && At(m, i, j) && NamesRow(upper, prefix, m, i, j, k)
    requires Fits(db, k, UpdateAt(m, i, j)) && Updated(patch, db, AllRows(upper, prefix, m).value, db')
    ensures Outcome(patch, UpdateAt(m, i, j), k.1, Get(db, k), Get(db', k))
  {
    var rows := AllRows(upper, prefix, m).value;
    RowsCover(upper, prefix, m);
    var r :| r in rows && IsRowAt(upper, prefix, m, i, j, r);
    assert Key(r) == k;
    RowSays(patch, db, UpdateAt(m, i, j), r);
    var n :| 0 <= n < |rows| && rows[n] == r;
    assert Get(db', Key(rows[n])) == NewRow(patch, r, Get(db, k));
  }

  lemma OthersStay(patch: (Fields, Fields) -> Fields, upper: char -> string, prefix: string, m: seq<(string, Json)>,
                   db: Tables, db': Tables, k: (string, int))
    requires AllRows(upper, prefix, m).Ok? && Updated(patch, db, AllRows(upper, prefix, m).value, db')
    requires forall i, j :: At(m, i, j) ==> !NamesRow(upper, prefix, m, i, j, k)
    ensures Get(db', k) == Get(db, k)
  {
    var rows := AllRows(upper, prefix, m).value;
    RowsCover(upper, prefix, m);
    forall n | 0 <= n < |rows|
      ensures Key(rows[n]) != k
    {
      assert rows[n] in rows;
      var i, j :| IsRowAt(upper, prefix, m, i, j, rows[n]);
    }
    assert Untouched(rows, k);
  }

  lemma SaidExact(patch: (Fields, Fields) -> Fields, upper: char -> string, prefix: string, m: seq<(string, Json)>,
                  db: Tables, db': Tables)
    requires AllRows(upper, prefix, m).Ok? && AllFit(upper, prefix, m, db)
    requires Updated(patch, db, AllRows(upper, prefix, m).value, db')
    ensures AllSaid(patch, upper, prefix, m, db, db')
  {
    forall i, j, k | At(m, i, j) && NamesRow(upper, prefix, m, i, j, k)
      ensures Outcome(patch, UpdateAt(m, i, j), k.1, Get(db, k), Get(db', k))
    {
      RowSaid(patch, upper, prefix, m, db, db', i, j, k);
    }
    forall k | forall i, j :: At(m, i, j) ==> !NamesRow(upper, prefix, m, i, j, k)
      ensures Get(db', k) == Get(db, k)
    {
      OthersStay(patch, upper, prefix, m, db, db', k);
    }
  }

  /** A notification that can be translated, with different tables and different UUIDs in each, in
      which no column disagrees with a UUID: its commands can be executed if and only if every
      inserted row is new and every other row is there, and then every row is what the notification
      says of it, and every other row is as it was. */
  lemma NotificationTheorem(patch: (Fields, Fields) -> Fields, upper: char -> string, prefix: string,
                            m: seq<(string, Json)>, db: Tables)
    requires AllRows(upper, prefix, m).Ok? && DistinctTables(upper, prefix, m) && AllAgree(m)
    requires forall i :: 0 <= i < |m| && m[i].1.JObj? ==> DistinctUuids(m[i].1.members)
    ensures var o := ExecAll(patch, db, AllCommands(AllRows(upper, prefix, m).value));
      && (o.Some? <==> AllFit(upper, prefix, m, db))
      && (o.Some? ==> AllSaid(patch, upper, prefix, m, db, o.value))
  {
    var rows := AllRows(upper, prefix, m).value;
    NotificationKeys(upper, prefix, m);
    FitExact(patch, upper, prefix, m, db);
    assert forall i :: 0 <= i < |rows| ==> rows[i] in rows;
    assert (forall r :: r in rows ==> Agrees(db, r)) <==> forall i :: 0 <= i < |rows| ==> Agrees(db, rows[i]);
    ReplayTheorem(patch, db, rows);
    var o := ExecAll(patch, db, AllCommands(rows));
    if o.Some? {
      SaidExact(patch, upper, prefix, m, db, o.value);
    }
  }
}
