/** An in-memory stand-in for the Supabase tables the database gateway
    uses (`entries`, `reminders`, `global_context`): rows are column→value
    maps held in insertion order, and the query builder's filters, ordering,
    paging, updates, deletes and upserts are functions on those sequences.
    The store assigns `id` and `created_at` to every inserted row from one
    serial number, so later rows have later timestamps. */
module Supabase {
  import opened Wrappers
  import opened Strings

  /** A column value. `Timestamp` is the store's `created_at`. */
  datatype Value = Null | Text(s: string) | Vector(v: seq<real>) | Timestamp(t: int)

  type Row = map<string, Value>

  /** `.eq(column, value)` holds of a row. */
  predicate Matches(row: Row, column: string, value: Value) {
    column in row && row[column] == value
  }

  /** The rows satisfying `.eq(column, value)`, in table order. */
  function Where(rows: seq<Row>, column: string, value: Value): (r: seq<Row>)
    ensures |r| <= |rows|
    ensures forall row :: row in r <==> row in rows && Matches(row, column, value)
    decreases |rows|
  {
    if rows == [] then []
    else (if Matches(rows[0], column, value) then [rows[0]] else []) + Where(rows[1..], column, value)
  }

  /** Filtering keeps table order and every matching row, duplicates
      included: the filter of two tables in sequence is the two filters in
      sequence. */
  lemma {:induction false} WhereAppend(a: seq<Row>, b: seq<Row>, column: string, value: Value)
    ensures Where(a + b, column, value) == Where(a, column, value) + Where(b, column, value)
    decreases |a|
  {
    if a == [] {
      assert a + b == b;
    } else {
      assert (a + b)[1..] == a[1..] + b;
      WhereAppend(a[1..], b, column, value);
    }
  }

  /** Row `i` is the table's earliest row satisfying `.eq(column, value)`. */
  predicate FirstMatch(rows: seq<Row>, column: string, value: Value, i: int) {
    && 0 <= i < |rows| && Matches(rows[i], column, value)
    && forall j :: 0 <= j < i ==> !Matches(rows[j], column, value)
  }

  /** An earliest match after a non-matching first row is one further on. */
  lemma FirstMatchShift(rows: seq<Row>, column: string, value: Value, i: int)
    requires rows != [] && !Matches(rows[0], column, value)
    requires FirstMatch(rows[1..], column, value, i)
    ensures FirstMatch(rows, column, value, i + 1)
  {
    forall j | 1 <= j < i + 1
      ensures !Matches(rows[j], column, value)
    {
      assert rows[j] == rows[1..][j - 1];
    }
  }

  /** The filter is empty exactly when no row matches, and otherwise starts
      with the table's earliest matching row. */
  lemma {:induction false} WhereHead(rows: seq<Row>, column: string, value: Value)
    ensures Where(rows, column, value) == [] <==> forall i :: 0 <= i < |rows| ==> !Matches(rows[i], column, value)
    ensures Where(rows, column, value) != [] ==>
      exists i :: FirstMatch(rows, column, value, i) && rows[i] == Where(rows, column, value)[0]
    decreases |rows|
  {
    if rows != [] && !Matches(rows[0], column, value) {
      WhereHead(rows[1..], column, value);
      assert Where(rows, column, value) == Where(rows[1..], column, value);
      if Where(rows, column, value) != [] {
        var i :| FirstMatch(rows[1..], column, value, i) && rows[1..][i] == Where(rows[1..], column, value)[0];
        FirstMatchShift(rows, column, value, i);
        assert rows[i + 1] == rows[1..][i];
      } else {
        forall i | 0 <= i < |rows|
          ensures !Matches(rows[i], column, value)
        {
          if i > 0 {
            assert rows[i] == rows[1..][i - 1];
          }
        }
      }
    } else if rows != [] {
      assert FirstMatch(rows, column, value, 0);
    }
  }

  /** The rows left after `.delete().eq(column, value)`, in table order. */
  function Except(rows: seq<Row>, column: string, value: Value): (r: seq<Row>)
    ensures |r| <= |rows|
    ensures forall row :: row in r <==> row in rows && !Matches(row, column, value)
    decreases |rows|
  {
    if rows == [] then []
    else (if Matches(rows[0], column, value) then [] else [rows[0]]) + Except(rows[1..], column, value)
  }

  /** The table after `.update(updates).eq(column, value)`: each matching row
      takes the updated columns, every other row stays as it was. */
  function UpdateWhere(rows: seq<Row>, column: string, value: Value, updates: Row): (r: seq<Row>)
    ensures |r| == |rows|
  {
    seq(|rows|, i requires 0 <= i < |rows| =>
      if Matches(rows[i], column, value) then rows[i] + updates else rows[i])
  }

  /** The rows that `.update(updates).eq(column, value)` returns: the
      matching rows, updated, in table order. */
  function Updated(rows: seq<Row>, column: string, value: Value, updates: Row): (r: seq<Row>)
    ensures |r| == |Where(rows, column, value)|
  {
    var matched := Where(rows, column, value);
    seq(|matched|, i requires 0 <= i < |matched| => matched[i] + updates)
  }

  /** An update changes only the rows that match, and those only in the
      updated columns, which take the new values; it returns one row per match, each carrying the new
      values, and returns nothing exactly when no row matches. */
  lemma UpdateEffect(rows: seq<Row>, column: string, value: Value, updates: Row)
    ensures forall i :: 0 <= i < |rows| && !Matches(rows[i], column, value) ==>
              UpdateWhere(rows, column, value, updates)[i] == rows[i]
    ensures forall i, k :: 0 <= i < |rows| && Matches(rows[i], column, value) && k in rows[i] && k !in updates ==>
              k in UpdateWhere(rows, column, value, updates)[i]
              && UpdateWhere(rows, column, value, updates)[i][k] == rows[i][k]
    ensures forall i, k :: 0 <= i < |rows| && Matches(rows[i], column, value) && k in updates ==>
              k in UpdateWhere(rows, column, value, updates)[i]
              && UpdateWhere(rows, column, value, updates)[i][k] == updates[k]
    ensures forall i, k :: 0 <= i < |Updated(rows, column, value, updates)| && k in updates ==>
              k in Updated(rows, column, value, updates)[i]
              && Updated(rows, column, value, updates)[i][k] == updates[k]
    ensures Updated(rows, column, value, updates) == [] <==>
              forall i :: 0 <= i < |rows| ==> !Matches(rows[i], column, value)
  {
    var matched := Where(rows, column, value);
    if matched != [] {
      assert matched[0] in matched;
    }
    if exists i :: 0 <= i < |rows| && Matches(rows[i], column, value) {
      var i :| 0 <= i < |rows| && Matches(rows[i], column, value);
      assert rows[i] in matched;
    }
  }

  /** `result.data[0] if result.data else {}`. */
  function FirstOrEmpty(rows: seq<Row>): Row
  {
    if |rows| > 0 then rows[0] else map[]
  }

  /** `result.data[0] if result.data else None`. */
  function FirstOrNone(rows: seq<Row>): Option<Row>
  {
    if |rows| > 0 then Some(rows[0]) else None
  }

  // ---------------------------------------------------------------------
  // order("created_at", desc=True)

  /** The `created_at` sort key; `None` when the row holds no timestamp there. */
  function CreatedAt(row: Row): Option<int> {
    if "created_at" in row && row["created_at"].Timestamp? then Some(row["created_at"].t) else None
  }

  /** `a` may precede `b` in `ORDER BY created_at DESC`, where a missing
      timestamp sorts like SQL NULL, which comes first in descending order. */
  predicate NotAfter(a: Row, b: Row) {
    match CreatedAt(a)
    case None => true
    case Some(x) => CreatedAt(b).Some? && x >= CreatedAt(b).value
  }

  predicate SortedDesc(s: seq<Row>) {
    forall i, j :: 0 <= i < j < |s| ==> NotAfter(s[i], s[j])
  }

  lemma NotAfterTotal(a: Row, b: Row)
    ensures NotAfter(a, b) || NotAfter(b, a)
  {
  }

  lemma NotAfterTransitive(a: Row, b: Row, c: Row)
    requires NotAfter(a, b) && NotAfter(b, c)
    ensures NotAfter(a, c)
  {
  }

  function InsertSorted(row: Row, s: seq<Row>): seq<Row>
    decreases |s|
  {
    if s == [] then [row]
    else if NotAfter(row, s[0]) then [row] + s
    else [s[0]] + InsertSorted(row, s[1..])
  }

  /** A stable sort: rows with equal keys keep their table order. */
  function SortDesc(rows: seq<Row>): seq<Row>
    decreases |rows|
  {
    if rows == [] then [] else InsertSorted(rows[0], SortDesc(rows[1..]))
  }

  /** `x` may precede every row of `t`. */
  predicate Leads(x: Row, t: seq<Row>) {
    forall k :: 0 <= k < |t| ==> NotAfter(x, t[k])
  }

  lemma SortedCons(x: Row, t: seq<Row>)
    requires Leads(x, t) && SortedDesc(t)
    ensures SortedDesc([x] + t)
  {
    var u := [x] + t;
    forall i, j | 0 <= i < j < |u| ensures NotAfter(u[i], u[j]) {
      assert u[j] == t[j - 1];
      if i > 0 { assert u[i] == t[i - 1]; }
    }
  }

  lemma {:induction false} InsertSortedLeads(x: Row, row: Row, s: seq<Row>)
    requires NotAfter(x, row) && Leads(x, s)
    ensures Leads(x, InsertSorted(row, s))
    decreases |s|
  {
    if s != [] && !NotAfter(row, s[0]) {
      var rest := InsertSorted(row, s[1..]);
      InsertSortedLeads(x, row, s[1..]);
      var t := [s[0]] + rest;
      forall k | 0 <= k < |t| ensures NotAfter(x, t[k]) {
        if k > 0 { assert t[k] == rest[k - 1]; }
      }
    }
  }

  lemma {:induction false} InsertSortedCorrect(row: Row, s: seq<Row>)
    requires SortedDesc(s)
    ensures SortedDesc(InsertSorted(row, s))
    ensures multiset(InsertSorted(row, s)) == multiset(s) + multiset{row}
    decreases |s|
  {
    if s == [] {
    } else if NotAfter(row, s[0]) {
      forall k | 0 <= k < |s| ensures NotAfter(row, s[k]) {
        if k > 0 { NotAfterTransitive(row, s[0], s[k]); }
      }
      SortedCons(row, s);
    } else {
      NotAfterTotal(row, s[0]);
      var rest := InsertSorted(row, s[1..]);
      InsertSortedCorrect(row, s[1..]);
      InsertSortedLeads(s[0], row, s[1..]);
      SortedCons(s[0], rest);
      assert s == [s[0]] + s[1..];
    }
  }

  /** Ordering returns the same rows, latest `created_at` first. */
  lemma {:induction false} SortDescCorrect(rows: seq<Row>)
    ensures SortedDesc(SortDesc(rows))
    ensures multiset(SortDesc(rows)) == multiset(rows)
    decreases |rows|
  {
    if rows != [] {
      SortDescCorrect(rows[1..]);
      InsertSortedCorrect(rows[0], SortDesc(rows[1..]));
      assert rows == [rows[0]] + rows[1..];
    }
  }

  /** `.limit(limit).offset(offset)`: the rows at positions
      `offset .. offset + limit - 1`. */
  function Window(s: seq<Row>, offset: nat, limit: nat): (r: seq<Row>)
    ensures |r| <= limit
    ensures offset + limit <= |s| ==> |r| == limit
    ensures |r| == if offset >= |s| then 0 else if offset + limit <= |s| then limit else |s| - offset
    ensures forall i :: 0 <= i < |r| ==> offset + i < |s| && r[i] == s[offset + i]
  {
    if offset >= |s| then []
    else if offset + limit <= |s| then s[offset..offset + limit]
    else s[offset..]
  }

  // ---------------------------------------------------------------------
  // The entries query

  /** `.eq("user_id", user_id)`, then `.eq("intent", intent)` only when an
      intent is given and is not the empty string. */
  function EntriesFilter(rows: seq<Row>, userId: string, intent: Option<string>): seq<Row> {
    var mine := Where(rows, "user_id", Text(userId));
    if intent.Some? && intent.value != "" then Where(mine, "intent", Text(intent.value)) else mine
  }

  /** The rows `get_entries` asks for. */
  function EntriesQuery(rows: seq<Row>, userId: string, intent: Option<string>,
                        offset: nat, limit: nat): seq<Row>
  {
    Window(SortDesc(EntriesFilter(rows, userId, intent)), offset, limit)
  }

  /** A row passes the filter exactly when it is in the table, belongs to
      the user and, when an intent is given, has that intent. */
  lemma EntriesFilterMembers(rows: seq<Row>, userId: string, intent: Option<string>, row: Row)
    ensures row in EntriesFilter(rows, userId, intent) <==>
              row in rows && Matches(row, "user_id", Text(userId))
              && (intent.Some? && intent.value != "" ==> Matches(row, "intent", Text(intent.value)))
  {
  }

  /** Every row returned belongs to the user (and has the intent asked
      for), the rows come latest first, there are at most `limit` of them,
      they are taken from the table, and when the first page holds all
      matching rows it returns all of them. */
  lemma EntriesQueryProperties(rows: seq<Row>, userId: string, intent: Option<string>,
                               offset: nat, limit: nat)
    ensures var r := EntriesQuery(rows, userId, intent, offset, limit);
      && (forall row :: row in r ==> row in rows && Matches(row, "user_id", Text(userId)))
      && (forall row :: row in r && intent.Some? && intent.value != "" ==>
            Matches(row, "intent", Text(intent.value)))
      && SortedDesc(r)
      && |r| <= limit
      && (offset == 0 && |EntriesFilter(rows, userId, intent)| <= limit ==>
            multiset(r) == multiset(EntriesFilter(rows, userId, intent)))
  {
    var f := EntriesFilter(rows, userId, intent);
    var s := SortDesc(f);
    SortDescCorrect(f);
    assert |s| == |f| by {
      assert |multiset(s)| == |multiset(f)|;
    }
    var r := Window(s, offset, limit);
    forall row | row in r ensures row in f {
      var i :| 0 <= i < |r| && r[i] == row;
      assert s[offset + i] in multiset(f);
    }
    forall i, j | 0 <= i < j < |r| ensures NotAfter(r[i], r[j]) {
      assert r[i] == s[offset + i] && r[j] == s[offset + j];
    }
    if offset == 0 && |f| <= limit {
      assert r == s;
    }
  }

  // ---------------------------------------------------------------------
  // The global_context table

  /** The text in a column, or "" when the column is absent or not text. */
  function Field(row: Row, column: string): string {
    if column in row && row[column].Text? then row[column].s else ""
  }

  /** A context row holds its user, key and value as text. */
  predicate ContextRow(row: Row) {
    && "user_id" in row && row["user_id"].Text?
    && "key" in row && row["key"].Text?
    && "value" in row && row["value"].Text?
  }

  predicate ContextRows(rows: seq<Row>) {
    forall i :: 0 <= i < |rows| ==> ContextRow(rows[i])
  }

  /** Two rows for the same user and key. */
  predicate SameSlot(a: Row, b: Row) {
    Field(a, "user_id") == Field(b, "user_id") && Field(a, "key") == Field(b, "key")
  }

  /** The `(user_id, key)` uniqueness constraint the upsert relies on. */
  predicate UniqueSlots(rows: seq<Row>) {
    forall i, j :: 0 <= i < j < |rows| ==> !SameSlot(rows[i], rows[j])
  }

  predicate InSlot(row: Row, userId: string, key: string) {
    Matches(row, "user_id", Text(userId)) && Matches(row, "key", Text(key))
  }

  /** `{item["key"]: item["value"] for item in rows}`: a later row wins. */
  function ToDict(items: seq<Row>): map<string, string>
    decreases |items|
  {
    if items == [] then map[]
    else map[Field(items[0], "key") := Field(items[0], "value")] + ToDict(items[1..])
  }

  /** The map `get_all_global_context` answers for a user. */
  function UserContext(rows: seq<Row>, userId: string): map<string, string> {
    ToDict(Where(rows, "user_id", Text(userId)))
  }

  /** The value `get_global_context` answers: that of the first row for the
      user and key. */
  function LookupContext(rows: seq<Row>, userId: string, key: string): Option<string> {
    match FirstOrNone(Where(Where(rows, "user_id", Text(userId)), "key", Text(key)))
    case None => None
    case Some(row) => Some(Field(row, "value"))
  }

  /** A key no row carries is not in the map. */
  lemma {:induction false} ToDictMissing(items: seq<Row>, key: string)
    requires forall i :: 0 <= i < |items| ==> Field(items[i], "key") != key
    ensures key !in ToDict(items)
    decreases |items|
  {
    if items != [] {
      ToDictMissing(items[1..], key);
    }
  }

  /** The user's map, one row at a time. */
  lemma UserContextCons(head: Row, rest: seq<Row>, userId: string)
    ensures UserContext([head] + rest, userId) ==
      if Matches(head, "user_id", Text(userId))
      then map[Field(head, "key") := Field(head, "value")] + UserContext(rest, userId)
      else UserContext(rest, userId)
  {
    var rows := [head] + rest;
    assert rows[0] == head && rows[1..] == rest;
    var w := Where(rows, "user_id", Text(userId));
    if Matches(head, "user_id", Text(userId)) {
      assert w == [head] + Where(rest, "user_id", Text(userId));
      assert w[0] == head && w[1..] == Where(rest, "user_id", Text(userId));
    } else {
      assert w == Where(rest, "user_id", Text(userId));
    }
  }

  lemma HeadUnique(rows: seq<Row>)
    requires |rows| > 0 && UniqueSlots(rows)
    ensures UniqueSlots(rows[1..])
    ensures forall x :: x in rows[1..] ==> !SameSlot(rows[0], x)
  {
    var rest := rows[1..];
    forall i, j | 0 <= i < j < |rest| ensures !SameSlot(rest[i], rest[j]) {
      assert rest[i] == rows[i + 1] && rest[j] == rows[j + 1];
    }
    forall x | x in rest ensures !SameSlot(rows[0], x) {
      var j :| 0 <= j < |rest| && rest[j] == x;
      assert rows[j + 1] == x;
    }
  }

  /** Under uniqueness, the first row's key appears nowhere else in its
      user's map. */
  lemma HeadKeyNotInTail(rows: seq<Row>)
    requires |rows| > 0 && ContextRow(rows[0]) && UniqueSlots(rows)
    ensures Field(rows[0], "key") !in UserContext(rows[1..], Field(rows[0], "user_id"))
  {
    HeadUnique(rows);
    var userId, key := Field(rows[0], "user_id"), Field(rows[0], "key");
    var mine := Where(rows[1..], "user_id", Text(userId));
    forall i | 0 <= i < |mine| ensures Field(mine[i], "key") != key {
      assert mine[i] in mine;
      assert !SameSlot(rows[0], mine[i]);
    }
    ToDictMissing(mine, key);
  }

  /** When each user has at most one row per key, the map
      `get_all_global_context` answers and the value `get_global_context`
      answers agree on every key. */
  lemma {:induction false} UserContextAgreesWithLookup(rows: seq<Row>, userId: string, key: string)
    requires ContextRows(rows) && UniqueSlots(rows)
    ensures var m, v := UserContext(rows, userId), LookupContext(rows, userId, key);
      && (key in m <==> v.Some?)
      && (key in m ==> m[key] == v.value)
    decreases |rows|
  {
    if rows != [] {
      var head, rest := rows[0], rows[1..];
      assert rows == [head] + rest;
      HeadUnique(rows);
      UserContextAgreesWithLookup(rest, userId, key);
      UserContextCons(head, rest, userId);
      var mine := Where(rows, "user_id", Text(userId));
      var mineRest := Where(rest, "user_id", Text(userId));
      if Matches(head, "user_id", Text(userId)) {
        assert mine == [head] + mineRest;
        if head["key"] == Text(key) {
          assert Where(mine, "key", Text(key))[0] == head;
          HeadKeyNotInTail(rows);
        } else {
          assert Where(mine, "key", Text(key)) == Where(mineRest, "key", Text(key));
        }
      } else {
        assert mine == mineRest;
      }
    }
  }

  lemma MapOverride(k: string, v: string, w: string, t: map<string, string>)
    requires k !in t
    ensures map[k := v] + t == (map[k := w] + t)[k := v]
  {
  }

  lemma MapUpdateUnder(h: map<string, string>, t: map<string, string>, k: string, v: string)
    ensures h + t[k := v] == (h + t)[k := v]
  {
  }

  lemma MapRemoveUnder(h: map<string, string>, t: map<string, string>, k: string)
    requires k !in h
    ensures (h + t) - {k} == h + (t - {k})
  {
  }

  lemma MapRemoveHead(k: string, v: string, t: map<string, string>)
    ensures (map[k := v] + t) - {k} == t - {k}
  {
  }

  /** `.upsert(data, on_conflict="user_id,key")`: the row in the same slot
      takes the new columns; with no such row, `inserted` is appended. */
  function Upsert(rows: seq<Row>, data: Row, inserted: Row): (r: seq<Row>)
    ensures |r| == |rows| || |r| == |rows| + 1
    decreases |rows|
  {
    if rows == [] then [inserted]
    else if SameSlot(rows[0], data) then [rows[0] + data] + rows[1..]
    else [rows[0]] + Upsert(rows[1..], data, inserted)
  }

  /** The row an upsert returns. */
  function UpsertedRow(rows: seq<Row>, data: Row, inserted: Row): (r: Row)
    ensures r in Upsert(rows, data, inserted)
    decreases |rows|
  {
    if rows == [] then inserted
    else if SameSlot(rows[0], data) then rows[0] + data
    else UpsertedRow(rows[1..], data, inserted)
  }

  /** Each row after an upsert is an old row, or a well-formed row in the
      data's slot. */
  lemma {:induction false} UpsertRows(rows: seq<Row>, data: Row, inserted: Row)
    requires ContextRow(data) && ContextRow(inserted) && SameSlot(inserted, data)
    ensures forall i :: 0 <= i < |Upsert(rows, data, inserted)| ==>
      Upsert(rows, data, inserted)[i] in rows
      || (ContextRow(Upsert(rows, data, inserted)[i]) && SameSlot(Upsert(rows, data, inserted)[i], data))
    decreases |rows|
  {
    var u := Upsert(rows, data, inserted);
    if rows == [] {
      assert u == [inserted];
    } else if SameSlot(rows[0], data) {
      assert u == [rows[0] + data] + rows[1..];
      forall i | 0 < i < |u| ensures u[i] in rows {
        assert u[i] == rows[i];
      }
    } else {
      var urest := Upsert(rows[1..], data, inserted);
      UpsertRows(rows[1..], data, inserted);
      assert u == [rows[0]] + urest;
      forall i | 0 <= i < |u| ensures u[i] in rows || (ContextRow(u[i]) && SameSlot(u[i], data)) {
        if i == 0 {
          assert u[0] == rows[0];
        } else {
          var x := urest[i - 1];
          assert u[i] == x;
          assert x in rows[1..] || (ContextRow(x) && SameSlot(x, data));
          if x in rows[1..] { TailIn(rows, x); }
        }
      }
    }
  }

  lemma TailIn(rows: seq<Row>, x: Row)
    requires |rows| > 0 && x in rows[1..]
    ensures x in rows
  {
    var k :| 0 <= k < |rows| - 1 && rows[1..][k] == x;
    assert rows[k + 1] == x;
  }

  /** Every row after an upsert holds its user, key and value as text. */
  lemma UpsertContextRows(rows: seq<Row>, data: Row, inserted: Row)
    requires ContextRows(rows)
    requires ContextRow(data) && ContextRow(inserted) && SameSlot(inserted, data)
    ensures ContextRows(Upsert(rows, data, inserted))
  {
    var u := Upsert(rows, data, inserted);
    UpsertRows(rows, data, inserted);
    forall i | 0 <= i < |u| ensures ContextRow(u[i]) {
      if u[i] in rows {
        var k :| 0 <= k < |rows| && rows[k] == u[i];
      }
    }
  }

  /** An upsert keeps one row per slot. */
  lemma {:induction false} UpsertUnique(rows: seq<Row>, data: Row, inserted: Row)
    requires UniqueSlots(rows)
    requires ContextRow(data) && ContextRow(inserted) && SameSlot(inserted, data)
    ensures UniqueSlots(Upsert(rows, data, inserted))
    decreases |rows|
  {
    var u := Upsert(rows, data, inserted);
    if rows != [] {
      var head, rest := rows[0], rows[1..];
      HeadUnique(rows);
      if SameSlot(head, data) {
        assert SameSlot(head + data, head);
        forall i, j | 0 <= i < j < |u| ensures !SameSlot(u[i], u[j]) {
          assert u[j] == rows[j];
          if i > 0 { assert u[i] == rows[i]; }
          else { assert !SameSlot(rows[0], rows[j]); }
        }
      } else {
        var urest := Upsert(rest, data, inserted);
        UpsertUnique(rest, data, inserted);
        UpsertRows(rest, data, inserted);
        forall i, j | 0 <= i < j < |u| ensures !SameSlot(u[i], u[j]) {
          assert u[j] == urest[j - 1];
          if i > 0 {
            assert u[i] == urest[i - 1];
          } else {
            var x := urest[j - 1];
            assert x in rest || (ContextRow(x) && SameSlot(x, data));
            if x in rest {
              assert !SameSlot(head, x);
            }
          }
        }
      }
    }
  }

  /** The row an upsert returns is a context row in the data's slot with the
      data's value. */
  lemma {:induction false} UpsertedRowFacts(rows: seq<Row>, data: Row, inserted: Row)
    requires ContextRows(rows)
    requires ContextRow(data) && ContextRow(inserted) && SameSlot(inserted, data)
    requires inserted["value"] == data["value"]
    ensures var r := UpsertedRow(rows, data, inserted);
      ContextRow(r) && SameSlot(r, data) && r["value"] == data["value"]
    decreases |rows|
  {
    if rows != [] && !SameSlot(rows[0], data) {
      assert ContextRows(rows[1..]) by {
        forall i | 0 <= i < |rows[1..]| ensures ContextRow(rows[1..][i]) {
          assert rows[1..][i] == rows[i + 1];
        }
      }
      UpsertedRowFacts(rows[1..], data, inserted);
    }
  }

  /** An upsert keeps the table well formed with one row per slot, and the
      row it returns carries the data's columns. */
  lemma UpsertWellFormed(rows: seq<Row>, data: Row, inserted: Row)
    requires ContextRows(rows) && UniqueSlots(rows)
    requires ContextRow(data) && ContextRow(inserted) && SameSlot(inserted, data)
    requires inserted["value"] == data["value"]
    ensures ContextRows(Upsert(rows, data, inserted)) && UniqueSlots(Upsert(rows, data, inserted))
    ensures var r := UpsertedRow(rows, data, inserted);
      ContextRow(r) && SameSlot(r, data) && r["value"] == data["value"]
  {
    UpsertContextRows(rows, data, inserted);
    UpsertUnique(rows, data, inserted);
    UpsertedRowFacts(rows, data, inserted);
  }

  /** After an upsert, the user the data names finds the data's key mapped
      to the data's value, every other key unchanged, and every other user
      finds their map unchanged. */
  lemma {:induction false} UpsertContext(rows: seq<Row>, data: Row, inserted: Row, userId: string)
    requires ContextRows(rows) && UniqueSlots(rows)
    requires ContextRow(data) && ContextRow(inserted) && SameSlot(data, inserted)
    requires inserted["value"] == data["value"]
    ensures UserContext(Upsert(rows, data, inserted), userId) ==
              if Field(data, "user_id") == userId
              then UserContext(rows, userId)[Field(data, "key") := Field(data, "value")]
              else UserContext(rows, userId)
    decreases |rows|
  {
    var u := Upsert(rows, data, inserted);
    var key, val := Field(data, "key"), Field(data, "value");
    if rows == [] {
      assert u == [inserted] + [];
      UserContextCons(inserted, [], userId);
    } else {
      var head, rest := rows[0], rows[1..];
      assert rows == [head] + rest;
      HeadUnique(rows);
      UserContextCons(head, rest, userId);
      var t := UserContext(rest, userId);
      if SameSlot(head, data) {
        var head' := head + data;
        assert u == [head'] + rest;
        UserContextCons(head', rest, userId);
        if Field(data, "user_id") == userId {
          HeadKeyNotInTail(rows);
          MapOverride(key, val, Field(head, "value"), t);
        }
      } else {
        var urest := Upsert(rest, data, inserted);
        assert u == [head] + urest;
        UpsertContext(rest, data, inserted, userId);
        UserContextCons(head, urest, userId);
        if Field(data, "user_id") == userId && Matches(head, "user_id", Text(userId)) {
          MapUpdateUnder(map[Field(head, "key") := Field(head, "value")], t, key, val);
        }
      }
    }
  }

  /** `.delete().eq("user_id", user_id).eq("key", key)`. */
  function DeleteSlot(rows: seq<Row>, userId: string, key: string): (r: seq<Row>)
    ensures forall row :: row in r <==> row in rows && !InSlot(row, userId, key)
    decreases |rows|
  {
    if rows == [] then []
    else (if InSlot(rows[0], userId, key) then [] else [rows[0]]) + DeleteSlot(rows[1..], userId, key)
  }

  /** Deleting a slot removes that key from the user's context map and
      changes nothing else. */
  lemma {:induction false} DeleteSlotContext(rows: seq<Row>, userId: string, key: string, user: string)
    requires ContextRows(rows)
    ensures UserContext(DeleteSlot(rows, userId, key), user) ==
              if user == userId then UserContext(rows, user) - {key} else UserContext(rows, user)
    decreases |rows|
  {
    if rows != [] {
      var head, rest := rows[0], rows[1..];
      assert rows == [head] + rest;
      assert ContextRow(head);
      assert ContextRows(rest) by {
        forall k | 0 <= k < |rest| ensures ContextRow(rest[k]) { assert rest[k] == rows[k + 1]; }
      }
      DeleteSlotContext(rest, userId, key, user);
      UserContextCons(head, rest, user);
      var d := DeleteSlot(rows, userId, key);
      var dr := DeleteSlot(rest, userId, key);
      var t := UserContext(rest, user);
      if InSlot(head, userId, key) {
        assert d == dr;
        if user == userId {
          MapRemoveHead(key, Field(head, "value"), t);
        }
      } else {
        assert d == [head] + dr;
        UserContextCons(head, dr, user);
        if user == userId && Matches(head, "user_id", Text(user)) {
          MapRemoveUnder(map[Field(head, "key") := Field(head, "value")], t, key);
        }
      }
    }
  }

  /** A delete keeps the table well formed and one row per slot. */
  lemma {:induction false} DeleteSlotSub(rows: seq<Row>, userId: string, key: string)
    ensures var d := DeleteSlot(rows, userId, key);
      && (ContextRows(rows) ==> ContextRows(d))
      && (UniqueSlots(rows) ==> UniqueSlots(d))
  {
    if ContextRows(rows) { DeleteSlotRows(rows, userId, key); }
    if UniqueSlots(rows) { DeleteSlotUnique(rows, userId, key); }
  }

  lemma DeleteSlotRows(rows: seq<Row>, userId: string, key: string)
    requires ContextRows(rows)
    ensures ContextRows(DeleteSlot(rows, userId, key))
  {
    var d := DeleteSlot(rows, userId, key);
    forall i | 0 <= i < |d| ensures ContextRow(d[i]) {
      assert d[i] in d;
      var j :| 0 <= j < |rows| && rows[j] == d[i];
    }
  }

  lemma {:induction false} DeleteSlotUnique(rows: seq<Row>, userId: string, key: string)
    requires UniqueSlots(rows)
    ensures UniqueSlots(DeleteSlot(rows, userId, key))
    decreases |rows|
  {
    if rows != [] {
      var head, rest := rows[0], rows[1..];
      HeadUnique(rows);
      DeleteSlotUnique(rest, userId, key);
      var dr := DeleteSlot(rest, userId, key);
      var d := DeleteSlot(rows, userId, key);
      if !InSlot(head, userId, key) {
        assert d == [head] + dr;
        forall i, j | 0 <= i < j < |d| ensures !SameSlot(d[i], d[j]) {
          assert d[j] == dr[j - 1] && d[j] in dr;
          if i > 0 { assert d[i] == dr[i - 1]; }
        }
      } else {
        assert d == dr;
      }
    }
  }

  // ---------------------------------------------------------------------
  // Inserts and the store

  /** The row the database stores for `.insert(data)`: the server fills in
      `id` and `created_at` (from the serial `n`) unless the data sets them. */
  function Stamped(data: Row, n: nat): (r: Row)
    ensures r.Keys == data.Keys + {"id", "created_at"}
    ensures forall k :: k in data ==> r[k] == data[k]
    ensures "id" !in data ==> r["id"] == Text(NatToString(n))
    ensures "created_at" !in data ==> r["created_at"] == Timestamp(n)
  {
    map["id" := Text(NatToString(n)), "created_at" := Timestamp(n)] + data
  }

  /** The three tables, and the serial number the next inserted row takes. */
  class Store {
    var entries: seq<Row>
    var reminders: seq<Row>
    var globalContext: seq<Row>
    var serial: nat

    /** Every context row holds text user, key and value, one row per
        `(user_id, key)`. */
    predicate Valid()
      reads this
    {
      ContextRows(globalContext) && UniqueSlots(globalContext)
    }

    constructor ()
      ensures entries == [] && reminders == [] && globalContext == [] && serial == 0
      ensures Valid()
    {
      entries, reminders, globalContext, serial := [], [], [], 0;
    }

    /** `.table("entries").insert(data)`: returns the stored row. */
    method InsertEntry(data: Row) returns (rows: seq<Row>)
      modifies this
      ensures rows == [Stamped(data, old(serial))]
      ensures entries == old(entries) + rows && serial == old(serial) + 1
      ensures reminders == old(reminders) && globalContext == old(globalContext)
    {
      rows := [Stamped(data, serial)];
      entries := entries + rows;
      serial := serial + 1;
    }

    /** `.table("reminders").insert(data)`: returns the stored row. */
    method InsertReminder(data: Row) returns (rows: seq<Row>)
      modifies this
      ensures rows == [Stamped(data, old(serial))]
      ensures reminders == old(reminders) + rows && serial == old(serial) + 1
      ensures entries == old(entries) && globalContext == old(globalContext)
    {
      rows := [Stamped(data, serial)];
      reminders := reminders + rows;
      serial := serial + 1;
    }

    /** `.table("entries").update(updates).eq(column, value)`. */
    method UpdateEntries(column: string, value: Value, updates: Row) returns (rows: seq<Row>)
      modifies this
      ensures rows == Updated(old(entries), column, value, updates)
      ensures entries == UpdateWhere(old(entries), column, value, updates)
      ensures reminders == old(reminders) && globalContext == old(globalContext) && serial == old(serial)
    {
      rows := Updated(entries, column, value, updates);
      entries := UpdateWhere(entries, column, value, updates);
    }

    /** `.table("reminders").update(updates).eq(column, value)`. */
    method UpdateReminders(column: string, value: Value, updates: Row) returns (rows: seq<Row>)
      modifies this
      ensures rows == Updated(old(reminders), column, value, updates)
      ensures reminders == UpdateWhere(old(reminders), column, value, updates)
      ensures entries == old(entries) && globalContext == old(globalContext) && serial == old(serial)
    {
      rows := Updated(reminders, column, value, updates);
      reminders := UpdateWhere(reminders, column, value, updates);
    }

    /** `.table("entries").delete().eq("id", entryId)`; the schema's
        foreign key removes the entry's reminders with it. */
    method DeleteEntry(entryId: string)
      modifies this
      ensures entries == Except(old(entries), "id", Text(entryId))
      ensures reminders == Except(old(reminders), "entry_id", Text(entryId))
      ensures globalContext == old(globalContext) && serial == old(serial)
    {
      entries := Except(entries, "id", Text(entryId));
      reminders := Except(reminders, "entry_id", Text(entryId));
    }

    /** `.table("global_context").upsert(data, on_conflict="user_id,key")`:
        returns the stored row. */
    method UpsertContext(data: Row) returns (rows: seq<Row>)
      requires Valid() && ContextRow(data)
      modifies this
      ensures Valid()
      ensures globalContext == Upsert(old(globalContext), data, Stamped(data, old(serial)))
      ensures rows == [UpsertedRow(old(globalContext), data, Stamped(data, old(serial)))]
      ensures serial == old(serial) + 1
      ensures entries == old(entries) && reminders == old(reminders)
    {
      var inserted := Stamped(data, serial);
      UpsertWellFormed(globalContext, data, inserted);
      rows := [UpsertedRow(globalContext, data, inserted)];
      globalContext := Upsert(globalContext, data, inserted);
      serial := serial + 1;
    }

    /** `.table("global_context").delete().eq("user_id", userId).eq("key", key)`. */
    method DeleteContext(userId: string, key: string)
      requires Valid()
      modifies this
      ensures Valid()
      ensures globalContext == DeleteSlot(old(globalContext), userId, key)
      ensures entries == old(entries) && reminders == old(reminders) && serial == old(serial)
    {
      DeleteSlotSub(globalContext, userId, key);
      globalContext := DeleteSlot(globalContext, userId, key);
    }
  }
}
