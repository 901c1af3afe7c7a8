/** The tables behind both backends, taken abstractly: a table is a sequence of rows, each
    with the identifier and the timestamps the database maintains and a record of its columns.
    A column that is absent from a record is a SQL `NULL` (a JavaScript `undefined` field). */
module Registry {
  import opened Wrappers
  import opened Seqs
  import opened Text

  /** A row's columns by name. Every value is taken to be text; the numbers, booleans and `null`
      a JSON body can carry are not distinguished. */
  type Record = map<string, string>

  /** A stored row: `id` is the auto-increment key, `createdAt` and `updatedAt` the instants the
      `created_at` and `updated_at` columns hold. */
  datatype Row = Row(id: nat, createdAt: int, updatedAt: int, record: Record)

  /** The outcome of an insert or an update, which return no rows of their own. */
  datatype Outcome = Done | Failed(error: string)

  /** The four counts of the statistics view. */
  datatype Stats = Stats(total: nat, pending: nat, approved: nat, rejected: nat)

  const StatusColumn := "status"
  const Pending := "pending"
  const Approved := "approved"
  const Rejected := "rejected"

  /** `record.key` is truthy: present and not the empty string. */
  predicate Truthy(rec: Record, key: string) {
    key in rec && rec[key] != ""
  }

  /** The columns of `rec` among `keys`; a missing field stays missing (`NULL`). */
  function Project(rec: Record, keys: set<string>): (r: Record)
    ensures r.Keys == rec.Keys * keys
    ensures forall k :: k in r ==> r[k] == rec[k]
  {
    map k | k in rec && k in keys :: rec[k]
  }

  /** `WHERE key = value`: a `NULL` column matches no value. */
  function FieldIs(key: string, value: string): Row -> bool {
    (r: Row) => key in r.record && r.record[key] == value
  }

  // ---------------------------------------------------------------------------------------
  // ORDER BY created_at DESC
  // ---------------------------------------------------------------------------------------

  /** Newest first. */
  predicate NewestFirst(s: seq<Row>) {
    forall i, j :: 0 <= i < j < |s| ==> s[i].createdAt >= s[j].createdAt
  }

  /** Places `x` before the first row that is not newer than it. */
  function InsertNewest(x: Row, s: seq<Row>): (r: seq<Row>)
    ensures |r| == |s| + 1
    ensures r[0] == x || (|s| > 0 && r[0] == s[0])
    decreases |s|
  {
    if |s| == 0 || x.createdAt >= s[0].createdAt then [x] + s else [s[0]] + InsertNewest(x, s[1..])
  }

  /** The `ORDER BY created_at DESC` of a table. SQL leaves the order of rows with equal
      `created_at` open; this ordering keeps them in the order they were stored. */
  function SortNewestFirst(s: seq<Row>): seq<Row>
    decreases |s|
  {
    if |s| == 0 then [] else InsertNewest(s[0], SortNewestFirst(s[1..]))
  }

  lemma {:induction false} InsertNewestIsOrdered(x: Row, s: seq<Row>)
    requires NewestFirst(s)
    ensures NewestFirst(InsertNewest(x, s))
    ensures multiset(InsertNewest(x, s)) == multiset(s) + multiset{x}
    decreases |s|
  {
    InsertNewestPermutes(x, s);
    if |s| > 0 && x.createdAt < s[0].createdAt {
      var rest := InsertNewest(x, s[1..]);
      InsertNewestIsOrdered(x, s[1..]);
      forall y | y in rest ensures y.createdAt <= s[0].createdAt {
        assert y in multiset(rest);
        if y != x {
          assert y in s[1..];
        }
      }
      ConsNewestFirst(s[0], rest);
    }
  }

  lemma {:induction false} InsertNewestPermutes(x: Row, s: seq<Row>)
    ensures multiset(InsertNewest(x, s)) == multiset(s) + multiset{x}
    decreases |s|
  {
    if |s| > 0 && x.createdAt < s[0].createdAt {
      InsertNewestPermutes(x, s[1..]);
      assert s == [s[0]] + s[1..];
    }
  }

  /** A row no older than any row of an ordered table may go in front of it. */
  lemma ConsNewestFirst(h: Row, t: seq<Row>)
    requires NewestFirst(t)
    requires forall y :: y in t ==> y.createdAt <= h.createdAt
    ensures NewestFirst([h] + t)
  {
    forall i, j | 0 <= i < j < |t| + 1 ensures ([h] + t)[i].createdAt >= ([h] + t)[j].createdAt {
      assert ([h] + t)[j] == t[j - 1];
      if i > 0 {
        assert ([h] + t)[i] == t[i - 1];
      }
    }
  }

  /** The listing order is newest first and loses or adds no row. */
  lemma {:induction false} SortIsOrderedPermutation(s: seq<Row>)
    ensures NewestFirst(SortNewestFirst(s))
    ensures multiset(SortNewestFirst(s)) == multiset(s)
    decreases |s|
  {
    if |s| > 0 {
      SortIsOrderedPermutation(s[1..]);
      InsertNewestIsOrdered(s[0], SortNewestFirst(s[1..]));
      assert s == [s[0]] + s[1..];
    }
  }

  /** No row of an ordered table is newer than its first. */
  lemma FirstIsNewest(s: seq<Row>, y: Row)
    requires NewestFirst(s) && y in s
    ensures y.createdAt <= s[0].createdAt
  {
    var k :| 0 <= k < |s| && s[k] == y;
    if k > 0 {
      assert s[0].createdAt >= s[k].createdAt;
    }
  }

  lemma FilterCons(x: Row, s: seq<Row>, p: Row -> bool)
    ensures Filter([x] + s, p) == (if p(x) then [x] else []) + Filter(s, p)
  {
    assert ([x] + s)[0] == x;
    assert ([x] + s)[1..] == s;
  }

  /** A row older than the first goes behind it. */
  lemma InsertBehind(x: Row, y: Row, t: seq<Row>)
    requires x.createdAt < y.createdAt
    ensures InsertNewest(x, [y] + t) == [y] + InsertNewest(x, t)
  {
    assert ([y] + t)[0] == y;
    assert ([y] + t)[1..] == t;
  }

  lemma {:induction false} FilterInsertNewest(x: Row, s: seq<Row>, p: Row -> bool)
    requires NewestFirst(s)
    ensures Filter(InsertNewest(x, s), p) == if p(x) then InsertNewest(x, Filter(s, p)) else Filter(s, p)
    decreases |s|
  {
    if |s| == 0 {
      assert InsertNewest(x, s) == [x] + s;
      FilterCons(x, s, p);
    } else if x.createdAt >= s[0].createdAt {
      assert InsertNewest(x, s) == [x] + s;
      FilterCons(x, s, p);
      var fs := Filter(s, p);
      if p(x) && |fs| > 0 {
        assert fs[0] in fs;
        FirstIsNewest(s, fs[0]);
        assert InsertNewest(x, fs) == [x] + fs;
      }
    } else {
      FilterInsertBehind(x, s, p);
    }
  }

  lemma {:induction false} FilterInsertBehind(x: Row, s: seq<Row>, p: Row -> bool)
    requires NewestFirst(s) && |s| > 0 && x.createdAt < s[0].createdAt
    ensures Filter(InsertNewest(x, s), p) == if p(x) then InsertNewest(x, Filter(s, p)) else Filter(s, p)
    decreases |s|, 0
  {
    var tail := s[1..];
    var rest := InsertNewest(x, tail);
    assert s == [s[0]] + tail;
    InsertBehind(x, s[0], tail);
    FilterCons(s[0], rest, p);
    FilterCons(s[0], tail, p);
    FilterInsertNewest(x, tail, p);
    var ft := Filter(tail, p);
    assert Filter(InsertNewest(x, s), p) == (if p(s[0]) then [s[0]] else []) + Filter(rest, p);
    assert Filter(s, p) == (if p(s[0]) then [s[0]] else []) + ft;
    if p(x) && p(s[0]) {
      InsertBehind(x, s[0], ft);
    } else if p(x) {
      assert Filter(s, p) == ft;
      assert Filter(InsertNewest(x, s), p) == Filter(rest, p);
    }
  }

  /** Ordering and a `WHERE` clause commute: filtering the ordered table gives the ordered
      filtered table. */
  lemma {:induction false} SortFilterCommute(s: seq<Row>, p: Row -> bool)
    ensures Filter(SortNewestFirst(s), p) == SortNewestFirst(Filter(s, p))
    decreases |s|
  {
    if |s| > 0 {
      var tail := s[1..];
      assert s == [s[0]] + tail;
      SortFilterCommute(tail, p);
      SortIsOrderedPermutation(tail);
      FilterInsertNewest(s[0], SortNewestFirst(tail), p);
      FilterCons(s[0], tail, p);
      assert SortNewestFirst(s) == InsertNewest(s[0], SortNewestFirst(tail));
      if p(s[0]) {
        var ft := Filter(tail, p);
        assert ([s[0]] + ft)[0] == s[0];
        assert ([s[0]] + ft)[1..] == ft;
        assert SortNewestFirst([s[0]] + ft) == InsertNewest(s[0], SortNewestFirst(ft));
        assert Filter(s, p) == [s[0]] + ft;
        assert Filter(SortNewestFirst(tail), p) == SortNewestFirst(ft);
        assert Filter(SortNewestFirst(s), p) == InsertNewest(s[0], Filter(SortNewestFirst(tail), p));
      } else {
        assert Filter(s, p) == Filter(tail, p);
      }
    }
  }

  // ---------------------------------------------------------------------------------------
  // Listing with an optional filter
  // ---------------------------------------------------------------------------------------

  /** `SELECT * FROM t [WHERE key = value] ORDER BY created_at DESC`: the `WHERE` clause is
      added only when `value` is truthy. */
  function Listing(rows: seq<Row>, key: string, value: string): seq<Row> {
    if value != "" then SortNewestFirst(Filter(rows, FieldIs(key, value))) else SortNewestFirst(rows)
  }

  /** A listing is newest first, holds every selected row as often as the table does and no
      other row, and with a filter is the unfiltered listing with the other rows taken out. */
  lemma ListingIsSelection(rows: seq<Row>, key: string, value: string)
    ensures NewestFirst(Listing(rows, key, value))
    ensures forall x ::
              multiset(Listing(rows, key, value))[x] == if value == "" || FieldIs(key, value)(x) then multiset(rows)[x] else 0
    ensures value != "" ==> Listing(rows, key, value) == Filter(Listing(rows, key, ""), FieldIs(key, value))
  {
    SortIsOrderedPermutation(rows);
    SortIsOrderedPermutation(Filter(rows, FieldIs(key, value)));
    forall x ensures multiset(Filter(rows, FieldIs(key, value)))[x] ==
      if FieldIs(key, value)(x) then multiset(rows)[x] else 0 {
      FilterCount(rows, FieldIs(key, value), x);
    }
    SortFilterCommute(rows, FieldIs(key, value));
  }

  // ---------------------------------------------------------------------------------------
  // Updating the status
  // ---------------------------------------------------------------------------------------

  /** The record with its status set to `status`, or cleared (`NULL`) when none is given. */
  function SetStatus(rec: Record, status: Option<string>): Record {
    if status.Some? then rec[StatusColumn := status.value] else rec - {StatusColumn}
  }

  /** `UPDATE t SET status = ? [, updated_at = now] WHERE id = ?`. */
  function WithStatus(rows: seq<Row>, id: nat, status: Option<string>, touch: Option<int>): seq<Row>
    decreases |rows|
  {
    if |rows| == 0 then []
    else
      var r := rows[0];
      var r' := if r.id == id then r.(record := SetStatus(r.record, status),
                                       updatedAt := touch.GetOr(r.updatedAt))
                else r;
      [r'] + WithStatus(rows[1..], id, status, touch)
  }

  /** The update changes the status (and, when touched, `updated_at`) of the rows with that
      id, and nothing else: no other row, no other column, no row's id or `created_at`. */
  lemma {:induction false} WithStatusTouchesOnlyThatRow(rows: seq<Row>, id: nat, status: Option<string>, touch: Option<int>)
    ensures |WithStatus(rows, id, status, touch)| == |rows|
    ensures forall i :: 0 <= i < |rows| ==>
      var r, r' := rows[i], WithStatus(rows, id, status, touch)[i];
      && r'.id == r.id && r'.createdAt == r.createdAt
      && (r.id != id ==> r' == r)
      && (r.id == id ==> r'.record.Keys - {StatusColumn} == r.record.Keys - {StatusColumn})
      && (r.id == id ==> forall k :: k in r.record && k != StatusColumn ==> k in r'.record && r'.record[k] == r.record[k])
      && (r.id == id ==> (StatusColumn in r'.record) == status.Some?)
      && (r.id == id && status.Some? ==> r'.record[StatusColumn] == status.value)
      && (r.id == id ==> r'.updatedAt == if touch.Some? then touch.value else r.updatedAt)
    decreases |rows|
  {
    if |rows| > 0 {
      WithStatusTouchesOnlyThatRow(rows[1..], id, status, touch);
    }
  }

  // ---------------------------------------------------------------------------------------
  // Statistics
  // ---------------------------------------------------------------------------------------

  /** `SELECT COUNT(*) FROM t WHERE key = value`. */
  function CountWhere(rows: seq<Row>, key: string, value: string): nat {
    |Filter(rows, FieldIs(key, value))|
  }

  /** The row's status is one of the three the statistics count. */
  predicate Counted(r: Row) {
    StatusColumn in r.record && r.record[StatusColumn] in {Pending, Approved, Rejected}
  }

  /** The three status counts never exceed the total, and they make it up exactly when every
      row has one of the three statuses. */
  lemma {:induction false} StatusCountsMakeUpTotal(rows: seq<Row>)
    ensures CountWhere(rows, StatusColumn, Pending) + CountWhere(rows, StatusColumn, Approved)
            + CountWhere(rows, StatusColumn, Rejected) <= |rows|
    ensures (CountWhere(rows, StatusColumn, Pending) + CountWhere(rows, StatusColumn, Approved)
             + CountWhere(rows, StatusColumn, Rejected) == |rows|)
            <==> forall i :: 0 <= i < |rows| ==> Counted(rows[i])
    decreases |rows|
  {
    if |rows| > 0 {
      StatusCountsMakeUpTotal(rows[1..]);
      var tail := rows[1..];
      if !Counted(rows[0]) {
        var sum := CountWhere(rows, StatusColumn, Pending) + CountWhere(rows, StatusColumn, Approved)
                   + CountWhere(rows, StatusColumn, Rejected);
        assert sum < |rows|;
      } else {
        assert forall i :: 1 <= i < |rows| ==> rows[i] == tail[i - 1];
      }
    }
  }

  // ---------------------------------------------------------------------------------------
  // A table
  // ---------------------------------------------------------------------------------------

  /** A table with an auto-increment key: rows in the order they were stored, and the next
      key to hand out. */
  class Table {
    var rows: seq<Row>
    var nextId: nat

    /** Keys are handed out in increasing order and never reused. */
    ghost predicate Valid()
      reads this
    {
      && nextId >= 1
      && (forall i :: 0 <= i < |rows| ==> 1 <= rows[i].id < nextId)
      && (forall i, j :: 0 <= i < j < |rows| ==> rows[i].id < rows[j].id)
    }

    /** An empty table. */
    constructor()
      ensures Valid() && rows == [] && nextId == 1
    {
      rows := [];
      nextId := 1;
    }

    /** `INSERT`: stores `rec` under the next key, created and updated at `now`. */
    method Insert(rec: Record, now: int) returns (id: nat)
      requires Valid()
      modifies this
      ensures Valid()
      ensures id == old(nextId) && nextId == old(nextId) + 1
      ensures rows == old(rows) + [Row(id, now, now, rec)]
    {
      id := nextId;
      rows := rows + [Row(id, now, now, rec)];
      nextId := nextId + 1;
    }

    /** `UPDATE ... SET status = ? [, updated_at = now] WHERE id = ?`. */
    method UpdateStatus(id: nat, status: Option<string>, touch: Option<int>)
      requires Valid()
      modifies this`rows
      ensures Valid()
      ensures rows == WithStatus(old(rows), id, status, touch)
    {
      WithStatusTouchesOnlyThatRow(rows, id, status, touch);
      rows := WithStatus(rows, id, status, touch);
    }
  }

  /** Keys are unique, so an update by key touches at most one row. */
  lemma UniqueKeys(t: Table, i: nat, j: nat)
    requires t.Valid() && i < |t.rows| && j < |t.rows| && t.rows[i].id == t.rows[j].id
    ensures i == j
  {
  }
}
