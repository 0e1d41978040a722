/**
 * The database-backed repository. `Table` stands in for the hosted
 * `reminders` table: rows in insertion order, identifiers from a serial.
 * `SupabaseStorage` is the per-user view the HTTP handlers use; the
 * functions after it are the unscoped view the scheduler uses. A database
 * error (connectivity, constraint) is the `fault` argument of each call:
 * when present, the statement did not run.
 */
module Database {
  import opened Wrappers
  import opened Calendar
  import opened Schema
  import opened Rows
  import Seqs

  /** Every row whose id is `id`, updated by `m`; the other rows as they were. */
  function UpdateWhere(rows: seq<Row>, id: Id, m: map<Column, Value>): (r: seq<Row>)
    ensures |r| == |rows|
    ensures forall i :: 0 <= i < |rows| ==> r[i].id == rows[i].id
    ensures forall i :: 0 <= i < |rows| ==> r[i] == if rows[i].id == id then Row(id, Assign(rows[i].cols, m)) else rows[i]
  {
    seq(|rows|, i requires 0 <= i < |rows| => if rows[i].id == id then Row(id, Assign(rows[i].cols, m)) else rows[i])
  }

  /** `eq('id', id)`. */
  function WithId(rows: seq<Row>, id: Id): seq<Row> {
    Seqs.Filter((r: Row) => r.id == id, rows)
  }

  /** `.single()` on a result set: the row, or `None` for no row (PostgREST code PGRST116). */
  function Single(rows: seq<Row>): (r: Option<Reminder>)
    ensures |rows| == 1 ==> r == Some(ToReminder(rows[0]))
    ensures |rows| != 1 ==> r.None?
  {
    if |rows| == 1 then Some(ToReminder(rows[0])) else None
  }

  predicate IsDue(r: Row) {
    r.cols.status == Pending && !r.cols.completed
  }

  /** `eq('status', 'pending').eq('completed', false).order('scheduled_for', { ascending: true })`. */
  function PendingRows(rows: seq<Row>): (r: seq<Row>)
    ensures Seqs.SortedBy(r, RowKey)
    ensures forall x :: x in r <==> x in rows && x.cols.status == Pending && !x.cols.completed
    ensures multiset(r) == multiset(Seqs.Filter(IsDue, rows))
  {
    var pending := Seqs.Filter(IsDue, rows);
    Seqs.FilterMembers(IsDue, rows);
    Seqs.SortByMembers(pending, RowKey);
    Seqs.SortBy(pending, RowKey)
  }

  /** `eq('user_id', userId).order('scheduled_for', { ascending: true })`. */
  function RowsOfUser(rows: seq<Row>, userId: string): (r: seq<Row>)
    ensures Seqs.SortedBy(r, RowKey)
    ensures forall x :: x in r <==> x in rows && x.cols.user_id == userId
    ensures multiset(r) == multiset(Seqs.Filter((x: Row) => x.cols.user_id == userId, rows))
  {
    var mine := Seqs.Filter((x: Row) => x.cols.user_id == userId, rows);
    Seqs.FilterMembers((x: Row) => x.cols.user_id == userId, rows);
    Seqs.SortByMembers(mine, RowKey);
    Seqs.SortBy(mine, RowKey)
  }

  function MapToReminders(rows: seq<Row>): (r: seq<Reminder>)
    ensures |r| == |rows| && forall i :: 0 <= i < |rows| ==> r[i] == ToReminder(rows[i])
  {
    seq(|rows|, i requires 0 <= i < |rows| => ToReminder(rows[i]))
  }

  class Table {
    var rows: seq<Row>
    var nextId: Id

    /** Ids are handed out in increasing order and never reused. */
    ghost predicate Valid()
      reads this
    {
      && Seqs.StrictlyIncreasingBy(rows, RowId)
      && forall i :: 0 <= i < |rows| ==> rows[i].id < nextId
    }

    constructor ()
      ensures Valid() && rows == []
    {
      rows := [];
      nextId := 0;
    }

    /** `insert(values)`: a new row with a fresh id at the end of the table. */
    method Insert(cols: Columns) returns (row: Row)
      requires Valid()
      modifies this
      ensures Valid()
      ensures row == Row(old(nextId), cols)
      ensures forall i :: 0 <= i < |old(rows)| ==> old(rows)[i].id != row.id
      ensures rows == old(rows) + [row]
      ensures nextId == old(nextId) + 1
    {
      row := Row(nextId, cols);
      rows := rows + [row];
      nextId := nextId + 1;
    }

    /** `update(m).eq('id', id).select()`: the touched rows after the update. */
    method Update(id: Id, m: map<Column, Value>) returns (touched: seq<Row>)
      requires Valid()
      modifies this
      ensures Valid() && nextId == old(nextId)
      ensures rows == UpdateWhere(old(rows), id, m)
      ensures touched == WithId(rows, id)
    {
      rows := UpdateWhere(rows, id, m);
      touched := WithId(rows, id);
    }

    /** `delete().eq('id', id)`. */
    method Delete(id: Id)
      requires Valid()
      modifies this
      ensures Valid() && nextId == old(nextId)
      ensures rows == Seqs.Filter((r: Row) => r.id != id, old(rows))
    {
      Seqs.FilterStrictlyIncreasing((r: Row) => r.id != id, rows, RowId);
      rows := Seqs.Filter((r: Row) => r.id != id, rows);
    }
  }

  /** At most one row carries a given id. */
  lemma {:induction false} WithIdAtMostOne(t: seq<Row>, id: Id)
    requires Seqs.StrictlyIncreasingBy(t, RowId)
    ensures |WithId(t, id)| <= 1
    ensures forall i :: 0 <= i < |t| && t[i].id == id ==> WithId(t, id) == [t[i]]
  {
    WithIdShort(t, id);
    Seqs.FilterKeeps((r: Row) => r.id == id, t);
  }

  /** Rows with one id, picked from increasing ids, span no more than one row. */
  lemma {:induction false} WithIdShort(t: seq<Row>, id: Id)
    requires Seqs.StrictlyIncreasingBy(t, RowId)
    ensures |WithId(t, id)| <= 1
  {
    var w := WithId(t, id);
    Seqs.FilterStrictlyIncreasing((r: Row) => r.id == id, t, RowId);
    if |w| > 0 {
      Seqs.StrictlyIncreasingSpan(w, RowId);
      assert RowId(w[|w| - 1]) == id == RowId(w[0]);
    }
  }

  /** The per-user repository of the HTTP handlers. */
  class SupabaseStorage {
    var userId: Option<string>
    const db: Table

    constructor (db: Table)
      ensures this.db == db && userId == None
    {
      this.db := db;
      userId := None;
    }

    method SetUserId(u: string)
      modifies this
      ensures userId == Some(u)
    {
      userId := Some(u);
    }

    /** `getReminders`: the signed-in user's reminders, ascending by time; an error without a user id. */
    method GetReminders(fault: Option<string>) returns (r: Result<seq<Reminder>>)
      requires db.Valid()
      ensures !Truthy(userId) ==> r == Failure("User ID not set")
      ensures Truthy(userId) && fault.Some? ==> r == Failure("Failed to fetch reminders: " + fault.value)
      ensures Truthy(userId) && fault.None? ==> r == Success(MapToReminders(RowsOfUser(db.rows, userId.value)))
    {
      if !Truthy(userId) {
        return Failure("User ID not set");
      }
      if fault.Some? {
        return Failure("Failed to fetch reminders: " + fault.value);
      }
      r := Success(MapToReminders(RowsOfUser(db.rows, userId.value)));
    }

    /** `getReminder`: the row with that id, mapped; nothing when no row matches. */
    method GetReminder(id: Id, fault: Option<string>) returns (r: Result<Option<Reminder>>)
      requires db.Valid()
      ensures fault.Some? ==> r == Failure("Failed to fetch reminder: " + fault.value)
      ensures fault.None? ==> r == Success(Single(WithId(db.rows, id)))
    {
      if fault.Some? {
        return Failure("Failed to fetch reminder: " + fault.value);
      }
      r := Success(Single(WithId(db.rows, id)));
    }

    /** `createReminder`: inserts the user's row with the status defaults; an error without a user id. */
    method CreateReminder(input: InsertReminder, fault: Option<string>) returns (r: Result<Reminder>)
      requires db.Valid()
      modifies db
      ensures db.Valid()
      ensures !Truthy(userId) ==> r == Failure("User ID not set") && db.rows == old(db.rows)
      ensures Truthy(userId) && fault.Some? ==> r == Failure("Failed to create reminder: " + fault.value) && db.rows == old(db.rows)
      ensures Truthy(userId) && fault.None? ==>
        && db.rows == old(db.rows) + [Row(old(db.nextId), InsertColumns(userId.value, input))]
        && r == Success(ToReminder(Row(old(db.nextId), InsertColumns(userId.value, input))))
    {
      if !Truthy(userId) {
        return Failure("User ID not set");
      }
      if fault.Some? {
        return Failure("Failed to create reminder: " + fault.value);
      }
      var row := db.Insert(InsertColumns(userId.value, input));
      r := Success(ToReminder(row));
    }

    /** `updateReminder`: writes exactly the supplied columns; nothing when no row matches. */
    method UpdateReminder(id: Id, updates: ReminderPatch, fault: Option<string>) returns (r: Result<Option<Reminder>>)
      requires db.Valid()
      modifies db
      ensures db.Valid()
      ensures fault.Some? ==> r == Failure("Failed to update reminder: " + fault.value) && db.rows == old(db.rows)
      ensures fault.None? ==>
        && db.rows == UpdateWhere(old(db.rows), id, Projection(updates))
        && r == Success(Single(WithId(db.rows, id)))
    {
      if fault.Some? {
        return Failure("Failed to update reminder: " + fault.value);
      }
      var touched := db.Update(id, Projection(updates));
      r := Success(Single(touched));
    }

    /** `deleteReminder`: false only on a database error, true otherwise, even when nothing matched. */
    method DeleteReminder(id: Id, fault: Option<string>) returns (deleted: bool)
      requires db.Valid()
      modifies db
      ensures db.Valid()
      ensures deleted == fault.None?
      ensures fault.Some? ==> db.rows == old(db.rows)
      ensures fault.None? ==> db.rows == Seqs.Filter((x: Row) => x.id != id, old(db.rows))
    {
      if fault.Some? {
        return false;
      }
      db.Delete(id);
      deleted := true;
    }

    /** `completeReminder`: sets `completed`; nothing when no row matches. */
    method CompleteReminder(id: Id, fault: Option<string>) returns (r: Result<Option<Reminder>>)
      requires db.Valid()
      modifies db
      ensures db.Valid()
      ensures fault.Some? ==> r == Failure("Failed to complete reminder: " + fault.value) && db.rows == old(db.rows)
      ensures fault.None? ==>
        && db.rows == UpdateWhere(old(db.rows), id, map[CompletedColumn := Flag(true)])
        && r == Success(Single(WithId(db.rows, id)))
    {
      if fault.Some? {
        return Failure("Failed to complete reminder: " + fault.value);
      }
      var touched := db.Update(id, map[CompletedColumn := Flag(true)]);
      r := Success(Single(touched));
    }

    /** `markReminderAsSent`: sets `status` to sent; nothing when no row matches. */
    method MarkReminderAsSent(id: Id, fault: Option<string>) returns (r: Result<Option<Reminder>>)
      requires db.Valid()
      modifies db
      ensures db.Valid()
      ensures fault.Some? ==> r == Failure("Failed to mark reminder as sent: " + fault.value) && db.rows == old(db.rows)
      ensures fault.None? ==>
        && db.rows == UpdateWhere(old(db.rows), id, map[StatusColumn := StatusText(Sent)])
        && r == Success(Single(WithId(db.rows, id)))
    {
      if fault.Some? {
        return Failure("Failed to mark reminder as sent: " + fault.value);
      }
      var touched := db.Update(id, map[StatusColumn := StatusText(Sent)]);
      r := Success(Single(touched));
    }

    /** `markReminderAsFailed`: sets `status` to failed; nothing when no row matches. */
    method MarkReminderAsFailed(id: Id, fault: Option<string>) returns (r: Result<Option<Reminder>>)
      requires db.Valid()
      modifies db
      ensures db.Valid()
      ensures fault.Some? ==> r == Failure("Failed to mark reminder as failed: " + fault.value) && db.rows == old(db.rows)
      ensures fault.None? ==>
        && db.rows == UpdateWhere(old(db.rows), id, map[StatusColumn := StatusText(Failed)])
        && r == Success(Single(WithId(db.rows, id)))
    {
      if fault.Some? {
        return Failure("Failed to mark reminder as failed: " + fault.value);
      }
      var touched := db.Update(id, map[StatusColumn := StatusText(Failed)]);
      r := Success(Single(touched));
    }
  }

  /** `createStorage`: a repository whose user id is set only when one was given. */
  method CreateStorage(db: Table, userId: Option<string>) returns (s: SupabaseStorage)
    ensures fresh(s) && s.db == db
    ensures s.userId == if Truthy(userId) then userId else None
  {
    s := new SupabaseStorage(db);
    if Truthy(userId) {
      s.SetUserId(userId.value);
    }
  }

  /** `getAllPendingReminders`: every pending, not completed reminder of every user, earliest first. */
  method GetAllPendingReminders(db: Table, fault: Option<string>) returns (r: Result<seq<Reminder>>)
    requires db.Valid()
    ensures fault.Some? ==> r == Failure("Failed to fetch all pending reminders: " + fault.value)
    ensures fault.None? ==> r.Success? && Seqs.SortedBy(r.value, MemStore.ScheduleKey)
    ensures fault.None? ==> forall x :: x in r.value <==>
      exists row :: row in db.rows && IsDue(row) && x == ToReminder(row)
    ensures fault.None? ==> multiset(r.value) == multiset(MapToReminders(Seqs.Filter(IsDue, db.rows)))
  {
    if fault.Some? {
      return Failure("Failed to fetch all pending reminders: " + fault.value);
    }
    PendingRemindersMeaning(db.rows);
    r := Success(MapToReminders(PendingRows(db.rows)));
  }

  /** The mapped pending rows are ordered by time and are exactly the due rows. */
  lemma PendingRemindersMeaning(rows: seq<Row>)
    ensures Seqs.SortedBy(MapToReminders(PendingRows(rows)), MemStore.ScheduleKey)
    ensures forall x :: x in MapToReminders(PendingRows(rows)) <==>
      exists row :: row in rows && IsDue(row) && x == ToReminder(row)
    ensures multiset(MapToReminders(PendingRows(rows))) == multiset(MapToReminders(Seqs.Filter(IsDue, rows)))
  {
    var pending := PendingRows(rows);
    MapKeepsOrder(pending);
    MapMembers(pending);
    MapPermutation(pending, Seqs.Filter(IsDue, rows));
  }

  /** Mapping two permutations of each other gives permutations of each other. */
  lemma {:induction false} MapPermutation(a: seq<Row>, b: seq<Row>)
    requires multiset(a) == multiset(b)
    ensures multiset(MapToReminders(a)) == multiset(MapToReminders(b))
    decreases |a|
  {
    if a == [] {
      assert |b| == |multiset(b)| == 0;
    } else {
      var x := a[0];
      var k := Seqs.PermutationHead(a, b);
      var front, back := b[..k], b[k + 1..];
      MapPermutation(a[1..], front + back);
      assert a == [x] + a[1..] && b == front + ([x] + back);
      MapConcat([x], a[1..]);
      MapConcat(front, [x] + back);
      MapConcat([x], back);
      MapConcat(front, back);
      assert MapToReminders([x]) == [ToReminder(x)];
    }
  }

  /** Mapping distributes over concatenation. */
  lemma MapConcat(x: seq<Row>, y: seq<Row>)
    ensures MapToReminders(x + y) == MapToReminders(x) + MapToReminders(y)
  {
  }

  /** Mapping rows to records keeps the order by time. */
  lemma MapKeepsOrder(rows: seq<Row>)
    requires Seqs.SortedBy(rows, RowKey)
    ensures Seqs.SortedBy(MapToReminders(rows), MemStore.ScheduleKey)
  {
    var mapped := MapToReminders(rows);
    forall i, j | 0 <= i < j < |mapped| ensures MemStore.ScheduleKey(mapped[i]) <= MemStore.ScheduleKey(mapped[j]) {
      assert RowKey(rows[i]) <= RowKey(rows[j]);
    }
  }

  /** The mapped records are the records of the given rows. */
  lemma MapMembers(rows: seq<Row>)
    ensures forall x :: x in MapToReminders(rows) <==> exists row :: row in rows && x == ToReminder(row)
  {
    var mapped := MapToReminders(rows);
    forall x | exists row :: row in rows && x == ToReminder(row) ensures x in mapped {
      var row :| row in rows && x == ToReminder(row);
      var i :| 0 <= i < |rows| && rows[i] == row;
      assert mapped[i] == x;
    }
  }

  /** `markReminderAsSentById`: overwrites `status` whatever it was; a database error is thrown. */
  method MarkReminderAsSentById(db: Table, id: Id, fault: Option<string>) returns (error: Option<string>)
    requires db.Valid()
    modifies db
    ensures db.Valid()
    ensures fault.Some? ==> error == Some("Failed to mark reminder as sent: " + fault.value) && db.rows == old(db.rows)
    ensures fault.None? ==> error.None? && db.rows == UpdateWhere(old(db.rows), id, map[StatusColumn := StatusText(Sent)])
    ensures db.nextId == old(db.nextId)
  {
    if fault.Some? {
      return Some("Failed to mark reminder as sent: " + fault.value);
    }
    var _ := db.Update(id, map[StatusColumn := StatusText(Sent)]);
    error := None;
  }

  /** `markReminderAsFailedById`: overwrites `status` whatever it was; a database error is thrown. */
  method MarkReminderAsFailedById(db: Table, id: Id, fault: Option<string>) returns (error: Option<string>)
    requires db.Valid()
    modifies db
    ensures db.Valid()
    ensures fault.Some? ==> error == Some("Failed to mark reminder as failed: " + fault.value) && db.rows == old(db.rows)
    ensures fault.None? ==> error.None? && db.rows == UpdateWhere(old(db.rows), id, map[StatusColumn := StatusText(Failed)])
    ensures db.nextId == old(db.nextId)
  {
    if fault.Some? {
      return Some("Failed to mark reminder as failed: " + fault.value);
    }
    var _ := db.Update(id, map[StatusColumn := StatusText(Failed)]);
    error := None;
  }

  /** A status write by id changes only that row's status, whatever the status was. */
  lemma StatusWriteOnlyThatRow(rows: seq<Row>, id: Id, s: Status, i: int)
    requires 0 <= i < |rows|
    ensures var r := UpdateWhere(rows, id, map[StatusColumn := StatusText(s)])[i];
      r == if rows[i].id == id then Row(id, rows[i].cols.(status := s)) else rows[i]
  {
    StatusAssignmentOnlyStatus(rows[i].cols, s);
  }

  /** Updating an existing row makes `.single()` see that row after the update. */
  lemma SingleAfterUpdate(rows: seq<Row>, id: Id, m: map<Column, Value>, i: int)
    requires Seqs.StrictlyIncreasingBy(rows, RowId)
    requires 0 <= i < |rows| && rows[i].id == id
    ensures Single(WithId(UpdateWhere(rows, id, m), id)) == Some(ToReminder(Row(id, Assign(rows[i].cols, m))))
  {
    var u := UpdateWhere(rows, id, m);
    assert Seqs.StrictlyIncreasingBy(u, RowId) by {
      forall a, b | 0 <= a < b < |u| ensures RowId(u[a]) < RowId(u[b]) {
        assert RowId(rows[a]) < RowId(rows[b]);
      }
    }
    WithIdAtMostOne(u, id);
  }

  /** Updating a missing id changes no row, and `.single()` reports no row. */
  lemma UpdateMissingId(rows: seq<Row>, id: Id, m: map<Column, Value>)
    requires forall i :: 0 <= i < |rows| ==> rows[i].id != id
    ensures UpdateWhere(rows, id, m) == rows
    ensures Single(WithId(rows, id)).None?
  {
    Seqs.FilterNone((r: Row) => r.id == id, rows);
  }
}
