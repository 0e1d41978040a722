/**
 * The background dispatcher. One tick reads the pending, not completed
 * reminders of every user in time order, sends each one that is due,
 * records the outcome on its row and, after a delivered recurring reminder,
 * inserts the next occurrence. The clock, the carrier, the credentials and
 * the database errors of a tick are the fields of an `Env`.
 */
module Scheduler {
  import opened Wrappers
  import opened Calendar
  import opened Schema
  import opened Rows
  import Seqs
  import Notifier
  import Database

  // ---------------------------------------------------------------- recurrence

  predicate IsRepeatingRule(rule: string) {
    rule == RecurrenceDaily || rule == RecurrenceWeekly || rule == RecurrenceMonthly
  }

  /** `calculateNextOccurrence`: one day, one week or one calendar month on; any other rule keeps the time. */
  function CalculateNextOccurrence(t: Instant, rule: string): (r: Instant)
    ensures rule == RecurrenceDaily ==> Millis(r) == Millis(t) + MsPerDay
    ensures rule == RecurrenceWeekly ==> Millis(r) == Millis(t) + 7 * MsPerDay
    ensures rule == RecurrenceMonthly ==> Millis(r) == Millis(t) + DaysInMonth(t.year, t.month) * MsPerDay
    ensures !IsRepeatingRule(rule) ==> r == t
    ensures r.ms == t.ms
  {
    if rule == RecurrenceDaily then AddDays(t, 1)
    else if rule == RecurrenceWeekly then AddDays(t, 7)
    else if rule == RecurrenceMonthly then AddMonths1(t)
    else t
  }

  /** The next occurrence is strictly later exactly for the three repeating rules. */
  lemma NextOccurrenceLater(t: Instant, rule: string)
    ensures After(CalculateNextOccurrence(t, rule), t) <==> IsRepeatingRule(rule)
  {
    if rule == RecurrenceMonthly {
      assert DaysInMonth(t.year, t.month) >= 28;
    }
  }

  /** A monthly rule lands on the same day of the next month whenever that month has the day. */
  lemma MonthlyKeepsDayOfMonth(t: Instant)
    requires t.day <= DaysInMonth(NextMonth(t.year, t.month).0, NextMonth(t.year, t.month).1)
    ensures CalculateNextOccurrence(t, RecurrenceMonthly) ==
      DateTime(NextMonth(t.year, t.month).0, NextMonth(t.year, t.month).1, t.day, t.ms)
  {
    AddMonths1KeepsDay(t);
  }

  /** `recurrence_type` is set and is not `none`. */
  predicate Recurring(row: Row) {
    Truthy(row.cols.recurrence_type) && row.cols.recurrence_type.value != RecurrenceNone
  }

  function NextFor(row: Row): Instant {
    CalculateNextOccurrence(row.cols.scheduled_for, row.cols.recurrence_type.GetOr(""))
  }

  /** The end-date gate: no end date, or the next occurrence does not pass it. */
  predicate EndAllows(next: Instant, end: Option<Instant>) {
    end.None? || NotAfter(next, end.value)
  }

  /** The inserted successor: the predecessor's columns, rescheduled, pending and not completed. */
  function SuccessorColumns(row: Row): (c: Columns)
    ensures c == row.cols.(scheduled_for := NextFor(row), status := Pending, completed := false,
                           notification_method := Some(OrElse(row.cols.notification_method, MethodSms)))
    ensures c.status == Pending && !c.completed
  {
    Columns(row.cols.user_id, row.cols.title, row.cols.description, row.cols.phone_number, NextFor(row),
            Pending, false, row.cols.recurrence_type, row.cols.recurrence_end_date,
            Some(OrElse(Some(OrElse(row.cols.notification_method, MethodSms)), MethodSms)))
  }

  /** The table as a value: its rows and the id the next insert receives. */
  datatype TableState = TableState(rows: seq<Row>, nextId: Id)

  predicate Consistent(s: TableState) {
    Seqs.StrictlyIncreasingBy(s.rows, RowId) && forall i :: 0 <= i < |s.rows| ==> s.rows[i].id < s.nextId
  }

  /** `createNextRecurrence` on a table value; a failed insert is only logged. */
  function Recur(s: TableState, row: Row, insertFault: Option<string>): (r: TableState)
    ensures |r.rows| > |s.rows| <==> EndAllows(NextFor(row), row.cols.recurrence_end_date) && insertFault.None?
    ensures |r.rows| > |s.rows| ==> r == TableState(s.rows + [Row(s.nextId, SuccessorColumns(row))], s.nextId + 1)
    ensures |r.rows| <= |s.rows| ==> r == s
  {
    if EndAllows(NextFor(row), row.cols.recurrence_end_date) && insertFault.None? then
      TableState(s.rows + [Row(s.nextId, SuccessorColumns(row))], s.nextId + 1)
    else s
  }

  /** `createNextRecurrence`. */
  method CreateNextRecurrence(db: Database.Table, row: Row, insertFault: Option<string>)
    requires db.Valid()
    modifies db
    ensures db.Valid()
    ensures TableState(db.rows, db.nextId) == Recur(old(TableState(db.rows, db.nextId)), row, insertFault)
  {
    var next := CalculateNextOccurrence(row.cols.scheduled_for, row.cols.recurrence_type.GetOr(""));
    if row.cols.recurrence_end_date.Some? && After(next, row.cols.recurrence_end_date.value) {
      return;
    }
    if insertFault.Some? {
      return;
    }
    var _ := db.Insert(SuccessorColumns(row));
  }

  // ---------------------------------------------------------------- one tick

  /** What a tick depends on besides the table. */
  datatype Env = Env(
    now: Instant,
    creds: Notifier.Credentials,
    carrier: Notifier.Request -> Notifier.Delivery,
    readFault: Option<string>,
    statusFault: Id -> Option<string>,
    insertFault: Id -> Option<string>)

  predicate Due(row: Row, now: Instant) {
    NotAfter(row.cols.scheduled_for, now)
  }

  /** The send of one fetched row: a falsy method means `sms`, a falsy description none. */
  function Dispatch(row: Row, env: Env): Notifier.SendResult {
    Notifier.SendReminder(env.creds, env.carrier, row.cols.phone_number, row.cols.title,
                          if Truthy(row.cols.description) then row.cols.description else None,
                          OrElse(row.cols.notification_method, MethodSms))
  }

  function Verdict(row: Row, env: Env): Status {
    if Dispatch(row, env).Success() then Sent else Failed
  }

  /** The row with its send outcome recorded. */
  function Marked(row: Row, env: Env): Row {
    Row(row.id, row.cols.(status := Verdict(row, env)))
  }

  function SetStatus(s: TableState, id: Id, st: Status): TableState {
    TableState(Database.UpdateWhere(s.rows, id, map[StatusColumn := StatusText(st)]), s.nextId)
  }

  /** One iteration of the loop; an error is the message that ends the tick. */
  function Step(s: TableState, row: Row, env: Env): (TableState, Option<string>) {
    if !Due(row, env.now) then (s, None)
    else if Dispatch(row, env).Success() then
      match env.statusFault(row.id)
      case Some(e) => (s, Some("Failed to mark reminder as sent: " + e))
      case None =>
        var marked := SetStatus(s, row.id, Sent);
        (if Recurring(row) then Recur(marked, row, env.insertFault(row.id)) else marked, None)
    else
      match env.statusFault(row.id)
      case Some(e) => (s, Some("Failed to mark reminder as failed: " + e))
      case None => (SetStatus(s, row.id, Failed), None)
  }

  /** The loop over the fetched rows; the first error ends it. */
  function Run(s: TableState, rows: seq<Row>, env: Env): (TableState, Option<string>)
    decreases |rows|
  {
    if rows == [] then (s, None)
    else
      var (s1, error) := Step(s, rows[0], env);
      if error.Some? then (s1, error) else Run(s1, rows[1..], env)
  }

  /** The loop takes one step, then stops on an error or goes on with the rest. */
  lemma RunCons(s: TableState, rows: seq<Row>, env: Env)
    requires rows != []
    ensures Run(s, rows, env) ==
      if Step(s, rows[0], env).1.Some? then Step(s, rows[0], env) else Run(Step(s, rows[0], env).0, rows[1..], env)
  {
  }

  /** One tick: a failed read ends it before the loop. */
  function TickSpec(s: TableState, env: Env): (TableState, Option<string>) {
    if env.readFault.Some? then (s, env.readFault)
    else Run(s, Database.PendingRows(s.rows), env)
  }

  /** One pass of the loop body: send a due reminder, record the outcome, spawn its successor. */
  method Process(db: Database.Table, reminder: Row, env: Env) returns (error: Option<string>, ghost sent: seq<Row>)
    requires db.Valid()
    modifies db
    ensures db.Valid()
    ensures (TableState(db.rows, db.nextId), error) == Step(old(TableState(db.rows, db.nextId)), reminder, env)
    ensures sent == if Due(reminder, env.now) then [reminder] else []
  {
    ghost var s0 := TableState(db.rows, db.nextId);
    sent := [];
    if !NotAfter(reminder.cols.scheduled_for, env.now) {
      return None, sent;
    }
    sent := [reminder];
    var via := OrElse(reminder.cols.notification_method, MethodSms);
    var result := Notifier.SendReminder(env.creds, env.carrier, reminder.cols.phone_number, reminder.cols.title,
                                        if Truthy(reminder.cols.description) then reminder.cols.description else None, via);
    assert result == Dispatch(reminder, env);
    if result.Success() {
      error := Database.MarkReminderAsSentById(db, reminder.id, env.statusFault(reminder.id));
      if error.Some? {
        return;
      }
      ghost var marked := TableState(db.rows, db.nextId);
      assert marked == SetStatus(s0, reminder.id, Sent);
      if Truthy(reminder.cols.recurrence_type) && reminder.cols.recurrence_type.value != RecurrenceNone {
        CreateNextRecurrence(db, reminder, env.insertFault(reminder.id));
        assert TableState(db.rows, db.nextId) == Recur(marked, reminder, env.insertFault(reminder.id));
      }
    } else {
      error := Database.MarkReminderAsFailedById(db, reminder.id, env.statusFault(reminder.id));
    }
  }

  /** The `for` loop of the callback over the fetched rows; the first thrown error ends it. */
  method ProcessAll(db: Database.Table, reminders: seq<Row>, env: Env) returns (error: Option<string>, ghost sent: seq<Row>)
    requires db.Valid()
    modifies db
    ensures db.Valid()
    ensures (TableState(db.rows, db.nextId), error) == Run(old(TableState(db.rows, db.nextId)), reminders, env)
    ensures sent == Sends(old(TableState(db.rows, db.nextId)), reminders, env)
  {
    sent := [];
    ghost var goal := Run(TableState(db.rows, db.nextId), reminders, env);
    ghost var goalSent := Sends(TableState(db.rows, db.nextId), reminders, env);
    var i := 0;
    while i < |reminders|
      invariant 0 <= i <= |reminders|
      invariant db.Valid()
      invariant goal == Run(TableState(db.rows, db.nextId), reminders[i..], env)
      invariant goalSent == sent + Sends(TableState(db.rows, db.nextId), reminders[i..], env)
    {
      var reminder := reminders[i];
      ghost var s := TableState(db.rows, db.nextId);
      ghost var step := Step(s, reminder, env);
      ghost var rest := reminders[i + 1..];
      RunCons(s, reminders[i..], env);
      SendsCons(s, reminders[i..], env);
      assert reminders[i..][0] == reminder && reminders[i..][1..] == rest;
      ghost var here;
      error, here := Process(db, reminder, env);
      assert (TableState(db.rows, db.nextId), error) == step;
      sent := sent + here;
      if error.Some? {
        assert goal == step;
        return;
      }
      assert goal == Run(step.0, rest, env);
      i := i + 1;
    }
    error := None;
  }

  /** The body of the scheduler's interval callback. */
  method Tick(db: Database.Table, env: Env) returns (error: Option<string>, ghost sent: seq<Row>)
    requires db.Valid()
    modifies db
    ensures db.Valid()
    ensures (TableState(db.rows, db.nextId), error) == TickSpec(old(TableState(db.rows, db.nextId)), env)
    ensures sent == TickSends(old(TableState(db.rows, db.nextId)), env)
  {
    if env.readFault.Some? {
      return env.readFault, [];
    }
    var reminders := Database.PendingRows(db.rows);
    error, sent := ProcessAll(db, reminders, env);
  }

  /** The rows a run hands to the sender, in the order it sends them. */
  function Sends(s: TableState, rows: seq<Row>, env: Env): seq<Row>
    decreases |rows|
  {
    if rows == [] then []
    else
      var (s1, error) := Step(s, rows[0], env);
      var here := if Due(rows[0], env.now) then [rows[0]] else [];
      if error.Some? then here else here + Sends(s1, rows[1..], env)
  }

  /** The sends of a run: the first row when due, then the rest unless the step failed. */
  lemma SendsCons(s: TableState, rows: seq<Row>, env: Env)
    requires rows != []
    ensures Sends(s, rows, env) ==
      (if Due(rows[0], env.now) then [rows[0]] else []) +
      (if Step(s, rows[0], env).1.Some? then [] else Sends(Step(s, rows[0], env).0, rows[1..], env))
  {
  }

  /** The rows one tick hands to the sender; none when the read fails. */
  function TickSends(s: TableState, env: Env): seq<Row> {
    if env.readFault.Some? then [] else Sends(s, Database.PendingRows(s.rows), env)
  }

  // ---------------------------------------------------------------- what a tick does

  /** Two rows that differ at most in `status`. */
  predicate SameButStatus(a: Row, b: Row) {
    a.id == b.id && a.cols.(status := b.cols.status) == b.cols
  }

  /** Every row that shares an id with a fetched row is that row, up to its status. */
  predicate Tracks(s: TableState, fetched: seq<Row>) {
    && (forall k :: 0 <= k < |fetched| ==> fetched[k].id < s.nextId)
    && (forall j, k :: 0 <= j < |s.rows| && 0 <= k < |fetched| && s.rows[j].id == fetched[k].id ==>
          SameButStatus(s.rows[j], fetched[k]))
  }

  function Ids(rows: seq<Row>): set<Id> {
    set r | r in rows :: r.id
  }

  /** A fetched row a tick inserts a successor for: due, delivered, recurring, allowed by its end date, insert succeeds. */
  predicate Spawns(pred: Row, env: Env) {
    && Due(pred, env.now)
    && Dispatch(pred, env).Success()
    && Recurring(pred)
    && EndAllows(NextFor(pred), pred.cols.recurrence_end_date)
    && env.insertFault(pred.id).None?
  }

  /** Row `succ` is the successor a tick inserts for `pred`. */
  predicate SuccessorOf(succ: Row, pred: Row, env: Env) {
    Spawns(pred, env) && succ.cols == SuccessorColumns(pred)
  }

  ghost predicate NoStatusFaults(env: Env) {
    forall id :: env.statusFault(id).None?
  }

  /** The send and its recorded outcome do not look at `status`. */
  lemma MarkedIgnoresStatus(a: Row, b: Row, env: Env)
    requires SameButStatus(a, b)
    ensures Dispatch(a, env) == Dispatch(b, env) && Marked(a, env) == Marked(b, env)
    ensures Due(a, env.now) == Due(b, env.now) && Recurring(a) == Recurring(b)
  {
    assert a.cols.phone_number == b.cols.phone_number && a.cols.title == b.cols.title;
    assert a.cols.description == b.cols.description && a.cols.notification_method == b.cols.notification_method;
  }

  /** One step marks the rows carrying the fetched row's id and appends at most its successor. */
  lemma StepEffect(s: TableState, c: Row, env: Env)
    requires c.id < s.nextId
    requires forall j :: 0 <= j < |s.rows| && s.rows[j].id == c.id ==> SameButStatus(s.rows[j], c)
    ensures var (s1, error) := Step(s, c, env);
      && |s1.rows| >= |s.rows| && s1.nextId >= s.nextId
      && (forall i :: 0 <= i < |s.rows| ==>
            s1.rows[i] == s.rows[i] ||
            (s.rows[i].id == c.id && Due(s.rows[i], env.now) && env.statusFault(c.id).None? && s1.rows[i] == Marked(s.rows[i], env)))
      && (forall i :: 0 <= i < |s.rows| && s.rows[i].id == c.id && Due(c, env.now) && env.statusFault(c.id).None? ==>
            s1.rows[i] == Marked(s.rows[i], env))
      && (forall j :: |s.rows| <= j < |s1.rows| ==> s.nextId <= s1.rows[j].id < s1.nextId && SuccessorOf(s1.rows[j], c, env))
      && (error.None? <==> !Due(c, env.now) || env.statusFault(c.id).None?)
  {
    var (s1, error) := Step(s, c, env);
    if Due(c, env.now) && env.statusFault(c.id).None? {
      var st := Verdict(c, env);
      var marked := SetStatus(s, c.id, st);
      forall i | 0 <= i < |s.rows|
        ensures marked.rows[i] == if s.rows[i].id == c.id then Marked(s.rows[i], env) else s.rows[i]
      {
        Database.StatusWriteOnlyThatRow(s.rows, c.id, st, i);
        if s.rows[i].id == c.id {
          MarkedIgnoresStatus(s.rows[i], c, env);
        }
      }
      assert s1 == if st == Sent && Recurring(c) then Recur(marked, c, env.insertFault(c.id)) else marked;
    }
  }

  /** A step keeps every row tracked by the rows still to come. */
  lemma StepKeepsTracking(s: TableState, fetched: seq<Row>, env: Env)
    requires fetched != [] && Tracks(s, fetched)
    ensures Tracks(Step(s, fetched[0], env).0, fetched[1..])
  {
    var c := fetched[0];
    StepEffect(s, c, env);
    var s1 := Step(s, c, env).0;
    forall j, k | 0 <= j < |s1.rows| && 0 <= k < |fetched[1..]| && s1.rows[j].id == fetched[1..][k].id
      ensures SameButStatus(s1.rows[j], fetched[1..][k])
    {
      assert fetched[1..][k] == fetched[k + 1];
      if j < |s.rows| {
        assert SameButStatus(s.rows[j], fetched[k + 1]);
      }
    }
  }

  /**
   * The loop leaves each old row as it was or records its own send outcome on
   * it, and only appends successors of fetched rows.
   */
  lemma {:induction false} RunEffect(s: TableState, fetched: seq<Row>, env: Env)
    requires Tracks(s, fetched)
    ensures var (r, error) := Run(s, fetched, env);
      && |r.rows| >= |s.rows| && r.nextId >= s.nextId
      && (forall i :: 0 <= i < |s.rows| ==>
            r.rows[i] == s.rows[i] ||
            (s.rows[i].id in Ids(fetched) && Due(s.rows[i], env.now) && env.statusFault(s.rows[i].id).None? &&
             r.rows[i] == Marked(s.rows[i], env)))
      && (forall j :: |s.rows| <= j < |r.rows| ==>
            s.nextId <= r.rows[j].id && exists c :: c in fetched && SuccessorOf(r.rows[j], c, env))
    decreases |fetched|
  {
    if fetched != [] {
      var c := fetched[0];
      StepEffect(s, c, env);
      var (s1, e1) := Step(s, c, env);
      if e1.None? {
        StepKeepsTracking(s, fetched, env);
        RunEffect(s1, fetched[1..], env);
        var (r, error) := Run(s1, fetched[1..], env);
        assert Ids(fetched) == {c.id} + Ids(fetched[1..]);
        forall i | 0 <= i < |s.rows|
          ensures r.rows[i] == s.rows[i] ||
            (s.rows[i].id in Ids(fetched) && Due(s.rows[i], env.now) && env.statusFault(s.rows[i].id).None? &&
             r.rows[i] == Marked(s.rows[i], env))
        {
          MarkedIgnoresStatus(s1.rows[i], s.rows[i], env);
          if s1.rows[i] != s.rows[i] {
            MarkedIgnoresStatus(Marked(s.rows[i], env), s.rows[i], env);
          }
        }
        forall j | |s.rows| <= j < |r.rows|
          ensures s.nextId <= r.rows[j].id && exists c' :: c' in fetched && SuccessorOf(r.rows[j], c', env)
        {
          if j < |s1.rows| {
            assert r.rows[j] == s1.rows[j] by {
              assert s1.rows[j].id !in Ids(fetched[1..]);
            }
            assert SuccessorOf(r.rows[j], c, env);
          } else {
            var c' :| c' in fetched[1..] && SuccessorOf(r.rows[j], c', env);
          }
        }
      }
    }
  }

  /** With no status write error the loop runs to the end and records every due fetched row. */
  lemma {:induction false} RunCompletes(s: TableState, fetched: seq<Row>, env: Env)
    requires Tracks(s, fetched) && NoStatusFaults(env)
    ensures var (r, error) := Run(s, fetched, env);
      && error.None? && |r.rows| >= |s.rows|
      && forall i :: 0 <= i < |s.rows| && s.rows[i].id in Ids(fetched) && Due(s.rows[i], env.now) ==>
           r.rows[i] == Marked(s.rows[i], env)
    decreases |fetched|
  {
    if fetched != [] {
      var c := fetched[0];
      StepEffect(s, c, env);
      var s1 := Step(s, c, env).0;
      StepKeepsTracking(s, fetched, env);
      RunCompletes(s1, fetched[1..], env);
      RunEffect(s1, fetched[1..], env);
      var r := Run(s1, fetched[1..], env).0;
      assert Ids(fetched) == {c.id} + Ids(fetched[1..]);
      forall i | 0 <= i < |s.rows| && s.rows[i].id in Ids(fetched) && Due(s.rows[i], env.now)
        ensures r.rows[i] == Marked(s.rows[i], env)
      {
        if s.rows[i].id == c.id {
          MarkedIgnoresStatus(s.rows[i], c, env);
          MarkedIgnoresStatus(Marked(s.rows[i], env), s.rows[i], env);
        }
      }
    }
  }

  /**
   * With no status write error the loop appends one successor for each fetched
   * row that spawns one, and nothing else.
   */
  lemma {:induction false} RunSpawns(s: TableState, fetched: seq<Row>, env: Env)
    requires Tracks(s, fetched) && NoStatusFaults(env)
    ensures var r := Run(s, fetched, env).0;
      && |r.rows| == |s.rows| + Seqs.Count((c: Row) => Spawns(c, env), fetched)
      && forall k :: 0 <= k < |fetched| && Spawns(fetched[k], env) ==>
           exists j :: |s.rows| <= j < |r.rows| && r.rows[j].cols == SuccessorColumns(fetched[k])
    decreases |fetched|
  {
    if fetched != [] {
      var c := fetched[0];
      StepEffect(s, c, env);
      var s1 := Step(s, c, env).0;
      StepKeepsTracking(s, fetched, env);
      RunSpawns(s1, fetched[1..], env);
      RunEffect(s1, fetched[1..], env);
      var r := Run(s1, fetched[1..], env).0;
      assert |s1.rows| == |s.rows| + (if Spawns(c, env) then 1 else 0);
      forall k | 0 <= k < |fetched| && Spawns(fetched[k], env)
        ensures exists j :: |s.rows| <= j < |r.rows| && r.rows[j].cols == SuccessorColumns(fetched[k])
      {
        if k == 0 {
          var j := |s.rows|;
          assert s1.rows[j] == Row(s.nextId, SuccessorColumns(c));
          assert s1.rows[j].id !in Ids(fetched[1..]);
          assert r.rows[j] == s1.rows[j];
        } else {
          assert fetched[k] == fetched[1..][k - 1];
        }
      }
    }
  }

  /** Under increasing ids, the row of a table that carries a member's id is that member. */
  lemma RowOfId(rows: seq<Row>, c: Row)
    requires Seqs.StrictlyIncreasingBy(rows, RowId) && c in rows
    ensures forall j :: 0 <= j < |rows| && rows[j].id == c.id ==> rows[j] == c
  {
    var m :| 0 <= m < |rows| && rows[m] == c;
    forall j | 0 <= j < |rows| && rows[j].id == c.id ensures rows[j] == c {
      assert !(j < m && RowId(rows[j]) < RowId(rows[m]));
      assert !(m < j && RowId(rows[m]) < RowId(rows[j]));
    }
  }

  /** The rows fetched by a tick are exactly the pending, not completed rows, and are tracked. */
  lemma PendingRowsTracked(s: TableState)
    requires Consistent(s)
    ensures Tracks(s, Database.PendingRows(s.rows))
    ensures forall i :: 0 <= i < |s.rows| ==> (s.rows[i].id in Ids(Database.PendingRows(s.rows)) <==> Database.IsDue(s.rows[i]))
  {
    var fetched := Database.PendingRows(s.rows);
    FetchedTracked(s);
    forall i | 0 <= i < |s.rows| ensures s.rows[i].id in Ids(fetched) <==> Database.IsDue(s.rows[i]) {
      PendingIdMeansDue(s.rows, i);
    }
  }

  /** The table a tick starts from agrees with every fetched row. */
  lemma FetchedTracked(s: TableState)
    requires Consistent(s)
    ensures Tracks(s, Database.PendingRows(s.rows))
  {
    var fetched := Database.PendingRows(s.rows);
    forall k | 0 <= k < |fetched| ensures fetched[k].id < s.nextId {
      FetchedRowIsPending(s.rows, fetched[k]);
    }
    forall j, k | 0 <= j < |s.rows| && 0 <= k < |fetched| && s.rows[j].id == fetched[k].id
      ensures SameButStatus(s.rows[j], fetched[k])
    {
      FetchedRowIsPending(s.rows, fetched[k]);
      RowOfId(s.rows, fetched[k]);
    }
  }

  /** Under increasing ids, a row's id is among the fetched ids exactly when the row is pending and not completed. */
  lemma PendingIdMeansDue(rows: seq<Row>, i: int)
    requires Seqs.StrictlyIncreasingBy(rows, RowId) && 0 <= i < |rows|
    ensures rows[i].id in Ids(Database.PendingRows(rows)) <==> Database.IsDue(rows[i])
  {
    var fetched := Database.PendingRows(rows);
    if rows[i].id in Ids(fetched) {
      var c :| c in fetched && c.id == rows[i].id;
      FetchedRowIsPending(rows, c);
      RowOfId(rows, c);
    }
    if Database.IsDue(rows[i]) {
      assert rows[i] in fetched;
    }
  }

  /** Each old row is kept, or it was pending, not completed and due, and now carries its own send outcome. */
  lemma TickRowEffect(s: TableState, env: Env)
    requires Consistent(s)
    ensures var (r, error) := TickSpec(s, env);
      && |r.rows| >= |s.rows| && r.nextId >= s.nextId
      && forall i :: 0 <= i < |s.rows| ==>
           r.rows[i] == s.rows[i] ||
           (Database.IsDue(s.rows[i]) && Due(s.rows[i], env.now) && env.statusFault(s.rows[i].id).None? &&
            r.rows[i] == Marked(s.rows[i], env))
  {
    if env.readFault.None? {
      PendingRowsTracked(s);
      RunEffect(s, Database.PendingRows(s.rows), env);
    }
  }

  /** Every row a tick adds has a fresh id and is the successor of a delivered, due, recurring pending row. */
  lemma TickSuccessors(s: TableState, env: Env)
    requires Consistent(s)
    ensures var (r, error) := TickSpec(s, env);
      forall j :: |s.rows| <= j < |r.rows| ==>
        && s.nextId <= r.rows[j].id
        && SpawnedFromPending(r.rows[j], s.rows, env)
  {
    if env.readFault.None? {
      var fetched := Database.PendingRows(s.rows);
      PendingRowsTracked(s);
      RunEffect(s, fetched, env);
      forall c | c in fetched ensures c in s.rows && Database.IsDue(c) {
        FetchedRowIsPending(s.rows, c);
      }
      SuccessorsOfFetched(s.rows, fetched, Run(s, fetched, env).0.rows, env);
    }
  }

  /**
   * With no database error a tick inserts the successor of every pending, not
   * completed row that is due, delivered and recurring, whose end date allows
   * the next occurrence and whose insert succeeds.
   */
  lemma TickSpawns(s: TableState, env: Env)
    requires Consistent(s) && env.readFault.None? && NoStatusFaults(env)
    ensures |TickSpec(s, env).0.rows| == |s.rows| + Seqs.Count((c: Row) => Spawns(c, env), Database.PendingRows(s.rows))
    ensures var r := TickSpec(s, env).0;
      forall i :: 0 <= i < |s.rows| && Database.IsDue(s.rows[i]) && Spawns(s.rows[i], env) ==>
        exists j :: |s.rows| <= j < |r.rows| && r.rows[j].cols == SuccessorColumns(s.rows[i])
  {
    var fetched := Database.PendingRows(s.rows);
    FetchedTracked(s);
    RunSpawns(s, fetched, env);
    var r := Run(s, fetched, env).0;
    assert TickSpec(s, env).0 == r;
    forall x | x in s.rows && Database.IsDue(x) ensures x in fetched {
    }
    SpawnsOfFetched(s.rows, fetched, r.rows, env);
  }

  /** A successor found for every spawning fetched row is found for every spawning pending row. */
  lemma SpawnsOfFetched(rows: seq<Row>, fetched: seq<Row>, after: seq<Row>, env: Env)
    requires forall x :: x in rows && Database.IsDue(x) ==> x in fetched
    requires forall k :: 0 <= k < |fetched| && Spawns(fetched[k], env) ==>
      exists j :: |rows| <= j < |after| && after[j].cols == SuccessorColumns(fetched[k])
    ensures forall i :: 0 <= i < |rows| && Database.IsDue(rows[i]) && Spawns(rows[i], env) ==>
      exists j :: |rows| <= j < |after| && after[j].cols == SuccessorColumns(rows[i])
  {
    forall i | 0 <= i < |rows| && Database.IsDue(rows[i]) && Spawns(rows[i], env)
      ensures exists j :: |rows| <= j < |after| && after[j].cols == SuccessorColumns(rows[i])
    {
      assert rows[i] in fetched;
      var k :| 0 <= k < |fetched| && fetched[k] == rows[i];
      assert Spawns(fetched[k], env);
    }
  }

  lemma FetchedRowIsPending(rows: seq<Row>, c: Row)
    requires c in Database.PendingRows(rows)
    ensures c in rows && Database.IsDue(c)
  {
  }

  /** `succ` is the successor of a pending, not completed row of `rows`. */
  predicate SpawnedFromPending(succ: Row, rows: seq<Row>, env: Env) {
    exists i :: 0 <= i < |rows| && Database.IsDue(rows[i]) && SuccessorOf(succ, rows[i], env)
  }

  lemma SuccessorsOfFetched(rows: seq<Row>, fetched: seq<Row>, after: seq<Row>, env: Env)
    requires forall c :: c in fetched ==> c in rows && Database.IsDue(c)
    requires forall j :: |rows| <= j < |after| ==> exists c :: c in fetched && SuccessorOf(after[j], c, env)
    ensures forall j :: |rows| <= j < |after| ==> SpawnedFromPending(after[j], rows, env)
  {
    forall j | |rows| <= j < |after| ensures SpawnedFromPending(after[j], rows, env) {
      var c :| c in fetched && SuccessorOf(after[j], c, env);
      var i :| 0 <= i < |rows| && rows[i] == c;
      assert Database.IsDue(rows[i]) && SuccessorOf(after[j], rows[i], env);
    }
  }

  /** With no database error a tick completes, records the outcome of every due pending row and leaves every other row. */
  lemma TickWithoutFaults(s: TableState, env: Env)
    requires Consistent(s) && env.readFault.None? && NoStatusFaults(env)
    ensures var (r, error) := TickSpec(s, env);
      && error.None? && |r.rows| >= |s.rows|
      && forall i :: 0 <= i < |s.rows| ==>
           r.rows[i] == if Database.IsDue(s.rows[i]) && Due(s.rows[i], env.now) then Marked(s.rows[i], env) else s.rows[i]
  {
    PendingRowsTracked(s);
    RunEffect(s, Database.PendingRows(s.rows), env);
    RunCompletes(s, Database.PendingRows(s.rows), env);
  }

  /** Once a status write fails, the rows fetched after it are not processed. */
  lemma {:induction false} RunStopsAtError(s: TableState, fetched: seq<Row>, later: seq<Row>, env: Env)
    requires Run(s, fetched, env).1.Some?
    ensures Run(s, fetched + later, env) == Run(s, fetched, env)
    decreases |fetched|
  {
    assert (fetched + later)[0] == fetched[0];
    var (s1, e1) := Step(s, fetched[0], env);
    if e1.None? {
      assert (fetched + later)[1..] == fetched[1..] + later;
      RunStopsAtError(s1, fetched[1..], later, env);
    }
  }

  /** A row is marked sent exactly when the settings are present, its method is known and the carrier accepts. */
  lemma VerdictSent(row: Row, env: Env)
    ensures var via := OrElse(row.cols.notification_method, MethodSms);
      var description := if Truthy(row.cols.description) then row.cols.description else None;
      Verdict(row, env) == Sent <==>
        && IsNotificationMethod(via)
        && Notifier.CredentialsError(env.creds).None?
        && env.carrier(
             if via == MethodSms then Notifier.SmsRequestFor(env.creds.fromNumber.value, row.cols.phone_number, row.cols.title, description)
             else Notifier.CallRequestFor(env.creds.fromNumber.value, row.cols.phone_number, row.cols.title, description)).Accepted?
  {
    Notifier.SendReminderSucceeds(env.creds, env.carrier, row.cols.phone_number, row.cols.title,
                                  if Truthy(row.cols.description) then row.cols.description else None,
                                  OrElse(row.cols.notification_method, MethodSms));
  }

  /** A run sends only due rows, and each row at most as often as it was fetched. */
  lemma {:induction false} SendsFromFetched(s: TableState, rows: seq<Row>, env: Env)
    ensures multiset(Sends(s, rows, env)) <= multiset(rows)
    ensures forall x :: x in Sends(s, rows, env) ==> Due(x, env.now)
    decreases |rows|
  {
    if rows != [] {
      var s1 := Step(s, rows[0], env).0;
      SendsFromFetched(s1, rows[1..], env);
      assert rows == [rows[0]] + rows[1..];
    }
  }

  /** A tick hands each pending, not completed, due row to the sender at most once, and no other row. */
  lemma TickSendsOnce(s: TableState, env: Env)
    requires Consistent(s)
    ensures forall x :: multiset(TickSends(s, env))[x] <= 1
    ensures forall x :: x in TickSends(s, env) ==> x in s.rows && Database.IsDue(x) && Due(x, env.now)
  {
    if env.readFault.None? {
      var fetched := Database.PendingRows(s.rows);
      SendsFromFetched(s, fetched, env);
      Seqs.FilterSubMultiset(Database.IsDue, s.rows);
      assert multiset(fetched) == multiset(Seqs.Filter(Database.IsDue, s.rows));
      Seqs.StrictlyIncreasingDistinct(s.rows, RowId);
      forall x ensures multiset(TickSends(s, env))[x] <= 1 {
        Seqs.DistinctOnce(s.rows, x);
      }
      forall x | x in TickSends(s, env) ensures x in s.rows && Database.IsDue(x) && Due(x, env.now) {
        assert x in multiset(fetched);
        FetchedRowIsPending(s.rows, x);
      }
    }
  }
}
