/**
 * The `reminders` table as the database stores it (snake_case columns) and
 * the pure pieces of the database-backed repository: the row-to-record
 * mapping with its defaults, the insert values and the column set of a
 * partial update.
 */
module Rows {
  import opened Wrappers
  import opened Calendar
  import opened Schema
  import MemStore

  /** Every column but the generated `id`. Nullable text columns are `Option`s. */
  datatype Columns = Columns(
    user_id: string,
    title: string,
    description: Option<string>,
    phone_number: string,
    scheduled_for: Instant,
    status: Status,
    completed: bool,
    recurrence_type: Option<string>,
    recurrence_end_date: Option<Instant>,
    notification_method: Option<string>)

  datatype Row = Row(id: Id, cols: Columns)

  function RowId(r: Row): int {
    r.id
  }

  /** The `order('scheduled_for', { ascending: true })` key. */
  function RowKey(r: Row): int {
    Millis(r.cols.scheduled_for)
  }

  /** The row-to-record mapping: a falsy recurrence type reads as `none`, a falsy method as `sms`. */
  function ToReminder(row: Row): (r: Reminder)
    ensures r.id == row.id && r.title == row.cols.title && r.description == row.cols.description
    ensures r.phoneNumber == row.cols.phone_number && r.scheduledFor == row.cols.scheduled_for
    ensures r.status == row.cols.status && r.completed == row.cols.completed
    ensures Truthy(row.cols.recurrence_type) ==> r.recurrenceType == row.cols.recurrence_type.value
    ensures !Truthy(row.cols.recurrence_type) ==> r.recurrenceType == RecurrenceNone
    ensures r.recurrenceEndDate == row.cols.recurrence_end_date
    ensures Truthy(row.cols.notification_method) ==> r.notificationMethod == row.cols.notification_method.value
    ensures !Truthy(row.cols.notification_method) ==> r.notificationMethod == MethodSms
  {
    var c := row.cols;
    Reminder(row.id, c.title, c.description, c.phone_number, c.scheduled_for, c.status, c.completed,
      OrElse(c.recurrence_type, RecurrenceNone), c.recurrence_end_date, OrElse(c.notification_method, MethodSms))
  }

  /** Columns whose enum text is either missing or one of the enum's values. */
  predicate EnumColumnsValid(c: Columns) {
    && (c.recurrence_type.None? || c.recurrence_type.value == "" || IsRecurrenceType(c.recurrence_type.value))
    && (c.notification_method.None? || c.notification_method.value == "" || IsNotificationMethod(c.notification_method.value))
  }

  /** After the defaults, a record always carries one of the enum values. */
  lemma ToReminderEnums(row: Row)
    requires EnumColumnsValid(row.cols)
    ensures IsRecurrenceType(ToReminder(row).recurrenceType)
    ensures IsNotificationMethod(ToReminder(row).notificationMethod)
  {
  }

  /** The values `createReminder` inserts for the signed-in user. */
  function InsertColumns(userId: string, r: InsertReminder): (c: Columns)
    ensures c.user_id == userId && c.status == Pending && !c.completed
    ensures c.description == (if Truthy(r.description) then r.description else None)
    ensures c.title == r.title && c.phone_number == r.phoneNumber && c.scheduled_for == r.scheduledFor
    ensures c.recurrence_type == Some(OrElse(Some(r.recurrenceType), RecurrenceNone))
    ensures c.recurrence_end_date == r.recurrenceEndDate
    ensures c.notification_method == Some(OrElse(Some(r.notificationMethod), MethodSms))
  {
    Columns(userId, r.title, if Truthy(r.description) then r.description else None, r.phoneNumber,
      r.scheduledFor, DefaultStatus, DefaultCompleted, Some(OrElse(Some(r.recurrenceType), RecurrenceNone)),
      r.recurrenceEndDate, Some(OrElse(Some(r.notificationMethod), MethodSms)))
  }

  /** Both repositories turn accepted input into the same record. */
  lemma InsertAgreesWithMemStore(userId: string, id: Id, r: InsertReminder)
    requires InsertWellFormed(r)
    ensures ToReminder(Row(id, InsertColumns(userId, r))) == MemStore.NewReminder(id, r)
  {
  }

  /** A value in an update body. */
  datatype Value = Text(text: string) | Timestamp(at: Instant) | Flag(flag: bool) | StatusText(status: Status)

  /**
   * The columns an update body may name: `user_id`, `title`, `description`,
   * `phone_number`, `scheduled_for`, `status`, `completed`, `recurrence_type`,
   * `recurrence_end_date` and `notification_method`.
   */
  datatype Column =
    | UserIdColumn | TitleColumn | DescriptionColumn | PhoneNumberColumn | ScheduledForColumn
    | StatusColumn | CompletedColumn | RecurrenceTypeColumn | RecurrenceEndDateColumn | NotificationMethodColumn

  const EditableColumns: set<Column> :=
    {TitleColumn, DescriptionColumn, PhoneNumberColumn, ScheduledForColumn,
     RecurrenceTypeColumn, RecurrenceEndDateColumn, NotificationMethodColumn}

  /** `dbUpdates` of `updateReminder`: one snake_case column per supplied field. */
  function Projection(p: ReminderPatch): (m: map<Column, Value>)
    ensures m.Keys <= EditableColumns
    ensures StatusColumn !in m && CompletedColumn !in m && UserIdColumn !in m
    ensures (TitleColumn in m <==> p.title.Some?) && (p.title.Some? ==> m[TitleColumn] == Text(p.title.value))
    ensures (DescriptionColumn in m <==> p.description.Some?) && (p.description.Some? ==> m[DescriptionColumn] == Text(p.description.value))
    ensures (PhoneNumberColumn in m <==> p.phoneNumber.Some?) && (p.phoneNumber.Some? ==> m[PhoneNumberColumn] == Text(p.phoneNumber.value))
    ensures (ScheduledForColumn in m <==> p.scheduledFor.Some?) && (p.scheduledFor.Some? ==> m[ScheduledForColumn] == Timestamp(p.scheduledFor.value))
    ensures (RecurrenceTypeColumn in m <==> p.recurrenceType.Some?) && (p.recurrenceType.Some? ==> m[RecurrenceTypeColumn] == Text(p.recurrenceType.value))
    ensures (RecurrenceEndDateColumn in m <==> p.recurrenceEndDate.Some?) && (p.recurrenceEndDate.Some? ==> m[RecurrenceEndDateColumn] == Timestamp(p.recurrenceEndDate.value))
    ensures (NotificationMethodColumn in m <==> p.notificationMethod.Some?) && (p.notificationMethod.Some? ==> m[NotificationMethodColumn] == Text(p.notificationMethod.value))
  {
    map c | c in EditableColumns && Supplied(p, c).Some? :: Supplied(p, c).value
  }

  /** The value an edit supplies for a column, when it names the corresponding field. */
  function Supplied(p: ReminderPatch, c: Column): Option<Value> {
    match c
    case TitleColumn => if p.title.Some? then Some(Text(p.title.value)) else None
    case DescriptionColumn => if p.description.Some? then Some(Text(p.description.value)) else None
    case PhoneNumberColumn => if p.phoneNumber.Some? then Some(Text(p.phoneNumber.value)) else None
    case ScheduledForColumn => if p.scheduledFor.Some? then Some(Timestamp(p.scheduledFor.value)) else None
    case RecurrenceTypeColumn => if p.recurrenceType.Some? then Some(Text(p.recurrenceType.value)) else None
    case RecurrenceEndDateColumn => if p.recurrenceEndDate.Some? then Some(Timestamp(p.recurrenceEndDate.value)) else None
    case NotificationMethodColumn => if p.notificationMethod.Some? then Some(Text(p.notificationMethod.value)) else None
    case _ => None
  }

  function TextColumn(m: map<Column, Value>, c: Column, current: string): string {
    if c in m && m[c].Text? then m[c].text else current
  }

  function NullableTextColumn(m: map<Column, Value>, c: Column, current: Option<string>): Option<string> {
    if c in m && m[c].Text? then Some(m[c].text) else current
  }

  /** What an `UPDATE ... SET` with the given body does to one row's columns. */
  function Assign(c: Columns, m: map<Column, Value>): Columns {
    Columns(
      TextColumn(m, UserIdColumn, c.user_id),
      TextColumn(m, TitleColumn, c.title),
      NullableTextColumn(m, DescriptionColumn, c.description),
      TextColumn(m, PhoneNumberColumn, c.phone_number),
      if ScheduledForColumn in m && m[ScheduledForColumn].Timestamp? then m[ScheduledForColumn].at else c.scheduled_for,
      if StatusColumn in m && m[StatusColumn].StatusText? then m[StatusColumn].status else c.status,
      if CompletedColumn in m && m[CompletedColumn].Flag? then m[CompletedColumn].flag else c.completed,
      NullableTextColumn(m, RecurrenceTypeColumn, c.recurrence_type),
      if RecurrenceEndDateColumn in m && m[RecurrenceEndDateColumn].Timestamp? then Some(m[RecurrenceEndDateColumn].at) else c.recurrence_end_date,
      NullableTextColumn(m, NotificationMethodColumn, c.notification_method))
  }

  /** An edit never touches the owner, the status or the completed flag. */
  lemma ProjectionKeepsLifecycle(c: Columns, p: ReminderPatch)
    ensures var c' := Assign(c, Projection(p));
      c'.user_id == c.user_id && c'.status == c.status && c'.completed == c.completed
  {
  }

  /** Both repositories apply an accepted edit in the same way. */
  lemma UpdateAgreesWithMemStore(row: Row, p: ReminderPatch)
    requires PatchWellFormed(p)
    ensures ToReminder(Row(row.id, Assign(row.cols, Projection(p)))) == MemStore.ApplyPatch(ToReminder(row), p)
  {
  }

  /** `update({ status })` changes the status and nothing else. */
  lemma StatusAssignmentOnlyStatus(c: Columns, s: Status)
    ensures Assign(c, map[StatusColumn := StatusText(s)]) == c.(status := s)
  {
  }

  /** `update({ completed: true })` changes the flag and nothing else. */
  lemma CompletedAssignmentOnlyCompleted(c: Columns)
    ensures Assign(c, map[CompletedColumn := Flag(true)]) == c.(completed := true)
  {
  }
}
