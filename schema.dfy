/**
 * The reminder record, its column defaults and the validation rules applied to
 * user input (the insert schema and its partial form used for edits).
 */
module Schema {
  import opened Wrappers
  import opened Calendar

  /** Row identifier. The store generates it; user input never carries one. */
  type Id = nat

  /** Delivery status of one occurrence. */
  datatype Status = Pending | Sent | Failed

  const RecurrenceNone: string := "none"
  const RecurrenceDaily: string := "daily"
  const RecurrenceWeekly: string := "weekly"
  const RecurrenceMonthly: string := "monthly"
  const MethodSms: string := "sms"
  const MethodCall: string := "call"

  /** The `recurrence_type` enum. */
  predicate IsRecurrenceType(s: string) {
    s == RecurrenceNone || s == RecurrenceDaily || s == RecurrenceWeekly || s == RecurrenceMonthly
  }

  /** The `notification_method` enum. */
  predicate IsNotificationMethod(s: string) {
    s == MethodSms || s == MethodCall
  }

  /** Column defaults of the `reminders` table. */
  const DefaultStatus: Status := Pending
  const DefaultCompleted: bool := false
  const DefaultRecurrenceType: string := RecurrenceNone
  const DefaultNotificationMethod: string := MethodSms

  const TitleMinLength: nat := 1
  const TitleMaxLength: nat := 200
  const PhoneMinLength: nat := 10

  /** A stored reminder, as the API returns it. */
  datatype Reminder = Reminder(
    id: Id,
    title: string,
    description: Option<string>,
    phoneNumber: string,
    scheduledFor: Instant,
    status: Status,
    completed: bool,
    recurrenceType: string,
    recurrenceEndDate: Option<Instant>,
    notificationMethod: string)

  /** Accepted input for a new reminder: everything but `id`, `status` and `completed`. */
  datatype InsertReminder = InsertReminder(
    title: string,
    description: Option<string>,
    phoneNumber: string,
    scheduledFor: Instant,
    recurrenceType: string,
    recurrenceEndDate: Option<Instant>,
    notificationMethod: string)

  /** Accepted input for an edit: any subset of the seven editable fields (`None` = key absent). */
  datatype ReminderPatch = ReminderPatch(
    title: Option<string>,
    description: Option<string>,
    phoneNumber: Option<string>,
    scheduledFor: Option<Instant>,
    recurrenceType: Option<string>,
    recurrenceEndDate: Option<Instant>,
    notificationMethod: Option<string>)

  /** The text of the `scheduledFor` key: empty, or a time. */
  datatype TimeText = EmptyText | At(time: Instant)

  /**
   * A request body before validation. `None` is an absent key. `id`,
   * `status` and `completed` may be sent but are stripped by the schema.
   */
  datatype ReminderForm = ReminderForm(
    id: Option<Id>,
    title: Option<string>,
    description: Option<string>,
    phoneNumber: Option<string>,
    scheduledFor: Option<TimeText>,
    status: Option<Status>,
    completed: Option<bool>,
    recurrenceType: Option<string>,
    recurrenceEndDate: Option<Instant>,
    notificationMethod: Option<string>)

  datatype Field = Title | Description | PhoneNumber | ScheduledFor | RecurrenceType | RecurrenceEndDate | NotificationMethod

  datatype IssueKind = Required | TooShort | TooLong | BadFormat | NotInEnum

  datatype Issue = Issue(field: Field, kind: IssueKind)

  /** The outcome of `safeParse`. */
  datatype Parsed<T> = Parsed(value: T) | Rejected(issues: seq<Issue>)

  /** JavaScript's `length`: UTF-16 code units, two for a character outside the Basic Multilingual Plane. */
  function Utf16Length(s: string): nat {
    if s == [] then 0 else (if s[0] as int >= 0x1_0000 then 2 else 1) + Utf16Length(s[1..])
  }

  /** For a text inside the Basic Multilingual Plane the two lengths agree. */
  lemma {:induction false} Utf16LengthBmp(s: string)
    requires forall i :: 0 <= i < |s| ==> s[i] as int < 0x1_0000
    ensures Utf16Length(s) == |s|
  {
    if s != [] {
      assert forall i :: 0 <= i < |s[1..]| ==> s[1..][i] == s[i + 1];
      Utf16LengthBmp(s[1..]);
    }
  }

  predicate IsDigit(c: char) {
    '0' <= c <= '9'
  }

  predicate AllDigits(s: string) {
    forall i :: 0 <= i < |s| ==> IsDigit(s[i])
  }

  /** `[1-9]\d{1,14}`: a non-zero digit followed by one to fourteen digits. */
  predicate DialDigits(b: string) {
    2 <= |b| <= 15 && '1' <= b[0] <= '9' && AllDigits(b[1..])
  }

  /** The regular expression `^\+?[1-9]\d{1,14}$`. */
  predicate MatchesPhonePattern(s: string) {
    if |s| > 0 && s[0] == '+' then DialDigits(s[1..]) else DialDigits(s)
  }

  /** The phone rule: at least ten code units and the E.164-like pattern. */
  predicate PhoneAccepted(s: string) {
    Utf16Length(s) >= PhoneMinLength && MatchesPhonePattern(s)
  }

  /** The title rule: 1 to 200 code units. */
  predicate TitleAccepted(s: string) {
    TitleMinLength <= Utf16Length(s) <= TitleMaxLength
  }

  /** An accepted phone number has 10 to 16 characters, all digits except an optional leading `+`. */
  lemma PhoneAcceptedShape(s: string)
    requires PhoneAccepted(s)
    ensures 10 <= |s| <= 16
    ensures forall i :: 0 <= i < |s| ==> IsDigit(s[i]) || (i == 0 && s[i] == '+')
    ensures s[0] == '+' ==> s[1] != '0'
    ensures s[0] != '+' ==> |s| <= 15 && s[0] != '0'
  {
    if s[0] == '+' {
      var b := s[1..];
      forall i | 1 <= i < |s| ensures IsDigit(s[i]) {
        if i > 1 { assert s[i] == b[1..][i - 2]; }
      }
    } else {
      forall i | 1 <= i < |s| ensures IsDigit(s[i]) {
        assert s[i] == s[1..][i - 1];
      }
    }
    Utf16LengthBmp(s);
  }

  /** `n` copies of one emoji take `2 * n` code units. */
  lemma {:induction false} RepeatedEmojiLength(n: nat)
    ensures Utf16Length(seq(n, _ => '\U{1F600}')) == 2 * n
  {
    if n > 0 {
      var s := seq(n, _ => '\U{1F600}');
      assert s[1..] == seq(n - 1, _ => '\U{1F600}');
      RepeatedEmojiLength(n - 1);
    }
  }

  /** A title of 101 emoji is 202 code units long, so the title rule rejects it. */
  lemma EmojiTitleTooLong()
    ensures var t := seq(101, _ => '\U{1F600}'); |t| == 101 && TitleIssues(Some(t)) == [Issue(Title, TooLong)]
  {
    RepeatedEmojiLength(101);
  }

  function TitleIssues(t: Option<string>): (r: seq<Issue>)
    ensures r == [] <==> t.Some? && TitleAccepted(t.value)
  {
    match t
    case None => [Issue(Title, Required)]
    case Some(s) =>
      if Utf16Length(s) < TitleMinLength then [Issue(Title, TooShort)]
      else if Utf16Length(s) > TitleMaxLength then [Issue(Title, TooLong)]
      else []
  }

  function PhoneIssues(p: Option<string>): (r: seq<Issue>)
    ensures r == [] <==> p.Some? && PhoneAccepted(p.value)
  {
    match p
    case None => [Issue(PhoneNumber, Required)]
    case Some(s) =>
      (if Utf16Length(s) < PhoneMinLength then [Issue(PhoneNumber, TooShort)] else [])
      + (if !MatchesPhonePattern(s) then [Issue(PhoneNumber, BadFormat)] else [])
  }

  function EnumIssues(f: Field, v: Option<string>, allowed: string -> bool): (r: seq<Issue>)
    ensures r == [] <==> v.None? || allowed(v.value)
  {
    if v.Some? && !allowed(v.value) then [Issue(f, NotInEnum)] else []
  }

  /** `.min(1)` on the schedule text: an empty text is an issue, an absent key is not. */
  function ScheduleIssues(t: Option<TimeText>): (r: seq<Issue>)
    ensures r == [] <==> t != Some(EmptyText)
  {
    if t == Some(EmptyText) then [Issue(ScheduledFor, TooShort)] else []
  }

  /** Every issue `safeParse` of the insert schema reports, in field order. */
  function InsertIssues(f: ReminderForm): seq<Issue> {
    TitleIssues(f.title)
    + PhoneIssues(f.phoneNumber)
    + (if f.scheduledFor.None? then [Issue(ScheduledFor, Required)] else [])
    + ScheduleIssues(f.scheduledFor)
    + EnumIssues(RecurrenceType, f.recurrenceType, IsRecurrenceType)
    + EnumIssues(NotificationMethod, f.notificationMethod, IsNotificationMethod)
  }

  /** `insertReminderSchema.safeParse(body)`. */
  function ValidateInsert(f: ReminderForm): (r: Parsed<InsertReminder>)
    ensures r.Parsed? <==>
      && f.title.Some? && TitleAccepted(f.title.value)
      && f.phoneNumber.Some? && PhoneAccepted(f.phoneNumber.value)
      && f.scheduledFor.Some? && f.scheduledFor.value.At?
      && (f.recurrenceType.None? || IsRecurrenceType(f.recurrenceType.value))
      && (f.notificationMethod.None? || IsNotificationMethod(f.notificationMethod.value))
    ensures r.Rejected? ==> |r.issues| > 0
  {
    var issues := InsertIssues(f);
    if issues != [] then Rejected(issues)
    else Parsed(InsertReminder(
      f.title.value,
      f.description,
      f.phoneNumber.value,
      f.scheduledFor.value.time,
      f.recurrenceType.GetOr(DefaultRecurrenceType),
      f.recurrenceEndDate,
      f.notificationMethod.GetOr(DefaultNotificationMethod)))
  }

  /** An accepted insert satisfies every field rule, with the enum defaults filled in. */
  lemma ValidateInsertValue(f: ReminderForm)
    requires ValidateInsert(f).Parsed?
    ensures var v := ValidateInsert(f).value;
      && TitleAccepted(v.title) && PhoneAccepted(v.phoneNumber)
      && IsRecurrenceType(v.recurrenceType) && IsNotificationMethod(v.notificationMethod)
      && v.title == f.title.value && v.phoneNumber == f.phoneNumber.value
      && v.scheduledFor == f.scheduledFor.value.time
      && v.description == f.description && v.recurrenceEndDate == f.recurrenceEndDate
      && (f.recurrenceType.None? ==> v.recurrenceType == RecurrenceNone)
      && (f.recurrenceType.Some? ==> v.recurrenceType == f.recurrenceType.value)
      && (f.notificationMethod.None? ==> v.notificationMethod == MethodSms)
      && (f.notificationMethod.Some? ==> v.notificationMethod == f.notificationMethod.value)
  {
  }

  /** `id`, `status` and `completed` in the body have no effect on the outcome. */
  lemma ValidateInsertIgnoresOmitted(f: ReminderForm, id: Option<Id>, status: Option<Status>, completed: Option<bool>)
    ensures ValidateInsert(f) == ValidateInsert(f.(id := id, status := status, completed := completed))
  {
  }

  /** Every reported issue names a rule the body breaks. */
  lemma InsertIssuesAreReal(f: ReminderForm, i: Issue)
    requires i in InsertIssues(f)
    ensures i.field == Title ==> !(f.title.Some? && TitleAccepted(f.title.value))
    ensures i.field == PhoneNumber ==> !(f.phoneNumber.Some? && PhoneAccepted(f.phoneNumber.value))
    ensures i.field == ScheduledFor ==> f.scheduledFor.None? || f.scheduledFor == Some(EmptyText)
    ensures i.field == RecurrenceType ==> f.recurrenceType.Some? && !IsRecurrenceType(f.recurrenceType.value)
    ensures i.field == NotificationMethod ==> f.notificationMethod.Some? && !IsNotificationMethod(f.notificationMethod.value)
    ensures i.field != Description && i.field != RecurrenceEndDate
  {
  }

  /** Issues of the partial schema: each field is checked only when it is present. */
  function PatchIssues(f: ReminderForm): seq<Issue> {
    (if f.title.Some? then TitleIssues(f.title) else [])
    + (if f.phoneNumber.Some? then PhoneIssues(f.phoneNumber) else [])
    + ScheduleIssues(f.scheduledFor)
    + EnumIssues(RecurrenceType, f.recurrenceType, IsRecurrenceType)
    + EnumIssues(NotificationMethod, f.notificationMethod, IsNotificationMethod)
  }

  /** `insertReminderSchema.partial().safeParse(body)`: absent keys stay absent, no defaults. */
  function ValidatePatch(f: ReminderForm): (r: Parsed<ReminderPatch>)
    ensures r.Parsed? <==>
      && (f.title.None? || TitleAccepted(f.title.value))
      && (f.phoneNumber.None? || PhoneAccepted(f.phoneNumber.value))
      && f.scheduledFor != Some(EmptyText)
      && (f.recurrenceType.None? || IsRecurrenceType(f.recurrenceType.value))
      && (f.notificationMethod.None? || IsNotificationMethod(f.notificationMethod.value))
    ensures r.Parsed? ==> r.value == ReminderPatch(f.title, f.description, f.phoneNumber,
      if f.scheduledFor.Some? then Some(f.scheduledFor.value.time) else None,
      f.recurrenceType, f.recurrenceEndDate, f.notificationMethod)
    ensures r.Rejected? ==> |r.issues| > 0
  {
    var issues := PatchIssues(f);
    if issues != [] then Rejected(issues)
    else Parsed(ReminderPatch(f.title, f.description, f.phoneNumber,
      if f.scheduledFor.Some? then Some(f.scheduledFor.value.time) else None,
      f.recurrenceType, f.recurrenceEndDate, f.notificationMethod))
  }

  /** A patch that passed the partial schema carries only values the full schema accepts. */
  predicate PatchWellFormed(p: ReminderPatch) {
    && (p.title.Some? ==> TitleAccepted(p.title.value))
    && (p.phoneNumber.Some? ==> PhoneAccepted(p.phoneNumber.value))
    && (p.recurrenceType.Some? ==> IsRecurrenceType(p.recurrenceType.value))
    && (p.notificationMethod.Some? ==> IsNotificationMethod(p.notificationMethod.value))
  }

  /** An accepted insert carries only values the schema accepts. */
  predicate InsertWellFormed(v: InsertReminder) {
    TitleAccepted(v.title) && PhoneAccepted(v.phoneNumber)
    && IsRecurrenceType(v.recurrenceType) && IsNotificationMethod(v.notificationMethod)
  }

  lemma ValidatePatchWellFormed(f: ReminderForm)
    requires ValidatePatch(f).Parsed?
    ensures PatchWellFormed(ValidatePatch(f).value)
  {
  }
}
