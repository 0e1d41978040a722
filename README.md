# Reminder scheduling engine: a verified model

This project models the back end of a reminder service and its dashboard
rules in Dafny. Users save reminders: a title, an optional description, a
phone number, a time, a recurrence rule and a delivery method (SMS or
voice call). A background scheduler sends each reminder once it is due. It
then records the outcome on the row and, for a recurring reminder that was
delivered, inserts the next occurrence.

The modules follow the repository's files:

- `Calendar` (calendar.dfy): UTC civil time. `Millis` counts milliseconds
  since the epoch, as `getTime()` does. `Normalize`, `AddDays` and
  `AddMonths1` give the day overflow of `setDate` and `setMonth`, so
  Jan 31 plus one month is Mar 3 (Mar 2 in a leap year).
- `Schema` (schema.dfy): the record, its column defaults, and the insert
  schema and its partial form as validators over a request body.
- `Notifier` (notifier.dfy): destination formatting, the SMS and voice
  texts, the credential checks and the dispatch on the delivery method.
  The carrier is a function from the request the sender submits to the
  carrier's answer.
- `MemStore` (memstore.dfy): the in-memory repository, a class whose map
  field is updated in place, plus the map's insertion order.
- `Rows` and `Database` (rows.dfy, database.dfy): the database-backed
  repository. `Database.Table` is a class that stands in for the hosted
  table, with rows in insertion order and ids from a serial. The
  `SupabaseStorage` class is the per-user view, and the module-level
  methods are the scheduler's unscoped queries. A database error is a
  `fault` argument: when it is present, the statement does not run and
  the operation reports the source's message.
- `Scheduler` (scheduler.dfy): `calculateNextOccurrence`,
  `createNextRecurrence` and one tick. `Tick` fetches the pending rows
  and hands them to `ProcessAll`, a loop that calls `Process` once per row. It is proved equal to the
  specification functions `TickSpec` (the new table and the error) and
  `TickSends` (the rows handed to the sender). Lemmas then state what a
  tick does to every old row, which rows it adds, and that it sends each
  row at most once.
- `Home`, `Analytics`, `ReminderCard` (home.dfy, analytics.dfy,
  reminder_card.dfy): the dashboard's three lists, its counts and the
  card labels.
- `Wrappers` and `Seqs`: `Option`/`Result`, JavaScript truthiness and
  `||`, and `filter`, `filter(...).length` and `sort` with their lemmas.

Where the description of the system and the code differ, the model follows
the code:

- The database by-id operations filter on the id only, with no user
  filter, and the model writes them that way.
- The successor row copies the predecessor's `recurrence_type` as stored.
- The tick reads the table with its own query, not through
  `getAllPendingReminders`.

## Model

| member | source | states |
|---|---|---|
| Wrappers.OrElse | server/scheduler.ts:85 | `x \|\| d` on nullable text: the value when it is non-empty, the default otherwise |
| Calendar.Normalize | server/scheduler.ts:15-21 | a day of month past the month's end rolls into the following months; the day number and the time of day are kept |
| Calendar.AddDays | server/scheduler.ts:14-19 | adding n days moves the instant by exactly n·86400000 ms and keeps the time of day |
| Calendar.AddMonths1 | server/scheduler.ts:20-22 | one month on moves the instant by the length of the current month and keeps the time of day |
| Calendar.AddMonths1KeepsDay | server/scheduler.ts:20-22 | when the next month has the day, the result is that day of the next month |
| Calendar.AddMonths1RollsOver | server/scheduler.ts:20-22 | when it does not, the excess days land in the month after |
| Calendar.JanuaryThirtyFirstPlusOneMonth | server/scheduler.ts:20-22 | 2025-01-31 plus one month is 2025-03-03 |
| Calendar.LeapJanuaryThirtyFirstPlusOneMonth | server/scheduler.ts:20-22 | 2024-01-31 plus one month is 2024-03-02 |
| Seqs.SortBy | server/storage.ts:23-25 | sorting with a numeric comparator gives an ascending permutation of the input |
| Schema.PhoneAcceptedShape | shared/schema.ts:22-24 | an accepted phone number has 10 to 16 characters, all digits except an optional leading `+`, and no leading zero |
| Schema.Utf16LengthBmp | shared/schema.ts:20-25 | lengths are JavaScript `length`, UTF-16 code units; inside the Basic Multilingual Plane that is the number of characters |
| Schema.EmojiTitleTooLong | shared/schema.ts:20 | a title of 101 emoji is 202 code units and is rejected as too long |
| Schema.TitleIssues | shared/schema.ts:20 | no issue exactly when the title is present and 1 to 200 UTF-16 code units long |
| Schema.PhoneIssues | shared/schema.ts:22-24 | no issue exactly when the number is present, at least 10 code units long and matches `^\+?[1-9]\d{1,14}$` |
| Schema.ScheduleIssues | shared/schema.ts:25 | an issue exactly when the schedule text is present and empty |
| Schema.EnumIssues | shared/schema.ts:26-28 | no issue exactly when the value is absent or in the enum |
| Schema.ValidateInsert | shared/schema.ts:19-33 | the body is accepted exactly when title, phone and a non-empty time are present and valid and the enums are valid; a rejection carries at least one issue |
| Schema.ValidateInsertValue | shared/schema.ts:19-33 | an accepted input copies the fields and fills `none` and `sms` for missing enums |
| Schema.ValidateInsertIgnoresOmitted | shared/schema.ts:29-33 | `id`, `status` and `completed` in the body do not change the outcome |
| Schema.InsertIssuesAreReal | shared/schema.ts:19-28 | every reported issue names a rule the body breaks; optional fields never have issues |
| Schema.ValidatePatch | server/routes.ts:46 | the partial schema accepts exactly when every present field is valid (an empty schedule text is not), and keeps absent fields absent with no defaults |
| Schema.ValidatePatchWellFormed | server/routes.ts:46 | an accepted edit carries only values the full schema accepts |
| Notifier.FormatPhone | server/twilio.ts:41-50 | the destination always starts with `+` and ends with the input, at most two characters longer |
| Notifier.FormatPhoneIdempotent | server/twilio.ts:41-50 | formatting a formatted number changes nothing |
| Notifier.FormatPhoneKeepsPlus | server/twilio.ts:41-42 | a number starting with `+` is dialled unchanged |
| Notifier.FormatPhoneCountryCode | server/twilio.ts:45-46 | eleven digits starting with 1 get only `+` |
| Notifier.FormatPhoneOtherwise | server/twilio.ts:47-49 | every other number gets `+1` in front |
| Notifier.FormatPhoneTenDigits | server/twilio.ts:47-49 | a bare ten-digit number gets the `+1` prefix |
| Notifier.FormatAcceptedPhone | server/twilio.ts:41-50 | an accepted phone number becomes `+` and digits, at most 17 characters |
| Notifier.SmsBody | server/twilio.ts:33-36 | the SMS text, with the description after a blank line only when it is non-empty |
| Notifier.VoiceText | server/twilio.ts:80-83 | the spoken text, with the details only when the description is non-empty |
| Notifier.CredentialsError | server/twilio.ts:3-22 | no error exactly when account, token and sender number are all set |
| Notifier.SendReminderSms | server/twilio.ts:24-69 | missing settings and carrier errors become a failed result, never an exception; success carries the message id |
| Notifier.MakeReminderCall | server/twilio.ts:71-118 | the same contract for a voice call |
| Notifier.SendReminder | server/twilio.ts:120-129 | `sms` and `call` go to their paths; any other method fails with "Invalid notification method" |
| Notifier.SendReminderSucceeds | server/twilio.ts:120-129 | a send succeeds exactly when the method is known, the settings are present and the carrier accepts the request |
| Notifier.InvalidMethodIgnoresCarrier | server/twilio.ts:126-127 | an unknown method gives the same result whatever the carrier and settings, so there is no carrier call |
| Notifier.PathsShareDestination | server/twilio.ts:90-99 | the SMS and voice paths dial the same formatted number |
| MemStore.NewReminder | server/storage.ts:34-40 | the stored record is the input with a fresh id, pending, not completed, an empty description made null |
| MemStore.ApplyPatch | server/storage.ts:49-52 | each supplied field replaces the stored one; id, status and completed are kept |
| MemStore.EmptyPatchIsIdentity | server/storage.ts:49-52 | an edit with no fields changes nothing |
| MemStore.ApplyPatchIdempotent | server/storage.ts:49-52 | applying the same edit twice equals applying it once |
| MemStore.ApplyPatchOverrides | server/storage.ts:49-52 | each of the seven editable fields, when supplied, decides that field of the result whatever the record held before |
| MemStore.Lookup | server/storage.ts:23 | the values in key order, one per key |
| MemStore.LookupValues | server/storage.ts:23 | the listed values are exactly the map's values |
| MemStore.LookupCount | server/storage.ts:23 | each stored record is listed exactly once |
| MemStore.MemStorage.constructor | server/storage.ts:18-20 | the store starts empty |
| MemStore.MemStorage.GetReminders | server/storage.ts:22-26 | every stored reminder exactly once, ascending by time |
| MemStore.MemStorage.GetReminder | server/storage.ts:28-30 | the record under the id, or nothing |
| MemStore.MemStorage.CreateReminder | server/storage.ts:32-43 | stores `NewReminder` under an unused id; no other entry changes |
| MemStore.MemStorage.UpdateReminder | server/storage.ts:45-55 | a missing id gives nothing and no change; otherwise only that entry becomes `ApplyPatch` of it |
| MemStore.MemStorage.DeleteReminder | server/storage.ts:57-59 | true exactly when the id was stored; afterwards the id is gone and the other entries are kept |
| MemStore.MemStorage.CompleteReminder | server/storage.ts:61-71 | sets only `completed` on that entry; a second call changes nothing; nothing for a missing id |
| MemStore.MemStorage.MarkReminderAsSent | server/storage.ts:73-83 | sets only `status` to sent on that entry; nothing for a missing id |
| MemStore.MemStorage.MarkReminderAsFailed | server/storage.ts:85-95 | sets only `status` to failed on that entry; nothing for a missing id |
| MemStore.CreateThenCompleteTwice | server/storage.ts:61-71 | creating and completing twice leaves a completed, still pending record |
| Rows.ToReminder | server/supabase-storage.ts:47-58 | columns are copied; a falsy recurrence type reads as `none` and a falsy method as `sms` |
| Rows.ToReminderEnums | server/supabase-storage.ts:55-57 | after the defaults a record always carries enum values |
| Rows.InsertColumns | server/supabase-storage.ts:99-110 | the user's id, pending, not completed, an empty description made null, enum defaults |
| Rows.InsertAgreesWithMemStore | server/supabase-storage.ts:99-110 | for accepted input both repositories create the same record |
| Rows.Projection | server/supabase-storage.ts:134-141 | the update body has exactly the columns of the supplied fields, each with the supplied value, never status, completed or user id |
| Rows.ProjectionKeepsLifecycle | server/supabase-storage.ts:134-141 | an edit never changes the owner, the status or the completed flag |
| Rows.UpdateAgreesWithMemStore | server/supabase-storage.ts:133-172 | for an accepted edit both repositories produce the same record |
| Rows.StatusAssignmentOnlyStatus | server/supabase-storage.ts:223 | a status update changes the status and nothing else |
| Rows.CompletedAssignmentOnlyCompleted | server/supabase-storage.ts:191 | a completion update changes the flag and nothing else |
| Database.UpdateWhere | server/supabase-storage.ts:143-146 | the rows with the id are updated and every other row is kept, in place |
| Database.Single | server/supabase-storage.ts:66-76 | one row gives its record; no row (PGRST116) gives nothing |
| Database.PendingRows | server/supabase-storage.ts:300-306 | a permutation of the pending, not completed rows, ascending by time |
| Database.RowsOfUser | server/supabase-storage.ts:36-40 | a permutation of the user's rows, ascending by time |
| Database.MapToReminders | server/supabase-storage.ts:313-324 | each row mapped by `ToReminder`, in order |
| Database.Table.constructor | shared/schema.ts:6-17 | the table starts empty |
| Database.Table.Insert | server/supabase-storage.ts:97-112 | appends one row with a fresh id that is unused |
| Database.Table.Update | server/supabase-storage.ts:143-148 | rows become `UpdateWhere`, and the touched rows are returned |
| Database.Table.Delete | server/supabase-storage.ts:175-178 | removes exactly the rows with the id |
| Database.WithIdAtMostOne | shared/schema.ts:7 | with increasing ids at most one row matches an id, and a present id matches exactly its row |
| Database.SupabaseStorage.constructor | server/supabase-storage.ts:13-25 | no user id is set |
| Database.SupabaseStorage.SetUserId | server/supabase-storage.ts:27-29 | the user id is set |
| Database.SupabaseStorage.GetReminders | server/supabase-storage.ts:31-59 | "User ID not set" without a user, the fetch error message on a fault, otherwise the user's records in time order |
| Database.SupabaseStorage.GetReminder | server/supabase-storage.ts:61-90 | the record with the id, nothing when no row matches, the error message on a fault |
| Database.SupabaseStorage.CreateReminder | server/supabase-storage.ts:92-131 | "User ID not set" without a user; otherwise one row with `InsertColumns` is appended and its record returned |
| Database.SupabaseStorage.UpdateReminder | server/supabase-storage.ts:133-172 | writes exactly `Projection` of the edit to the row with the id; nothing when no row matches |
| Database.SupabaseStorage.DeleteReminder | server/supabase-storage.ts:174-186 | false only on a database error, true otherwise, even when no row matched |
| Database.SupabaseStorage.CompleteReminder | server/supabase-storage.ts:188-218 | sets `completed` on the row with the id; nothing when no row matches |
| Database.SupabaseStorage.MarkReminderAsSent | server/supabase-storage.ts:220-250 | sets `status` to sent on the row with the id; nothing when no row matches |
| Database.SupabaseStorage.MarkReminderAsFailed | server/supabase-storage.ts:252-282 | sets `status` to failed on the row with the id; nothing when no row matches |
| Database.CreateStorage | server/supabase-storage.ts:286-292 | the user id is set exactly when a non-empty one was given |
| Database.GetAllPendingReminders | server/supabase-storage.ts:300-325 | the error message on a fault; otherwise the records of the pending, not completed rows, each as often as its row occurs, ascending by time |
| Database.PendingRemindersMeaning | server/supabase-storage.ts:300-325 | the mapped pending rows are sorted and are a permutation of the records of the pending, not completed rows |
| Database.MapPermutation | server/supabase-storage.ts:313-324 | mapping rows to records turns a permutation into a permutation |
| Database.MapKeepsOrder | server/supabase-storage.ts:313-324 | mapping rows to records keeps the time order |
| Database.MapMembers | server/supabase-storage.ts:313-324 | the mapped records are exactly the records of the rows |
| Database.MarkReminderAsSentById | server/supabase-storage.ts:327-337 | overwrites `status` with sent whatever it was; a fault is reported and nothing changes |
| Database.MarkReminderAsFailedById | server/supabase-storage.ts:339-349 | overwrites `status` with failed whatever it was; a fault is reported and nothing changes |
| Database.StatusWriteOnlyThatRow | server/supabase-storage.ts:327-349 | a status write by id changes only that row's status |
| Database.SingleAfterUpdate | server/supabase-storage.ts:143-158 | after updating an existing row, `.single()` returns that row as updated |
| Database.UpdateMissingId | server/supabase-storage.ts:150-153 | updating a missing id changes nothing and reports no row |
| Scheduler.CalculateNextOccurrence | server/scheduler.ts:10-28 | daily adds one day, weekly seven days, monthly the current month's length; any other rule returns the input |
| Scheduler.NextOccurrenceLater | server/scheduler.ts:13-25 | the next occurrence is strictly later exactly for daily, weekly and monthly |
| Scheduler.MonthlyKeepsDayOfMonth | server/scheduler.ts:20-22 | monthly keeps the day of month whenever the next month has it |
| Scheduler.SuccessorColumns | server/scheduler.ts:43-56 | the successor copies the predecessor except the new time, pending, not completed and a method defaulting to sms |
| Scheduler.Recur | server/scheduler.ts:30-63 | a successor is appended exactly when there is no end date or the next time is not after it, and the insert succeeds; otherwise nothing changes |
| Scheduler.CreateNextRecurrence | server/scheduler.ts:30-63 | the table becomes `Recur` of the old table |
| Scheduler.RunCons | server/scheduler.ts:81-116 | the loop takes one step, then stops on an error or goes on with the rest |
| Scheduler.SendsCons | server/scheduler.ts:81-116 | the sends of the loop: the first row when due, then the rest unless the step failed |
| Scheduler.Process | server/scheduler.ts:82-115 | one loop body: the table and the error are `Step` of the old table; a row is sent exactly when it is due |
| Scheduler.ProcessAll | server/scheduler.ts:81-116 | the loop over the fetched rows: the table and the error are `Run`, and the rows sent are `Sends` |
| Scheduler.Tick | server/scheduler.ts:67-119 | one tick: the table and the error are `TickSpec`, and the rows sent are `TickSends` |
| Scheduler.MarkedIgnoresStatus | server/scheduler.ts:84-93 | the send and the recorded outcome do not depend on the row's status |
| Scheduler.StepEffect | server/scheduler.ts:82-115 | one step marks only rows with the fetched id and appends at most its successor |
| Scheduler.StepKeepsTracking | server/scheduler.ts:81-116 | after a step the table still agrees with the rows still to come, up to status |
| Scheduler.RunEffect | server/scheduler.ts:81-116 | the loop keeps each old row or records its own outcome on it, and only appends successors of fetched rows |
| Scheduler.RunCompletes | server/scheduler.ts:81-116 | with no status write error the loop finishes and records the outcome of every due fetched row |
| Scheduler.RunSpawns | server/scheduler.ts:95-110 | with no status write error the loop appends exactly one successor per fetched row that is due, delivered, recurring, allowed by its end date and inserted |
| Scheduler.FetchedTracked | server/scheduler.ts:68-73 | every table row sharing an id with a fetched row is that row, up to its status |
| Scheduler.PendingRowsTracked | server/scheduler.ts:68-73 | the fetched rows are rows of the table, and a row's id is fetched exactly when it is pending and not completed |
| Scheduler.PendingIdMeansDue | server/scheduler.ts:68-73 | a row's id is among the fetched ids exactly when the row is pending and not completed |
| Scheduler.FetchedRowIsPending | server/scheduler.ts:68-73 | a fetched row is a pending, not completed row of the table |
| Scheduler.TickRowEffect | server/scheduler.ts:67-119 | each old row is kept, or it was pending, not completed and due and now carries its own send outcome |
| Scheduler.TickSuccessors | server/scheduler.ts:95-110 | every added row has a fresh id and succeeds a due, delivered, recurring pending row whose end date allows it |
| Scheduler.TickSpawns | server/scheduler.ts:95-110 | with no database error a tick inserts the successor of every such pending row, and the number of added rows is the number of such rows |
| Scheduler.TickWithoutFaults | server/scheduler.ts:81-116 | with no database error the tick finishes; each due pending row is marked and every other old row is unchanged |
| Scheduler.RunStopsAtError | server/scheduler.ts:117-119 | once a status write fails, the rows after it are not processed |
| Scheduler.VerdictSent | server/scheduler.ts:85-96 | a row is marked sent exactly when its method is known, the settings are present and the carrier accepts |
| Scheduler.SendsFromFetched | server/scheduler.ts:81-116 | the loop sends only due rows, each at most as often as it was fetched |
| Scheduler.TickSendsOnce | server/scheduler.ts:81-116 | a tick sends each pending, not completed, due row at most once and no other row |
| Home.Partition | client/src/pages/Home.tsx:66-69 | upcoming, overdue and completed lists by their definitions; no list yet gives three empty lists |
| Home.PartitionDisjoint | client/src/pages/Home.tsx:67-69 | no reminder is on two lists |
| Home.PartitionCovers | client/src/pages/Home.tsx:66-69 | the three lists together hold the input, each reminder as often as it occurs |
| Home.PartitionKeepsOrder | client/src/pages/Home.tsx:67-69 | each list keeps the input order |
| Home.CardsOfEachList | client/src/pages/Home.tsx:201-274 | overdue cards read "Overdue", completed cards "Completed" without Mark Complete, upcoming cards "Scheduled" unless sent |
| ReminderCard.StatusBadgeMeaning | client/src/components/ReminderCard.tsx:75-108 | each label holds exactly in its branch of the chain: completed, overdue, sent by SMS or call, otherwise scheduled |
| ReminderCard.MethodBadgeMeaning | client/src/components/ReminderCard.tsx:110-117 | "Call" exactly for `call`, "SMS" for anything else |
| ReminderCard.SentLabelMatchesMethodBadge | client/src/components/ReminderCard.tsx:92-117 | for a known or empty method the sent label and the method badge agree |
| Analytics.ComputeStats | client/src/components/Analytics.tsx:11-27 | sent + failed + pending and upcoming are at most the total; this week ≤ this month ≤ sent |
| Analytics.ComputeStatsPartition | client/src/components/Analytics.tsx:15-18 | sent, failed and pending plus the pending-but-completed reminders add up exactly to the total: each reminder falls in exactly one of the four |
| Analytics.StatusData | client/src/components/Analytics.tsx:33-37 | the slices with a positive value, in the order Sent, Pending, Failed |
| Analytics.StatusDataSlices | client/src/components/Analytics.tsx:33-37 | a slice appears exactly when its count is positive |
| Analytics.ComputeSuccessRate | client/src/components/Analytics.tsx:29-31 | "0" exactly when there are no reminders, otherwise sent over total |
| Analytics.SuccessRateAtMostWhole | client/src/components/Analytics.tsx:29-31 | the rate never exceeds one |

## Left out

- The `setInterval` timer and overlapping ticks: these are concurrency. The model is one synchronous tick.
- Supabase clients, service-role and anonymous keys, row-level security and realtime channels: these are foreign calls. An in-memory table replaces them. Row-level security is not modelled, so the by-id calls affect any user's row, as the code is written.
- The Twilio transport and the TwiML URL that `makeReminderCall` builds but does not use: these are foreign calls. The carrier answer depends only on the submitted request.
- JavaScript local time and DST shifts in `setDate`/`setMonth`, ISO text parsing and `toISOString`, and date-fns formatting. Time is UTC. A timestamp text that does not parse is not modelled. A schedule text is either empty or a time.
- Scheduler.CalculateNextOccurrence: an `Instant` is unbounded, while a JavaScript `Date` stops at ±8.64e15 ms. Past that bound `toISOString` throws, which ends the tick; the model never fails there.
- Schema.ValidateInsert: an issue is a field and a kind, without the message text (the schema's custom messages or zod's stock ones). A type error, such as a `null` description, is not modelled.
- The success rate's floating-point division and `toFixed(1)`: this is floating point. `ComputeSuccessRate` keeps the two counts instead.
- React rendering, hooks, toasts, charts, the reminder dialog, the auth pages and the empty states: these are UI.
- HTTP routing and the Bearer-token middleware: these are glue around `supabase.auth.getUser`.
- Console logging.
- Sort stability: `SortBy` is a permutation sorted by time, and which of two reminders with equal times comes first is not claimed.
- `randomUUID` and `gen_random_uuid`: ids come from a counter, which is what makes them fresh and increasing.
- `getNotificationMethodBadge` looks up `config[method]`, and keys inherited from `Object.prototype` are not modelled. Only `call` picks the call entry.
- Scheduler.Recur: a failed successor insert is modelled as no insert. A partial write is not considered.
- Action handlers that only call the API (edit, delete, the Mark Complete request) are not modelled beyond the button's visibility.
