/** The dashboard's statistics over the signed-in user's reminders. */
module Analytics {
  import opened Calendar
  import opened Schema
  import Seqs

  const MsPerWeek: int := 7 * MsPerDay
  const MsPerThirtyDays: int := 30 * MsPerDay

  datatype Stats = Stats(
    total: nat,
    sent: nat,
    failed: nat,
    pending: nat,
    upcoming: nat,
    sentThisWeek: nat,
    sentThisMonth: nat)

  predicate IsSentReminder(r: Reminder) {
    r.status == Sent
  }

  predicate IsFailedReminder(r: Reminder) {
    r.status == Failed
  }

  predicate IsPendingReminder(r: Reminder) {
    r.status == Pending && !r.completed
  }

  predicate IsUpcoming(r: Reminder, now: Instant) {
    !r.completed && After(r.scheduledFor, now)
  }

  /** Sent and scheduled no earlier than `since` (milliseconds since the epoch). */
  predicate SentSince(r: Reminder, since: int) {
    r.status == Sent && Millis(r.scheduledFor) >= since
  }

  /** The counts; the week and month windows start 7 and 30 days of milliseconds before `now`. */
  function ComputeStats(rs: seq<Reminder>, now: Instant): (st: Stats)
    ensures st.total == |rs|
    ensures st.sent + st.failed + st.pending <= st.total
    ensures st.upcoming <= st.total
    ensures st.sentThisWeek <= st.sentThisMonth <= st.sent
  {
    var weekAgo := Millis(now) - MsPerWeek;
    var monthAgo := Millis(now) - MsPerThirtyDays;
    Seqs.CountExclusive3(IsSentReminder, IsFailedReminder, IsPendingReminder, rs);
    Seqs.CountMonotonic(x => SentSince(x, weekAgo), x => SentSince(x, monthAgo), rs);
    Seqs.CountMonotonic(x => SentSince(x, monthAgo), IsSentReminder, rs);
    Stats(|rs|,
          Seqs.Count(IsSentReminder, rs),
          Seqs.Count(IsFailedReminder, rs),
          Seqs.Count(IsPendingReminder, rs),
          Seqs.Count(x => IsUpcoming(x, now), rs),
          Seqs.Count(x => SentSince(x, weekAgo), rs),
          Seqs.Count(x => SentSince(x, monthAgo), rs))
  }

  /** Pending but already completed: the one kind of reminder no status card counts. */
  predicate IsCompletedPending(r: Reminder) {
    r.status == Pending && r.completed
  }

  /**
   * Every reminder is counted by exactly one of the sent, failed and pending
   * cards, unless it is pending and completed, so the total splits exactly.
   */
  lemma ComputeStatsPartition(rs: seq<Reminder>, now: Instant)
    ensures var st := ComputeStats(rs, now);
      st.sent + st.failed + st.pending + Seqs.Count(IsCompletedPending, rs) == st.total
  {
    Seqs.CountPartition4(IsSentReminder, IsFailedReminder, IsPendingReminder, IsCompletedPending, rs);
  }

  datatype Slice = Slice(name: string, value: nat, color: string)

  /** The pie chart's slices: Sent, Pending and Failed in that order, empty ones dropped. */
  function StatusData(st: Stats): (d: seq<Slice>)
    ensures |d| <= 3
    ensures forall i :: 0 <= i < |d| ==> d[i].value > 0
    ensures Seqs.IsSubsequence(d, AllSlices(st))
    ensures forall i :: 0 <= i < |AllSlices(st)| && AllSlices(st)[i].value > 0 ==> AllSlices(st)[i] in d
  {
    Seqs.FilterIsSubsequence((x: Slice) => x.value > 0, AllSlices(st));
    Seqs.FilterKeeps((x: Slice) => x.value > 0, AllSlices(st));
    Seqs.Filter((x: Slice) => x.value > 0, AllSlices(st))
  }

  function AllSlices(st: Stats): seq<Slice> {
    [Slice("Sent", st.sent, "#3b82f6"), Slice("Pending", st.pending, "#a855f7"), Slice("Failed", st.failed, "#ef4444")]
  }

  /** A slice appears exactly when its count is positive. */
  lemma StatusDataSlices(st: Stats)
    ensures Slice("Sent", st.sent, "#3b82f6") in StatusData(st) <==> st.sent > 0
    ensures Slice("Pending", st.pending, "#a855f7") in StatusData(st) <==> st.pending > 0
    ensures Slice("Failed", st.failed, "#ef4444") in StatusData(st) <==> st.failed > 0
  {
    var all := AllSlices(st);
    assert all[0] == Slice("Sent", st.sent, "#3b82f6");
    assert all[1] == Slice("Pending", st.pending, "#a855f7");
    assert all[2] == Slice("Failed", st.failed, "#ef4444");
  }

  /** The success rate: the text "0" without reminders, otherwise sent over total. */
  datatype SuccessRate = NoReminders | Ratio(sent: nat, total: nat)

  function ComputeSuccessRate(st: Stats): (r: SuccessRate)
    ensures st.total == 0 <==> r == NoReminders
    ensures r.Ratio? ==> r.sent == st.sent && r.total == st.total > 0
  {
    if st.total > 0 then Ratio(st.sent, st.total) else NoReminders
  }

  /** The sent count never exceeds the total, so the rate is at most 100 percent. */
  lemma SuccessRateAtMostWhole(rs: seq<Reminder>, now: Instant)
    ensures var r := ComputeSuccessRate(ComputeStats(rs, now));
      r.Ratio? ==> r.sent <= r.total
  {
  }
}
