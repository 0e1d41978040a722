/** The three lists of the dashboard: upcoming, overdue and completed reminders. */
module Home {
  import opened Wrappers
  import opened Calendar
  import opened Schema
  import Seqs
  import ReminderCard

  predicate IsActive(r: Reminder, now: Instant) {
    !r.completed && After(r.scheduledFor, now)
  }

  predicate IsOverdue(r: Reminder, now: Instant) {
    !r.completed && NotAfter(r.scheduledFor, now)
  }

  predicate IsCompleted(r: Reminder) {
    r.completed
  }

  datatype Lists = Lists(active: seq<Reminder>, overdue: seq<Reminder>, completed: seq<Reminder>)

  /** The three `filter`s over the fetched list; no list yet gives three empty lists. */
  function Partition(reminders: Option<seq<Reminder>>, now: Instant): (l: Lists)
    ensures reminders.None? ==> l == Lists([], [], [])
    ensures reminders.Some? ==> forall x ::
      && (x in l.active <==> x in reminders.value && !x.completed && After(x.scheduledFor, now))
      && (x in l.overdue <==> x in reminders.value && !x.completed && NotAfter(x.scheduledFor, now))
      && (x in l.completed <==> x in reminders.value && x.completed)
  {
    match reminders
    case None => Lists([], [], [])
    case Some(rs) =>
      Seqs.FilterMembers(x => IsActive(x, now), rs);
      Seqs.FilterMembers(x => IsOverdue(x, now), rs);
      Seqs.FilterMembers(IsCompleted, rs);
      Lists(Seqs.Filter(x => IsActive(x, now), rs),
            Seqs.Filter(x => IsOverdue(x, now), rs),
            Seqs.Filter(IsCompleted, rs))
  }

  /** No reminder is on two lists. */
  lemma PartitionDisjoint(reminders: Option<seq<Reminder>>, now: Instant)
    ensures var l := Partition(reminders, now);
      forall x :: !(x in l.active && x in l.overdue) && !(x in l.active && x in l.completed) && !(x in l.overdue && x in l.completed)
  {
  }

  /** Every reminder is on exactly one list, as often as it occurs in the input. */
  lemma PartitionCovers(rs: seq<Reminder>, now: Instant)
    ensures var l := Partition(Some(rs), now);
      multiset(l.active) + multiset(l.overdue) + multiset(l.completed) == multiset(rs)
  {
    Seqs.FilterSplit3(x => IsActive(x, now), x => IsOverdue(x, now), IsCompleted, rs);
  }

  /** Each list keeps the order of the fetched list. */
  lemma PartitionKeepsOrder(rs: seq<Reminder>, now: Instant)
    ensures var l := Partition(Some(rs), now);
      Seqs.IsSubsequence(l.active, rs) && Seqs.IsSubsequence(l.overdue, rs) && Seqs.IsSubsequence(l.completed, rs)
  {
    Seqs.FilterIsSubsequence(x => IsActive(x, now), rs);
    Seqs.FilterIsSubsequence(x => IsOverdue(x, now), rs);
    Seqs.FilterIsSubsequence(IsCompleted, rs);
  }

  /**
   * The cards of each list: overdue cards are badged "Overdue", completed
   * cards "Completed", upcoming cards by their status; only completed cards
   * lack the Mark Complete button.
   */
  lemma CardsOfEachList(reminders: Option<seq<Reminder>>, now: Instant)
    ensures var l := Partition(reminders, now);
      && (forall x :: x in l.overdue ==> ReminderCard.StatusBadge(x, true) == ReminderCard.OverdueLabel && ReminderCard.ShowsMarkComplete(x))
      && (forall x :: x in l.completed ==> ReminderCard.StatusBadge(x, false) == ReminderCard.CompletedLabel && !ReminderCard.ShowsMarkComplete(x))
      && (forall x :: x in l.active ==>
            && ReminderCard.ShowsMarkComplete(x)
            && (ReminderCard.StatusBadge(x, false) == ReminderCard.ScheduledLabel <==> x.status != Sent))
  {
  }
}
