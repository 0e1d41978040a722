/** The labels a reminder card shows and the actions it offers. */
module ReminderCard {
  import opened Wrappers
  import opened Schema

  const CompletedLabel: string := "Completed"
  const OverdueLabel: string := "Overdue"
  const SmsSentLabel: string := "SMS Sent"
  const CallMadeLabel: string := "Call Made"
  const ScheduledLabel: string := "Scheduled"

  /** `getStatusBadge`: completion wins, then the overdue flag, then a sent status; the rest is scheduled. */
  function StatusBadge(r: Reminder, isOverdue: bool): string {
    if r.completed then CompletedLabel
    else if isOverdue then OverdueLabel
    else if r.status == Sent then
      (if OrElse(Some(r.notificationMethod), MethodSms) == MethodSms then SmsSentLabel else CallMadeLabel)
    else ScheduledLabel
  }

  /** Each label tells which branch of the chain produced it. */
  lemma StatusBadgeMeaning(r: Reminder, isOverdue: bool)
    ensures StatusBadge(r, isOverdue) == CompletedLabel <==> r.completed
    ensures StatusBadge(r, isOverdue) == OverdueLabel <==> !r.completed && isOverdue
    ensures StatusBadge(r, isOverdue) == SmsSentLabel <==>
      !r.completed && !isOverdue && r.status == Sent && (r.notificationMethod == MethodSms || r.notificationMethod == "")
    ensures StatusBadge(r, isOverdue) == CallMadeLabel <==>
      !r.completed && !isOverdue && r.status == Sent && r.notificationMethod != MethodSms && r.notificationMethod != ""
    ensures StatusBadge(r, isOverdue) == ScheduledLabel <==> !r.completed && !isOverdue && r.status != Sent
  {
  }

  /** `getNotificationMethodBadge`: the `call` entry for `call`, the `sms` entry for anything else. */
  function MethodBadge(r: Reminder): string {
    var via := OrElse(Some(r.notificationMethod), MethodSms);
    if via == MethodCall then "Call"
    else "SMS"
  }

  lemma MethodBadgeMeaning(r: Reminder)
    ensures MethodBadge(r) == "Call" <==> r.notificationMethod == MethodCall
    ensures MethodBadge(r) == "SMS" <==> r.notificationMethod != MethodCall
  {
  }

  /**
   * For a known or empty method the sent label and the method badge agree.
   * An unknown method would read "Call Made" beside an "SMS" badge; such a
   * reminder never reaches `sent`, since its send fails.
   */
  lemma SentLabelMatchesMethodBadge(r: Reminder)
    requires !r.completed && r.status == Sent
    requires IsNotificationMethod(r.notificationMethod) || r.notificationMethod == ""
    ensures StatusBadge(r, false) == SmsSentLabel <==> MethodBadge(r) == "SMS"
    ensures StatusBadge(r, false) == CallMadeLabel <==> MethodBadge(r) == "Call"
  {
  }

  /** The Mark Complete button is rendered only for a reminder that is not completed. */
  predicate ShowsMarkComplete(r: Reminder) {
    !r.completed
  }
}
