/**
 * The in-memory repository: a `Map<string, Reminder>` updated in place by
 * create, partial update, delete, complete, mark-sent and mark-failed.
 * JavaScript maps iterate in insertion order, so the class keeps that order
 * next to the map; identifiers come from a counter instead of `randomUUID`.
 */
module MemStore {
  import opened Wrappers
  import opened Calendar
  import opened Schema
  import Seqs

  /** The record `createReminder` stores: the input, a fresh id, an empty description made null, pending and not completed. */
  function NewReminder(id: Id, r: InsertReminder): (m: Reminder)
    ensures m.id == id && m.status == Pending && !m.completed
    ensures m.description == (if Truthy(r.description) then r.description else None)
    ensures m.title == r.title && m.phoneNumber == r.phoneNumber && m.scheduledFor == r.scheduledFor
    ensures m.recurrenceType == r.recurrenceType && m.recurrenceEndDate == r.recurrenceEndDate
    ensures m.notificationMethod == r.notificationMethod
  {
    Reminder(id, r.title, if Truthy(r.description) then r.description else None, r.phoneNumber,
      r.scheduledFor, DefaultStatus, DefaultCompleted, r.recurrenceType, r.recurrenceEndDate, r.notificationMethod)
  }

  /** `{...existing, ...updates}`: each supplied field replaces the stored one. */
  function ApplyPatch(e: Reminder, p: ReminderPatch): (m: Reminder)
    ensures m.id == e.id && m.status == e.status && m.completed == e.completed
    ensures m.title == p.title.GetOr(e.title)
    ensures m.description == (if p.description.Some? then p.description else e.description)
    ensures m.phoneNumber == p.phoneNumber.GetOr(e.phoneNumber)
    ensures m.scheduledFor == p.scheduledFor.GetOr(e.scheduledFor)
    ensures m.recurrenceType == p.recurrenceType.GetOr(e.recurrenceType)
    ensures m.recurrenceEndDate == (if p.recurrenceEndDate.Some? then p.recurrenceEndDate else e.recurrenceEndDate)
    ensures m.notificationMethod == p.notificationMethod.GetOr(e.notificationMethod)
  {
    e.(title := p.title.GetOr(e.title),
       description := if p.description.Some? then p.description else e.description,
       phoneNumber := p.phoneNumber.GetOr(e.phoneNumber),
       scheduledFor := p.scheduledFor.GetOr(e.scheduledFor),
       recurrenceType := p.recurrenceType.GetOr(e.recurrenceType),
       recurrenceEndDate := if p.recurrenceEndDate.Some? then p.recurrenceEndDate else e.recurrenceEndDate,
       notificationMethod := p.notificationMethod.GetOr(e.notificationMethod))
  }

  const EmptyPatch: ReminderPatch := ReminderPatch(None, None, None, None, None, None, None)

  /** An edit with no fields changes nothing. */
  lemma EmptyPatchIsIdentity(e: Reminder)
    ensures ApplyPatch(e, EmptyPatch) == e
  {
  }

  /** Applying the same edit twice is the same as applying it once. */
  lemma ApplyPatchIdempotent(e: Reminder, p: ReminderPatch)
    ensures ApplyPatch(ApplyPatch(e, p), p) == ApplyPatch(e, p)
  {
  }

  /** An edit that names a field decides that field, whatever the record held before. */
  lemma ApplyPatchOverrides(e: Reminder, e': Reminder, p: ReminderPatch)
    ensures p.title.Some? ==> ApplyPatch(e, p).title == ApplyPatch(e', p).title
    ensures p.description.Some? ==> ApplyPatch(e, p).description == ApplyPatch(e', p).description
    ensures p.phoneNumber.Some? ==> ApplyPatch(e, p).phoneNumber == ApplyPatch(e', p).phoneNumber
    ensures p.scheduledFor.Some? ==> ApplyPatch(e, p).scheduledFor == ApplyPatch(e', p).scheduledFor
    ensures p.recurrenceType.Some? ==> ApplyPatch(e, p).recurrenceType == ApplyPatch(e', p).recurrenceType
    ensures p.recurrenceEndDate.Some? ==> ApplyPatch(e, p).recurrenceEndDate == ApplyPatch(e', p).recurrenceEndDate
    ensures p.notificationMethod.Some? ==> ApplyPatch(e, p).notificationMethod == ApplyPatch(e', p).notificationMethod
  {
  }

  /** The sort key of `getReminders`: the scheduled time in milliseconds. */
  function ScheduleKey(r: Reminder): int {
    Millis(r.scheduledFor)
  }

  /** The stored reminders in the map's iteration order. */
  function Lookup(ids: seq<Id>, m: map<Id, Reminder>): (r: seq<Reminder>)
    requires forall i :: 0 <= i < |ids| ==> ids[i] in m
    ensures |r| == |ids|
    ensures forall i :: 0 <= i < |ids| ==> r[i] == m[ids[i]]
  {
    if ids == [] then [] else [m[ids[0]]] + Lookup(ids[1..], m)
  }

  /** Looking up every key of the map yields exactly the map's values. */
  lemma LookupValues(ids: seq<Id>, m: map<Id, Reminder>)
    requires forall i :: 0 <= i < |ids| ==> ids[i] in m
    requires forall k :: k in m ==> k in ids
    ensures forall r :: r in Lookup(ids, m) <==> r in m.Values
  {
    var l := Lookup(ids, m);
    forall r | r in m.Values ensures r in l {
      var k :| k in m && m[k] == r;
      var i :| 0 <= i < |ids| && ids[i] == k;
      assert l[i] == r;
    }
  }

  /** Every record is stored under its own id. */
  ghost predicate KeyedById(m: map<Id, Reminder>) {
    forall k :: k in m ==> m[k].id == k
  }

  /** Each stored reminder appears once in the iteration over distinct keys. */
  lemma {:induction false} LookupCount(ids: seq<Id>, m: map<Id, Reminder>, id: Id)
    requires Seqs.Distinct(ids) && KeyedById(m) && id in m
    requires forall i :: 0 <= i < |ids| ==> ids[i] in m
    ensures multiset(Lookup(ids, m))[m[id]] == if id in ids then 1 else 0
  {
    if ids != [] {
      LookupCount(ids[1..], m, id);
      assert Lookup(ids, m) == [m[ids[0]]] + Lookup(ids[1..], m);
      assert (m[ids[0]] == m[id]) <==> ids[0] == id;
      if ids[0] == id {
        assert id !in ids[1..];
      }
      assert id in ids <==> ids[0] == id || id in ids[1..];
    }
  }

  class MemStorage {
    var reminders: map<Id, Reminder>
    /** The keys of `reminders` in insertion order. */
    var order: seq<Id>
    /** Next identifier to hand out. */
    var nextId: Id

    ghost predicate Valid()
      reads this
    {
      && Seqs.Distinct(order)
      && (forall i :: 0 <= i < |order| ==> order[i] in reminders)
      && (forall k :: k in reminders ==> k in order && k < nextId)
      && KeyedById(reminders)
    }

    constructor ()
      ensures Valid() && reminders == map[] && order == []
    {
      reminders := map[];
      order := [];
      nextId := 0;
    }

    /** `getReminders`: every stored reminder exactly once, ascending by scheduled time. */
    method GetReminders() returns (rs: seq<Reminder>)
      requires Valid()
      ensures Seqs.SortedBy(rs, ScheduleKey)
      ensures forall r :: r in rs <==> r in reminders.Values
      ensures forall id :: id in reminders ==> multiset(rs)[reminders[id]] == 1
      ensures |rs| == |order|
    {
      var inOrder := Lookup(order, reminders);
      rs := Seqs.SortBy(inOrder, ScheduleKey);
      Seqs.SortByMembers(inOrder, ScheduleKey);
      LookupValues(order, reminders);
      forall id | id in reminders ensures multiset(rs)[reminders[id]] == 1 {
        LookupCount(order, reminders, id);
      }
    }

    /** `getReminder`: the record under `id`, or nothing. */
    method GetReminder(id: Id) returns (r: Option<Reminder>)
      ensures id in reminders ==> r == Some(reminders[id])
      ensures id !in reminders ==> r == None
    {
      r := if id in reminders then Some(reminders[id]) else None;
    }

    /** `createReminder`: stores the new record under a fresh id; no other entry changes. */
    method CreateReminder(input: InsertReminder) returns (r: Reminder)
      requires Valid()
      modifies this
      ensures Valid()
      ensures r.id !in old(reminders)
      ensures r == NewReminder(r.id, input)
      ensures reminders == old(reminders)[r.id := r]
      ensures order == old(order) + [r.id]
    {
      var id := nextId;
      r := NewReminder(id, input);
      reminders := reminders[id := r];
      order := order + [id];
      nextId := nextId + 1;
    }

    /** `updateReminder`: merges the supplied fields into an existing record; nothing for a missing id. */
    method UpdateReminder(id: Id, updates: ReminderPatch) returns (r: Option<Reminder>)
      requires Valid()
      modifies this
      ensures Valid() && order == old(order)
      ensures id !in old(reminders) ==> r == None && reminders == old(reminders)
      ensures id in old(reminders) ==>
        r == Some(ApplyPatch(old(reminders)[id], updates)) && reminders == old(reminders)[id := r.value]
    {
      if id !in reminders {
        return None;
      }
      var updated := ApplyPatch(reminders[id], updates);
      reminders := reminders[id := updated];
      r := Some(updated);
    }

    /** `deleteReminder`: true exactly when the id was stored; afterwards it is gone. */
    method DeleteReminder(id: Id) returns (deleted: bool)
      requires Valid()
      modifies this
      ensures Valid()
      ensures deleted == (id in old(reminders))
      ensures id !in reminders
      ensures reminders == old(reminders) - {id}
      ensures order == Seqs.Filter(k => k != id, old(order))
    {
      deleted := id in reminders;
      Seqs.FilterDistinct(k => k != id, order);
      reminders := reminders - {id};
      Seqs.FilterMembers(k => k != id, order);
      order := Seqs.Filter(k => k != id, order);
    }

    /** `completeReminder`: sets only `completed`; repeating it changes nothing more. */
    method CompleteReminder(id: Id) returns (r: Option<Reminder>)
      requires Valid()
      modifies this
      ensures Valid() && order == old(order)
      ensures id !in old(reminders) ==> r == None && reminders == old(reminders)
      ensures id in old(reminders) ==>
        r == Some(old(reminders)[id].(completed := true)) && reminders == old(reminders)[id := r.value]
      ensures id in old(reminders) && old(reminders)[id].completed ==> reminders == old(reminders)
    {
      if id !in reminders {
        return None;
      }
      var updated := reminders[id].(completed := true);
      reminders := reminders[id := updated];
      r := Some(updated);
    }

    /** `markReminderAsSent`: sets only `status` to sent. */
    method MarkReminderAsSent(id: Id) returns (r: Option<Reminder>)
      requires Valid()
      modifies this
      ensures Valid() && order == old(order)
      ensures id !in old(reminders) ==> r == None && reminders == old(reminders)
      ensures id in old(reminders) ==>
        r == Some(old(reminders)[id].(status := Sent)) && reminders == old(reminders)[id := r.value]
    {
      if id !in reminders {
        return None;
      }
      var updated := reminders[id].(status := Sent);
      reminders := reminders[id := updated];
      r := Some(updated);
    }

    /** `markReminderAsFailed`: sets only `status` to failed. */
    method MarkReminderAsFailed(id: Id) returns (r: Option<Reminder>)
      requires Valid()
      modifies this
      ensures Valid() && order == old(order)
      ensures id !in old(reminders) ==> r == None && reminders == old(reminders)
      ensures id in old(reminders) ==>
        r == Some(old(reminders)[id].(status := Failed)) && reminders == old(reminders)[id := r.value]
    {
      if id !in reminders {
        return None;
      }
      var updated := reminders[id].(status := Failed);
      reminders := reminders[id := updated];
      r := Some(updated);
    }
  }

  /** A client of the class: create, complete twice, and the record is stored once, completed, still pending. */
  method CreateThenCompleteTwice(input: InsertReminder) returns (r: Reminder)
    ensures r.completed && r.status == Pending && r.title == input.title
  {
    var store := new MemStorage();
    var created := store.CreateReminder(input);
    var first := store.CompleteReminder(created.id);
    var second := store.CompleteReminder(created.id);
    assert second == first;
    r := second.value;
  }
}
