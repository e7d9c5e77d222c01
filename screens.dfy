/** The alarm-list operations of the home screen and the add/edit screen:
    each reads the list, schedules or cancels triggers, and writes the whole
    new list back. */
module Screens {
  import opened Wrappers
  import opened TimeText
  import opened Notifications
  import opened Alarms
  import opened Scheduler
  import opened Storage

  /** Exactly one alarm of the list has identity `id`. */
  predicate OnlyOne(alarms: seq<Alarm>, id: int)
  {
    forall i, j :: 0 <= i < |alarms| && 0 <= j < |alarms| && alarms[i].id == id && alarms[j].id == id ==> i == j
  }

  /** The service change toggling `a` into `b` makes: the cancellation of
      the stored identifiers of an active alarm, or the scheduling of the
      plan of an inactive one under the identifiers `b` now holds. */
  ghost predicate ToggleEffect(scheduled: map<TriggerId, Request>, before: map<TriggerId, Request>,
                               lo: nat, hi: nat, a: Alarm, b: Alarm, now: nat)
  {
    if a.active
    then scheduled == before - (set k | 0 <= k < |a.notifIds| :: a.notifIds[k]) && hi == lo
    else ValidTime(a.time) && Issued(scheduled, before, lo, hi, b.notifIds, a.(active := true), PlannedTriggers(a, now))
  }

  /** Toggles one matching alarm. */
  method ToggleOne(svc: Service, a: Alarm, now: nat) returns (b: Alarm)
    requires svc.Valid()
    requires !a.active ==> ValidTime(a.time)
    modifies svc
    ensures svc.Valid() && old(svc.nextId) <= svc.nextId
    ensures b == Toggled(a, b.notifIds)
    ensures ToggleEffect(svc.scheduled, old(svc.scheduled), old(svc.nextId), svc.nextId, a, b, now)
  {
    if !a.active {
      assert PlannedTriggers(a.(active := true), now) == PlannedTriggers(a, now);
      var ids := ScheduleAlarm(svc, a.(active := true), now);
      b := a.(active := true, notifIds := ids);
    } else {
      CancelAlarm(svc, a.notifIds);
      b := a.(active := false);
    }
  }

  /** The new identifiers of a toggled inactive alarm: one per planned
      trigger, all issued within [lo, hi). */
  ghost predicate FreshPlanIds(a: Alarm, b: Alarm, now: nat, lo: nat, hi: nat)
  {
    !a.active ==>
      ValidTime(a.time) && |b.notifIds| == |PlannedTriggers(a, now)| &&
      forall k :: 0 <= k < |b.notifIds| ==> lo <= b.notifIds[k] < hi
  }

  /** What the toggle makes of one list entry: a non-matching alarm is kept,
      a matching one is toggled with identifiers issued within [lo, hi). */
  ghost predicate ToggleStep(a: Alarm, b: Alarm, id: int, now: nat, lo: nat, hi: nat)
  {
    if a.id != id then b == a else b == Toggled(a, b.notifIds) && FreshPlanIds(a, b, now, lo, hi)
  }

  lemma StepsWiden(alarms: seq<Alarm>, updated: seq<Alarm>, id: int, now: nat, lo: nat, hi: nat, top: nat)
    requires |updated| <= |alarms| && hi <= top
    requires forall j :: 0 <= j < |updated| ==> ToggleStep(alarms[j], updated[j], id, now, lo, hi)
    ensures forall j :: 0 <= j < |updated| ==> ToggleStep(alarms[j], updated[j], id, now, lo, top)
  {
  }

  /** The switch on an alarm card. Every alarm with identity `id` is flipped,
      in list order: an inactive one gets freshly scheduled triggers, an active
      one has its stored triggers cancelled and keeps their identifiers; the
      others are kept as they are; the new list is written to the store. */
  method Toggle(svc: Service, store: AlarmStore, alarms: seq<Alarm>, id: int, now: nat)
    returns (updated: seq<Alarm>)
    requires svc.Valid()
    requires forall i :: 0 <= i < |alarms| && alarms[i].id == id && !alarms[i].active ==> ValidTime(alarms[i].time)
    modifies svc, store
    ensures svc.Valid() && old(svc.nextId) <= svc.nextId
    ensures |updated| == |alarms|
    ensures forall i :: 0 <= i < |alarms| && alarms[i].id != id ==> updated[i] == alarms[i]
    ensures forall i :: 0 <= i < |alarms| && alarms[i].id == id ==>
              updated[i] == Toggled(alarms[i], updated[i].notifIds) &&
              FreshPlanIds(alarms[i], updated[i], now, old(svc.nextId), svc.nextId)
    ensures forall i :: 0 <= i < |alarms| && alarms[i].id == id && OnlyOne(alarms, id) ==>
              ToggleEffect(svc.scheduled, old(svc.scheduled), old(svc.nextId), svc.nextId, alarms[i], updated[i], now)
    ensures (forall i :: 0 <= i < |alarms| ==> alarms[i].id != id) ==>
              svc.scheduled == old(svc.scheduled) && svc.nextId == old(svc.nextId)
    ensures store.raw == Some(Json(updated))
  {
    updated := [];
    var i := 0;
    while i < |alarms|
      invariant 0 <= i <= |alarms| && |updated| == i
      invariant svc.Valid() && old(svc.nextId) <= svc.nextId
      invariant forall j :: 0 <= j < i ==> ToggleStep(alarms[j], updated[j], id, now, old(svc.nextId), svc.nextId)
      invariant (forall j :: 0 <= j < i ==> alarms[j].id != id) ==>
                  svc.scheduled == old(svc.scheduled) && svc.nextId == old(svc.nextId)
      invariant OnlyOne(alarms, id) ==> forall j :: 0 <= j < i && alarms[j].id == id ==>
                  ToggleEffect(svc.scheduled, old(svc.scheduled), old(svc.nextId), svc.nextId, alarms[j], updated[j], now)
    {
      var a := alarms[i];
      if a.id != id {
        updated := updated + [a];
      } else {
        ghost var before, lo := svc.scheduled, svc.nextId;
        var b := ToggleOne(svc, a, now);
        StepsWiden(alarms, updated, id, now, old(svc.nextId), lo, svc.nextId);
        assert ToggleStep(a, b, id, now, old(svc.nextId), svc.nextId);
        updated := updated + [b];
      }
      i := i + 1;
    }
    store.Save(updated);
  }

  /** The confirmed delete on an alarm card: the first alarm with identity
      `id` has its triggers cancelled, every alarm with that identity is
      removed, and the rest is written to the store in order. */
  method Delete(svc: Service, store: AlarmStore, alarms: seq<Alarm>, id: int) returns (remaining: seq<Alarm>)
    requires svc.Valid()
    modifies svc, store
    ensures svc.Valid() && svc.nextId == old(svc.nextId)
    ensures remaining == WithoutId(alarms, id)
    ensures svc.scheduled ==
              match FirstWithId(alarms, id)
              case Some(a) => old(svc.scheduled) - (set k | 0 <= k < |a.notifIds| :: a.notifIds[k])
              case None => old(svc.scheduled)
    ensures store.raw == Some(Json(remaining))
  {
    var found := FirstWithId(alarms, id);
    if found.Some? {
      CancelAlarm(svc, found.value.notifIds);
    }
    remaining := WithoutId(alarms, id);
    store.Save(remaining);
  }

  /** The save on the add/edit screen. It loads the stored list, builds the
      alarm from the form (active, default label when empty), schedules its
      triggers without cancelling any earlier ones, and writes the list with
      the alarm appended (new) or put in place of the alarm with the edited
      identity (edit). */
  method Save(svc: Service, store: AlarmStore, form: Form, existing: Option<Existing>, now: nat)
    returns (saved: Alarm, updated: seq<Alarm>)
    requires svc.Valid()
    requires form.hour < 24 && form.minute < 60
    modifies svc, store
    ensures svc.Valid() && old(svc.nextId) <= svc.nextId
    ensures saved == BuiltAlarm(form, existing, now).(notifIds := saved.notifIds)
    ensures Issued(svc.scheduled, old(svc.scheduled), old(svc.nextId), svc.nextId, saved.notifIds,
                   BuiltAlarm(form, existing, now), PlannedTriggers(BuiltAlarm(form, existing, now), now))
    ensures updated == SavedList(Decode(old(store.raw)), existing, saved)
    ensures store.raw == Some(Json(updated))
  {
    var alarms := store.Load();
    var alarm := BuiltAlarm(form, existing, now);
    var ids := ScheduleAlarm(svc, alarm, now);
    saved := alarm.(notifIds := ids);
    updated := if existing.Some? then ReplaceById(alarms, existing.value.id, saved) else alarms + [saved];
    store.Save(updated);
  }
}
