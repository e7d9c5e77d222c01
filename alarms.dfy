/** Alarm records and the pure list computations behind the home screen's
    toggle and delete and the add/edit screen's day chips and save. */
module Alarms {
  import opened Wrappers
  import opened Catalog
  import opened TimeText
  import opened Notifications

  /** A user's alarm as stored: the verse is an embedded copy, `notifIds` the
      identifiers of the triggers last scheduled for it. */
  datatype Alarm = Alarm(
    id: int,
    time: string,
    labelText: string,
    days: seq<string>,
    verse: Verse,
    snooze: bool,
    vibrate: bool,
    active: bool,
    notifIds: seq<TriggerId>)

  /** The label a save gives an alarm whose label was left empty. */
  const DefaultLabel: string := "வேத வசன அலாரம்"

  // ---------------------------------------------------------------------
  // Toggle

  /** What toggle makes of one matching alarm: an active alarm becomes
      inactive keeping its stored identifiers; an inactive one becomes active
      with the identifiers just scheduled for it. */
  function Toggled(a: Alarm, scheduledIds: seq<TriggerId>): (r: Alarm)
    ensures r.active == !a.active
    ensures r.(active := a.active, notifIds := a.notifIds) == a
    ensures r.notifIds == if a.active then a.notifIds else scheduledIds
  {
    if a.active then a.(active := false) else a.(active := true, notifIds := scheduledIds)
  }

  /** Toggling twice restores every field except the trigger identifiers. */
  lemma ToggledTwice(a: Alarm, first: seq<TriggerId>, second: seq<TriggerId>)
    ensures Toggled(Toggled(a, first), second).(notifIds := a.notifIds) == a
  {
  }

  // ---------------------------------------------------------------------
  // Delete

  /** The first alarm with identity `id` (`Array.prototype.find`). */
  function FirstWithId(alarms: seq<Alarm>, id: int): (r: Option<Alarm>)
    ensures r.None? <==> forall i :: 0 <= i < |alarms| ==> alarms[i].id != id
    ensures r.Some? ==> exists i :: 0 <= i < |alarms| && alarms[i] == r.value && r.value.id == id
                                    && forall j :: 0 <= j < i ==> alarms[j].id != id
  {
    if alarms == [] then None
    else if alarms[0].id == id then Some(alarms[0])
    else
      var r := FirstWithId(alarms[1..], id);
      assert forall i :: 1 <= i < |alarms| ==> alarms[i] == alarms[1..][i - 1];
      if r.Some? then
        ghost var k :| 0 <= k < |alarms[1..]| && alarms[1..][k] == r.value && r.value.id == id
                       && forall j :: 0 <= j < k ==> alarms[1..][j].id != id;
        assert alarms[k + 1] == r.value;
        r
      else r
  }

  /** The list without every alarm of identity `id`, the rest in order. */
  function WithoutId(alarms: seq<Alarm>, id: int): seq<Alarm>
  {
    if alarms == [] then []
    else if alarms[0].id == id then WithoutId(alarms[1..], id)
    else [alarms[0]] + WithoutId(alarms[1..], id)
  }

  /** An alarm survives the delete exactly when it was there and has another identity. */
  lemma {:induction false} WithoutIdMembers(alarms: seq<Alarm>, id: int)
    ensures |WithoutId(alarms, id)| <= |alarms|
    ensures forall a :: a in WithoutId(alarms, id) <==> a in alarms && a.id != id
  {
    if alarms != [] {
      WithoutIdMembers(alarms[1..], id);
      assert alarms == [alarms[0]] + alarms[1..];
    }
  }

  /** Delete distributes over concatenation, so it keeps the survivors in order. */
  lemma {:induction false} WithoutIdAppend(xs: seq<Alarm>, ys: seq<Alarm>, id: int)
    ensures WithoutId(xs + ys, id) == WithoutId(xs, id) + WithoutId(ys, id)
  {
    if xs != [] {
      assert (xs + ys)[0] == xs[0] && (xs + ys)[1..] == xs[1..] + ys;
      WithoutIdAppend(xs[1..], ys, id);
    } else {
      assert xs + ys == ys;
    }
  }

  /** With no alarm of that identity, the list is unchanged. */
  lemma {:induction false} WithoutIdNoMatch(alarms: seq<Alarm>, id: int)
    requires forall i :: 0 <= i < |alarms| ==> alarms[i].id != id
    ensures WithoutId(alarms, id) == alarms
  {
    if alarms != [] {
      WithoutIdNoMatch(alarms[1..], id);
    }
  }

  // ---------------------------------------------------------------------
  // Day chips

  /** The list without any occurrence of `d`, the rest in order. */
  function RemoveDay(p: seq<string>, d: string): seq<string>
  {
    if p == [] then [] else if p[0] == d then RemoveDay(p[1..], d) else [p[0]] + RemoveDay(p[1..], d)
  }

  /** Tapping a day chip: a selected day is deselected (every copy of it
      removed), an unselected one is appended. */
  function ToggleDay(p: seq<string>, d: string): seq<string>
  {
    if d in p then RemoveDay(p, d) else p + [d]
  }

  lemma {:induction false} RemoveDayMembers(p: seq<string>, d: string)
    ensures forall x :: x in RemoveDay(p, d) <==> x in p && x != d
  {
    if p != [] {
      RemoveDayMembers(p[1..], d);
      assert p == [p[0]] + p[1..];
    }
  }

  lemma {:induction false} RemoveDayAbsent(p: seq<string>, d: string)
    requires d !in p
    ensures RemoveDay(p, d) == p
  {
    if p != [] {
      RemoveDayAbsent(p[1..], d);
    }
  }

  predicate Distinct(p: seq<string>)
  {
    forall i, j :: 0 <= i < j < |p| ==> p[i] != p[j]
  }

  lemma {:induction false} RemoveDayDistinct(p: seq<string>, d: string)
    requires Distinct(p)
    ensures Distinct(RemoveDay(p, d))
  {
    if p != [] {
      RemoveDayDistinct(p[1..], d);
      RemoveDayMembers(p[1..], d);
      if p[0] != d {
        var r := RemoveDay(p[1..], d);
        assert p[0] !in p[1..];
        assert p[0] !in r;
        assert forall j :: 0 <= j < |r| ==> ([p[0]] + r)[j + 1] == r[j];
      }
    }
  }

  /** The chip toggle flips membership of `d` and leaves every other day as it was. */
  lemma ToggleDayMembers(p: seq<string>, d: string)
    ensures d in ToggleDay(p, d) <==> d !in p
    ensures forall x :: x != d ==> (x in ToggleDay(p, d) <==> x in p)
  {
    RemoveDayMembers(p, d);
  }

  /** Selecting an unselected day and tapping it again gives the selection back. */
  lemma ToggleDayUndo(p: seq<string>, d: string)
    requires d !in p
    ensures ToggleDay(ToggleDay(p, d), d) == p
  {
    RemoveDayAbsent(p, d);
    assert RemoveDay(p + [d], d) == p by {
      RemoveDayAppend(p, [d], d);
    }
  }

  lemma {:induction false} RemoveDayAppend(xs: seq<string>, ys: seq<string>, d: string)
    ensures RemoveDay(xs + ys, d) == RemoveDay(xs, d) + RemoveDay(ys, d)
  {
    if xs != [] {
      assert (xs + ys)[0] == xs[0] && (xs + ys)[1..] == xs[1..] + ys;
      RemoveDayAppend(xs[1..], ys, d);
    } else {
      assert xs + ys == ys;
    }
  }

  /** Selections made only by tapping chips hold only chip tokens, and each at most once. */
  lemma ToggleDayKeepsChips(p: seq<string>, d: string)
    requires Distinct(p) && (forall x :: x in p ==> x in Days) && d in Days
    ensures Distinct(ToggleDay(p, d))
    ensures forall x :: x in ToggleDay(p, d) ==> x in Days
  {
    RemoveDayMembers(p, d);
    if d in p {
      RemoveDayDistinct(p, d);
    }
  }

  // ---------------------------------------------------------------------
  // Save

  /** The values on the add/edit screen when save is pressed; hour and
      minute are those of the picker's date. */
  datatype Form = Form(
    hour: nat,
    minute: nat,
    labelText: string,
    days: seq<string>,
    verse: Verse,
    snooze: bool,
    vibrate: bool)

  /** The record the screen was opened with: an alarm to edit, or a partial
      one (a verse and a label, no identity) from the verse list. */
  datatype Existing = Existing(id: Option<int>)

  /** `existing?.id || Date.now()`: a present, non-zero identity is kept,
      otherwise the clock reading becomes the identity. */
  function NewAlarmId(existing: Option<Existing>, nowMs: nat): (r: int)
    ensures existing.Some? && existing.value.id.Some? && existing.value.id.value != 0 ==>
              r == existing.value.id.value
    ensures existing.None? || existing.value.id.None? || existing.value.id == Some(0) ==> r == nowMs
  {
    if existing.Some? && existing.value.id.Some? && existing.value.id.value != 0
    then existing.value.id.value else nowMs
  }

  /** The record a save builds, before its identifiers are attached. */
  function BuiltAlarm(form: Form, existing: Option<Existing>, nowMs: nat): (a: Alarm)
    requires form.hour < 24 && form.minute < 60
    ensures a.active && a.notifIds == []
    ensures ValidTime(a.time) && ParseTime(a.time) == Some((form.hour, form.minute))
    ensures a.labelText != [] && (form.labelText != [] ==> a.labelText == form.labelText)
    ensures form.labelText == [] ==> a.labelText == DefaultLabel
    ensures a.id == NewAlarmId(existing, nowMs)
    ensures a.days == form.days && a.verse == form.verse
    ensures a.snooze == form.snooze && a.vibrate == form.vibrate
  {
    FormatParseRoundTrip(form.hour, form.minute);
    Alarm(NewAlarmId(existing, nowMs), FormatTime(form.hour, form.minute),
          if form.labelText == [] then DefaultLabel else form.labelText,
          form.days, form.verse, form.snooze, form.vibrate, true, [])
  }

  /** `alarms.map(a => a.id === target ? alarm : a)`; an absent target equals no identity. */
  function ReplaceById(alarms: seq<Alarm>, target: Option<int>, alarm: Alarm): seq<Alarm>
  {
    if alarms == [] then []
    else [if Some(alarms[0].id) == target then alarm else alarms[0]] + ReplaceById(alarms[1..], target, alarm)
  }

  /** The replace keeps length and position: each entry is the new alarm when
      its identity is the target and otherwise the entry that was there. */
  lemma {:induction false} ReplaceByIdAt(alarms: seq<Alarm>, target: Option<int>, alarm: Alarm)
    ensures |ReplaceById(alarms, target, alarm)| == |alarms|
    ensures forall i :: 0 <= i < |alarms| ==>
              ReplaceById(alarms, target, alarm)[i] == if Some(alarms[i].id) == target then alarm else alarms[i]
  {
    if alarms != [] {
      ReplaceByIdAt(alarms[1..], target, alarm);
      var r := ReplaceById(alarms, target, alarm);
      assert forall i :: 1 <= i < |alarms| ==> r[i] == ReplaceById(alarms[1..], target, alarm)[i - 1];
    }
  }

  /** The list the save writes: the edited alarm replaced in place, or the new one appended. */
  function SavedList(stored: seq<Alarm>, existing: Option<Existing>, alarm: Alarm): seq<Alarm>
  {
    if existing.Some? then ReplaceById(stored, existing.value.id, alarm) else stored + [alarm]
  }

  /** Save appends when there is nothing to edit and otherwise replaces in
      place; an edit whose target matches no stored alarm (in particular one
      without identity) leaves the list as it was. */
  lemma SavedListSpec(stored: seq<Alarm>, existing: Option<Existing>, alarm: Alarm)
    ensures existing.None? ==> SavedList(stored, existing, alarm) == stored + [alarm]
    ensures existing.Some? ==> |SavedList(stored, existing, alarm)| == |stored|
    ensures existing.Some? ==>
              forall i :: 0 <= i < |stored| ==>
                SavedList(stored, existing, alarm)[i] == if Some(stored[i].id) == existing.value.id then alarm else stored[i]
    ensures existing.Some? && (forall i :: 0 <= i < |stored| ==> Some(stored[i].id) != existing.value.id) ==>
              SavedList(stored, existing, alarm) == stored
  {
    if existing.Some? {
      ReplaceByIdAt(stored, existing.value.id, alarm);
    }
  }
}
