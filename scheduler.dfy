/** Turning one alarm into notification triggers, and cancelling them.
    Time is an integer number of milliseconds since a local midnight. */
module Scheduler {
  import opened Wrappers
  import opened Catalog
  import opened TimeText
  import opened Notifications
  import opened Alarms

  const MinuteMs: nat := 60_000
  const HourMs: nat := 3_600_000
  const DayMs: nat := 86_400_000

  /** The channel every alarm request is posted on. */
  const AlarmChannel: string := "verse-alarm"

  /** The table from day chip to platform weekday. */
  const DayMap: map<string, nat> := map["ஞா" := 1, "தி" := 2, "ஸோ" := 3, "செ" := 4, "பு" := 5, "வி" := 6, "ச" := 7]

  /** The platform weekday of a day token: chip i of `Days` is weekday i + 1;
      any other token has none. */
  function WeekdayOf(token: string): (r: Option<nat>)
    ensures r.Some? <==> token in Days
    ensures r.Some? ==> 1 <= r.value <= 7 && Days[r.value - 1] == token
  {
    if token in DayMap then Some(DayMap[token]) else None
  }

  /** Every chip maps to its own position, so the table agrees with the chip order. */
  lemma DayTableFollowsChips()
    ensures forall i :: 0 <= i < 7 ==> WeekdayOf(Days[i]) == Some(i + 1)
  {
    forall i | 0 <= i < 7 ensures WeekdayOf(Days[i]) == Some(i + 1) {
      var w := WeekdayOf(Days[i]);
      assert w.Some? && Days[w.value - 1] == Days[i];
    }
  }

  /** The milliseconds past midnight of an hour and minute. */
  function TimeOfDay(h: nat, m: nat): nat
  {
    h * HourMs + m * MinuteMs
  }

  /** Today's moment at `h:m:00.000`, moved to the next day when it is not
      strictly after `now`. */
  function NextOccurrence(h: nat, m: nat, now: nat): int
  {
    var at := (now / DayMs) * DayMs + TimeOfDay(h, m);
    if at <= now then at + DayMs else at
  }

  lemma DivModOf(x: int, q: int, r: int)
    requires 0 <= r < DayMs && x == q * DayMs + r
    ensures x / DayMs == q && x % DayMs == r
  {
  }

  /** The one-shot moment comes strictly after `now` and at most a day later,
      at the alarm's time of day; it falls on the same day exactly when that
      time of day is still ahead (a moment equal to `now` rolls to tomorrow);
      and no later moment at that time of day comes sooner. */
  lemma NextOccurrenceSpec(h: nat, m: nat, now: nat)
    requires h < 24 && m < 60
    ensures now < NextOccurrence(h, m, now) <= now + DayMs
    ensures NextOccurrence(h, m, now) % DayMs == TimeOfDay(h, m)
    ensures NextOccurrence(h, m, now) / DayMs == now / DayMs <==> now % DayMs < TimeOfDay(h, m)
    ensures NextOccurrence(h, m, now) / DayMs == now / DayMs + 1 <==> TimeOfDay(h, m) <= now % DayMs
    ensures forall t: int :: now < t && t % DayMs == TimeOfDay(h, m) ==> NextOccurrence(h, m, now) <= t
  {
    var tod, q, rem := TimeOfDay(h, m), now / DayMs, now % DayMs;
    assert tod < DayMs;
    var r := NextOccurrence(h, m, now);
    if tod <= rem {
      assert r == (q + 1) * DayMs + tod;
      DivModOf(r, q + 1, tod);
    } else {
      assert r == q * DayMs + tod;
      DivModOf(r, q, tod);
    }
    forall t: int | now < t && t % DayMs == tod ensures r <= t {
      var qt := t / DayMs;
      assert t == qt * DayMs + tod;
      if qt == q {
        assert rem < tod;
      }
    }
  }

  /** One weekly trigger per recognised day token, in token order; unknown
      tokens are skipped. */
  function WeeklyTriggers(days: seq<string>, h: nat, m: nat): seq<Trigger>
  {
    if days == [] then []
    else
      var rest := WeeklyTriggers(days[1..], h, m);
      match WeekdayOf(days[0])
      case Some(w) => [Weekly(w, h, m)] + rest
      case None => rest
  }

  lemma {:induction false} WeeklyTriggersAppend(xs: seq<string>, ys: seq<string>, h: nat, m: nat)
    ensures WeeklyTriggers(xs + ys, h, m) == WeeklyTriggers(xs, h, m) + WeeklyTriggers(ys, h, m)
  {
    if xs == [] {
      assert xs + ys == ys;
    } else {
      assert (xs + ys)[0] == xs[0] && (xs + ys)[1..] == xs[1..] + ys;
      WeeklyTriggersAppend(xs[1..], ys, h, m);
    }
  }

  /** The recognised day tokens, in order. */
  function KnownDays(days: seq<string>): seq<string>
  {
    if days == [] then [] else (if WeekdayOf(days[0]).Some? then [days[0]] else []) + KnownDays(days[1..])
  }

  /** The weekly triggers are exactly the recognised tokens, in order, each at
      its weekday and the alarm's hour and minute. */
  lemma {:induction false} WeeklyTriggersOfKnown(days: seq<string>, h: nat, m: nat)
    ensures |WeeklyTriggers(days, h, m)| == |KnownDays(days)|
    ensures forall k :: 0 <= k < |KnownDays(days)| ==>
              WeekdayOf(KnownDays(days)[k]).Some? &&
              WeeklyTriggers(days, h, m)[k] == Weekly(WeekdayOf(KnownDays(days)[k]).value, h, m)
  {
    if days != [] {
      WeeklyTriggersOfKnown(days[1..], h, m);
    }
  }

  /** Recognised tokens are kept with their multiplicity, so duplicates count. */
  lemma {:induction false} KnownDaysKeepCounts(days: seq<string>, t: string)
    requires t in Days
    ensures multiset(KnownDays(days))[t] == multiset(days)[t]
  {
    if days != [] {
      KnownDaysKeepCounts(days[1..], t);
      assert days == [days[0]] + days[1..];
      assert multiset(days) == multiset([days[0]]) + multiset(days[1..]);
    }
  }

  /** Unknown tokens are dropped. */
  lemma {:induction false} KnownDaysDropUnknown(days: seq<string>, t: string)
    requires t !in Days
    ensures t !in KnownDays(days)
  {
    if days != [] {
      KnownDaysDropUnknown(days[1..], t);
    }
  }

  /** When every token is a chip, nothing is dropped. */
  lemma {:induction false} KnownDaysAllChips(days: seq<string>)
    requires forall i :: 0 <= i < |days| ==> days[i] in Days
    ensures KnownDays(days) == days
  {
    if days != [] {
      KnownDaysAllChips(days[1..]);
      assert days == [days[0]] + days[1..];
    }
  }

  /** With every token a chip, there is one trigger per token, at that token's weekday. */
  lemma AllChipsAllTriggers(days: seq<string>, h: nat, m: nat)
    requires forall i :: 0 <= i < |days| ==> days[i] in Days
    ensures |WeeklyTriggers(days, h, m)| == |days|
    ensures forall k :: 0 <= k < |days| ==> WeeklyTriggers(days, h, m)[k] == Weekly(WeekdayOf(days[k]).value, h, m)
  {
    KnownDaysAllChips(days);
    WeeklyTriggersOfKnown(days, h, m);
  }

  /** The triggers scheduling plans for an alarm whose time is well formed:
      one one-shot trigger when it has no days, else the weekly ones. */
  function PlannedTriggers(a: Alarm, now: nat): seq<Trigger>
    requires ValidTime(a.time)
  {
    var (h, m) := ParseTime(a.time).value;
    if |a.days| == 0 then [At(NextOccurrence(h, m, now))] else WeeklyTriggers(a.days, h, m)
  }

  /** Without days the plan is one one-shot trigger in (now, now + one day]. */
  lemma OneShotPlan(a: Alarm, now: nat)
    requires ValidTime(a.time) && |a.days| == 0
    ensures |PlannedTriggers(a, now)| == 1 && PlannedTriggers(a, now)[0].At?
    ensures now < PlannedTriggers(a, now)[0].date <= now + DayMs
    ensures PlannedTriggers(a, now)[0].date % DayMs == TimeOfDay(ParseTime(a.time).value.0, ParseTime(a.time).value.1)
  {
    var (h, m) := ParseTime(a.time).value;
    NextOccurrenceSpec(h, m, now);
  }

  /** The payload every trigger of an alarm carries. */
  function AlarmPayload(a: Alarm): AlarmData
  {
    AlarmData(a.id, a.verse.id, "alarm", a.labelText)
  }

  /** What every notification of an alarm shows. */
  function AlarmContent(a: Alarm): Content
  {
    Content("✝ " + a.labelText, a.verse.tamil, AlarmPayload(a), "#FFD700", "max")
  }

  /** The request posted for trigger `t` of alarm `a`. */
  function AlarmRequest(a: Alarm, t: Trigger): Request
  {
    Request(AlarmContent(a), t, AlarmChannel)
  }

  /** The service state after identifiers `ids` were issued for `triggers` of `a`. */
  ghost predicate Issued(svc: map<TriggerId, Request>, before: map<TriggerId, Request>, lo: nat, hi: nat,
                         ids: seq<TriggerId>, a: Alarm, triggers: seq<Trigger>)
  {
    && |ids| == |triggers|
    && (forall k :: 0 <= k < |ids| ==> lo <= ids[k] < hi && ids[k] !in before)
    && (forall k, l :: 0 <= k < l < |ids| ==> ids[k] < ids[l])
    && (forall k :: 0 <= k < |ids| ==> ids[k] in svc && svc[ids[k]] == AlarmRequest(a, triggers[k]))
    && (forall id :: id in svc <==> id in before || id in ids)
    && (forall id :: id in before ==> svc[id] == before[id])
  }

  /** Issuing one more identifier for one more trigger keeps `Issued`. */
  lemma IssuedStep(svc: map<TriggerId, Request>, before: map<TriggerId, Request>, lo: nat, hi: nat,
                   ids: seq<TriggerId>, a: Alarm, triggers: seq<Trigger>, id: TriggerId, t: Trigger, hi': nat)
    requires Issued(svc, before, lo, hi, ids, a, triggers)
    requires forall x :: x in svc ==> x < hi
    requires lo <= hi <= id < hi'
    ensures Issued(svc[id := AlarmRequest(a, t)], before, lo, hi', ids + [id], a, triggers + [t])
  {
    var s' := svc[id := AlarmRequest(a, t)];
    assert id !in before;
    forall k | 0 <= k < |ids| ensures ids[k] != id && s'[ids[k]] == AlarmRequest(a, triggers[k]) {
      assert ids[k] < hi;
    }
  }

  /** Schedules one weekly trigger per recognised day token of `a`, in token order. */
  method ScheduleWeekly(svc: Service, a: Alarm, hour: nat, minute: nat) returns (ids: seq<TriggerId>)
    requires svc.Valid()
    modifies svc
    ensures svc.Valid() && old(svc.nextId) <= svc.nextId
    ensures Issued(svc.scheduled, old(svc.scheduled), old(svc.nextId), svc.nextId, ids, a,
                   WeeklyTriggers(a.days, hour, minute))
  {
    ids := [];
    var i := 0;
    while i < |a.days|
      invariant 0 <= i <= |a.days|
      invariant svc.Valid() && old(svc.nextId) <= svc.nextId
      invariant Issued(svc.scheduled, old(svc.scheduled), old(svc.nextId), svc.nextId, ids, a,
                       WeeklyTriggers(a.days[..i], hour, minute))
    {
      assert a.days[..i + 1] == a.days[..i] + [a.days[i]];
      WeeklyTriggersAppend(a.days[..i], [a.days[i]], hour, minute);
      var weekday := WeekdayOf(a.days[i]);
      if weekday.Some? {
        ghost var before, lo := svc.scheduled, svc.nextId;
        var trigger := Weekly(weekday.value, hour, minute);
        var id := svc.Schedule(AlarmRequest(a, trigger));
        IssuedStep(before, old(svc.scheduled), old(svc.nextId), lo, ids, a,
                   WeeklyTriggers(a.days[..i], hour, minute), id, trigger, svc.nextId);
        ids := ids + [id];
      }
      i := i + 1;
    }
    assert a.days[..i] == a.days;
  }

  /** Schedules every planned trigger of `a` and returns their new identifiers
      in plan order; nothing already scheduled is touched. */
  method ScheduleAlarm(svc: Service, a: Alarm, now: nat) returns (ids: seq<TriggerId>)
    requires svc.Valid() && ValidTime(a.time)
    modifies svc
    ensures svc.Valid() && old(svc.nextId) <= svc.nextId
    ensures Issued(svc.scheduled, old(svc.scheduled), old(svc.nextId), svc.nextId, ids, a, PlannedTriggers(a, now))
  {
    var t := ParseTime(a.time).value;
    var hour, minute := t.0, t.1;
    if |a.days| == 0 {
      ghost var before, lo := svc.scheduled, svc.nextId;
      var trigger := At(NextOccurrence(hour, minute, now));
      var id := svc.Schedule(AlarmRequest(a, trigger));
      IssuedStep(before, before, lo, lo, [], a, [], id, trigger, svc.nextId);
      ids := [id];
    } else {
      ids := ScheduleWeekly(svc, a, hour, minute);
    }
  }

  /** Cancels every identifier in `ids`; an identifier the service does not
      know is skipped, its failure ignored. */
  method CancelAlarm(svc: Service, ids: seq<TriggerId>)
    requires svc.Valid()
    modifies svc
    ensures svc.Valid() && svc.nextId == old(svc.nextId)
    ensures svc.scheduled == old(svc.scheduled) - set k | 0 <= k < |ids| :: ids[k]
  {
    var i := 0;
    while i < |ids|
      invariant 0 <= i <= |ids|
      invariant svc.Valid() && svc.nextId == old(svc.nextId)
      invariant svc.scheduled == old(svc.scheduled) - set k | 0 <= k < i :: ids[k]
    {
      var _ := svc.Cancel(ids[i]);
      assert (set k | 0 <= k < i + 1 :: ids[k]) == (set k | 0 <= k < i :: ids[k]) + {ids[i]};
      i := i + 1;
    }
  }
}
