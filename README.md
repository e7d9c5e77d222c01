# Verse alarm: scheduling and alarm-list core

A Dafny model of the non-presentation logic of a mobile alarm app. Each alarm
is bound to a Tamil Bible verse. The model covers:

- how one alarm (an `"HH:MM"` time, optional weekday chips, a verse and a
  label) becomes notification triggers, and how they are cancelled;
- the alarm-list operations behind the home screen (toggle, delete) and the
  add/edit screen (day chips, save);
- the 24-hour to 12-hour display of a stored time;
- the decision that sends a fired or tapped alarm notification to the ringing
  screen with a verse from the static ten-entry catalog.

Time is an integer number of milliseconds since a local midnight. The platform
notification service is a class `Notifications.Service`. It holds a map from
trigger identifier to request and a counter; every identifier below the
counter has been issued and none above it. The key-value store is a class
`Storage.AlarmStore` holding what is stored under the alarm key. The clock
reading is a parameter (`now`) of the operations that read it.

Modules, leaf first:

- `Wrappers`: Option.
- `Catalog`: the verses, the day chips, the verse lookup.
- `TimeText`: the stored time string, its parse, the 12-hour display.
- `Notifications`: triggers, requests, the service.
- `Alarms`: the alarm record and the pure list computations.
- `Scheduler`: the trigger plan, `ScheduleAlarm`, `CancelAlarm`.
- `Storage`: the persisted list.
- `Screens`: the toggle, delete and save flows.
- `Routing`: the fired-notification decision.

The model follows the code as written, including these behaviours:

- Delete cancels the triggers of the *first* alarm with the identity but
  removes *every* alarm with it.
- Toggle flips *every* alarm with the identity.
- A save whose edit target has no identity (the partial record the verse list
  opens the editor with) writes the stored list back unchanged, even though
  it has scheduled triggers.
- Editing an alarm schedules new triggers and does not cancel the old ones.
- The new identity is `existing?.id || Date.now()`, so an edit target with
  identity 0 gets the clock reading as its identity. It still replaces the
  stored alarm with identity 0.

## Model

| member | source | states |
|---|---|---|
| `Catalog.CatalogIds` | App.js:44-115 | The catalog has ten entries and entry i has identity i + 1, so identities are 1..10 and distinct. |
| `Catalog.FindVerse` | App.js:911 | `find` by strict identity equality, as a position: none exactly when no entry matches; otherwise a matching position with no earlier match. |
| `Catalog.FindInNumbered` | App.js:911 | In a list numbered 1, 2, 3, ... the lookup finds position id - 1 for an identity in range and nothing for any other identity or none. |
| `Catalog.VerseOrFirstSpec` | App.js:918 | The lookup with fallback returns entry id - 1 for an identity in 1..10 and the first entry for any other identity or none. |
| `Scheduler.WeekdayOf` | App.js:153 | The day table gives a weekday exactly for the seven chips, 1..7, and chip i of the chip list gets weekday i + 1. |
| `Scheduler.DayTableFollowsChips` | App.js:117 | Every chip in chip order maps to its position plus one. |
| `Scheduler.NextOccurrenceSpec` | App.js:155-159 | The one-shot moment is strictly after now and at most a day later. It is at the alarm's time of day. It is on today's date exactly when that time of day is still ahead, so a moment equal to now rolls to tomorrow. No moment after now at that time of day is earlier. |
| `Scheduler.OneShotPlan` | App.js:155-170 | Without days the plan is exactly one one-shot trigger, in (now, now + 24 h], at the stored time of day. |
| `Scheduler.WeeklyTriggersAppend` | App.js:172-186 | The weekly plan of a concatenation is the concatenation of the plans, so triggers follow the order of the day tokens. |
| `Scheduler.WeeklyTriggersOfKnown` | App.js:172-186 | The weekly plan is the recognised tokens in order, each a weekly trigger at its own weekday and the alarm's hour and minute. |
| `Scheduler.KnownDaysKeepCounts` | App.js:172-174 | Each chip occurs among the recognised tokens as often as among the alarm's days, so duplicates are counted. |
| `Scheduler.KnownDaysDropUnknown` | App.js:173-174 | A token that is not a chip is skipped. |
| `Scheduler.KnownDaysAllChips` | App.js:172-174 | When every token is a chip, nothing is skipped. |
| `Scheduler.AllChipsAllTriggers` | App.js:172-188 | When every token is a chip there is one trigger per token, at that token's weekday. |
| `Scheduler.ScheduleAlarm` | App.js:148-189 | The returned identifiers are never issued before, strictly increasing and one per planned trigger, in plan order. Each is scheduled with the alarm's request: its title, verse text, payload `{alarmId, verseId, 'alarm', label}`, colour, priority and channel. Nothing already scheduled is touched. |
| `Scheduler.ScheduleWeekly` | App.js:172-186 | The loop over the day tokens issues fresh, increasing identifiers, one per weekly trigger of the plan and in plan order. It adds exactly those requests to the service. |
| `Scheduler.CancelAlarm` | App.js:191-195 | Afterwards the scheduled map is the old one without the given identifiers; unknown identifiers are no-ops. |
| `Notifications.Service.Schedule` | App.js:160-169 | The service stores the request under an identifier it has never issued. |
| `Notifications.Service.Cancel` | App.js:193 | Removes the identifier, reporting failure on an unknown one. |
| `TimeText.FormatParseRoundTrip` | App.js:528 | Splitting the stored string on ':' and parsing both fields returns the hour and minute it was built from. |
| `TimeText.FormatTimeShape` | App.js:528 | Below 100 the stored string is the two zero-padded digits of the hour, ':', and the two of the minute. |
| `TimeText.FormatTimeValid` | App.js:149-151 | Every time a save can store reads back as a real time of day, which is what scheduling needs. |
| `TimeText.TwelveHourRoundTrip` | App.js:386-387 | For a real hour the 12-hour display is in 1..12, and with its morning/evening suffix it recovers the hour. The same rule is written at App.js:392-393, 523-524 and 831-832. |
| `TimeText.FmtTimeOfStored` | App.js:389-395 | The card text of a stored time is the two-digit 12-hour hour, ':', the stored minute text and the suffix. The hour text parses back to the 12-hour hour. |
| `Alarms.Toggled` | App.js:355-362 | A matching alarm flips `active` and keeps every other field. It keeps its stored identifiers when it was active and takes the new ones when it was inactive. |
| `Alarms.ToggledTwice` | App.js:352-367 | Toggling twice restores every field but the trigger identifiers. |
| `Alarms.FirstWithId` | App.js:374 | None exactly when no alarm has the identity; otherwise an alarm with it that has no earlier alarm with it. |
| `Alarms.WithoutIdMembers` | App.js:376 | An alarm survives the delete filter exactly when it was in the list with a different identity. |
| `Alarms.WithoutIdAppend` | App.js:376 | The filter distributes over concatenation, so survivors keep their order. |
| `Alarms.WithoutIdNoMatch` | App.js:376 | With no alarm of that identity the list is unchanged. |
| `Alarms.ToggleDayMembers` | App.js:520 | Tapping a chip flips membership of that day and no other. |
| `Alarms.ToggleDayUndo` | App.js:520 | Selecting an unselected day and tapping it again gives the selection back. |
| `Alarms.ToggleDayKeepsChips` | App.js:520 | Selections made with the chips stay duplicate-free and contain only chip tokens. |
| `Alarms.NewAlarmId` | App.js:530 | A present, non-zero identity of the edit target is kept. Otherwise, including identity 0, the clock reading becomes the identity. |
| `Alarms.BuiltAlarm` | App.js:529-533 | The saved record is active with no identifiers yet. Its identity is the one `Alarms.NewAlarmId` chooses. Its time reads back as the picker's hour and minute. Its label is never empty: the form's label when that is non-empty, otherwise the placeholder `வேத வசன அலாரம்`. Days, verse, snooze and vibrate come from the form. |
| `Alarms.ReplaceByIdAt` | App.js:536 | The edit replace keeps length and position. Each entry becomes the new alarm exactly when its identity is the target. |
| `Alarms.SavedListSpec` | App.js:536 | A new alarm is appended. An edit replaces in place. An edit target that matches no stored alarm, or has no identity, leaves the list unchanged. |
| `Screens.Toggle` | App.js:352-367 | Length and order are kept and non-matching alarms are unchanged. A matching inactive alarm becomes active with one freshly issued identifier per planned trigger. A matching active alarm becomes inactive with its identifiers kept. With a single match, the service change is exactly that cancellation or that scheduling. With no match, nothing is scheduled or cancelled. The new list is stored. |
| `Screens.ToggleOne` | App.js:355-362 | Toggles one matching alarm: cancels its stored triggers, or schedules its plan. |
| `Screens.Delete` | App.js:373-378 | The stored list is the input without every alarm of the identity, in order. The service loses exactly the identifiers of the first match, or nothing when there is no match. |
| `Screens.Save` | App.js:526-539 | Loads the stored list and builds the alarm from the form. Schedules its plan under fresh identifiers without cancelling anything, so an edited alarm's old triggers stay live. Stores the list with the alarm appended or replaced in place. |
| `Storage.AlarmStore.Load` | App.js:197-202 | A load yields the stored list, or the empty list when nothing is stored or the stored text does not parse. |
| `Storage.AlarmStore.Save` | App.js:204-206 | The whole list is written under the alarm key in one call, replacing what was stored. |
| `Storage.SaveLoad` | App.js:197-206 | A load after a save yields the saved list. Writing back what was loaded changes nothing a later load sees. |
| `Routing.RouteSpec` | App.js:908-921 | Both listeners navigate exactly for payloads of type `alarm`, to the ringing screen with a catalog verse, the payload's label and snooze offered. An identity outside the catalog falls back to the first verse. |
| `Routing.FiredAlarmRingsItsVerse` | App.js:164 | The payload an alarm bound to a catalog verse schedules rings, when delivered, with that verse and the alarm's label. |

## Left out

- Scheduler.ScheduleAlarm: requires the stored time to read back as an hour below 24 and a minute below 60. Every time the save writes meets this (`TimeText.FormatTimeValid`). A malformed string would reach the platform as `NaN`, which is not modelled.
- Screens.Toggle: for the same reason, requires that the time of each inactive matching alarm is well formed.
- Screens.Toggle: states the exact service change only when one alarm has the identity. With several matches, the interleaving of their schedule and cancel calls under `Promise.all` is concurrency and is not modelled; the model runs them in list order.
- Screens.Save: requires the picker hour below 24 and minute below 60, the range of a JavaScript `Date`.
- `parseInt` is modelled as the value of the leading digits. Leading blanks and a sign are not modelled, because a stored time never has them.
- The day table is a plain lookup. A token naming a property every JavaScript object inherits (for example `constructor`) would not be skipped by the app; day tokens only come from the chips.
- Time is milliseconds since a local midnight with 24-hour days. Time zones and daylight-saving changes of `Date` are not modelled. Each flow reads the clock once, for the one-shot moment and for the new alarm identity alike.
- Trigger identifiers are natural numbers issued by a counter, standing for the platform's opaque strings.
- Notifications.Service.Schedule: never fails. The app awaits each scheduling call without a catch, so a platform rejection would abort `scheduleAlarm`. Toggle and save would then stop before the list is written, and triggers already scheduled in the weekly loop would stay live with no alarm holding their identifiers. Scheduling failures and the flows they abort are not modelled.
- A cancellation fails only for an identifier the service does not know. Other platform failures are not modelled; their effect on the flow is the same, because the failure is ignored.
- JSON encoding and AsyncStorage are an abstract store holding either a list or unparsable text.
- Permission and channel setup, vibration, haptics and device checks call foreign platform services.
- The delete confirmation dialog is user interface, so only the confirmed branch is modelled.
- Listener registration and the navigation call, including a missing navigation container, are left out. The model keeps only the payload-to-screen decision.
- The ringing screen, the verse list screen, animations, gradients and styles are presentation.
- The in-memory copy of the list that React state keeps (`setAlarms`) is not modelled separately from the returned list.
- Lost updates between concurrent operations are concurrency, beyond a sequential model.
