/** Where a fired or tapped alarm notification takes the app. */
module Routing {
  import opened Wrappers
  import opened Catalog
  import opened Notifications
  import opened Alarms
  import opened Scheduler

  /** The data of a delivered notification as the listener reads it; any
      field may be missing. */
  datatype Received = Received(kind: Option<string>, verseId: Option<int>, labelText: Option<string>)

  /** The navigation a delivery asks for: none, or the ringing screen with
      its parameters. */
  datatype Intent = Stay | Ring(verse: Verse, labelText: Option<string>, snooze: bool)

  /** The decision both delivery listeners make: an alarm payload rings with
      the catalog verse of its identity (the first verse when there is none),
      its label, and snooze offered; anything else is ignored. */
  function Route(data: Option<Received>): Intent
  {
    if data.Some? && data.value.kind == Some("alarm")
    then Ring(VerseOrFirst(data.value.verseId), data.value.labelText, true)
    else Stay
  }

  /** How the payload an alarm scheduled comes back when it fires. */
  function Delivered(d: AlarmData): Option<Received>
  {
    Some(Received(Some(d.kind), Some(d.verseId), Some(d.labelText)))
  }

  /** Routing rings exactly for alarm payloads, always with a catalog verse,
      the payload's label and snooze offered; a verse identity outside the
      catalog (or none) falls back to the first verse. */
  lemma RouteSpec(data: Option<Received>)
    ensures Route(data).Ring? <==> data.Some? && data.value.kind == Some("alarm")
    ensures Route(data).Ring? ==>
              Route(data).verse in Verses && Route(data).snooze && Route(data).labelText == data.value.labelText
    ensures Route(data).Ring? && data.value.verseId.Some? && 1 <= data.value.verseId.value <= 10 ==>
              Route(data).verse == Verses[data.value.verseId.value - 1]
    ensures Route(data).Ring? && !(data.value.verseId.Some? && 1 <= data.value.verseId.value <= 10) ==>
              Route(data).verse == Verses[0]
  {
    if data.Some? {
      VerseOrFirstSpec(data.value.verseId);
    }
  }

  /** An alarm bound to a catalog verse rings, when its notification fires,
      with that verse and its own label. */
  lemma FiredAlarmRingsItsVerse(a: Alarm)
    requires a.verse in Verses
    ensures Route(Delivered(AlarmPayload(a))) == Ring(a.verse, Some(a.labelText), true)
  {
    CatalogIds();
    var i :| 0 <= i < |Verses| && Verses[i] == a.verse;
    VerseOrFirstSpec(Some(a.verse.id));
  }
}
