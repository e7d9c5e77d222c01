/** The persisted alarm list: one value under the key `@csi_alarms_v1` of a
    key-value store. */
module Storage {
  import opened Wrappers
  import opened Alarms

  /** What the store holds under the key: text that parses as an alarm list,
      or text that does not parse. */
  datatype Blob = Json(alarms: seq<Alarm>) | Unreadable

  /** The list a load yields: the stored list, or the empty list when nothing
      is stored or the stored text does not parse. */
  function Decode(raw: Option<Blob>): seq<Alarm>
  {
    match raw
    case Some(Json(alarms)) => alarms
    case _ => []
  }

  class AlarmStore {
    var raw: Option<Blob>

    constructor ()
      ensures raw == None
    {
      raw := None;
    }

    method Load() returns (alarms: seq<Alarm>)
      ensures alarms == Decode(raw)
      ensures raw.None? || raw == Some(Unreadable) ==> alarms == []
    {
      match raw {
        case Some(Json(stored)) => alarms := stored;
        case _ => alarms := [];
      }
    }

    /** Writes the whole list in one call. */
    method Save(alarms: seq<Alarm>)
      modifies this
      ensures raw == Some(Json(alarms))
    {
      raw := Some(Json(alarms));
    }
  }

  /** A load after a save yields the saved list, and writing back what was
      loaded changes nothing a later load can see. */
  lemma SaveLoad(alarms: seq<Alarm>, raw: Option<Blob>)
    ensures Decode(Some(Json(alarms))) == alarms
    ensures Decode(Some(Json(Decode(raw)))) == Decode(raw)
  {
  }
}
