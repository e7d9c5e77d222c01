/** The platform notification service, seen from the alarm app: it holds the
    scheduled requests by identifier and issues a new identifier for every
    request it accepts. */
module Notifications {
  /** An opaque trigger identifier issued by the service. */
  type TriggerId = nat

  /** When a request fires: once at an absolute moment (milliseconds since a
      local midnight), or every week on a weekday (1 = Sunday .. 7 = Saturday)
      at an hour and minute. */
  datatype Trigger =
    | At(date: int)
    | Weekly(weekday: nat, hour: nat, minute: nat)

  /** The data an alarm notification carries and hands back when it fires. */
  datatype AlarmData = AlarmData(alarmId: int, verseId: int, kind: string, labelText: string)

  datatype Content = Content(title: string, body: string, data: AlarmData, color: string, priority: string)

  /** One scheduling request: what to show, when, and on which channel. */
  datatype Request = Request(content: Content, trigger: Trigger, channelId: string)

  class Service {
    var scheduled: map<TriggerId, Request>
    /** Every identifier below `nextId` has been issued; none at or above it has. */
    var nextId: TriggerId

    ghost predicate Valid()
      reads this
    {
      forall id :: id in scheduled ==> id < nextId
    }

    constructor ()
      ensures Valid() && scheduled == map[] && nextId == 0
    {
      scheduled := map[];
      nextId := 0;
    }

    /** Schedules `req` under an identifier never issued before. */
    method Schedule(req: Request) returns (id: TriggerId)
      requires Valid()
      modifies this
      ensures Valid()
      ensures old(nextId) <= id < nextId
      ensures id !in old(scheduled)
      ensures scheduled == old(scheduled)[id := req]
    {
      id := nextId;
      scheduled := scheduled[id := req];
      nextId := nextId + 1;
    }

    /** Cancels `id`; `ok` is false (the call fails) when nothing is scheduled under it. */
    method Cancel(id: TriggerId) returns (ok: bool)
      requires Valid()
      modifies this
      ensures Valid()
      ensures ok == (id in old(scheduled))
      ensures scheduled == old(scheduled) - {id}
      ensures nextId == old(nextId)
    {
      ok := id in scheduled;
      scheduled := scheduled - {id};
    }
  }
}
