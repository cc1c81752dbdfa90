/** The event row the buffers carry (`IClickhouseEvent`), reduced to the columns the flush logic reads or writes. */
module Events {
  import opened JsonValues
  import opened ListStore

  datatype Event = Event(
    id: string,
    name: string,
    deviceId: string,
    profileId: string,
    projectId: string,
    sessionId: string,
    path: string,
    device: string,
    /** `created_at` as milliseconds since the epoch. */
    createdAt: int,
    duration: int,
    properties: seq<Field>)

  const SCREEN_VIEW: string := "screen_view"
  const SESSION_END: string := "session_end"
  const SESSION_START: string := "session_start"

  /** The key of `sortOldestFirst`: `new Date(created_at).getTime()`. */
  function ByCreatedAt(item: QueueItem<Event>): int {
    item.event.createdAt
  }
}
