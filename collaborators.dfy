/**
  What the room asks of the collaborators it does not own: the requests it
  issues to the transport and the notifications it hands to the data handler
  (the router that fans events out to every registered listener).
*/
module Collaborators {
  import opened Options
  import opened Json
  import opened Events
  import opened RoomStates

  /** A request issued to the transport; its answer comes back later through a callback. */
  datatype Request =
    | SendRequest(roomId: string, message: Message)
    | HistoryRequest(roomId: string, token: Option<string>)

  /** A call the room makes on the data handler, with the state snapshot it passes along. */
  datatype Notification =
    | BackEvent(event: Event, state: RoomState)
    | DeletedEvent(event: Event)
    | LiveEvent(event: Event, state: RoomState)
}
