/**
  The filters the room wraps around each listener a client registers, and the
  typing-user update the live-event filter performs on the way through.
*/
module Listeners {
  import opened Options
  import opened Json
  import opened Events
  import opened RoomStates

  /** The identity of a listener object a client hands to the room. */
  type ListenerId = nat

  /**
    The listener the room builds around a client's one and registers with the
    router. `handle` stands for the identity of that new object; `target` is
    the client listener it forwards to.
  */
  datatype WrappedListener = WrappedListener(handle: nat, target: ListenerId)

  /** A live event goes through only when it is for this room and the room is ready. */
  predicate PassesLive(roomId: string, isReady: bool, e: Event) {
    e.roomId == roomId && isReady
  }

  /** A history event or a deletion goes through when it is for this room; readiness is not checked. */
  predicate PassesRoom(roomId: string, e: Event) {
    e.roomId == roomId
  }

  /** A presence update goes through when the user has a member record in the live state. */
  predicate PassesPresence(live: RoomState, userId: string) {
    userId in live.members
  }

  /** A typing notification that carries a `user_ids` field. */
  predicate IsTypingUpdate(e: Event) {
    e.eventType == TypingType && "user_ids" in e.content
  }

  /**
    The typing-user list after a live event that passed the filter: a typing
    notification with `user_ids` replaces it with the parsed list, or with an
    empty list when that does not parse; any other event leaves it as it was.
  */
  function TypingAfter(current: Option<seq<string>>, e: Event): (r: Option<seq<string>>)
    ensures IsTypingUpdate(e) ==> r.Some? && (ParseStringList(e.content["user_ids"]).Some? ==> r == ParseStringList(e.content["user_ids"]))
    ensures !IsTypingUpdate(e) ==> r == current
  {
    if IsTypingUpdate(e) then
      Some(ParseStringList(e.content["user_ids"]).GetOr([]))
    else
      current
  }

  /** The typing list is never made null: a present list stays present. */
  lemma TypingAfterNeverNull(current: Option<seq<string>>, e: Event)
    requires current.Some?
    ensures TypingAfter(current, e).Some?
  {
  }

  /** A typing notification whose `user_ids` is an array of strings sets the list to exactly those users. */
  lemma TypingAfterExact(current: Option<seq<string>>, e: Event, users: seq<string>)
    requires e.eventType == TypingType && "user_ids" in e.content
    requires e.content["user_ids"] == StringArray(users)
    ensures TypingAfter(current, e) == Some(users)
  {
    ParseStringArray(users);
  }

  /** A typing notification whose `user_ids` is not an array of strings empties the list. */
  lemma TypingAfterMalformed(current: Option<seq<string>>, e: Event)
    requires e.eventType == TypingType && "user_ids" in e.content
    requires !e.content["user_ids"].JArray? || exists i :: 0 <= i < |e.content["user_ids"].items| && !e.content["user_ids"].items[i].JString?
    ensures TypingAfter(current, e) == Some([])
  {
  }

  /** Any other event, and a typing notification without `user_ids`, leaves the list unchanged. */
  lemma TypingAfterOther(current: Option<seq<string>>, e: Event)
    requires e.eventType != TypingType || "user_ids" !in e.content
    ensures TypingAfter(current, e) == current
  {
  }
}
