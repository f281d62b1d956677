/**
  The room state as an abstract value. The state class itself is not part of
  this model: a state is its room id, its pagination token, the member records
  that member state events have set, and the log of state events applied to
  it. Being a value, a copy of it can never share anything with the
  original, which is what the deep copies handed between the live and the
  back state and out to listeners guarantee.
*/
module RoomStates {
  import opened Options
  import opened Json
  import opened Events

  /** `Room.EventDirection`: FORWARDS for the live stream, BACKWARDS for pagination. */
  datatype Direction = Forwards | Backwards

  /** One application of a state event, in the direction it was applied. */
  datatype StateChange = StateChange(event: Event, direction: Direction)

  datatype RoomState = RoomState(
    roomId: string,
    token: Option<string>,
    members: map<string, Content>,
    applied: seq<StateChange>)

  /** A freshly constructed state: no room, no token, no members, nothing applied. */
  const Initial: RoomState := RoomState("", None, map[], [])

  /**
    `RoomState.applyState(event, direction)`: records the event, and a member
    state event sets the record of the member its state key names.
  */
  function ApplyState(s: RoomState, e: Event, d: Direction): (r: RoomState)
    ensures r.roomId == s.roomId && r.token == s.token
    ensures r.applied == s.applied + [StateChange(e, d)]
    ensures e.eventType == MemberType && e.stateKey.Some? ==> r.members == s.members[e.stateKey.value := e.content]
    ensures !(e.eventType == MemberType && e.stateKey.Some?) ==> r.members == s.members
  {
    var members := if e.eventType == MemberType && e.stateKey.Some? then s.members[e.stateKey.value := e.content] else s.members;
    s.(members := members, applied := s.applied + [StateChange(e, d)])
  }

  /** The state after applying `events` one after another, first to last. */
  function ApplyAll(s: RoomState, events: seq<Event>, d: Direction): (r: RoomState)
    ensures r.roomId == s.roomId && r.token == s.token
    ensures |r.applied| == |s.applied| + |events|
    decreases |events|
  {
    if events == [] then s
    else ApplyState(ApplyAll(s, events[..|events| - 1], d), events[|events| - 1], d)
  }

  /** The log entries that applying `events` in direction `d` appends. */
  function Changes(events: seq<Event>, d: Direction): (r: seq<StateChange>)
    ensures |r| == |events|
  {
    seq(|events|, i requires 0 <= i < |events| => StateChange(events[i], d))
  }

  /**
    Applying a batch keeps the room id and the token, and appends exactly the
    batch to the applied log, in batch order.
  */
  lemma {:induction false} ApplyAllLog(s: RoomState, events: seq<Event>, d: Direction)
    ensures ApplyAll(s, events, d).roomId == s.roomId
    ensures ApplyAll(s, events, d).token == s.token
    ensures ApplyAll(s, events, d).applied == s.applied + Changes(events, d)
    decreases |events|
  {
    if events != [] {
      var init := events[..|events| - 1];
      ApplyAllLog(s, init, d);
      assert Changes(events, d) == Changes(init, d) + [StateChange(events[|events| - 1], d)];
    }
  }

  /**
    Convergence: applying `a + b` as one batch gives the same state as applying
    `a` and then `b`, so a batch and the same events one by one agree.
  */
  lemma {:induction false} ApplyAllAppend(s: RoomState, a: seq<Event>, b: seq<Event>, d: Direction)
    ensures ApplyAll(s, a + b, d) == ApplyAll(ApplyAll(s, a, d), b, d)
    decreases |b|
  {
    if b == [] {
      assert a + b == a;
    } else {
      var init := b[..|b| - 1];
      assert (a + b)[..|a + b| - 1] == a + init;
      ApplyAllAppend(s, a, init, d);
    }
  }

  /** Applying one more event extends a batch by that event. */
  lemma ApplyAllSnoc(s: RoomState, events: seq<Event>, e: Event, d: Direction)
    ensures ApplyAll(s, events + [e], d) == ApplyState(ApplyAll(s, events, d), e, d)
  {
    assert (events + [e])[..|events|] == events;
  }
}
