/**
  Short sequences of operations on a room, each started from a fresh room,
  with what the sequence is bound to end in.
*/
module Scenarios {
  import opened Options
  import opened Json
  import opened Events
  import opened RoomStates
  import opened Listeners
  import opened Collaborators
  import opened Delivery
  import opened Rooms

  /** A room that is not ready yet refuses to start a history request. */
  method HistoryWaitsForReadiness() returns (started: bool, requests: nat)
    ensures !started && requests == 0
  {
    var room := new Room([]);
    started := room.RequestHistory();
    requests := |room.historyRequests|;
  }

  /** A second history request is refused while the first is in flight. */
  method OneHistoryRequestAtATime() returns (first: bool, second: bool, requests: nat)
    ensures first && !second && requests == 1
  {
    var room := new Room([]);
    room.ProcessLiveState([]);
    first := room.RequestHistory();
    second := room.RequestHistory();
    requests := |room.historyRequests|;
  }

  /** An empty page ends history: no further request is started after it. */
  method EmptyPageEndsHistory(end: Option<string>) returns (first: bool, count: nat, second: bool, requests: nat)
    ensures first && count == 0 && !second && requests == 1
  {
    var room := new Room([]);
    room.ProcessLiveState([]);
    first := room.RequestHistory();
    count := room.OnHistorySuccess(end, []);
    room.EndPageCallback();
    second := room.RequestHistory();
    requests := |room.historyRequests|;
  }

  /**
    A non-empty page leaves history open, and the next request asks for the
    page before the token the answer carried.
  */
  method NextRequestUsesEndToken(end: Option<string>, chunk: seq<Event>) returns (again: bool, last: Request)
    requires |chunk| > 0
    ensures again && last == HistoryRequest("", end)
  {
    var room := new Room([]);
    room.ProcessLiveState([]);
    var first := room.RequestHistory();
    var count := room.OnHistorySuccess(end, chunk);
    room.EndPageCallback();
    again := room.RequestHistory();
    last := room.historyRequests[|room.historyRequests| - 1];
  }

  /**
    The caller's callback for a page runs while the request still counts as in
    flight, so a history request made from inside it is refused even when the
    page was not empty. Once the callback has returned, a request starts
    exactly when the page was not empty.
  */
  method RequestFromPageCallback(end: Option<string>, chunk: seq<Event>) returns (inside: bool, afterwards: bool)
    ensures !inside
    ensures afterwards <==> |chunk| > 0
  {
    var room := new Room([]);
    room.ProcessLiveState([]);
    var first := room.RequestHistory();
    var count := room.OnHistorySuccess(end, chunk);
    inside := room.RequestHistory();
    room.EndPageCallback();
    afterwards := room.RequestHistory();
  }

  /**
    After a failed history request, history may be asked for again unless the
    error was the unknown-token Matrix error. The request is over before the
    caller's error callback runs, so this holds for a request made from
    inside that callback too.
  */
  method RetryAfterHistoryError(error: TransportError) returns (retried: bool)
    ensures retried <==> !(error.MatrixError? && error.errcode == UnknownErrcode)
  {
    var room := new Room([]);
    room.ProcessLiveState([]);
    var first := room.RequestHistory();
    room.OnHistoryError(error);
    retried := room.RequestHistory();
  }

  /** A live event for the room is held back until the initial state is processed, and delivered after. */
  method LiveEventsWaitForReadiness(id: string, event: Event, w: WrappedListener) returns (before: Option<ListenerId>, after: Option<ListenerId>)
    ensures before == None
    ensures after.Some? <==> event.roomId == id
    ensures after.Some? ==> after.value == w.target
  {
    var room := new Room([]);
    room.SetRoomId(id);
    before := room.OnLiveEvent(w, event, room.liveState);
    room.ProcessLiveState([]);
    after := room.OnLiveEvent(w, event, room.liveState);
  }

  /** A typing notification listing users makes exactly those users the typing users. */
  method TypingUsersFollowNotification(id: string, users: seq<string>) returns (typing: seq<string>)
    ensures typing == users
  {
    var room := new Room([]);
    room.SetRoomId(id);
    room.ProcessLiveState([]);
    var event := Event("", TypingType, id, "", None, map["user_ids" := StringArray(users)], 0, false, false, None);
    TypingAfterExact(room.typingUsers, event, users);
    var delivered := room.OnLiveEvent(WrappedListener(0, 0), event, room.liveState);
    typing := room.GetTypingUsers();
  }

  /** A typing notification whose user list is not an array of strings clears the typing users. */
  method MalformedTypingClears(id: string, bad: Json) returns (typing: seq<string>)
    requires !bad.JArray?
    ensures typing == []
  {
    var room := new Room([]);
    room.SetRoomId(id);
    room.ProcessLiveState([]);
    var listed := Event("", TypingType, id, "", None, map["user_ids" := StringArray(["u"])], 0, false, false, None);
    var d1 := room.OnLiveEvent(WrappedListener(0, 0), listed, room.liveState);
    var event := Event("", TypingType, id, "", None, map["user_ids" := bad], 0, false, false, None);
    var d2 := room.OnLiveEvent(WrappedListener(0, 0), event, room.liveState);
    typing := room.GetTypingUsers();
  }

  /** A failed send stores one unsent echo of the message and hands that echo to the caller. */
  method FailedSendStoresOneEcho(message: Message, ts: nat, error: TransportError) returns (stored: seq<Event>, delivered: Event)
    ensures stored == [delivered]
    ensures delivered.isUnsent && delivered.unsentError == Some(error)
    ensures ToMessage(delivered.content) == message
  {
    var room := new Room([]);
    delivered := room.SendMessage(message, ts, Failed(error));
    stored := room.store;
  }

  /** Removing a listener that was added once leaves the router with none of this room's listeners. */
  method AddThenRemove(l: ListenerId) returns (left: set<WrappedListener>)
    ensures left == {}
  {
    var room := new Room([]);
    var w := room.AddEventListener(l);
    room.RemoveEventListener(l);
    left := room.registered;
  }

  /**
    Adding the same client listener twice and then removing it deregisters
    only the second wrapped listener: the first stays registered.
  */
  method AddTwiceThenRemove(l: ListenerId) returns (first: WrappedListener, left: set<WrappedListener>)
    ensures first.target == l && left == {first}
  {
    var room := new Room([]);
    first := room.AddEventListener(l);
    var second := room.AddEventListener(l);
    room.RemoveEventListener(l);
    left := room.registered;
  }

  /**
    A resend pass over two unsent records of the room sends the first record
    first, and the answer to it sends the second.
  */
  method ResendInStoreOrder(a: Event, b: Event, sent: Event, ts: nat) returns (sends: seq<Request>)
    requires IsUnsentIn(a, "") && IsUnsentIn(b, "") && !a.isSending && !b.isSending
    requires a.eventId != b.eventId
    ensures sends == [SendRequest("", ToMessage(a.content)), SendRequest("", ToMessage(b.content))]
  {
    var room := new Room([a, b]);
    TwoUnsentRecords(a, b, "");
    var a1, b1 := a.(isSending := true), b.(isSending := true);
    room.ResendUnsentEvents();
    assert room.chains == [ResendChain([a1, b1], 0)];
    assert room.sends == [SendRequest("", ToMessage(a1.content))];
    room.OnResendAnswer(0, ts, Sent(sent));
    assert room.sends == [SendRequest("", ToMessage(a1.content))] + [SendRequest("", ToMessage(b1.content))];
    sends := room.sends;
  }

  /**
    The answer to the resend of the only unsent record deletes the record and
    announces its deletion and then the sent event.
  */
  method ResendReplacesRecord(a: Event, sent: Event, ts: nat) returns (store: seq<Event>, notified: seq<Notification>)
    requires IsUnsentIn(a, "") && !a.isSending
    ensures store == []
    ensures notified == [DeletedEvent(a), LiveEvent(sent, Initial)]
  {
    var room := new Room([a]);
    OneUnsentRecord(a, "");
    var a1 := a.(isSending := true);
    room.ResendUnsentEvents();
    assert room.store == [a1] && room.chains == [ResendChain([a1], 0)];
    room.OnResendAnswer(0, ts, Sent(sent));
    assert a1.(isSending := false) == a && [a1] + [] == [a1];
    store := room.store;
    notified := room.notifications;
  }

  /** A resend pass over a store of one unsent record of the room queues it and marks it; deleting it empties the store. */
  lemma OneUnsentRecord(a: Event, id: string)
    requires IsUnsentIn(a, id) && !a.isSending
    ensures var a1 := a.(isSending := true);
      && LatestUnsent([a], id) == [a]
      && SelectForResend([a]) == [a1]
      && MarkSending([a], id) == [a1]
      && DeleteEvent([a1], a.eventId) == []
  {
    var a1 := a.(isSending := true);
    assert [] + [a] == [a];
    LatestUnsentSnoc([], a, id);
    SelectForResendSnoc([], a);
    assert [a1][..0] == [];
    assert DeleteEvent([a1], a.eventId) == DeleteEvent([], a.eventId);
  }

  /**
    Answers every remaining send of chain `c`, whatever each answer is: since
    every answer goes through the success path, the chain reaches its end,
    and the records after the one in flight are sent one by one, in queue
    order.
  */
  method RunChainToEnd(room: Room, c: nat, times: seq<nat>, outcomes: seq<SendOutcome>)
    requires room.Valid() && c < |room.chains| && room.chains[c].next < |room.chains[c].queue|
    requires |times| == |outcomes| == |room.chains[c].queue| - room.chains[c].next
    modifies room`store, room`notifications, room`chains, room`sends
    ensures room.Valid()
    ensures |room.chains| == |old(room.chains)| && room.chains[c] == old(room.chains[c]).(next := |old(room.chains[c]).queue|)
    ensures room.sends == old(room.sends) + ResendRequests(room.roomId, old(room.chains[c]).queue[old(room.chains[c]).next + 1..])
  {
    var queue, start := room.chains[c].queue, room.chains[c].next;
    var m := |queue| - start;
    for i := 0 to m
      invariant room.Valid()
      invariant |room.chains| == |old(room.chains)| && room.chains[c] == ResendChain(queue, start + i)
      invariant room.sends == old(room.sends) + ResendRequests(room.roomId, queue[start + 1..if i < m then start + 1 + i else |queue|])
    {
      AnswerResend(room, c, times[i], outcomes[i]);
      if i + 1 < m {
        assert queue[start + 1..start + 2 + i] == queue[start + 1..start + 1 + i] + [queue[start + 1 + i]];
      } else {
        assert queue[start + 1..start + 1 + i] == queue[start + 1..|queue|];
      }
    }
  }

  /** One answer to chain `c`, seen only through what it does to the chains and the send requests. */
  method AnswerResend(room: Room, c: nat, ts: nat, outcome: SendOutcome)
    requires room.Valid() && c < |room.chains| && room.chains[c].next < |room.chains[c].queue|
    modifies room`store, room`notifications, room`chains, room`sends
    ensures room.Valid()
    ensures var chain := old(room.chains[c]);
            && room.chains == old(room.chains)[c := chain.(next := chain.next + 1)]
            && room.sends == old(room.sends) +
                 (if chain.next + 1 < |chain.queue| then [SendRequest(room.roomId, ToMessage(chain.queue[chain.next + 1].content))] else [])
  {
    room.OnResendAnswer(c, ts, outcome);
  }

  /**
    A resend pass over a store of two unsent records of the room queues both,
    in store order, and marks both; deleting the first one leaves the second.
  */
  lemma TwoUnsentRecords(a: Event, b: Event, id: string)
    requires IsUnsentIn(a, id) && IsUnsentIn(b, id) && !a.isSending && !b.isSending
    requires a.eventId != b.eventId
    ensures var a1, b1 := a.(isSending := true), b.(isSending := true);
      && LatestUnsent([a, b], id) == [a, b]
      && SelectForResend([a, b]) == [a1, b1]
      && MarkSending([a, b], id) == [a1, b1]
      && DeleteEvent([a1, b1], a.eventId) == [b1]
  {
    var a1, b1 := a.(isSending := true), b.(isSending := true);
    assert [] + [a] == [a] && [a] + [b] == [a, b];
    LatestUnsentSnoc([], a, id);
    LatestUnsentSnoc([a], b, id);
    SelectForResendSnoc([], a);
    SelectForResendSnoc([a], b);
    assert [a1, b1][..1] == [a1] && [a1][..0] == [];
    assert DeleteEvent([a1], a.eventId) == [];
    assert DeleteEvent([a1, b1], a.eventId) == DeleteEvent([a1], a.eventId) + [b1];
  }
}
