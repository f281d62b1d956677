/**
  The per-room client state machine: the live and back states, the readiness
  and pagination flags, the typing users, the listeners wrapped for the
  router, and the outgoing-message pipeline with its resend chains.

  Every asynchronous callback of the original is a method of its own here:
  the transport's answer to a history request is `OnHistorySuccess` or
  `OnHistoryError`, its answer to one resend is `OnResendAnswer`, and the
  router's calls into a wrapped listener are `OnPresenceUpdate`,
  `OnLiveEvent`, `OnBackEvent` and `OnDeletedEvent`. The collaborators the
  room talks to appear as the state the room leaves in them: the listeners
  registered with the router, the records in the store, the notifications
  handed to the data handler and the requests issued to the transport.
*/
module Rooms {
  import opened Options
  import opened Json
  import opened Events
  import opened RoomStates
  import opened Listeners
  import opened Collaborators
  import opened History
  import opened Delivery

  class Room {
    var roomId: string
    var myUserId: string
    var liveState: RoomState
    var backState: RoomState
    /** Client listener to the wrapped listener registered for it. */
    var eventListeners: map<ListenerId, WrappedListener>
    var isPaginating: bool
    var canStillPaginate: bool
    var isReady: bool
    /** The typing users; None stands for the null the field may briefly hold. */
    var typingUsers: Option<seq<string>>

    /** The router's registered listeners that this room created. */
    var registered: set<WrappedListener>
    /** Every wrapped listener made so far has a smaller handle: a new one is a new object. */
    var nextHandle: nat
    /** The records of the event store, in store order. */
    var store: seq<Event>
    /** The calls made on the data handler, in order. */
    var notifications: seq<Notification>
    /** The send requests issued to the transport, in order. */
    var sends: seq<Request>
    /** The history requests issued to the transport, in order. */
    var historyRequests: seq<Request>
    /** The resend chains started so far. */
    var chains: seq<ResendChain>
    /** How many history requests have been answered. */
    ghost var historyAnswers: nat
    /**
      The page of the request in flight has been walked and the caller's
      callback for it is running; the request still counts as in flight.
    */
    ghost var inPageCallback: bool

    /**
      The room's invariant: the typing users are never null; both states
      belong to this room; a history request is in flight only in a ready
      room, and one whose page has not arrived yet only in a room that can
      still paginate; every history request issued has been answered but the
      one in flight; each remembered pair is registered with the router under
      the client listener it wraps.
    */
    ghost predicate Valid()
      reads this`typingUsers, this`roomId, this`liveState, this`backState
      reads this`isPaginating, this`isReady, this`canStillPaginate, this`historyRequests, this`historyAnswers, this`inPageCallback
      reads this`eventListeners, this`registered, this`nextHandle
    {
      && typingUsers.Some?
      && liveState.roomId == roomId && backState.roomId == roomId
      && (isPaginating ==> isReady)
      && (isPaginating && !inPageCallback ==> canStillPaginate)
      && (inPageCallback ==> isPaginating)
      && |historyRequests| == historyAnswers + (if isPaginating then 1 else 0)
      && (forall l :: l in eventListeners ==> eventListeners[l].target == l && eventListeners[l] in registered)
      && (forall w :: w in registered ==> w.handle < nextHandle)
    }

    /** A new room, next to a store that may already hold records. */
    constructor (initialStore: seq<Event>)
      ensures Valid()
      ensures roomId == "" && myUserId == ""
      ensures liveState == Initial && backState == Initial
      ensures eventListeners == map[] && registered == {}
      ensures !isPaginating && !inPageCallback && canStillPaginate && !isReady
      ensures typingUsers == Some([])
      ensures store == initialStore && notifications == [] && sends == [] && historyRequests == [] && chains == []
    {
      roomId, myUserId := "", "";
      liveState, backState := Initial, Initial;
      eventListeners, registered, nextHandle := map[], {}, 0;
      isPaginating, canStillPaginate, isReady := false, true, false;
      typingUsers := Some([]);
      store, notifications, sends, historyRequests, chains := initialStore, [], [], [], [];
      historyAnswers, inPageCallback := 0, false;
    }

    /** Sets the room id, in the room and in both its states. */
    method SetRoomId(id: string)
      requires Valid()
      modifies this`roomId, this`liveState, this`backState
      ensures Valid()
      ensures roomId == id
      ensures liveState == old(liveState).(roomId := id) && backState == old(backState).(roomId := id)
    {
      roomId := id;
      liveState := liveState.(roomId := id);
      backState := backState.(roomId := id);
    }

    method SetMyUserId(id: string)
      modifies this`myUserId
      ensures myUserId == id
    {
      myUserId := id;
    }

    /**
      Wraps a client listener in a new filtering listener, remembers the pair
      and registers the new one with the router. Adding the same client
      listener again replaces the remembered pair and leaves the earlier
      wrapped listener registered.
    */
    method AddEventListener(l: ListenerId) returns (w: WrappedListener)
      requires Valid()
      modifies this`eventListeners, this`registered, this`nextHandle
      ensures Valid()
      ensures w.target == l && w !in old(registered)
      ensures eventListeners == old(eventListeners)[l := w]
      ensures registered == old(registered) + {w}
    {
      w := WrappedListener(nextHandle, l);
      nextHandle := nextHandle + 1;
      eventListeners := eventListeners[l := w];
      registered := registered + {w};
    }

    /** Deregisters the wrapped listener remembered for a client listener, and forgets the pair. */
    method RemoveEventListener(l: ListenerId)
      requires Valid()
      modifies this`eventListeners, this`registered
      ensures Valid()
      ensures eventListeners == old(eventListeners) - {l}
      ensures registered == if l in old(eventListeners) then old(registered) - {old(eventListeners)[l]} else old(registered)
    {
      if l in eventListeners {
        registered := registered - {eventListeners[l]};
      }
      eventListeners := eventListeners - {l};
    }

    /** A presence update reaches the client listener only for a user who is a member in the live state. */
    method OnPresenceUpdate(w: WrappedListener, event: Event, userId: string) returns (delivered: Option<ListenerId>)
      ensures delivered.Some? <==> userId in liveState.members
      ensures delivered.Some? ==> delivered.value == w.target
    {
      delivered := if PassesPresence(liveState, userId) then Some(w.target) else None;
    }

    /**
      A live event reaches the client listener only when it is for this room
      and the room is ready; on the way, a typing notification with
      `user_ids` replaces the typing users.
    */
    method OnLiveEvent(w: WrappedListener, event: Event, state: RoomState) returns (delivered: Option<ListenerId>)
      requires Valid()
      modifies this`typingUsers
      ensures Valid()
      ensures delivered.Some? <==> event.roomId == roomId && isReady
      ensures delivered.Some? ==> delivered.value == w.target
      ensures typingUsers == if PassesLive(roomId, isReady, event) then TypingAfter(old(typingUsers), event) else old(typingUsers)
    {
      delivered := None;
      if event.roomId == roomId && isReady {
        if event.eventType == TypingType {
          if "user_ids" in event.content {
            typingUsers := None;
            typingUsers := ParseStringList(event.content["user_ids"]);
            if typingUsers == None {
              typingUsers := Some([]);
            }
          }
        }
        delivered := Some(w.target);
      }
    }

    /** A history event reaches the client listener when it is for this room, ready or not. */
    method OnBackEvent(w: WrappedListener, event: Event, state: RoomState) returns (delivered: Option<ListenerId>)
      ensures delivered.Some? <==> event.roomId == roomId
      ensures delivered.Some? ==> delivered.value == w.target
    {
      delivered := if PassesRoom(roomId, event) then Some(w.target) else None;
    }

    /** A deletion reaches the client listener when it is for this room, ready or not. */
    method OnDeletedEvent(w: WrappedListener, event: Event) returns (delivered: Option<ListenerId>)
      ensures delivered.Some? <==> event.roomId == roomId
      ensures delivered.Some? ==> delivered.value == w.target
    {
      delivered := if PassesRoom(roomId, event) then Some(w.target) else None;
    }

    /** Restarts history from the live frontier: the back state becomes a copy of the live state. */
    method InitHistory()
      requires Valid()
      modifies this`backState, this`canStillPaginate
      ensures Valid()
      ensures backState == liveState && canStillPaginate
    {
      backState := liveState;
      canStillPaginate := true;
    }

    /** Applies a state event to the live state (FORWARDS) or to the back state (BACKWARDS), and to nothing else. */
    method ProcessStateEvent(event: Event, direction: Direction)
      modifies this`liveState, this`backState
      ensures direction == Forwards ==> liveState == ApplyState(old(liveState), event, direction) && backState == old(backState)
      ensures direction == Backwards ==> backState == ApplyState(old(backState), event, direction) && liveState == old(liveState)
    {
      if direction == Forwards {
        liveState := ApplyState(liveState, event, direction);
      } else {
        backState := ApplyState(backState, event, direction);
      }
    }

    /** Applies the initial batch of state events to the live state, in order, and only then marks the room ready. */
    method ProcessLiveState(stateEvents: seq<Event>)
      requires Valid()
      modifies this`liveState, this`backState, this`isReady
      ensures Valid()
      ensures liveState == ApplyAll(old(liveState), stateEvents, Forwards)
      ensures backState == old(backState)
      ensures isReady
    {
      for i := 0 to |stateEvents|
        invariant liveState == ApplyAll(old(liveState), stateEvents[..i], Forwards)
        invariant backState == old(backState)
        modifies this`liveState, this`backState
      {
        ProcessStateEvent(stateEvents[i], Forwards);
        ApplyAllSnoc(old(liveState), stateEvents[..i], stateEvents[i], Forwards);
        assert stateEvents[..i + 1] == stateEvents[..i] + [stateEvents[i]];
      }
      assert stateEvents[..|stateEvents|] == stateEvents;
      ApplyAllLog(old(liveState), stateEvents, Forwards);
      isReady := true;
    }

    /**
      Sends a message and takes the transport's answer. A sent event is passed
      to the caller as it is; on any failure one unsent echo is stored and that
      echo is passed to the caller's success method. The caller's error methods
      are never invoked.
    */
    method SendMessage(message: Message, ts: nat, outcome: SendOutcome) returns (delivered: Event)
      requires Valid()
      modifies this`sends, this`store
      ensures Valid()
      ensures sends == old(sends) + [SendRequest(roomId, message)]
      ensures outcome.Sent? ==> delivered == outcome.event && store == old(store)
      ensures outcome.Failed? ==> store == old(store) + [delivered]
      ensures outcome.Failed? ==>
        && delivered.eventType == MessageType && delivered.stateKey.None?
        && delivered.isUnsent && !delivered.isSending
        && delivered.roomId == roomId && delivered.userId == myUserId
        && delivered.eventId == EchoId(roomId, ts) && delivered.originServerTs == ts
        && delivered.unsentError == Some(outcome.error)
        && ToMessage(delivered.content) == message
    {
      sends := sends + [SendRequest(roomId, message)];
      delivered := CompleteSend(message, ts, outcome);
    }

    /**
      The send callback's answer to the transport: stores the echo a failure
      produces and hands back the event passed to the caller's success method.
    */
    method CompleteSend(message: Message, ts: nat, outcome: SendOutcome) returns (delivered: Event)
      requires Valid()
      modifies this`store
      ensures Valid()
      ensures var completion := SendCallback(roomId, myUserId, message, ts, outcome);
              store == old(store) + completion.stored && delivered == completion.reported.event
    {
      var completion := SendCallback(roomId, myUserId, message, ts, outcome);
      store := store + completion.stored;
      delivered := completion.reported.event;
    }

    /**
      Starts a history request unless one is in flight, history is exhausted
      or the room is not ready; the request asks for the page before the back
      state's token.
    */
    method RequestHistory() returns (started: bool)
      requires Valid()
      modifies this`isPaginating, this`historyRequests
      ensures Valid()
      ensures started <==> !old(isPaginating) && canStillPaginate && isReady
      ensures started ==> isPaginating && historyRequests == old(historyRequests) + [HistoryRequest(roomId, backState.token)]
      ensures !started ==> isPaginating == old(isPaginating) && historyRequests == old(historyRequests)
    {
      if isPaginating || !canStillPaginate || !isReady {
        return false;
      }
      isPaginating := true;
      historyRequests := historyRequests + [HistoryRequest(roomId, backState.token)];
      started := true;
    }

    /**
      The transport's page of history: the back state takes the page's end
      token, then the page is walked in order, and an empty page ends
      history. Returning hands the page size to the caller's callback, which
      runs while the request still counts as in flight; `EndPageCallback`
      ends the request once that callback has returned.
    */
    method OnHistorySuccess(end: Option<string>, chunk: seq<Event>) returns (count: nat)
      requires Valid() && isPaginating && !inPageCallback
      modifies this`backState, this`liveState, this`notifications, this`canStillPaginate, this`inPageCallback
      ensures Valid()
      ensures backState == BackFill(old(backState).(token := end), chunk).state
      ensures backState.token == end
      ensures notifications == old(notifications) + BackFill(old(backState).(token := end), chunk).notified
      ensures liveState == old(liveState)
      ensures canStillPaginate <==> |chunk| > 0
      ensures isPaginating && inPageCallback
      ensures count == |chunk|
    {
      backState := backState.(token := end);
      ghost var start := backState;
      WalkPage(chunk);
      BackFillKeepsIdentity(start, chunk);
      StartPageCallback(|chunk| == 0);
      count := |chunk|;
    }

    /** The page has been walked: `exhausted` ends history, and the caller's callback starts with the request still in flight. */
    method StartPageCallback(exhausted: bool)
      requires Valid() && isPaginating && !inPageCallback
      modifies this`canStillPaginate, this`inPageCallback
      ensures Valid()
      ensures inPageCallback
      ensures canStillPaginate <==> !exhausted
    {
      if exhausted {
        canStillPaginate := false;
      }
      inPageCallback := true;
    }

    /** The caller's callback for a page has returned: only now is the request over. */
    method EndPageCallback()
      requires Valid() && inPageCallback
      modifies this`isPaginating, this`inPageCallback, this`historyAnswers
      ensures Valid()
      ensures !isPaginating && !inPageCallback
    {
      inPageCallback := false;
      isPaginating := false;
      historyAnswers := historyAnswers + 1;
    }

    /**
      The loop of the history success handler: each event of the page, in
      order, is applied to the back state when it has a state key, and then
      handed to the data handler with a snapshot of the back state.
    */
    method WalkPage(chunk: seq<Event>)
      modifies this`backState, this`liveState, this`notifications
      ensures backState == BackFill(old(backState), chunk).state
      ensures notifications == old(notifications) + BackFill(old(backState), chunk).notified
      ensures liveState == old(liveState)
    {
      for i := 0 to |chunk|
        invariant backState == BackFill(old(backState), chunk[..i]).state
        invariant notifications == old(notifications) + BackFill(old(backState), chunk[..i]).notified
        invariant liveState == old(liveState)
      {
        var event := chunk[i];
        BackFillSnoc(old(backState), chunk[..i], event);
        assert chunk[..i + 1] == chunk[..i] + [event];
        if event.stateKey.Some? {
          ProcessStateEvent(event, Backwards);
        }
        notifications := notifications + [BackEvent(event, backState)];
      }
      assert chunk[..|chunk|] == chunk;
    }

    /**
      A failed history request: always ends the request, before the error
      goes on to the caller's callback; only a Matrix error with the
      unknown-token code ends history.
    */
    method OnHistoryError(error: TransportError)
      requires Valid() && isPaginating && !inPageCallback
      modifies this`canStillPaginate, this`isPaginating, this`historyAnswers
      ensures Valid()
      ensures !isPaginating
      ensures canStillPaginate <==> !(error.MatrixError? && error.errcode == UnknownErrcode)
    {
      if error.MatrixError? && error.errcode == UnknownErrcode {
        canStillPaginate := false;
      }
      isPaginating := false;
      historyAnswers := historyAnswers + 1;
    }

    /** The typing users, never null. */
    method GetTypingUsers() returns (users: seq<string>)
      ensures typingUsers.Some? ==> users == typingUsers.value
      ensures typingUsers.None? ==> users == []
    {
      users := typingUsers.GetOr([]);
    }

    /**
      Starts a resend pass: takes the store's unsent records for this room,
      queues those not already being sent, marks them as being sent, and sends
      the first of them.
    */
    method ResendUnsentEvents()
      requires Valid()
      modifies this`store, this`chains, this`sends
      ensures Valid()
      ensures var events := LatestUnsent(old(store), roomId);
              var queue := SelectForResend(events);
              && (|events| == 0 ==> store == old(store) && chains == old(chains) && sends == old(sends))
              && (|events| > 0 ==>
                   && store == MarkSending(old(store), roomId)
                   && chains == old(chains) + [ResendChain(queue, 0)]
                   && sends == old(sends) + (if |queue| > 0 then [SendRequest(roomId, ToMessage(queue[0].content))] else []))
    {
      var events := LatestUnsent(store, roomId);
      if |events| > 0 {
        var queue := QueueForResend(events);
        store := MarkSending(store, roomId);
        chains := chains + [ResendChain(queue, 0)];
        ResendEventsList(|chains| - 1);
      }
    }

    /** Sends the record at a chain's current position, if the chain has one left. */
    method ResendEventsList(c: nat)
      requires c < |chains|
      modifies this`sends
      ensures var chain := chains[c];
              sends == old(sends) +
                (if chain.next < |chain.queue| then [SendRequest(roomId, ToMessage(chain.queue[chain.next].content))] else [])
    {
      var chain := chains[c];
      if |chain.queue| > 0 && chain.next < |chain.queue| {
        var message := ToMessage(chain.queue[chain.next].content);
        sends := sends + [SendRequest(roomId, message)];
      }
    }

    /**
      The transport's answer to the send in flight in chain `c`. It goes
      through the `sendMessage` callback, which always ends in the resend
      callback's success method: the old record is deleted, its deletion and
      then the sent event (or the new echo) are announced, and the chain moves
      on to send its next record.
    */
    method OnResendAnswer(c: nat, ts: nat, outcome: SendOutcome)
      requires Valid() && c < |chains| && chains[c].next < |chains[c].queue|
      modifies this`store, this`notifications, this`chains, this`sends
      ensures Valid()
      ensures var chain := old(chains[c]);
              var oldEvent := chain.queue[chain.next];
              var completion := SendCallback(roomId, myUserId, ToMessage(oldEvent.content), ts, outcome);
              && store == DeleteEvent(old(store) + completion.stored, oldEvent.eventId)
              && notifications == old(notifications) +
                   [DeletedEvent(oldEvent.(isSending := false)), LiveEvent(completion.reported.event, liveState)]
              && chains == old(chains)[c := chain.(next := chain.next + 1)]
              && sends == old(sends) +
                   (if chain.next + 1 < |chain.queue| then [SendRequest(roomId, ToMessage(chain.queue[chain.next + 1].content))] else [])
    {
      var chain := chains[c];
      var oldEvent := chain.queue[chain.next];
      var sentEvent := CompleteSend(ToMessage(oldEvent.content), ts, outcome);
      // the resend callback's success method; its error methods do nothing and are never reached
      ReplaceResent(oldEvent.(isSending := false), sentEvent);
      SendNext(c);
    }

    /** Deletes the resent record from the store, then announces its deletion and the event that replaces it. */
    method ReplaceResent(oldEvent: Event, sentEvent: Event)
      requires Valid()
      modifies this`store, this`notifications
      ensures Valid()
      ensures store == DeleteEvent(old(store), oldEvent.eventId)
      ensures notifications == old(notifications) + [DeletedEvent(oldEvent), LiveEvent(sentEvent, liveState)]
    {
      store := DeleteEvent(store, oldEvent.eventId);
      notifications := notifications + [DeletedEvent(oldEvent), LiveEvent(sentEvent, liveState)];
    }

    /** Moves chain `c` past the record just answered and sends the chain's next record, if it has one. */
    method SendNext(c: nat)
      requires Valid() && c < |chains| && chains[c].next < |chains[c].queue|
      modifies this`chains, this`sends
      ensures Valid()
      ensures var chain := old(chains[c]);
              && chains == old(chains)[c := chain.(next := chain.next + 1)]
              && sends == old(sends) +
                   (if chain.next + 1 < |chain.queue| then [SendRequest(roomId, ToMessage(chain.queue[chain.next + 1].content))] else [])
    {
      var chain := chains[c];
      chains := chains[c := chain.(next := chain.next + 1)];
      ResendEventsList(c);
    }
  }
}
