# Room: the per-room client state machine of the Matrix Android SDK

This project models `Room`, the object the Matrix Android SDK keeps for each
room a client knows about. It proves properties of that model. A room holds:

- a live state and a back state (the state at the live frontier and the state
  reached while paging back through history);
- a readiness flag, set once the initial state has been processed, that gates
  live events and history requests;
- the pagination flags `isPaginating` (a request is in flight) and
  `canStillPaginate` (history has not run out);
- the list of users currently typing;
- the listeners the client registered, each wrapped in a filtering listener
  that is registered with the data handler's router;
- the outgoing-message pipeline: `sendMessage`, which never reports a
  failure and instead stores an unsent local echo, and the resend pass,
  which sends the stored unsent messages strictly one after another.

`Room` is a Dafny class (`Rooms.Room`, room.dfy) whose fields are the Java
fields. The collaborators the room talks to are fields too, holding what the
room leaves in them:

- the set of listeners registered with the router (`registered`);
- the records of the event store (`store`);
- the calls made on the data handler (`notifications`);
- the send and history requests issued to the transport (`sends`,
  `historyRequests`).

Each asynchronous callback of the original is a method of its own. The
transport's answer to a history request is `OnHistorySuccess` or
`OnHistoryError`; the return of the caller's callback for a page is
`EndPageCallback`, because the request still counts as in flight while that
callback runs. The answer to one send of a resend chain is
`OnResendAnswer`. The router's calls into a wrapped listener are
`OnPresenceUpdate`, `OnLiveEvent`, `OnBackEvent` and `OnDeletedEvent`. The
loops of the original are loops here, each proved against a function that
specifies it:

- `ProcessLiveState` against `ApplyAll`;
- the history page walk (`WalkPage`) against `BackFill`;
- the resend selection (`QueueForResend`) against `SelectForResend`.

The room's invariant `Valid` says four things. The typing list is never
null. Both states carry the room's id. A history request is in flight only
in a ready room, and one whose page has not arrived yet only in a room that
can still paginate; every request issued has been answered except the one in
flight. Every remembered listener pair is
registered with the router, and every registered listener is older than the
next one to be made.

The other modules:

- `Options`: the optional value;
- `Json`: JSON values, Gson's list-of-strings parse, message serialisation;
- `Events`: the event record, transport errors, type and error-code names,
  decimal timestamps;
- `RoomStates`: the room state as an abstract value;
- `Listeners`: the filter predicates and the typing update;
- `Collaborators`: requests and data-handler notifications;
- `History`: the history page walk as a function;
- `Delivery`: the send callback and the resend selection, as functions;
- `Scenarios`: short sequences of operations on a fresh room and their
  outcomes, plus a driver that answers a resend chain to its end.

All paths below are relative to the repository root; `Room.java` stands for
sdk/src/main/java/org/matrix/androidsdk/data/Room.java.

## Model

| member | source | states |
|---|---|---|
| Rooms.Room.constructor | sdk/src/main/java/org/matrix/androidsdk/data/Room.java:78-97 | A new room is not ready and not paginating, can still paginate, has an empty typing list, fresh empty states, and no listeners; the invariant holds. |
| Rooms.Room.SetRoomId | sdk/src/main/java/org/matrix/androidsdk/data/Room.java:103-107 | The room id is set in the room and in both states, and nothing else in the states changes. |
| Rooms.Room.SetMyUserId | sdk/src/main/java/org/matrix/androidsdk/data/Room.java:141 | The local user id becomes the given id. |
| Rooms.Room.AddEventListener | sdk/src/main/java/org/matrix/androidsdk/data/Room.java:163-221 | A new wrapped listener, distinct from every one registered before and targeting the client listener, is remembered for it (replacing any earlier pair) and registered with the router. |
| Rooms.Room.RemoveEventListener | sdk/src/main/java/org/matrix/androidsdk/data/Room.java:227-230 | The wrapped listener remembered for the client listener is deregistered and the pair forgotten; an unknown listener deregisters nothing. |
| Rooms.Room.OnPresenceUpdate | sdk/src/main/java/org/matrix/androidsdk/data/Room.java:166-172 | A presence update reaches the client listener if and only if the user is a member in the live state. |
| Rooms.Room.OnLiveEvent | sdk/src/main/java/org/matrix/androidsdk/data/Room.java:174-200 | A live event reaches the client listener if and only if it is for this room and the room is ready. A typing event that passes replaces the typing list as `TypingAfter` says. The invariant (typing list never null) is kept. |
| Rooms.Room.OnBackEvent | sdk/src/main/java/org/matrix/androidsdk/data/Room.java:202-208 | A history event reaches the client listener if and only if it is for this room, ready or not. |
| Rooms.Room.OnDeletedEvent | sdk/src/main/java/org/matrix/androidsdk/data/Room.java:210-216 | A deletion reaches the client listener if and only if it is for this room, ready or not. |
| Rooms.Room.InitHistory | sdk/src/main/java/org/matrix/androidsdk/data/Room.java:236-239 | The back state becomes a copy of the live state and history is open again. |
| Rooms.Room.ProcessStateEvent | sdk/src/main/java/org/matrix/androidsdk/data/Room.java:246-249 | FORWARDS applies the event to the live state only; BACKWARDS applies it to the back state only. |
| Rooms.Room.ProcessLiveState | sdk/src/main/java/org/matrix/androidsdk/data/Room.java:255-260 | The whole batch is applied to the live state in order (`ApplyAll`), the back state is untouched, and only then is the room ready. |
| Rooms.Room.SendMessage | sdk/src/main/java/org/matrix/androidsdk/data/Room.java:269-314 | One send request is issued. A sent event is passed on with nothing stored. On any failure exactly one echo is stored and that same echo is passed on: a message event of this room from the local user, with no state key, unsent and not being sent, with id room id + "-" + timestamp, carrying the error and the message. |
| Rooms.Room.CompleteSend | sdk/src/main/java/org/matrix/androidsdk/data/Room.java:270-311 | The store grows by exactly what `SendCallback` stores, and the event handed back is the one it passes to the success method. |
| Rooms.Room.RequestHistory | sdk/src/main/java/org/matrix/androidsdk/data/Room.java:321-327 | A request starts if and only if none is in flight, history is open and the room is ready. A started request asks for the page before the back state's token. A refused one changes nothing. The invariant (at most one request in flight) is kept. |
| Rooms.Room.OnHistorySuccess | sdk/src/main/java/org/matrix/androidsdk/data/Room.java:330-343 | The back state takes the page's end token and then exactly what `BackFill` gives. The data handler gets `BackFill`'s notifications. The live state is untouched. History stays open if and only if the page is non-empty. The caller's callback gets the page size while the request is still in flight. |
| Rooms.Room.StartPageCallback | sdk/src/main/java/org/matrix/androidsdk/data/Room.java:338-343 | After the walk, an empty page closes history, and the caller's callback starts with the request still in flight; the invariant is kept. |
| Rooms.Room.EndPageCallback | sdk/src/main/java/org/matrix/androidsdk/data/Room.java:344 | Only once the caller's callback for a page has returned is the request over; the invariant is kept. |
| Rooms.Room.WalkPage | sdk/src/main/java/org/matrix/androidsdk/data/Room.java:332-337 | The loop over a page leaves the back state and the notifications exactly as `BackFill` says, and the live state untouched. |
| Rooms.Room.OnHistoryError | sdk/src/main/java/org/matrix/androidsdk/data/Room.java:347-367 | Every error ends the request, before the caller's callback sees the error. History stays open if and only if the error is not the Matrix error `M_UNKNOWN`. |
| Rooms.Room.GetTypingUsers | sdk/src/main/java/org/matrix/androidsdk/data/Room.java:512-514 | Returns the typing list, or an empty list in place of null. |
| Rooms.Room.ResendUnsentEvents | sdk/src/main/java/org/matrix/androidsdk/data/Room.java:528-550 | With no unsent records nothing happens. Otherwise the queue is `SelectForResend` of the store's unsent records, the store becomes `MarkSending` of itself, a chain starts at position 0, and the first queued record, if any, is sent. |
| Rooms.Room.ResendEventsList | sdk/src/main/java/org/matrix/androidsdk/data/Room.java:557-561 | Sends the record at the chain's position if the chain has one left, and nothing otherwise. |
| Rooms.Room.OnResendAnswer | sdk/src/main/java/org/matrix/androidsdk/data/Room.java:561-571 | Whatever the transport answers, the send callback ends in the success path. Its echo, if any, is stored. The old record is deleted, and its deletion and then the sent event (or echo) are announced. The chain moves on and sends its next record. |
| Rooms.Room.ReplaceResent | sdk/src/main/java/org/matrix/androidsdk/data/Room.java:564-567 | The resent record is deleted from the store, then its deletion and the replacing event are announced, in that order. |
| Rooms.Room.SendNext | sdk/src/main/java/org/matrix/androidsdk/data/Room.java:569-570 | The chain's position advances by one and the record there, if any, is sent. |
| Json.ParseStringList | sdk/src/main/java/org/matrix/androidsdk/data/Room.java:187 | The parse gives a list if and only if the JSON is an array of strings; the list holds those strings in order. |
| Json.ParseStringArray | sdk/src/main/java/org/matrix/androidsdk/data/Room.java:187 | Round trip: parsing the array built from a list of user ids gives back exactly that list. |
| Json.MessageRoundTrip | sdk/src/main/java/org/matrix/androidsdk/data/Room.java:561 | Round trip: reading a message back from the content it was serialised to gives that message, so a resend sends what was first sent. |
| Json.ToJson | sdk/src/main/java/org/matrix/androidsdk/data/Room.java:279 | A message is serialised to an object with exactly the keys `msgtype` and `body`. |
| Json.ToMessage | sdk/src/main/java/org/matrix/androidsdk/data/Room.java:561 | A message is read back from the string fields `msgtype` and `body` of a content. |
| Events.Decimal | sdk/src/main/java/org/matrix/androidsdk/data/Room.java:285 | Renders a timestamp as Java's string concatenation does: at least one digit, and at least two from 10 on. |
| Events.DecimalInjective | sdk/src/main/java/org/matrix/androidsdk/data/Room.java:285 | Different timestamps have different decimal renderings. |
| Events.EchoIdsDistinct | sdk/src/main/java/org/matrix/androidsdk/data/Room.java:285 | Two echoes of a room get the same made-up id if and only if they were made at the same millisecond. |
| Events.EchoId | sdk/src/main/java/org/matrix/androidsdk/data/Room.java:285 | An echo's made-up id is the room id, then a dash, then the decimal timestamp, and nothing else. |
| RoomStates.ApplyState | sdk/src/main/java/org/matrix/androidsdk/data/Room.java:248 | Applying a state event keeps the room id and token, appends the event to the log, and sets the member record named by a member event's state key; other events leave the members as they were. |
| RoomStates.ApplyAll | sdk/src/main/java/org/matrix/androidsdk/data/Room.java:255-260 | Applying a batch keeps the room id and the token and logs one entry per event. |
| RoomStates.ApplyAllLog | sdk/src/main/java/org/matrix/androidsdk/data/Room.java:255-260 | A batch keeps the room id and token and appends exactly the batch, in order, to the log. |
| RoomStates.ApplyAllAppend | sdk/src/main/java/org/matrix/androidsdk/data/Room.java:255-260 | Applying `a + b` as one batch equals applying `a` and then `b`. |
| RoomStates.ApplyAllSnoc | sdk/src/main/java/org/matrix/androidsdk/data/Room.java:256-258 | One more event extends a batch by one `ApplyState` step. |
| Listeners.PassesLive | sdk/src/main/java/org/matrix/androidsdk/data/Room.java:177 | Defines the live filter: the event is for this room and the room is ready. `OnLiveEvent` states the resulting delivery outright. |
| Listeners.PassesRoom | sdk/src/main/java/org/matrix/androidsdk/data/Room.java:205-213 | A history event or a deletion passes if and only if it is for this room. |
| Listeners.PassesPresence | sdk/src/main/java/org/matrix/androidsdk/data/Room.java:169 | A presence update passes if and only if the user has a member record in the live state. |
| Listeners.TypingAfter | sdk/src/main/java/org/matrix/androidsdk/data/Room.java:179-197 | A typing event with `user_ids` always leaves a list, the parsed one when the parse succeeds; any other event leaves the list as it was. |
| Listeners.TypingAfterNeverNull | sdk/src/main/java/org/matrix/androidsdk/data/Room.java:192-195 | A typing list that is present stays present after any live event. |
| Listeners.TypingAfterExact | sdk/src/main/java/org/matrix/androidsdk/data/Room.java:183-187 | A typing event whose `user_ids` is an array of strings sets the list to exactly those users. |
| Listeners.TypingAfterMalformed | sdk/src/main/java/org/matrix/androidsdk/data/Room.java:186-195 | A typing event whose `user_ids` is not an array of strings empties the list. |
| Listeners.TypingAfterOther | sdk/src/main/java/org/matrix/androidsdk/data/Room.java:179-183 | Any other event, or a typing event without `user_ids`, leaves the list unchanged. |
| History.StateEvents | sdk/src/main/java/org/matrix/androidsdk/data/Room.java:333-335 | The state events of a page are events of the page, each with a state key. |
| History.StateEventsComplete | sdk/src/main/java/org/matrix/androidsdk/data/Room.java:333-335 | Every event of the page with a state key is among the page's state events. |
| History.StateEventsOrdered | sdk/src/main/java/org/matrix/androidsdk/data/Room.java:332-335 | Any two state-keyed events of the page are listed in page order. |
| History.BackFill | sdk/src/main/java/org/matrix/androidsdk/data/Room.java:331-337 | The walk hands on one notification per page event and keeps the back state's room id and token. |
| History.BackFillSnoc | sdk/src/main/java/org/matrix/androidsdk/data/Room.java:332-337 | One more event at the end of a page is one more step of the walk. |
| History.BackFillState | sdk/src/main/java/org/matrix/androidsdk/data/Room.java:332-335 | The back state after a page is the start state with exactly the page's state-keyed events applied BACKWARDS, in page order. |
| History.BackFillAt | sdk/src/main/java/org/matrix/androidsdk/data/Room.java:332-337 | The k-th notification is the k-th page event with the back state after the page's state events up to and including it. |
| History.BackFillNotifies | sdk/src/main/java/org/matrix/androidsdk/data/Room.java:332-337 | Every page event is handed on exactly once, in order, each with the snapshot taken after it. |
| History.BackFillKeepsIdentity | sdk/src/main/java/org/matrix/androidsdk/data/Room.java:331-337 | The walk keeps the back state's room id and the token just set, and only appends the page's state events to its log. |
| Delivery.UnsentEcho | sdk/src/main/java/org/matrix/androidsdk/data/Room.java:276-289 | The echo is unsent and not being sent, has no state key, reads back as the message, and its id is the room id + "-" + timestamp. |
| Delivery.SendCallback | sdk/src/main/java/org/matrix/androidsdk/data/Room.java:270-311 | Every answer ends in the caller's success method. A sent event is passed on unchanged with nothing stored. Any failure stores exactly one echo and passes that echo on: message type, no state key, unsent, not sending, this room, local user, the timestamp, id room id + "-" + timestamp, the captured error, and the message as content. |
| Delivery.LatestUnsent | sdk/src/main/java/org/matrix/androidsdk/data/Room.java:529 | The unsent listing is no longer than the store and holds only unsent records of the room. |
| Delivery.SelectForResend | sdk/src/main/java/org/matrix/androidsdk/data/Room.java:541-546 | The queue is no longer than the listing and every queued record is marked as being sent. |
| Delivery.MarkSending | sdk/src/main/java/org/matrix/androidsdk/data/Room.java:543 | The store keeps its length, and a record is flagged as being sent afterwards if and only if it was before or it is an unsent record of the room. |
| Delivery.QueueForResend | sdk/src/main/java/org/matrix/androidsdk/data/Room.java:541-546 | The loop builds exactly `SelectForResend` of the unsent records: no longer than them, every queued record marked as being sent. |
| Delivery.SelectForResendAt | sdk/src/main/java/org/matrix/androidsdk/data/Room.java:541-546 | The k-th queued record is the record at the k-th position not already being sent, marked as being sent. |
| Delivery.PendingExact | sdk/src/main/java/org/matrix/androidsdk/data/Room.java:541-546 | Those positions are strictly increasing (store order, no duplicates), and a position is taken if and only if its record is not already being sent. |
| Delivery.LatestUnsentSnoc | sdk/src/main/java/org/matrix/androidsdk/data/Room.java:529 | One more stored record extends the unsent listing by that record exactly when it is an unsent record of the room. |
| Delivery.SelectForResendSnoc | sdk/src/main/java/org/matrix/androidsdk/data/Room.java:541-546 | One more listed record extends the queue by that record, marked, exactly when it is not already being sent. |
| Delivery.PendingSnoc | sdk/src/main/java/org/matrix/androidsdk/data/Room.java:541-546 | One more listed record adds its position exactly when it is not already being sent. |
| Delivery.MarkSendingSnoc | sdk/src/main/java/org/matrix/androidsdk/data/Room.java:543 | One more stored record is marked exactly when it is an unsent record of the room. |
| Delivery.MarkSendingOnlyFlags | sdk/src/main/java/org/matrix/androidsdk/data/Room.java:543 | Marking changes nothing but the sending flag, and only on the room's unsent records. |
| Delivery.QueuedAreMarkedInStore | sdk/src/main/java/org/matrix/androidsdk/data/Room.java:541-546 | Every queued record appears, marked, in the store the pass leaves behind (the queue and the store share the flag). |
| Delivery.SecondPassQueuesNothing | sdk/src/main/java/org/matrix/androidsdk/data/Room.java:536-546 | A second pass over a marked store queues nothing, so no record is sent twice. |
| Delivery.DeleteEvent | sdk/src/main/java/org/matrix/androidsdk/data/Room.java:565 | Deleting by id leaves the store no longer than it was, with no record of that id. |
| Delivery.DeleteEventExact | sdk/src/main/java/org/matrix/androidsdk/data/Room.java:565 | Deleting keeps exactly the records with another id. |
| Delivery.LatestUnsentSound | sdk/src/main/java/org/matrix/androidsdk/data/Room.java:529 | The unsent listing holds only stored, unsent records of the room. |
| Delivery.LatestUnsentComplete | sdk/src/main/java/org/matrix/androidsdk/data/Room.java:529 | The unsent listing misses no unsent record of the room and lists any two of them in store order. |
| Scenarios.HistoryWaitsForReadiness | sdk/src/main/java/org/matrix/androidsdk/data/Room.java:322-326 | A room that is not ready refuses a history request and issues none. |
| Scenarios.OneHistoryRequestAtATime | sdk/src/main/java/org/matrix/androidsdk/data/Room.java:321-327 | A second request while the first is in flight is refused; exactly one is issued. |
| Scenarios.EmptyPageEndsHistory | sdk/src/main/java/org/matrix/androidsdk/data/Room.java:338-340 | After an empty page no further history request starts. |
| Scenarios.RequestFromPageCallback | sdk/src/main/java/org/matrix/androidsdk/data/Room.java:341-344 | A history request made from inside the caller's callback for a page is refused, even after a non-empty page; once the callback has returned, one starts if and only if the page was non-empty. |
| Scenarios.NextRequestUsesEndToken | sdk/src/main/java/org/matrix/androidsdk/data/Room.java:328-331 | After a non-empty page the next request starts and asks for the page before the end token just received. |
| Scenarios.RetryAfterHistoryError | sdk/src/main/java/org/matrix/androidsdk/data/Room.java:347-367 | After a failed request, including from inside the caller's error callback, a new one starts if and only if the error was not the Matrix error `M_UNKNOWN`. |
| Scenarios.LiveEventsWaitForReadiness | sdk/src/main/java/org/matrix/androidsdk/data/Room.java:177 | A live event is held back before the initial state is processed, and delivered after it if and only if it is for the room. |
| Scenarios.TypingUsersFollowNotification | sdk/src/main/java/org/matrix/androidsdk/data/Room.java:179-198 | In a room whose id is set, a typing event for the room listing users makes `getTypingUsers` return exactly those users. |
| Scenarios.MalformedTypingClears | sdk/src/main/java/org/matrix/androidsdk/data/Room.java:186-195 | In a room whose id is set, a typing event for the room whose user list is not an array clears the typing users. |
| Scenarios.FailedSendStoresOneEcho | sdk/src/main/java/org/matrix/androidsdk/data/Room.java:291-296 | A failed send stores exactly one echo, the one handed to the caller, carrying the error and the message. |
| Scenarios.AddThenRemove | sdk/src/main/java/org/matrix/androidsdk/data/Room.java:219-229 | Adding and then removing a listener leaves none of the room's listeners registered. |
| Scenarios.AddTwiceThenRemove | sdk/src/main/java/org/matrix/androidsdk/data/Room.java:219-229 | Adding a listener twice and then removing it leaves the first wrapped listener registered. |
| Scenarios.ResendInStoreOrder | sdk/src/main/java/org/matrix/androidsdk/data/Room.java:548-570 | Two unsent records are sent in store order; the second only after the answer to the first. |
| Scenarios.ResendReplacesRecord | sdk/src/main/java/org/matrix/androidsdk/data/Room.java:564-567 | Resending the only unsent record empties the store and announces its deletion, then the sent event. |
| Scenarios.RunChainToEnd | sdk/src/main/java/org/matrix/androidsdk/data/Room.java:557-586 | Whatever the answers are, a chain runs to its end, and the records after the one in flight are sent one by one in queue order. |
| Scenarios.OneUnsentRecord | sdk/src/main/java/org/matrix/androidsdk/data/Room.java:528-565 | A pass over one unsent record queues and marks it; deleting it empties the store. |
| Scenarios.TwoUnsentRecords | sdk/src/main/java/org/matrix/androidsdk/data/Room.java:528-565 | A pass over two unsent records queues both in store order and marks both; deleting the first leaves the second. |

`canStillPaginate` is a latch, and so is `isReady`. Only the constructor and
`InitHistory` set `canStillPaginate` to true. `ProcessLiveState` is the only
method that writes `isReady`, and it only ever sets it to true. Both facts
follow from the `modifies` clauses and `ensures` of the methods above.

## Left out

- The REST delegations (Room.java:381-523) are left out: `join`,
  `initialSync`, `invite`, `leave`, `kick`, `ban`, `unban`, `updateName`,
  `updateTopic`, `redact` and `sendTypingNotification`. Each is a single call
  into a transport client that is not part of this model.
- `updateUserPowerLevels` is left out: it depends on the power-levels class,
  which is not part of this model.
- The trivial accessors are left out: `getRoomId`, `getLiveState`,
  `getMembers`, `setMember`, `getMember`, `getTopic`, `getName`,
  `getVisibility`, `setVisibility`, `setDataRetriever` and `setDataHandler`.
  They read or write a field, or delegate to the room state.
- The room state class is not part of this model. A state is a value: room id,
  token, member records and the log of applied state events. `applyState`
  records the event and lets a member event set its member's record.
  Everything else it does (`prev_content` for BACKWARDS, power levels, name,
  topic, visibility, display names) is not modelled. Being a value, a state
  needs no `deepCopy`.
- PieFractionView.java is left out: it is drawing code with no room logic.
- Json.ParseStringList: does not model Gson's leniency (numbers and
  booleans converted to strings, null items). Every non-string item makes the
  parse fail, which the room then turns into an empty list.
- Json.ToMessage: a message is modelled by its `msgtype` and `body` only.
  Other message fields (images, locations) are not modelled.
- Rooms.Room.SendMessage: the transport request and its answer are one step
  here, because the room keeps no state between them. The Java failure path
  reads the room id and the local user id when the answer arrives, while the
  request used the room id at the time it was issued; merging the two steps
  hides a `setRoomId` or `setMyUserId` made in between. The timestamp
  `System.currentTimeMillis()` is a parameter. The Java event keeps
  exceptions and Matrix errors in two fields; the model keeps one
  `unsentError`.
- Rooms.Room.OnHistorySuccess: what the caller's callback does is not
  modelled, only when it runs: between `OnHistorySuccess` and
  `EndPageCallback`. The page size is returned whether or not the caller gave
  a callback.
- Rooms.Room.GetTypingUsers: returns a value. The Java method hands out the
  room's own list object, so a caller that changed it would change the
  room's typing list; that aliasing is not modelled.
- Rooms.Room.OnHistoryError: forwarding the error to the caller's callback
  (through `SimpleApiCallback`) is not modelled.
- Rooms.Room.OnResendAnswer: events are values. The Java code flags shared
  event objects; here the `isSending` flag is set on the store's records by
  `MarkSending`, and the store deletes by event id. The answer to each send
  is taken as a separate call, standing for the transport's asynchronous
  reply.
- Rooms.Room.AddEventListener: listeners are identified by a number, and
  the router's listener list is the set `registered`. The router's dispatch
  to registered listeners is not modelled; the filter methods take the
  wrapped listener they run in as a parameter.
- The event store is a sequence of records in store order. Its unsent listing
  is modelled as a filter in that order, and its persistence is not modelled.
- Threading is not modelled: every callback runs to completion before the
  next one starts.
- Initial ids: `mRoomId` and `mMyUserId` start as null in Java
  (Room.java:78, 85); here they start as the empty string. Before
  `setRoomId`, the live, history and deletion filters (Room.java:177, 205,
  213) throw a NullPointerException on `mRoomId.equals`; here they compare
  against the empty string instead, so an event whose room id is empty
  passes. The scenarios set the room id before they deliver events.
- The names `m.room.message`, `m.typing`, `m.room.member` and `M_UNKNOWN`
  are the Matrix protocol names that the event and Matrix error classes use.
  Those classes are not part of this model.
