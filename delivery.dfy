/**
  The outgoing-message pipeline, as functions: what the callback that
  `sendMessage` hands to the transport does with each possible answer, and
  which stored records a resend pass picks up and marks.
*/
module Delivery {
  import opened Options
  import opened Json
  import opened Events
  import opened Collaborators

  /** The answer the transport gives to a send request. */
  datatype SendOutcome = Sent(event: Event) | Failed(error: TransportError)

  /** Which method of a caller's `ApiCallback<Event>` is invoked, and with what. */
  datatype Callback =
    | OnSuccess(event: Event)
    | OnNetworkError(cause: string)
    | OnMatrixError(errcode: string)
    | OnUnexpectedError(cause: string)

  /** What answering a send does: the callback the caller gets, and the records stored on the way. */
  datatype Completion = Completion(reported: Callback, stored: seq<Event>)

  /**
    `storeUnsentMessage` followed by the error annotation: a message event for
    this room from the local user, stamped with the local time, flagged as
    unsent, with a made-up identifier, carrying the message and the failure.
  */
  function UnsentEcho(roomId: string, myUserId: string, message: Message, ts: nat, error: TransportError): (e: Event)
    ensures e.isUnsent && !e.isSending && e.stateKey.None?
    ensures ToMessage(e.content) == message
    ensures e.eventId == EchoId(roomId, ts) && e.eventId[..|roomId|] == roomId
  {
    MessageRoundTrip(message);
    Event(
      eventId := EchoId(roomId, ts),
      eventType := MessageType,
      roomId := roomId,
      userId := myUserId,
      stateKey := None,
      content := ToJson(message),
      originServerTs := ts,
      isUnsent := true,
      isSending := false,
      unsentError := Some(error))
  }

  /**
    The callback `sendMessage` gives the transport. A sent event is passed on
    unchanged. Any failure, network, Matrix or unexpected, is turned into one
    stored local echo that is passed to the caller's success method: the
    caller's error methods are never invoked.
  */
  function SendCallback(roomId: string, myUserId: string, message: Message, ts: nat, outcome: SendOutcome): (r: Completion)
    ensures r.reported.OnSuccess?
    ensures outcome.Sent? ==> r.reported.event == outcome.event && r.stored == []
    ensures outcome.Failed? ==> r.stored == [r.reported.event]
    ensures outcome.Failed? ==>
      var e := r.reported.event;
      && e.eventType == MessageType && e.stateKey.None?
      && e.isUnsent && !e.isSending
      && e.roomId == roomId && e.userId == myUserId
      && e.originServerTs == ts && e.eventId == EchoId(roomId, ts)
      && e.unsentError == Some(outcome.error)
      && ToMessage(e.content) == message
  {
    match outcome
    case Sent(event) => Completion(OnSuccess(event), [])
    case Failed(error) =>
      var echo := UnsentEcho(roomId, myUserId, message, ts, error);
      Completion(OnSuccess(echo), [echo])
  }

  /** A record the store lists among the unsent events of the room. */
  predicate IsUnsentIn(e: Event, roomId: string) {
    e.isUnsent && e.roomId == roomId
  }

  /** The store's unsent records for a room, in store order. */
  function LatestUnsent(store: seq<Event>, roomId: string): (r: seq<Event>)
    ensures |r| <= |store|
    ensures forall k :: 0 <= k < |r| ==> IsUnsentIn(r[k], roomId)
    decreases |store|
  {
    if store == [] then []
    else
      var last := store[|store| - 1];
      LatestUnsent(store[..|store| - 1], roomId) + (if IsUnsentIn(last, roomId) then [last] else [])
  }

  /** The records a resend pass queues: those not already being sent, now marked as being sent. */
  function SelectForResend(events: seq<Event>): (r: seq<Event>)
    ensures |r| <= |events|
    ensures forall k :: 0 <= k < |r| ==> r[k].isSending
    decreases |events|
  {
    if events == [] then []
    else
      var last := events[|events| - 1];
      SelectForResend(events[..|events| - 1]) + (if !last.isSending then [last.(isSending := true)] else [])
  }

  /**
    The loop of a resend pass: walks the unsent records in order and queues
    each one not already being sent, marked as being sent.
  */
  method QueueForResend(events: seq<Event>) returns (queue: seq<Event>)
    ensures queue == SelectForResend(events)
    ensures |queue| <= |events|
    ensures forall k :: 0 <= k < |queue| ==> queue[k].isSending
  {
    queue := [];
    for i := 0 to |events|
      invariant queue == SelectForResend(events[..i])
    {
      SelectForResendSnoc(events[..i], events[i]);
      assert events[..i + 1] == events[..i] + [events[i]];
      if !events[i].isSending {
        queue := queue + [events[i].(isSending := true)];
      }
    }
    assert events[..|events|] == events;
  }

  /** The positions, in increasing order, of the records not already being sent. */
  function Pending(events: seq<Event>): (r: seq<nat>)
    ensures forall k :: 0 <= k < |r| ==> r[k] < |events|
    decreases |events|
  {
    if events == [] then []
    else Pending(events[..|events| - 1]) + (if !events[|events| - 1].isSending then [|events| - 1] else [])
  }

  /** One more record at the end is one more step of the store's unsent listing. */
  lemma LatestUnsentSnoc(store: seq<Event>, e: Event, roomId: string)
    ensures LatestUnsent(store + [e], roomId) ==
      LatestUnsent(store, roomId) + (if IsUnsentIn(e, roomId) then [e] else [])
  {
    assert (store + [e])[..|store|] == store;
  }

  /** One more record at the end is one more step of the selection. */
  lemma SelectForResendSnoc(events: seq<Event>, e: Event)
    ensures SelectForResend(events + [e]) ==
      SelectForResend(events) + (if !e.isSending then [e.(isSending := true)] else [])
  {
    assert (events + [e])[..|events|] == events;
  }

  /** One more record at the end is one more step of the positions. */
  lemma PendingSnoc(events: seq<Event>, e: Event)
    ensures Pending(events + [e]) == Pending(events) + (if !e.isSending then [|events|] else [])
  {
    assert (events + [e])[..|events|] == events;
  }

  /**
    A resend pass queues, for each position not already being sent and in the
    order of those positions, that record marked as being sent.
  */
  lemma {:induction false} SelectForResendAt(events: seq<Event>)
    ensures |SelectForResend(events)| == |Pending(events)|
    ensures forall k :: 0 <= k < |Pending(events)| ==>
      !events[Pending(events)[k]].isSending &&
      SelectForResend(events)[k] == events[Pending(events)[k]].(isSending := true)
    decreases |events|
  {
    if events != [] {
      var n := |events| - 1;
      var init := events[..n];
      assert events == init + [events[n]];
      SelectForResendAt(init);
      PendingSnoc(init, events[n]);
      SelectForResendSnoc(init, events[n]);
      var p := Pending(init);
      forall k | 0 <= k < |p|
        ensures !events[p[k]].isSending && SelectForResend(events)[k] == events[p[k]].(isSending := true)
      {
        assert events[p[k]] == init[p[k]];
      }
    }
  }

  /**
    The positions a pass takes are increasing, so the queue keeps the store's
    order and takes no record twice, and every record not already being sent
    is among them.
  */
  lemma {:induction false} PendingExact(events: seq<Event>)
    ensures forall k, l :: 0 <= k < l < |Pending(events)| ==> Pending(events)[k] < Pending(events)[l]
    ensures forall j :: 0 <= j < |events| ==> (j in Pending(events) <==> !events[j].isSending)
    decreases |events|
  {
    if events != [] {
      var n := |events| - 1;
      var init := events[..n];
      assert events == init + [events[n]];
      PendingExact(init);
      PendingSnoc(init, events[n]);
      forall j | 0 <= j < n
        ensures j in Pending(events) <==> !events[j].isSending
      {
        assert init[j] == events[j];
      }
    }
  }

  /** The store after a resend pass: every unsent record of the room is marked as being sent. */
  function MarkSending(store: seq<Event>, roomId: string): (r: seq<Event>)
    ensures |r| == |store|
    ensures forall i :: 0 <= i < |store| ==> (r[i].isSending <==> store[i].isSending || IsUnsentIn(store[i], roomId))
  {
    seq(|store|, i requires 0 <= i < |store| =>
      if IsUnsentIn(store[i], roomId) then store[i].(isSending := true) else store[i])
  }

  /** Marking one more record extends the marked store by that record, marked. */
  lemma MarkSendingSnoc(store: seq<Event>, e: Event, roomId: string)
    ensures MarkSending(store + [e], roomId) ==
      MarkSending(store, roomId) + [if IsUnsentIn(e, roomId) then e.(isSending := true) else e]
  {
  }

  /** Marking changes only the sending flag of the room's unsent records: all else in the store is as before. */
  lemma MarkSendingOnlyFlags(store: seq<Event>, roomId: string)
    ensures forall i :: 0 <= i < |store| ==>
      MarkSending(store, roomId)[i].(isSending := store[i].isSending) == store[i]
    ensures forall i :: 0 <= i < |store| && !IsUnsentIn(store[i], roomId) ==> MarkSending(store, roomId)[i] == store[i]
  {
  }

  /** Every record a pass queues is, marked, in the store the pass leaves behind. */
  lemma {:induction false} QueuedAreMarkedInStore(store: seq<Event>, roomId: string)
    ensures forall e :: e in SelectForResend(LatestUnsent(store, roomId)) ==> e in MarkSending(store, roomId)
    decreases |store|
  {
    if store != [] {
      var n := |store| - 1;
      var init, last := store[..n], store[n];
      assert store == init + [last];
      QueuedAreMarkedInStore(init, roomId);
      MarkSendingSnoc(init, last, roomId);
      LatestUnsentSnoc(init, last, roomId);
      var before := LatestUnsent(init, roomId);
      var m := MarkSending(store, roomId);
      assert m == MarkSending(init, roomId) + [if IsUnsentIn(last, roomId) then last.(isSending := true) else last];
      if IsUnsentIn(last, roomId) {
        SelectForResendSnoc(before, last);
        assert LatestUnsent(store, roomId) == before + [last];
        assert m[n] == last.(isSending := true);
      } else {
        assert LatestUnsent(store, roomId) == before;
      }
      forall e | e in SelectForResend(LatestUnsent(store, roomId)) ensures e in m {
        if e in SelectForResend(before) {
          assert e in MarkSending(init, roomId);
        }
      }
    }
  }

  /** After a pass has marked the store, a second pass over it queues nothing. */
  lemma {:induction false} SecondPassQueuesNothing(store: seq<Event>, roomId: string)
    ensures SelectForResend(LatestUnsent(MarkSending(store, roomId), roomId)) == []
    decreases |store|
  {
    if store != [] {
      var n := |store| - 1;
      var init, last := store[..n], store[n];
      assert store == init + [last];
      SecondPassQueuesNothing(init, roomId);
      MarkSendingSnoc(init, last, roomId);
      var marked := if IsUnsentIn(last, roomId) then last.(isSending := true) else last;
      LatestUnsentSnoc(MarkSending(init, roomId), marked, roomId);
      var before := LatestUnsent(MarkSending(init, roomId), roomId);
      assert MarkSending(store, roomId) == MarkSending(init, roomId) + [marked];
      if IsUnsentIn(marked, roomId) {
        assert LatestUnsent(MarkSending(store, roomId), roomId) == before + [marked];
        SelectForResendSnoc(before, marked);
        assert marked.isSending;
      } else {
        assert LatestUnsent(MarkSending(store, roomId), roomId) == before;
      }
    }
  }

  /** `deleteRoomEvent`: the store without the records that have the given identifier. */
  function DeleteEvent(store: seq<Event>, eventId: string): (r: seq<Event>)
    ensures |r| <= |store|
    ensures forall k :: 0 <= k < |r| ==> r[k].eventId != eventId
    decreases |store|
  {
    if store == [] then []
    else
      var last := store[|store| - 1];
      DeleteEvent(store[..|store| - 1], eventId) + (if last.eventId != eventId then [last] else [])
  }

  /** Deleting keeps exactly the records with another identifier. */
  lemma {:induction false} DeleteEventExact(store: seq<Event>, eventId: string)
    ensures forall e :: e in DeleteEvent(store, eventId) <==> e in store && e.eventId != eventId
    decreases |store|
  {
    if store != [] {
      var init := store[..|store| - 1];
      DeleteEventExact(init, eventId);
      assert store == init + [store[|store| - 1]];
    }
  }

  /** The store's unsent listing holds only records of the store that are unsent records of the room. */
  lemma {:induction false} LatestUnsentSound(store: seq<Event>, roomId: string)
    ensures forall e :: e in LatestUnsent(store, roomId) ==> e in store && IsUnsentIn(e, roomId)
    decreases |store|
  {
    if store != [] {
      var init := store[..|store| - 1];
      LatestUnsentSound(init, roomId);
      assert store == init + [store[|store| - 1]];
    }
  }

  /**
    The store's unsent listing misses no unsent record of the room, and lists
    any two of them in the order the store holds them.
  */
  lemma {:induction false} LatestUnsentComplete(store: seq<Event>, roomId: string)
    ensures forall i :: 0 <= i < |store| && IsUnsentIn(store[i], roomId) ==> store[i] in LatestUnsent(store, roomId)
    ensures forall i, j :: 0 <= i < j < |store| && IsUnsentIn(store[i], roomId) && IsUnsentIn(store[j], roomId) ==>
      exists k, l :: 0 <= k < l < |LatestUnsent(store, roomId)| && LatestUnsent(store, roomId)[k] == store[i] && LatestUnsent(store, roomId)[l] == store[j]
    decreases |store|
  {
    if store != [] {
      var n := |store| - 1;
      var init := store[..n];
      assert store == init + [store[n]];
      LatestUnsentComplete(init, roomId);
      LatestUnsentSnoc(init, store[n], roomId);
      var before, after := LatestUnsent(init, roomId), LatestUnsent(store, roomId);
      assert after[..|before|] == before;
      forall i | 0 <= i < |store| && IsUnsentIn(store[i], roomId)
        ensures store[i] in after
      {
        if i < n {
          assert store[i] == init[i];
        }
      }
      forall i, j | 0 <= i < j < |store| && IsUnsentIn(store[i], roomId) && IsUnsentIn(store[j], roomId)
        ensures exists k, l :: 0 <= k < l < |after| && after[k] == store[i] && after[l] == store[j]
      {
        assert store[i] == init[i];
        if j < n {
          assert store[j] == init[j];
          var k, l :| 0 <= k < l < |before| && before[k] == init[i] && before[l] == init[j];
          assert after[k] == before[k] && after[l] == before[l];
        } else {
          var k :| 0 <= k < |before| && before[k] == init[i];
          assert after[k] == before[k] && after[|before|] == store[j];
        }
      }
    }
  }

  /** The send requests that resend the given records, one per record, in order. */
  function ResendRequests(roomId: string, records: seq<Event>): (r: seq<Request>)
    ensures |r| == |records|
  {
    seq(|records|, i requires 0 <= i < |records| => SendRequest(roomId, ToMessage(records[i].content)))
  }

  /** A chain of resends: the queued records and the position of the one whose send is in flight. */
  datatype ResendChain = ResendChain(queue: seq<Event>, next: nat)
}
