/**
  The success handler of a history request, as a function of the back state
  it starts from and the page of events that came back.
*/
module History {
  import opened Options
  import opened Json
  import opened Events
  import opened RoomStates
  import opened Collaborators

  /** The events of a page that carry a state key, in page order. */
  function StateEvents(chunk: seq<Event>): (r: seq<Event>)
    ensures forall e :: e in r ==> e in chunk && e.stateKey.Some?
    decreases |chunk|
  {
    if chunk == [] then []
    else StateEvents(chunk[..|chunk| - 1]) + (if chunk[|chunk| - 1].stateKey.Some? then [chunk[|chunk| - 1]] else [])
  }

  /** The state events of a page miss no event of the page that has a state key. */
  lemma {:induction false} StateEventsComplete(chunk: seq<Event>)
    ensures forall i :: 0 <= i < |chunk| && chunk[i].stateKey.Some? ==> chunk[i] in StateEvents(chunk)
    decreases |chunk|
  {
    if chunk != [] {
      var n := |chunk| - 1;
      var init := chunk[..n];
      StateEventsComplete(init);
      forall i | 0 <= i < n && chunk[i].stateKey.Some?
        ensures chunk[i] in StateEvents(chunk)
      {
        assert chunk[i] == init[i];
      }
    }
  }

  /** The state events of a page list any two of the page's state-keyed events in page order. */
  lemma {:induction false} StateEventsOrdered(chunk: seq<Event>, i: nat, j: nat)
    requires i < j < |chunk| && chunk[i].stateKey.Some? && chunk[j].stateKey.Some?
    ensures exists k, l :: 0 <= k < l < |StateEvents(chunk)| && StateEvents(chunk)[k] == chunk[i] && StateEvents(chunk)[l] == chunk[j]
    decreases |chunk|
  {
    var n := |chunk| - 1;
    var init := chunk[..n];
    var before, after := StateEvents(init), StateEvents(chunk);
    assert after[..|before|] == before;
    assert chunk[i] == init[i];
    if j < n {
      assert chunk[j] == init[j];
      StateEventsOrdered(init, i, j);
      var k, l :| 0 <= k < l < |before| && before[k] == init[i] && before[l] == init[j];
      assert after[k] == before[k] && after[l] == before[l];
    } else {
      StateEventsComplete(init);
      var k :| 0 <= k < |before| && before[k] == init[i];
      assert after[k] == before[k] && after[|before|] == chunk[j];
    }
  }

  /** The back state reached, and the back-event notifications issued, while walking a page. */
  datatype BackFillResult = BackFillResult(state: RoomState, notified: seq<Notification>)

  /**
    Walking a page in order: an event with a state key is first applied to the
    back state in the BACKWARDS direction; then every event is handed to the
    data handler with a snapshot of the back state as it is at that point.
  */
  function BackFill(s: RoomState, chunk: seq<Event>): (r: BackFillResult)
    ensures |r.notified| == |chunk|
    ensures r.state.roomId == s.roomId && r.state.token == s.token
    decreases |chunk|
  {
    if chunk == [] then BackFillResult(s, [])
    else
      var before := BackFill(s, chunk[..|chunk| - 1]);
      var e := chunk[|chunk| - 1];
      var after := if e.stateKey.Some? then ApplyState(before.state, e, Backwards) else before.state;
      BackFillResult(after, before.notified + [BackEvent(e, after)])
  }

  /** One more event at the end of a page is one more step of the walk. */
  lemma BackFillSnoc(s: RoomState, chunk: seq<Event>, e: Event)
    ensures var before := BackFill(s, chunk);
            var after := if e.stateKey.Some? then ApplyState(before.state, e, Backwards) else before.state;
            BackFill(s, chunk + [e]) == BackFillResult(after, before.notified + [BackEvent(e, after)])
  {
    assert (chunk + [e])[..|chunk|] == chunk;
  }

  /** The back state a page leads to is the start state with exactly the page's state events applied, in order. */
  lemma {:induction false} BackFillState(s: RoomState, chunk: seq<Event>)
    ensures BackFill(s, chunk).state == ApplyAll(s, StateEvents(chunk), Backwards)
    decreases |chunk|
  {
    if chunk != [] {
      var init := chunk[..|chunk| - 1];
      var e := chunk[|chunk| - 1];
      BackFillState(s, init);
      if e.stateKey.Some? {
        ApplyAllSnoc(s, StateEvents(init), e, Backwards);
      } else {
        assert StateEvents(chunk) == StateEvents(init);
      }
    }
  }

  /**
    The k-th notification of a walk is the k-th event of the page, with the
    snapshot of the back state after the page's state events up to and
    including that one.
  */
  lemma {:induction false} BackFillAt(s: RoomState, chunk: seq<Event>, k: nat)
    requires k < |chunk|
    ensures |BackFill(s, chunk).notified| == |chunk|
    ensures BackFill(s, chunk).notified[k] == BackEvent(chunk[k], ApplyAll(s, StateEvents(chunk[..k + 1]), Backwards))
    decreases |chunk|
  {
    var n := |chunk| - 1;
    var init := chunk[..n];
    if k == n {
      assert chunk[..k + 1] == chunk;
      BackFillState(s, chunk);
    } else {
      BackFillAt(s, init, k);
      assert init[..k + 1] == chunk[..k + 1];
    }
  }

  /**
    Every event of a page is handed on exactly once and in page order, each
    with the snapshot of the back state after the page's state events up to
    and including that one.
  */
  lemma BackFillNotifies(s: RoomState, chunk: seq<Event>)
    ensures |BackFill(s, chunk).notified| == |chunk|
    ensures forall k :: 0 <= k < |chunk| ==>
      BackFill(s, chunk).notified[k] == BackEvent(chunk[k], ApplyAll(s, StateEvents(chunk[..k + 1]), Backwards))
  {
    forall k | 0 <= k < |chunk|
      ensures BackFill(s, chunk).notified[k] == BackEvent(chunk[k], ApplyAll(s, StateEvents(chunk[..k + 1]), Backwards))
    {
      BackFillAt(s, chunk, k);
    }
  }

  /** Walking a page leaves the back state's room id and token as they were, and only ever appends to its log. */
  lemma BackFillKeepsIdentity(s: RoomState, chunk: seq<Event>)
    ensures BackFill(s, chunk).state.roomId == s.roomId
    ensures BackFill(s, chunk).state.token == s.token
    ensures BackFill(s, chunk).state.applied == s.applied + Changes(StateEvents(chunk), Backwards)
  {
    BackFillState(s, chunk);
    ApplyAllLog(s, StateEvents(chunk), Backwards);
  }
}
