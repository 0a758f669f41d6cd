/**
 * The consumer side of the translation queue: `TranslationQueue::subscribe`
 * (server/src/queue.rs).  It receives requests in FIFO order and hands a
 * request to the translator only when its session is registered and still
 * valid; any other request is dropped.
 */
module Dispatch {
  import opened Util
  import opened Queue
  import opened Session

  /** Whether `subscribe` passes this request to the translator. */
  predicate Dispatchable(sessions: map<nat, SessionData>, request: TranslationRequest) {
    request.sessionId in sessions && sessions[request.sessionId].valid
  }

  /** The requests of `received` that reach the translator, in order. */
  function Dispatched(sessions: map<nat, SessionData>, received: seq<TranslationRequest>): seq<TranslationRequest>
  {
    if received == [] then []
    else (if Dispatchable(sessions, received[0]) then [received[0]] else [])
         + Dispatched(sessions, received[1..])
  }

  /**
   * The translator sees exactly the received requests whose session exists and is
   * valid: each of those, and nothing else.
   */
  lemma {:induction false} DispatchedExactly(sessions: map<nat, SessionData>, received: seq<TranslationRequest>)
    ensures |Dispatched(sessions, received)| <= |received|
    ensures forall x :: x in Dispatched(sessions, received) <==> x in received && Dispatchable(sessions, x)
  {
    if received != [] {
      DispatchedExactly(sessions, received[1..]);
      assert forall x :: x in received <==> x == received[0] || x in received[1..];
    }
  }

  /** Receiving one more request extends the dispatched requests by that request exactly when it is dispatchable. */
  lemma {:induction false} DispatchedSnoc(sessions: map<nat, SessionData>, received: seq<TranslationRequest>,
                                          request: TranslationRequest)
    ensures Dispatched(sessions, received + [request])
         == Dispatched(sessions, received) + (if Dispatchable(sessions, request) then [request] else [])
  {
    if received != [] {
      assert (received + [request])[1..] == received[1..] + [request];
      DispatchedSnoc(sessions, received[1..], request);
    } else {
      assert [request][1..] == [];
    }
  }

  /**
   * Where `subscribe` stands when the model stops: `Waiting` means it is blocked
   * in `recv` on an empty channel whose senders are alive (the source never
   * returns from there); otherwise it returned `result`.
   */
  datatype SubscribeState = Waiting | Returned(result: Result<(), QueueError>)

  /**
   * `subscribe`.  `translate` says whether the translator succeeds on a request;
   * `invoked` lists, in order, the requests it was called with.  The registry is
   * read, not changed, while the queue drains.
   */
  method Subscribe(q: TranslationQueue, registry: Registry, translate: TranslationRequest -> bool)
    returns (state: SubscribeState, invoked: seq<TranslationRequest>)
    modifies q`pending
    ensures |q.pending| <= |old(q.pending)|
    ensures q.pending == old(q.pending)[|old(q.pending)| - |q.pending|..]
    ensures invoked == Dispatched(registry.sessions, old(q.pending)[..|old(q.pending)| - |q.pending|])
    ensures forall i :: 0 <= i < |invoked| - 1 ==> translate(invoked[i])
    ensures !q.hasReceiver ==> state == Returned(Ok(())) && q.pending == old(q.pending)
    ensures state == Waiting ==>
      q.hasReceiver && !q.sendersDropped && q.pending == [] && forall i :: 0 <= i < |invoked| ==> translate(invoked[i])
    ensures state == Returned(Err(RecvError)) <==>
      q.hasReceiver && q.sendersDropped && q.pending == [] && forall i :: 0 <= i < |invoked| ==> translate(invoked[i])
    ensures state.Returned? && state.result.Err? && state.result.error.TranslateError? ==>
      invoked != [] && state.result.error.request == invoked[|invoked| - 1] && !translate(invoked[|invoked| - 1])
    ensures state.Returned? && state.result.Ok? ==> !q.hasReceiver
    ensures state != Returned(Err(SendError))
    ensures q.hasReceiver && q.pending != [] ==>
      state.Returned? && state.result.Err? && state.result.error.TranslateError?
    ensures state.Returned? && state.result.Err? && state.result.error.TranslateError? ==>
      |q.pending| < |old(q.pending)| &&
      state.result.error.request == old(q.pending)[|old(q.pending)| - |q.pending| - 1]
  {
    invoked := [];
    if !q.hasReceiver {
      return Returned(Ok(())), invoked;
    }
    var failed;
    ghost var consumed;
    invoked, failed, consumed := Drain(q, registry, translate);
    if failed {
      state := Returned(Err(TranslateError(invoked[|invoked| - 1])));
    } else if q.sendersDropped {
      state := Returned(Err(RecvError));
    } else {
      state := Waiting;
    }
  }

  /**
   * The receive loop of `subscribe` while the receiver is held: it pops requests
   * in order, hands the dispatchable ones to the translator, and stops when the
   * channel is empty or right after the translator fails.
   */
  method Drain(q: TranslationQueue, registry: Registry, translate: TranslationRequest -> bool)
    returns (invoked: seq<TranslationRequest>, failed: bool, ghost consumed: nat)
    modifies q`pending
    ensures consumed <= |old(q.pending)| && q.pending == old(q.pending)[consumed..]
    ensures invoked == Dispatched(registry.sessions, old(q.pending)[..consumed])
    ensures forall i :: 0 <= i < |invoked| - 1 ==> translate(invoked[i])
    ensures failed <==> invoked != [] && !translate(invoked[|invoked| - 1])
    ensures !failed ==> q.pending == []
    ensures failed ==> 0 < consumed && old(q.pending)[consumed - 1] == invoked[|invoked| - 1]
  {
    invoked, failed, consumed := [], false, 0;
    ghost var received: seq<TranslationRequest> := [];
    while q.pending != [] && !failed
      invariant old(q.pending) == received + q.pending && consumed == |received|
      invariant invoked == Dispatched(registry.sessions, received)
      invariant forall i :: 0 <= i < |invoked| - 1 ==> translate(invoked[i])
      invariant failed <==> invoked != [] && !translate(invoked[|invoked| - 1])
      invariant failed ==> received != [] && received[|received| - 1] == invoked[|invoked| - 1]
      decreases |q.pending|
    {
      var request := q.Pop();
      DispatchedSnoc(registry.sessions, received, request);
      received, consumed := received + [request], consumed + 1;
      if Dispatchable(registry.sessions, request) {
        invoked := invoked + [request];
        failed := !translate(request);
      }
    }
    assert received == old(q.pending)[..consumed];
  }
}
