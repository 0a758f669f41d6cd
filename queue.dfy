/**
 * The translation job queue (server/src/queue.rs): a crossbeam channel of
 * translation requests, shared by every session.  The channel is modelled by
 * the sequence of requests sent and not yet received, in FIFO order.
 */
module Queue {
  import opened Util
  import opened Audio

  /** One unit of transcription work: `sequenceNumber` orders it within its session. */
  datatype TranslationRequest = TranslationRequest(
    sessionId: nat,
    sequenceNumber: nat,
    payload: seq<Sample>,
    lang: string)

  datatype QueueError =
    | SendError                                     // every receiver of the channel is gone
    | RecvError                                     // the channel is empty and every sender is gone
    | TranslateError(request: TranslationRequest)   // the translator failed on this request

  class TranslationQueue {
    /** Requests sent on the channel and not yet received, oldest first. */
    var pending: seq<TranslationRequest>
    /** Every `Receiver` of the channel has been dropped, so a send fails. */
    var receiversDropped: bool
    /** Every `Sender` of the channel has been dropped, so a receive on an empty channel fails. */
    var sendersDropped: bool
    /** This handle's `receiver` field is `Some`. */
    var hasReceiver: bool

    /** `TranslationQueue::new`: a fresh unbounded channel whose receiver this handle keeps. */
    constructor ()
      ensures pending == [] && !receiversDropped && !sendersDropped && hasReceiver
    {
      pending := [];
      receiversDropped := false;
      sendersDropped := false;
      hasReceiver := true;
    }

    /** `enqueue`: send one request; it fails only when the send does. */
    method Enqueue(request: TranslationRequest) returns (r: Result<(), QueueError>)
      modifies this`pending
      ensures r == (if receiversDropped then Err(SendError) else Ok(()))
      ensures pending == if r.Ok? then old(pending) + [request] else old(pending)
    {
      if receiversDropped {
        return Err(SendError);
      }
      pending := pending + [request];
      return Ok(());
    }

    /**
     * `queue_process`: forward every request received from `rx`, in order,
     * stopping at the first failed send.  `rx` is everything the receiver yields
     * before its senders are gone; while a sender lives, the source blocks after
     * the last of them and never returns.
     */
    method QueueProcess(rx: seq<TranslationRequest>) returns (r: Result<(), QueueError>)
      modifies this`pending
      ensures r == (if receiversDropped && rx != [] then Err(SendError) else Ok(()))
      ensures pending == if r.Ok? then old(pending) + rx else old(pending)
    {
      var i := 0;
      while i < |rx|
        invariant 0 <= i <= |rx|
        invariant pending == old(pending) + rx[..i]
        invariant receiversDropped ==> i == 0
      {
        var sent := Enqueue(rx[i]);
        if sent.Err? {
          return Err(SendError);
        }
        i := i + 1;
      }
      assert rx[..i] == rx;
      return Ok(());
    }

    /** One successful `recv`: the oldest pending request is removed and returned. */
    method Pop() returns (request: TranslationRequest)
      requires pending != []
      modifies this`pending
      ensures request == old(pending)[0] && pending == old(pending)[1..]
    {
      request := pending[0];
      pending := pending[1..];
    }
  }
}
