/**
 * Per-session bookkeeping of the interpretation-practice server
 * (server/src/session.rs).  A session buffers decoded audio, cuts it at the
 * silence pivot the detector reports, and numbers every piece it sends to the
 * translation queue.  Its lifecycle is
 *
 *   Open       -- a sender to the websocket exists, `valid`, no last sequence;
 *   Closing    -- `mark_session_for_closure` flushed the buffer as request `s`
 *                 and recorded `lastSequence == Some(s)`;
 *   Finalized  -- `finalize_session` dropped the sender and cleared `valid`.
 *
 * The process-wide table `SESSIONS` and the id counter `NEXT_USER_ID` are the
 * fields of the class `Registry`.  Every closure applied to one session goes
 * through `MutateSession`, which also refreshes the session's `updatedAt`;
 * registering, expiring and restoring sessions change the table directly, and
 * the store count in `ProcessTranscription` changes without a refresh.  Wall-clock time, uuid
 * generation, the silence detector and file I/O are parameters.
 */
module Session {
  import opened Util
  import opened Audio
  import opened Queue

  /** Sessions not updated for longer than this many seconds are expired. */
  const MAX_SESSION_AGE_SECONDS: int := 86400

  datatype SessionData = SessionData(
    id: nat,
    hasSender: bool,                // `transcription_sender_tx.is_some()`
    language: string,
    uuid: string,                   // the uuid's canonical text
    resource: Option<string>,
    sampleRate: nat,
    valid: bool,
    buffer: seq<Sample>,
    silenceLength: nat,
    sequenceNumber: nat,            // number of the next request to send
    lastSequence: Option<nat>,      // number of the final request, once closing
    translationCount: nat,          // what the translation store reports as its count
    updatedAt: int,                 // seconds
    createdAt: int)

  datatype Status = Status(
    language: string,
    uuid: string,
    resource: Option<string>,
    sampleRate: nat,
    transcriptionJobCount: nat,
    transcriptionCompletedCount: nat)

  /** A websocket message; only binary ones carry audio. */
  datatype Message =
    | Text(text: string)
    | Binary(data: seq<Byte>)
    | Ping(data: seq<Byte>)
    | Pong(data: seq<Byte>)
    | Close

  /** The part of a transcription response the session logic looks at. */
  datatype TranslationResponse = TranslationResponse(segmentNumber: nat, numSegments: nat)

  /**
   * A session as read back from its saved metadata.  `translationCount` is the
   * count of the translation store rebuilt from the saved transcript.
   */
  datatype SavedSessionData = SavedSessionData(
    language: string,
    uuid: string,
    resource: Option<string>,
    sampleRate: nat,
    updatedAt: int,
    createdAt: int,
    translationCount: nat)

  /** What scanning the recordings directory produced. */
  datatype RecordingsListing =
    | NoRecordingsDir                         // RECORDINGS_DIR is not set
    | Unreadable                              // reading or parsing failed
    | Listed(saved: seq<SavedSessionData>)    // the saved sessions, in listing order

  datatype SessionError = PersistError | TranslationStoreError | RestoreError

  // ---------------------------------------------------------------- lifecycle

  predicate IsOpen(s: SessionData) {
    s.hasSender && s.valid && s.lastSequence.None?
  }

  predicate IsClosing(s: SessionData) {
    s.valid && s.lastSequence.Some?
  }

  predicate IsFinalized(s: SessionData) {
    !s.valid && !s.hasSender
  }

  /**
   * What every reachable session satisfies: an invalid session has no sender,
   * and the final request number never exceeds the request counter.
   */
  predicate Consistent(s: SessionData) {
    && (!s.valid ==> !s.hasSender)
    && (s.lastSequence.Some? ==> s.lastSequence.value <= s.sequenceNumber)
  }

  /** `SessionData::new`. */
  function NewSession(id: nat, language: string, sampleRate: nat, resource: Option<string>,
                      uuid: Option<string>, freshUuid: string, now: int): (s: SessionData)
    ensures IsOpen(s) && Consistent(s)
    ensures s.id == id && s.uuid == (if uuid.Some? then uuid.value else freshUuid)
    ensures s.language == language && s.sampleRate == sampleRate && s.resource == resource
    ensures s.buffer == [] && s.sequenceNumber == 0 && s.silenceLength == 0 && s.translationCount == 0
    ensures s.createdAt == now && s.updatedAt == now
  {
    SessionData(
      id := id,
      hasSender := true,
      language := language,
      uuid := if uuid.Some? then uuid.value else freshUuid,
      resource := resource,
      sampleRate := sampleRate,
      valid := true,
      buffer := [],
      silenceLength := 0,
      sequenceNumber := 0,
      lastSequence := None,
      translationCount := 0,
      updatedAt := now,
      createdAt := now)
  }

  /** `SessionData::status`. */
  function StatusOf(s: SessionData): Status {
    Status(s.language, s.uuid, s.resource, s.sampleRate, s.sequenceNumber, s.translationCount)
  }

  // ------------------------------------------- the closures given to mutate_session

  function AppendSamples(s: SessionData, v: seq<Sample>): SessionData {
    s.(buffer := s.buffer + v)
  }

  /** The silence length recorded after a send cut at `pivot`. */
  function SilenceAfterSend(s: SessionData, pivot: nat, minimumSend: nat): nat {
    if pivot == minimumSend then s.silenceLength + pivot else 0
  }

  function AdvanceAfterSend(s: SessionData, silenceLength: nat, pivot: nat): SessionData
    requires pivot <= |s.buffer|
  {
    s.(silenceLength := silenceLength, buffer := s.buffer[pivot..], sequenceNumber := s.sequenceNumber + 1)
  }

  /** The session after its request could not be enqueued. */
  function Abandon(s: SessionData): SessionData {
    s.(hasSender := false, valid := false)
  }

  function DropSender(s: SessionData): SessionData {
    s.(hasSender := false)
  }

  /** The session after its whole buffer was flushed as request `s.sequenceNumber`. */
  function MarkLast(s: SessionData): SessionData {
    s.(buffer := [], lastSequence := Some(s.sequenceNumber), sequenceNumber := s.sequenceNumber + 1)
  }

  function Finalize(s: SessionData): SessionData {
    s.(hasSender := false, valid := false)
  }

  /** The condition under which `process_transcription` finalizes the session. */
  predicate FinalizeDue(s: SessionData, response: TranslationResponse) {
    && s.lastSequence.Some?
    && s.sequenceNumber >= s.lastSequence.value
    && response.segmentNumber == response.numSegments - 1
    && s.translationCount > s.lastSequence.value
  }

  /** A restored session: finalized, one request numbered 1 recorded as the last. */
  function Restored(saved: SavedSessionData, id: nat): (s: SessionData)
    ensures IsFinalized(s) && Consistent(s) && s.id == id
    ensures s.sequenceNumber == 1 && s.lastSequence == Some(1) && s.buffer == [] && s.silenceLength == 0
    ensures s.uuid == saved.uuid && s.language == saved.language && s.resource == saved.resource
    ensures s.sampleRate == saved.sampleRate && s.translationCount == saved.translationCount
    ensures s.updatedAt == saved.updatedAt && s.createdAt == saved.createdAt
  {
    SessionData(
      id := id,
      hasSender := false,
      language := saved.language,
      uuid := saved.uuid,
      resource := saved.resource,
      sampleRate := saved.sampleRate,
      valid := false,
      buffer := [],
      silenceLength := 0,
      sequenceNumber := 1,
      lastSequence := Some(1),
      translationCount := saved.translationCount,
      updatedAt := saved.updatedAt,
      createdAt := saved.createdAt)
  }

  /** The restored sessions of a listing, keyed by the ids 0, 1, ... in listing order. */
  function RestoredSessions(saved: seq<SavedSessionData>): (m: map<nat, SessionData>)
    ensures forall id: nat :: id in m <==> id < |saved|
    ensures forall id :: id in m ==> m[id] == Restored(saved[id], id)
  {
    map id: nat | id < |saved| :: Restored(saved[id], id)
  }

  /** The sessions that survive an expiry sweep at time `now`. */
  function Unexpired(m: map<nat, SessionData>, now: int): (r: map<nat, SessionData>)
    ensures forall id :: id in r <==> id in m && now - m[id].updatedAt <= MAX_SESSION_AGE_SECONDS
    ensures forall id :: id in r ==> r[id] == m[id]
  {
    map id | id in m && now - m[id].updatedAt <= MAX_SESSION_AGE_SECONDS :: m[id]
  }

  /** Whether `user_message` goes past its early returns for this message. */
  predicate Accepts(sessions: map<nat, SessionData>, id: nat, msg: Message) {
    msg.Binary? && id in sessions && sessions[id].hasSender
  }

  // ------------------------------------------------------------------- lemmas

  /**
   * The key invariant of `user_message`: the payload cut from the snapshot taken
   * before the append, followed by the buffer kept afterwards, is exactly the old
   * buffer followed by the new samples.
   */
  lemma SendKeepsEverySample(s: SessionData, v: seq<Sample>, pivot: nat, silenceLength: nat)
    requires pivot <= |s.buffer|
    ensures var t := AdvanceAfterSend(AppendSamples(s, v), silenceLength, pivot);
            && s.buffer[..pivot] + t.buffer == s.buffer + v
            && t.sequenceNumber == s.sequenceNumber + 1
  {
    var whole := s.buffer + v;
    assert whole[..pivot] == s.buffer[..pivot];
    assert whole[..pivot] + whole[pivot..] == whole;
  }

  /** Every transition of a session keeps it consistent and keeps its identity. */
  lemma TransitionsKeepConsistency(s: SessionData, v: seq<Sample>, silenceLength: nat, pivot: nat, count: nat)
    requires Consistent(s)
    ensures Consistent(AppendSamples(s, v)) && AppendSamples(s, v).id == s.id
    ensures pivot <= |s.buffer| ==> Consistent(AdvanceAfterSend(s, silenceLength, pivot))
    ensures Consistent(Abandon(s)) && Consistent(DropSender(s)) && Consistent(Finalize(s))
    ensures Consistent(MarkLast(s)) && Consistent(s.(translationCount := count))
  {
  }

  /** Closing a session that sent at least one request moves it from Open to Closing. */
  lemma OpenThenClosing(s: SessionData)
    requires IsOpen(s) && s.sequenceNumber > 0
    ensures IsClosing(MarkLast(s)) && MarkLast(s).lastSequence == Some(s.sequenceNumber)
    ensures MarkLast(s).sequenceNumber == s.sequenceNumber + 1 && MarkLast(s).buffer == []
  {
  }

  /**
   * On a consistent session the guard `sequence_number >= last` always holds, so
   * finalization depends only on the closing mark, the last segment and the count.
   */
  lemma FinalizeDueExactly(s: SessionData, response: TranslationResponse)
    requires Consistent(s)
    ensures FinalizeDue(s, response) <==>
      && s.lastSequence.Some?
      && response.segmentNumber == response.numSegments - 1
      && s.translationCount > s.lastSequence.value
    ensures s.lastSequence.None? ==> !FinalizeDue(s, response)
  {
  }

  /** Finalizing is idempotent, and Finalized is never left by the session transitions. */
  lemma FinalizedIsAbsorbing(s: SessionData, v: seq<Sample>, silenceLength: nat, pivot: nat)
    requires IsFinalized(s)
    ensures Finalize(s) == s
    ensures IsFinalized(AppendSamples(s, v)) && IsFinalized(MarkLast(s)) && IsFinalized(DropSender(s))
    ensures pivot <= |s.buffer| ==> IsFinalized(AdvanceAfterSend(s, silenceLength, pivot))
  {
  }

  /**
   * The status always reports the request counter as the job count and copies the
   * identifying fields; it advances by one per send or closing flush and is kept
   * as it is by finalization.
   */
  lemma StatusAcrossLifecycle(s: SessionData, v: seq<Sample>, silenceLength: nat, pivot: nat)
    ensures var st := StatusOf(s);
            && st.transcriptionJobCount == s.sequenceNumber
            && st.transcriptionCompletedCount == s.translationCount
            && st.language == s.language && st.uuid == s.uuid
            && st.resource == s.resource && st.sampleRate == s.sampleRate
    ensures StatusOf(Finalize(s)) == StatusOf(s) && StatusOf(AppendSamples(s, v)) == StatusOf(s)
    ensures StatusOf(MarkLast(s)).transcriptionJobCount == s.sequenceNumber + 1
    ensures pivot <= |s.buffer| ==>
      StatusOf(AdvanceAfterSend(s, silenceLength, pivot)).transcriptionJobCount == s.sequenceNumber + 1
  {
  }

  /** Expiry keeps exactly the sessions young enough, and a second sweep at the same time removes nothing. */
  lemma ExpiryIsIdempotent(m: map<nat, SessionData>, now: int)
    ensures Unexpired(Unexpired(m, now), now) == Unexpired(m, now)
  {
  }

  /** A later sweep keeps no session an earlier sweep removed, and a session touched at `now` survives it. */
  lemma ExpiryIsMonotone(m: map<nat, SessionData>, earlier: int, later: int, id: nat)
    requires earlier <= later
    ensures Unexpired(m, later).Keys <= Unexpired(m, earlier).Keys
    ensures id in m && m[id].updatedAt == later ==> id in Unexpired(m, later)
  {
  }

  // ----------------------------------------------------------------- registry

  class Registry {
    /** `SESSIONS`. */
    var sessions: map<nat, SessionData>
    /** `NEXT_USER_ID`. */
    var nextUserId: nat

    /** Every id in use is below the counter, is its session's own id, and every session is consistent. */
    ghost predicate Valid()
      reads this
    {
      forall id :: id in sessions ==> id < nextUserId && sessions[id].id == id && Consistent(sessions[id])
    }

    /** The table at process start: empty, with the counter at 1. */
    constructor ()
      ensures Valid() && sessions == map[] && nextUserId == 1
    {
      sessions := map[];
      nextUserId := 1;
    }

    /** `mutate_session`: apply `f` to a known session and refresh its `updatedAt`; an unknown id changes nothing. */
    method MutateSession(id: nat, f: SessionData --> SessionData, now: int)
      requires id in sessions ==> f.requires(sessions[id])
      modifies this`sessions
      ensures sessions == if id in old(sessions) then old(sessions)[id := f(old(sessions)[id]).(updatedAt := now)]
                          else old(sessions)
    {
      if id in sessions {
        sessions := sessions[id := f(sessions[id]).(updatedAt := now)];
      }
    }

    /**
     * `find_session_with_uuid`: some id whose session has `uuid`, or `None`
     * exactly when no session has it.
     */
    method FindSessionWithUuid(uuid: string) returns (r: Option<nat>)
      ensures r.Some? ==> r.value in sessions && sessions[r.value].uuid == uuid
      ensures r.None? <==> forall id :: id in sessions ==> sessions[id].uuid != uuid
    {
      var unseen := sessions.Keys;
      while unseen != {}
        invariant unseen <= sessions.Keys
        invariant forall id :: id in sessions && id !in unseen ==> sessions[id].uuid != uuid
        decreases unseen
      {
        var id :| id in unseen;
        if sessions[id].uuid == uuid {
          return Some(id);
        }
        unseen := unseen - {id};
      }
      return None;
    }

    /**
     * The session-creating part of `user_connected`: take the next id with
     * `fetch_add` and register a new session under it.
     */
    method Connect(language: string, sampleRate: nat, resource: Option<string>, freshUuid: string, now: int)
      returns (id: nat)
      requires Valid()
      modifies this
      ensures Valid()
      ensures id == old(nextUserId) && nextUserId == id + 1
      ensures id !in old(sessions)
      ensures sessions == old(sessions)[id := NewSession(id, language, sampleRate, resource, None, freshUuid, now)]
    {
      id := nextUserId;
      nextUserId := nextUserId + 1;
      sessions := sessions[id := NewSession(id, language, sampleRate, resource, None, freshUuid, now)];
    }

    /**
     * `user_message`.  `pivot` is what the silence detector reports on the
     * session as fetched before the new samples are appended, `minimumSendSeconds`
     * is `SEND_SAMPLE_MINIMUM_TIME_SECONDS`, and `persistOk` says whether writing
     * the recording succeeded.
     */
    method UserMessage(q: TranslationQueue, sessionId: nat, msg: Message, pivot: Option<nat>,
                       minimumSendSeconds: nat, persistOk: bool, now: int)
      returns (r: Result<(), SessionError>)
      requires Valid()
      requires sessionId in sessions && pivot.Some? ==> pivot.value <= |sessions[sessionId].buffer|
      modifies this`sessions, q`pending
      ensures Valid()
      ensures !Accepts(old(sessions), sessionId, msg) ==>
        r == Ok(()) && sessions == old(sessions) && q.pending == old(q.pending)
      ensures Accepts(old(sessions), sessionId, msg) ==>
        var s := old(sessions)[sessionId];
        var grown := AppendSamples(s, DecodeSamples(msg.data));
        if pivot.None? then
          r == Ok(()) && q.pending == old(q.pending) && sessions == old(sessions)[sessionId := grown.(updatedAt := now)]
        else if !persistOk then
          r == Err(PersistError) && q.pending == old(q.pending)
          && sessions == old(sessions)[sessionId := grown.(updatedAt := now)]
        else if q.receiversDropped then
          r == Ok(()) && q.pending == old(q.pending)
          && sessions == old(sessions)[sessionId := Abandon(grown).(updatedAt := now)]
        else
          var p := pivot.value;
          && r == Ok(())
          && q.pending == old(q.pending) + [TranslationRequest(sessionId, s.sequenceNumber, s.buffer[..p], s.language)]
          && sessions == old(sessions)[sessionId :=
               AdvanceAfterSend(grown, SilenceAfterSend(s, p, minimumSendSeconds * s.sampleRate), p).(updatedAt := now)]
          && q.pending[|q.pending| - 1].payload + sessions[sessionId].buffer == s.buffer + DecodeSamples(msg.data)
          && sessions[sessionId].sequenceNumber == s.sequenceNumber + 1
    {
      if !msg.Binary? || sessionId !in sessions {
        return Ok(());
      }
      var session := sessions[sessionId];
      if !session.hasSender {
        return Ok(());
      }
      var v := DecodeSamples(msg.data);
      MutateSession(sessionId, s => AppendSamples(s, v), now);
      if pivot.None? {
        return Ok(());
      }
      var p := pivot.value;
      var silenceLength := SilenceAfterSend(session, p, minimumSendSeconds * session.sampleRate);
      var request := TranslationRequest(sessionId, session.sequenceNumber, session.buffer[..p], session.language);
      if !persistOk {
        return Err(PersistError);
      }
      var sent := q.Enqueue(request);
      if sent.Ok? {
        MutateSession(sessionId, (s: SessionData) requires p <= |s.buffer| => AdvanceAfterSend(s, silenceLength, p), now);
        SendKeepsEverySample(session, v, p, silenceLength);
      } else {
        MutateSession(sessionId, Abandon, now);
      }
      return Ok(());
    }

    /**
     * `mark_session_for_closure`: an unused session only loses its sender;
     * otherwise the whole buffer is sent as the final request and its number
     * recorded.  A failed send is only logged by the source.
     */
    method MarkSessionForClosure(q: TranslationQueue, sessionId: nat, now: int)
      requires Valid() && sessionId in sessions
      modifies this`sessions, q`pending
      ensures Valid()
      ensures var s := old(sessions)[sessionId];
        if s.sequenceNumber == 0 then
          sessions == old(sessions)[sessionId := DropSender(s).(updatedAt := now)] && q.pending == old(q.pending)
        else
          && sessions == old(sessions)[sessionId := MarkLast(s).(updatedAt := now)]
          && q.pending == old(q.pending) +
               (if q.receiversDropped then [] else [TranslationRequest(sessionId, s.sequenceNumber, s.buffer, s.language)])
          && sessions[sessionId].lastSequence == Some(s.sequenceNumber)
          && sessions[sessionId].sequenceNumber == s.sequenceNumber + 1
          && sessions[sessionId].buffer == []
    {
      var session := sessions[sessionId];
      if session.sequenceNumber == 0 {
        MutateSession(sessionId, DropSender, now);
        return;
      }
      var request := TranslationRequest(sessionId, session.sequenceNumber, session.buffer, session.language);
      var _ := q.Enqueue(request);
      MutateSession(sessionId, MarkLast, now);
    }

    /** `mark_session_for_closure_uuid`: close the session with this uuid, if there is one. */
    method MarkSessionForClosureUuid(q: TranslationQueue, uuid: string, now: int)
      requires Valid()
      modifies this`sessions, q`pending
      ensures Valid()
      ensures (forall id :: id in old(sessions) ==> old(sessions)[id].uuid != uuid) ==>
        sessions == old(sessions) && q.pending == old(q.pending)
      ensures (exists id :: id in old(sessions) && old(sessions)[id].uuid == uuid) ==>
        exists id :: id in old(sessions) && old(sessions)[id].uuid == uuid &&
          var s := old(sessions)[id];
          && sessions == old(sessions)[id := (if s.sequenceNumber == 0 then DropSender(s) else MarkLast(s)).(updatedAt := now)]
          && q.pending == old(q.pending) +
               (if s.sequenceNumber == 0 || q.receiversDropped then []
                else [TranslationRequest(id, s.sequenceNumber, s.buffer, s.language)])
      ensures sessions.Keys == old(sessions).Keys
    {
      var found := FindSessionWithUuid(uuid);
      if found.Some? {
        MarkSessionForClosure(q, found.value, now);
      }
    }

    /**
     * The state effect of `process_transcription`.  `added` is the outcome of
     * recording the response in the translation store: `None` when
     * `add_translation` failed, otherwise the count the store reports afterwards.
     */
    method ProcessTranscription(sessionId: nat, response: TranslationResponse, added: Option<nat>, now: int)
      returns (r: Result<(), SessionError>)
      requires Valid() && sessionId in sessions
      requires added.Some? && sessions[sessionId].lastSequence.Some? ==> response.numSegments >= 1
      modifies this`sessions
      ensures Valid()
      ensures var s := old(sessions)[sessionId];
        if added.None? then
          r == Err(TranslationStoreError) && sessions == old(sessions)
        else
          var counted := s.(translationCount := added.value);
          && r == Ok(())
          && sessions == old(sessions)[sessionId :=
               if FinalizeDue(counted, response) then Finalize(counted).(updatedAt := now) else counted]
          && (IsFinalized(sessions[sessionId]) <==> IsFinalized(s) || FinalizeDue(counted, response))
    {
      if added.None? {
        return Err(TranslationStoreError);
      }
      var session := sessions[sessionId].(translationCount := added.value);
      sessions := sessions[sessionId := session];
      if FinalizeDue(session, response) {
        MutateSession(sessionId, Finalize, now);
      }
      return Ok(());
    }

    /** `expire_sessions`: remove every session not updated for more than a day. */
    method ExpireSessions(now: int)
      requires Valid()
      modifies this`sessions
      ensures Valid()
      ensures sessions == Unexpired(old(sessions), now)
    {
      var unseen := sessions.Keys;
      while unseen != {}
        invariant unseen <= old(sessions).Keys
        invariant sessions == map id | id in old(sessions)
                                && (id in unseen || now - old(sessions)[id].updatedAt <= MAX_SESSION_AGE_SECONDS)
                                :: old(sessions)[id]
        decreases unseen
      {
        var id :| id in unseen;
        if now - sessions[id].updatedAt > MAX_SESSION_AGE_SECONDS {
          sessions := sessions - {id};
        }
        unseen := unseen - {id};
      }
    }

    /**
     * `restore_sessions`: register the saved sessions under the ids 0, 1, ... in
     * listing order, then set the id counter past them.
     */
    method RestoreSessions(listing: RecordingsListing) returns (r: Result<(), SessionError>)
      modifies this
      ensures listing.NoRecordingsDir? ==>
        r == Ok(()) && sessions == old(sessions) && nextUserId == old(nextUserId)
      ensures listing.Unreadable? ==>
        r == Err(RestoreError) && sessions == old(sessions) && nextUserId == old(nextUserId)
      ensures listing.Listed? ==>
        && r == Ok(())
        && sessions == old(sessions) + RestoredSessions(listing.saved)
        && nextUserId == |listing.saved|
      ensures listing.Listed? && (forall id :: id in old(sessions) ==> id < |listing.saved|) && old(Valid()) ==> Valid()
    {
      match listing
      case NoRecordingsDir =>
        return Ok(());
      case Unreadable =>
        return Err(RestoreError);
      case Listed(saved) =>
        var nextId := 0;
        while nextId < |saved|
          invariant 0 <= nextId <= |saved|
          invariant sessions == old(sessions) + map id: nat | id < nextId :: Restored(saved[id], id)
        {
          sessions := sessions[nextId := Restored(saved[nextId], nextId)];
          nextId := nextId + 1;
        }
        nextUserId := nextId;
        return Ok(());
    }
  }

  /**
   * After a restore at startup, a connection's `fetch_add` id never collides with
   * a restored id, and the new session joins the restored ones untouched.
   */
  method RestoreThenConnect(listing: seq<SavedSessionData>, language: string, sampleRate: nat,
                            freshUuid: string, now: int)
    returns (id: nat, restored: map<nat, SessionData>)
    ensures id == |listing| && id !in restored
    ensures restored == RestoredSessions(listing)
  {
    var registry := new Registry();
    var _ := registry.RestoreSessions(Listed(listing));
    restored := registry.sessions;
    id := registry.Connect(language, sampleRate, None, freshUuid, now);
    assert registry.sessions == restored[id := NewSession(id, language, sampleRate, None, None, freshUuid, now)];
  }
}
