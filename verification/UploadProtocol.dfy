/** Chunked attachment uploads: every `await` of the service is one atomic step, and calls interleave freely.

    The state holds the session rows, the chunk objects and the assembled files in storage, the attachment rows ever
    created and the calls in flight. An in-flight call keeps what it has read so far, which may be stale by the time it
    writes. Each step may also fail, before or after its effect took place (a lost acknowledgement). */
module UploadProtocol {
  import opened Prelude

  type SessionId = nat
  type UserId = nat
  type AttachmentId = nat
  type OpId = nat
  newtype Byte = x: int | 0 <= x < 256
  type Bytes = seq<Byte>

  const MAX_SIZE: nat := 30 * 1024 * 1024
  const CHUNK_SIZE: nat := 512 * 1024
  const SESSION_TTL_MS: nat := 60 * 60 * 1000
  const SWEEP_BATCH: nat := 100

  datatype Status = PENDING | COMPLETING | COMPLETED | FAILED | ABORTED

  datatype Session = Session(
    userId: UserId,
    fileSize: nat,
    totalChunks: nat,
    receivedChunks: seq<nat>,
    bytesReceived: int,
    status: Status,
    attachmentId: Option<AttachmentId>,
    expiresAt: int)

  /** An attachment row: the session whose commit created it, the URL of its file, and whether the caller got to know of
      the commit. A call uploads one file at most, so the call names the URL. */
  datatype Attachment = Attachment(session: SessionId, url: OpId, fileSize: nat, acknowledged: bool)

  datatype Error = NotFound | Forbidden | BadRequest | InProgress | AlreadyCompleted | Missing(index: nat) | Internal

  /** Where an in-flight call stands, with what it remembers. */
  datatype Pc =
    | ExpiryWrite(sid: SessionId)
    | ChunkUpload(sid: SessionId, index: nat, body: Bytes, seen: Session)
    | ChunkRecord(sid: SessionId, index: nat, size: nat, seen: Session)
    | AbortWrite(sid: SessionId)
    | SweepWrite(sids: set<SessionId>)
    | Claimed(sid: SessionId, uid: UserId)
    | Downloading(sid: SessionId, uid: UserId, seen: Session, buffers: seq<Bytes>)
    | Forgetting(sid: SessionId, index: nat, seen: Session)
    | BackToPending(sid: SessionId, index: nat)
    | Uploading(sid: SessionId, uid: UserId, seen: Session, whole: Bytes)
    | Committing(sid: SessionId, uid: UserId, seen: Session, whole: Bytes)
    | PostCommit(sid: SessionId, attachment: AttachmentId)
    | MarkFailed(sid: SessionId, error: Error)
    | ClaimLost(sid: SessionId, uid: UserId)
    | CachedLookup(sid: SessionId, attachment: AttachmentId)
    | Answered(sid: SessionId, attachment: AttachmentId)
    | Rejected(error: Error)
    | Done

  /** `pending` holds the files whose deletion was started and not awaited; `deleted` the attachments removed by
      users. */
  datatype State = State(
    sessions: map<SessionId, Session>,
    chunks: map<(SessionId, nat), Bytes>,
    attachments: map<AttachmentId, Attachment>,
    deleted: set<AttachmentId>,
    files: map<OpId, Bytes>,
    pending: set<OpId>,
    ops: map<OpId, Pc>)

  /** How an awaited call ends: normally, or throwing before or after its effect took place. */
  datatype Fault = Fine | FailBefore | FailAfter

  datatype Event =
    | Init(sid: SessionId, uid: UserId, fileSize: nat, totalChunks: nat, now: int)
    | BeginChunk(op: OpId, sid: SessionId, uid: UserId, index: int, body: Bytes, now: int)
    | BeginStatus(op: OpId, sid: SessionId, uid: UserId, now: int)
    | BeginAbort(op: OpId, sid: SessionId, uid: UserId)
    | BeginComplete(op: OpId, sid: SessionId, uid: UserId, now: int, fault: Fault)
    | BeginSweep(op: OpId, picked: set<SessionId>, now: int)
    | Continue(op: OpId, fault: Fault, newId: AttachmentId)
    | LoseChunk(sid: SessionId, lost: nat)
    | DeleteAttachment(attachment: AttachmentId)
    | DropFile(url: OpId)

  const Empty: State := State(map[], map[], map[], {}, map[], {}, map[])

  function Concat(buffers: seq<Bytes>): (whole: Bytes) {
    if buffers == [] then [] else Concat(buffers[..|buffers| - 1]) + buffers[|buffers| - 1]
  }

  function Without(xs: seq<nat>, x: nat): (r: seq<nat>)
    ensures x !in r
    ensures forall y :: y in r <==> y in xs && y != x
  {
    if xs == [] then [] else if xs[0] == x then Without(xs[1..], x) else [xs[0]] + Without(xs[1..], x)
  }

  // ─── One step ──────────────────────────────────────────

  /** The checks every session-bound request makes on the row it reads. */
  function ActiveCheck(sessions: map<SessionId, Session>, sid: SessionId, uid: UserId,
                       now: int): Result<Session, Error> {
    if sid !in sessions then Err(NotFound)
    else
      var row := sessions[sid];
      if row.userId != uid then Err(Forbidden)
      else if row.expiresAt < now then Err(NotFound)
      else if row.status == ABORTED || row.status == FAILED then Err(NotFound)
      else if row.status == COMPLETED then Err(AlreadyCompleted)
      else Ok(row)
  }

  /** An expired row is first marked ABORTED, so that request has one more write to do. */
  predicate LazilyExpires(sessions: map<SessionId, Session>, sid: SessionId, uid: UserId, now: int) {
    sid in sessions && sessions[sid].userId == uid && sessions[sid].expiresAt < now
  }

  predicate InitAccepted(fileSize: nat, totalChunks: nat) {
    fileSize <= MAX_SIZE && fileSize <= totalChunks * CHUNK_SIZE
  }

  function NewSession(uid: UserId, fileSize: nat, totalChunks: nat, now: int): Session {
    Session(uid, fileSize, totalChunks, [], 0, PENDING, None, now + SESSION_TTL_MS)
  }

  predicate Claimable(sessions: map<SessionId, Session>, sid: SessionId, uid: UserId, now: int) {
    sid in sessions && sessions[sid].userId == uid && sessions[sid].status == PENDING && sessions[sid].expiresAt > now
  }

  predicate Sweepable(sessions: map<SessionId, Session>, sid: SessionId, now: int) {
    sid in sessions && sessions[sid].expiresAt < now &&
        (sessions[sid].status == PENDING || sessions[sid].status == FAILED)
  }

  function BeginChunkPc(s: State, sid: SessionId, uid: UserId, index: int, body: Bytes, now: int): Pc {
    if LazilyExpires(s.sessions, sid, uid, now) then ExpiryWrite(sid)
    else
      match ActiveCheck(s.sessions, sid, uid, now)
      case Err(e) => Rejected(e)
      case Ok(row) =>
        if index < 0 || index >= row.totalChunks || |body| > CHUNK_SIZE then Rejected(BadRequest)
        else ChunkUpload(sid, index, body, row)
  }

  function BeginStatusPc(s: State, sid: SessionId, uid: UserId, now: int): Pc {
    if LazilyExpires(s.sessions, sid, uid, now) then ExpiryWrite(sid)
    else
      match ActiveCheck(s.sessions, sid, uid, now)
      case Err(e) => Rejected(e)
      case Ok(_) => Done
  }

  function BeginAbortPc(s: State, sid: SessionId, uid: UserId): Pc {
    if sid !in s.sessions then Rejected(NotFound)
    else if s.sessions[sid].userId != uid then Rejected(Forbidden)
    else if s.sessions[sid].status == COMPLETED || s.sessions[sid].status == ABORTED then Done
    else AbortWrite(sid)
  }

  function SetPc(s: State, op: OpId, pc: Pc): State {
    s.(ops := s.ops[op := pc])
  }

  function SetRow(s: State, sid: SessionId, row: Session): State {
    s.(sessions := s.sessions[sid := row])
  }

  function SetStatus(s: State, sid: SessionId, status: Status): State
    requires sid in s.sessions
  {
    SetRow(s, sid, s.sessions[sid].(status := status))
  }

  function Claim(s: State, op: OpId, sid: SessionId, uid: UserId, now: int, fault: Fault): State {
    if fault == FailBefore then SetPc(s, op, Rejected(Internal))
    else if !Claimable(s.sessions, sid, uid, now) then SetPc(s, op, if fault == Fine then ClaimLost(sid, uid)
                                                             else Rejected(Internal))
    else SetPc(SetStatus(s, sid, COMPLETING), op, if fault == Fine then Claimed(sid, uid) else Rejected(Internal))
  }

  function SweepRows(sessions: map<SessionId, Session>, sids: set<SessionId>): map<SessionId, Session> {
    map sid | sid in sessions :: if sid in sids then sessions[sid].(status := ABORTED) else sessions[sid]
  }

  /** A single-row status write by an in-flight call, and what the call does next. */
  function WriteStatus(s: State, op: OpId, sid: SessionId, status: Status, fault: Fault, next: Pc): State
    requires sid in s.sessions
  {
    SetPc(if fault == FailBefore then s else SetStatus(s, sid, status), op, if fault == Fine then next
          else Rejected(Internal))
  }

  function RecordRow(row: Session, index: nat, size: nat, seen: Session): Session {
    if index in seen.receivedChunks then row
    else row.(receivedChunks := row.receivedChunks + [index], bytesReceived := row.bytesReceived + size)
  }

  function ForgetRow(row: Session, index: nat, seen: Session): Session {
    row.(receivedChunks := Without(seen.receivedChunks, index), bytesReceived := row.bytesReceived - CHUNK_SIZE)
  }

  /** Download the next chunk, or, after the last one, check the assembled size. */
  function Download(s: State, op: OpId, pc: Pc, fault: Fault): State
    requires pc.Downloading?
  {
    var i := |pc.buffers|;
    if i < pc.seen.totalChunks then
      if fault == Fine && (pc.sid, i) in s.chunks
      then SetPc(s, op, pc.(buffers := pc.buffers + [s.chunks[(pc.sid, i)]]))
      else SetPc(s, op, Forgetting(pc.sid, i, pc.seen))
    else
      var whole := Concat(pc.buffers);
      if |whole| != pc.seen.fileSize then SetPc(s, op, MarkFailed(pc.sid, BadRequest))
      else SetPc(s, op, Uploading(pc.sid, pc.uid, pc.seen, whole))
  }

  /** The transaction that creates the attachment and finishes the session. Whenever it throws, also when it had
      committed and only the acknowledgement was lost, the catch block starts to delete the file. */
  function Commit(s: State, op: OpId, pc: Pc, fault: Fault, newId: AttachmentId): State
    requires pc.Committing? && pc.sid in s.sessions
  {
    var pending := if fault == Fine then s.pending else s.pending + {op};
    if fault == FailBefore then SetPc(s.(pending := pending), op, MarkFailed(pc.sid, Internal))
    else
      var row := s.sessions[pc.sid].(status := COMPLETED, attachmentId := Some(newId));
      var attachment := Attachment(pc.sid, op, pc.seen.fileSize, fault == Fine);
      SetPc(SetRow(s, pc.sid, row).(attachments := s.attachments[newId := attachment], pending := pending),
            op, if fault == Fine then PostCommit(pc.sid, newId) else MarkFailed(pc.sid, Internal))
  }

  function AfterLostClaim(s: State, pc: Pc): Pc
    requires pc.ClaimLost?
  {
    if pc.sid !in s.sessions || s.sessions[pc.sid].userId != pc.uid then Rejected(NotFound)
    else
      var row := s.sessions[pc.sid];
      if row.status == COMPLETED && row.attachmentId.Some? then CachedLookup(pc.sid, row.attachmentId.value)
      else if row.status == COMPLETING then Rejected(InProgress)
      else Rejected(NotFound)
  }

  predicate Finished(pc: Pc) {
    pc.Answered? || pc.Rejected? || pc.Done?
  }

  /** One more awaited call of an in-flight request, when that call is about a single session row. */
  function AdvanceRow(s: State, op: OpId, pc: Pc, fault: Fault, newId: AttachmentId): State
    requires !pc.SweepWrite? && !Finished(pc)
  {
    var sid := pc.sid;
    if pc.ClaimLost? then SetPc(s, op, if fault == Fine then AfterLostClaim(s, pc) else Rejected(Internal))
    else if pc.CachedLookup? then
      SetPc(s, op, if fault != Fine then Rejected(Internal)
                   else if pc.attachment in s.attachments &&
                        pc.attachment !in s.deleted then Answered(sid, pc.attachment)
                   else Rejected(NotFound))
    else if pc.PostCommit? then SetPc(s, op, if fault == Fine then Answered(sid, pc.attachment)
                                      else MarkFailed(sid, Internal))
    else if sid !in s.sessions then s
    else if pc.ExpiryWrite? then WriteStatus(s, op, sid, ABORTED, fault, Rejected(NotFound))
    else if pc.AbortWrite? then WriteStatus(s, op, sid, ABORTED, fault, Done)
    else if pc.MarkFailed? then WriteStatus(s, op, sid, FAILED, fault, Rejected(pc.error))
    else if pc.BackToPending? then WriteStatus(s, op, sid, PENDING, fault, Rejected(Missing(pc.index)))
    else if pc.ChunkUpload? then
      SetPc(if fault == FailBefore then s else s.(chunks := s.chunks[(sid, pc.index) := pc.body]), op,
            if fault == Fine then ChunkRecord(sid, pc.index, |pc.body|, pc.seen) else Rejected(Internal))
    else if pc.ChunkRecord? then
      SetPc(if fault == FailBefore then s
            else SetRow(s, sid, RecordRow(s.sessions[sid], pc.index, pc.size, pc.seen)), op,
            if fault == Fine then Done else Rejected(Internal))
    else if pc.Forgetting? then
      SetPc(if fault == FailBefore then s else SetRow(s, sid, ForgetRow(s.sessions[sid], pc.index, pc.seen)), op,
            if fault == Fine then BackToPending(sid, pc.index) else MarkFailed(sid, Internal))
    else if pc.Claimed? then
      SetPc(s, op, if fault == Fine then Downloading(sid, pc.uid, s.sessions[sid], []) else Rejected(Internal))
    else if pc.Downloading? then Download(s, op, pc, fault)
    else if pc.Uploading? then
      SetPc(if fault == FailBefore then s else s.(files := s.files[op := pc.whole]), op,
            if fault == Fine then Committing(sid, pc.uid, pc.seen, pc.whole) else MarkFailed(sid, Internal))
    else if newId in s.attachments then s
    else Commit(s, op, pc, fault, newId)
  }

  function Advance(s: State, op: OpId, fault: Fault, newId: AttachmentId): State
    requires op in s.ops
  {
    var pc := s.ops[op];
    if Finished(pc) then s
    else if pc.SweepWrite? then
      SetPc(if fault == FailBefore then s else s.(sessions := SweepRows(s.sessions, pc.sids)), op,
            if fault == Fine then Done else Rejected(Internal))
    else AdvanceRow(s, op, pc, fault, newId)
  }

  function Step(s: State, e: Event): State {
    match e
    case Init(sid, uid, size, total, now) =>
      if sid in s.sessions || !InitAccepted(size, total) then s else SetRow(s, sid, NewSession(uid, size, total, now))
    case LoseChunk(sid, i) => s.(chunks := s.chunks - {(sid, i)})
    case DeleteAttachment(a) =>
      if a in s.attachments then s.(deleted := s.deleted + {a}, pending := s.pending + {s.attachments[a].url}) else s
    case DropFile(url) => if url in s.pending then s.(files := s.files - {url}, pending := s.pending - {url}) else s
    case Continue(op, fault, newId) => if op in s.ops then Advance(s, op, fault, newId) else s
    case BeginChunk(op, sid, uid, i, body, now) => if op in s.ops then s
        else SetPc(s, op, BeginChunkPc(s, sid, uid, i, body, now))
    case BeginStatus(op, sid, uid, now) => if op in s.ops then s else SetPc(s, op, BeginStatusPc(s, sid, uid, now))
    case BeginAbort(op, sid, uid) => if op in s.ops then s else SetPc(s, op, BeginAbortPc(s, sid, uid))
    case BeginComplete(op, sid, uid, now, fault) => if op in s.ops then s else Claim(s, op, sid, uid, now, fault)
    case BeginSweep(op, picked, now) =>
      if op !in s.ops && |picked| <= SWEEP_BATCH && forall sid | sid in picked :: Sweepable(s.sessions, sid, now)
      then SetPc(s, op, SweepWrite(picked)) else s
  }

  function Run(s: State, events: seq<Event>): State {
    if events == [] then s else Step(Run(s, events[..|events| - 1]), events[|events| - 1])
  }

  lemma {:induction false} RunSplit(s: State, first: seq<Event>, second: seq<Event>)
    ensures Run(s, first + second) == Run(Run(s, first), second)
  {
    var both := first + second;
    if second == [] {
      assert both == first;
    } else {
      assert both[..|both| - 1] == first + second[..|second| - 1];
      RunSplit(s, first, second[..|second| - 1]);
    }
  }
}
