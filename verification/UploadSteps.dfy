/** The steps of the upload machine in the columns of the tables: what each request decides on when it begins, and what
    each awaited call does when it ends normally, or throws before or after its effect. */
module UploadSteps {
  import opened Prelude
  import opened UploadProtocol

  /** An upload is announced for at most 30 MiB, in as many chunks of 512 KiB as that needs, and lasts an hour. */
  lemma InitIs(s: State, sid: SessionId, uid: UserId, fileSize: nat, totalChunks: nat, now: int)
    ensures Step(s, Init(sid, uid, fileSize, totalChunks, now)) ==
            if sid in s.sessions || fileSize > 31_457_280 || fileSize > totalChunks * 524_288 then s
            else s.(sessions := s.sessions[sid :=
                      Session(uid, fileSize, totalChunks, [], 0, PENDING, None, now + 3_600_000)])
  {
  }

  /** What the check of the row makes of a chunk request and of a status request. */
  lemma RequestsBegin(s: State, op: OpId, sid: SessionId, uid: UserId, index: int, body: Bytes, now: int)
    requires op !in s.ops
    ensures var (chunk, status) := (Step(s, BeginChunk(op, sid, uid, index, body, now)),
                                    Step(s, BeginStatus(op, sid, uid, now)));
            && op in chunk.ops && chunk == s.(ops := s.ops[op := chunk.ops[op]])
            && op in status.ops && status == s.(ops := s.ops[op := status.ops[op]])
            && if sid !in s.sessions then chunk.ops[op] == status.ops[op] == Rejected(NotFound)
               else if s.sessions[sid].userId != uid then chunk.ops[op] == status.ops[op] == Rejected(Forbidden)
               else if s.sessions[sid].expiresAt < now then chunk.ops[op] == status.ops[op] == ExpiryWrite(sid)
               else match s.sessions[sid].status
                 case ABORTED => chunk.ops[op] == status.ops[op] == Rejected(NotFound)
                 case FAILED => chunk.ops[op] == status.ops[op] == Rejected(NotFound)
                 case COMPLETED => chunk.ops[op] == status.ops[op] == Rejected(AlreadyCompleted)
                 case _ =>
                   && status.ops[op] == Done
                   && chunk.ops[op] == if 0 <= index < s.sessions[sid].totalChunks && |body| <= 524_288
                                       then ChunkUpload(sid, index, body, s.sessions[sid]) else Rejected(BadRequest)
  {
  }

  /** What an abort and a sweep begin with: a sweep takes at most 100 expired sessions that are PENDING or FAILED. */
  lemma ClosersBegin(s: State, op: OpId, sid: SessionId, uid: UserId, picked: set<SessionId>, now: int)
    requires op !in s.ops
    ensures Step(s, BeginAbort(op, sid, uid)) == s.(ops := s.ops[op :=
              if sid !in s.sessions then Rejected(NotFound)
              else if s.sessions[sid].userId != uid then Rejected(Forbidden)
              else match s.sessions[sid].status
                case COMPLETED => Done
                case ABORTED => Done
                case _ => AbortWrite(sid)])
    ensures Step(s, BeginSweep(op, picked, now)) ==
            if |picked| <= 100 && forall x | x in picked ::
                 && x in s.sessions && s.sessions[x].expiresAt < now
                 && (s.sessions[x].status == PENDING || s.sessions[x].status == FAILED)
            then s.(ops := s.ops[op := SweepWrite(picked)]) else s
  {
    if sid in s.sessions {
      match s.sessions[sid].status {
        case COMPLETED =>
        case ABORTED =>
        case _ =>
      }
    }
  }

  /** A claim that throws, before or after it took effect, ends its call; only the latter leaves COMPLETING behind. */
  lemma ClaimThrows(s: State, op: OpId, sid: SessionId, uid: UserId, now: int, fault: Fault)
    requires op !in s.ops && fault != Fine
    ensures Step(s, BeginComplete(op, sid, uid, now, fault)) ==
            s.(sessions := if fault == FailAfter && sid in s.sessions && s.sessions[sid].userId == uid &&
                              s.sessions[sid].status == PENDING && now < s.sessions[sid].expiresAt
                           then s.sessions[sid := s.sessions[sid].(status := COMPLETING)] else s.sessions,
               ops := s.ops[op := Rejected(Internal)])
  {
  }

  /** The status writes, none of which looks at the row again. */
  lemma StatusWrites(s: State, op: OpId, fault: Fault, newId: AttachmentId)
    requires op in s.ops
    requires var pc := s.ops[op];
             (pc.ExpiryWrite? || pc.AbortWrite? || pc.MarkFailed? || pc.BackToPending?) && pc.sid in s.sessions
    ensures var pc := s.ops[op];
            var (status, next) :=
              if pc.ExpiryWrite? then (ABORTED, Rejected(NotFound))
              else if pc.AbortWrite? then (ABORTED, Done)
              else if pc.MarkFailed? then (FAILED, Rejected(pc.error))
              else (PENDING, Rejected(Missing(pc.index)));
            Step(s, Continue(op, fault, newId)) ==
            s.(sessions := if fault == FailBefore then s.sessions
                           else s.sessions[pc.sid := s.sessions[pc.sid].(status := status)],
               ops := s.ops[op := if fault == Fine then next else Rejected(Internal)])
  {
  }

  /** The sweep's one update. */
  lemma SweepWrites(s: State, op: OpId, fault: Fault, newId: AttachmentId)
    requires op in s.ops && s.ops[op].SweepWrite?
    ensures var t := Step(s, Continue(op, fault, newId));
            && t == s.(sessions := t.sessions, ops := s.ops[op := if fault == Fine then Done else Rejected(Internal)])
            && t.sessions.Keys == s.sessions.Keys
            && forall sid | sid in s.sessions ::
                 t.sessions[sid] == if fault != FailBefore && sid in s.ops[op].sids
                                    then s.sessions[sid].(status := ABORTED) else s.sessions[sid]
  {
  }

  /** A chunk is stored first; the row then counts it unless it was listed when the request began. */
  lemma ChunkWrites(s: State, op: OpId, fault: Fault, newId: AttachmentId)
    requires op in s.ops && (s.ops[op].ChunkUpload? || s.ops[op].ChunkRecord?) && s.ops[op].sid in s.sessions
    ensures var pc := s.ops[op];
            var (row, stays) := (s.sessions[pc.sid], fault == FailBefore || pc.index in pc.seen.receivedChunks);
            Step(s, Continue(op, fault, newId)) ==
            if pc.ChunkUpload? then
              s.(chunks := if fault == FailBefore then s.chunks else s.chunks[(pc.sid, pc.index) := pc.body],
                 ops := s.ops[op := if fault == Fine then ChunkRecord(pc.sid, pc.index, |pc.body|, pc.seen)
                                    else Rejected(Internal)])
            else
              s.(sessions := s.sessions[pc.sid :=
                   if stays then row else row.(receivedChunks := row.receivedChunks + [pc.index],
                                               bytesReceived := row.bytesReceived + pc.size)],
                 ops := s.ops[op := if fault == Fine then Done else Rejected(Internal)])
  {
    var sid := s.ops[op].sid;
    assert s.sessions[sid := s.sessions[sid]] == s.sessions;
  }

  /** A completer reads its row after the claim, downloads the chunks in order and looks at their size; an absent chunk
      is taken off the row as it was read. */
  lemma CompleterReads(s: State, op: OpId, fault: Fault, newId: AttachmentId)
    requires op in s.ops && (s.ops[op].Claimed? || s.ops[op].Downloading?) && s.ops[op].sid in s.sessions
    ensures var pc := s.ops[op];
            Step(s, Continue(op, fault, newId)) == s.(ops := s.ops[op :=
              if pc.Claimed? then
                if fault == Fine then Downloading(pc.sid, pc.uid, s.sessions[pc.sid], []) else Rejected(Internal)
              else if |pc.buffers| < pc.seen.totalChunks then
                if fault == Fine && (pc.sid, |pc.buffers|) in s.chunks
                then Downloading(pc.sid, pc.uid, pc.seen, pc.buffers + [s.chunks[(pc.sid, |pc.buffers|)]])
                else Forgetting(pc.sid, |pc.buffers|, pc.seen)
              else if |Concat(pc.buffers)| == pc.seen.fileSize then
                Uploading(pc.sid, pc.uid, pc.seen, Concat(pc.buffers))
              else MarkFailed(pc.sid, BadRequest)])
  {
    hide Concat;
  }

  lemma CompleterForgets(s: State, op: OpId, fault: Fault, newId: AttachmentId)
    requires op in s.ops && s.ops[op].Forgetting? && s.ops[op].sid in s.sessions
    ensures var pc, t := s.ops[op], Step(s, Continue(op, fault, newId));
            var row := s.sessions[pc.sid];
            && pc.sid in t.sessions
            && t == s.(sessions := s.sessions[pc.sid := t.sessions[pc.sid]],
                       ops := s.ops[op := if fault == Fine then BackToPending(pc.sid, pc.index)
                                          else MarkFailed(pc.sid, Internal)])
            && (fault == FailBefore ==> t.sessions[pc.sid] == row)
            && (fault != FailBefore ==>
                  && t.sessions[pc.sid] == row.(receivedChunks := t.sessions[pc.sid].receivedChunks,
                                                bytesReceived := row.bytesReceived - 524_288)
                  && forall i :: i in t.sessions[pc.sid].receivedChunks <==>
                                 i in pc.seen.receivedChunks && i != pc.index)
  {
    var sid := s.ops[op].sid;
    assert s.sessions[sid := s.sessions[sid]] == s.sessions;
  }

  /** The file is stored before the transaction; whenever that throws, its deletion is started. */
  lemma CompleterWrites(s: State, op: OpId, fault: Fault, newId: AttachmentId)
    requires op in s.ops && (s.ops[op].Uploading? || s.ops[op].Committing?) && s.ops[op].sid in s.sessions
    requires newId !in s.attachments
    ensures var pc := s.ops[op];
            var (sid, row) := (pc.sid, s.sessions[pc.sid]);
            Step(s, Continue(op, fault, newId)) ==
            if pc.Uploading? then
              s.(files := if fault == FailBefore then s.files else s.files[op := pc.whole],
                 ops := s.ops[op := if fault == Fine then Committing(sid, pc.uid, pc.seen, pc.whole)
                                    else MarkFailed(sid, Internal)])
            else if fault == FailBefore then
              s.(pending := s.pending + {op}, ops := s.ops[op := MarkFailed(sid, Internal)])
            else
              s.(sessions := s.sessions[sid := row.(status := COMPLETED, attachmentId := Some(newId))],
                 attachments := s.attachments[newId := Attachment(sid, op, pc.seen.fileSize, fault == Fine)],
                 pending := if fault == Fine then s.pending else s.pending + {op},
                 ops := s.ops[op := if fault == Fine then PostCommit(sid, newId) else MarkFailed(sid, Internal)])
  {
  }

  /** Who lost the claim answers by the row as it is then. */
  lemma AnswersAre(s: State, op: OpId, fault: Fault, newId: AttachmentId)
    requires op in s.ops && (s.ops[op].ClaimLost? || s.ops[op].CachedLookup? || s.ops[op].PostCommit?)
    ensures var pc := s.ops[op];
            Step(s, Continue(op, fault, newId)) == s.(ops := s.ops[op :=
              if pc.PostCommit? then
                if fault == Fine then Answered(pc.sid, pc.attachment) else MarkFailed(pc.sid, Internal)
              else if fault != Fine then Rejected(Internal)
              else if pc.CachedLookup? then
                if pc.attachment in s.attachments && pc.attachment !in s.deleted then Answered(pc.sid, pc.attachment)
                else Rejected(NotFound)
              else if pc.sid !in s.sessions || s.sessions[pc.sid].userId != pc.uid then Rejected(NotFound)
              else if s.sessions[pc.sid].status == COMPLETED && s.sessions[pc.sid].attachmentId.Some?
              then CachedLookup(pc.sid, s.sessions[pc.sid].attachmentId.value)
              else Rejected(if s.sessions[pc.sid].status == COMPLETING then InProgress else NotFound)])
  {
  }

  /** What else happens: chunks get lost or removed, users remove attachments, and files go whose deletion was
      started. */
  lemma MeanwhileIs(s: State, sid: SessionId, index: nat, a: AttachmentId, url: OpId)
    ensures Step(s, LoseChunk(sid, index)) == s.(chunks := s.chunks - {(sid, index)})
    ensures Step(s, DeleteAttachment(a)) ==
            if a in s.attachments
            then s.(deleted := s.deleted + {a}, pending := s.pending + {s.attachments[a].url}) else s
    ensures Step(s, DropFile(url)) ==
            if url in s.pending then s.(files := s.files - {url}, pending := s.pending - {url}) else s
  {
  }
}
