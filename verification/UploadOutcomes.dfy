/** What each upload call leaves in the tables and answers, column by column. */
module UploadOutcomes {
  import opened Prelude
  import opened UploadProtocol
  import opened UploadSchedules

  /** A chunk request is accepted exactly for the owner of an unexpired session that is still open, for an index below
      the announced number and at most 512 KiB; an index that was received before is not counted again. */
  lemma ReceiptIs(s: State, sid: SessionId, uid: UserId, index: int, body: Bytes, now: int)
    ensures var (t, r) := Receipt(s, sid, uid, index, body, now);
            if sid !in s.sessions then r == Err(NotFound) && t == s
            else if s.sessions[sid].userId != uid then r == Err(Forbidden) && t == s
            else
              var row := s.sessions[sid];
              && (r.Ok? <==> now <= row.expiresAt && (row.status == PENDING || row.status == COMPLETING) &&
                             0 <= index < row.totalChunks && |body| <= 524_288)
              && (r.Ok? ==>
                    && r.value == (if index in row.receivedChunks then row
                                   else row.(receivedChunks := row.receivedChunks + [index],
                                             bytesReceived := row.bytesReceived + |body|))
                    && t == s.(chunks := s.chunks[(sid, index) := body], sessions := s.sessions[sid := r.value]))
              && (r.Err? ==> t == if row.expiresAt < now then s.(sessions := s.sessions[sid := row.(status := ABORTED)])
                                  else s)
              && (r == Err(NotFound) <==> row.expiresAt < now || row.status == ABORTED || row.status == FAILED)
              && (r == Err(AlreadyCompleted) <==> now <= row.expiresAt && row.status == COMPLETED)
              && (r.Err? ==> r.error in {NotFound, AlreadyCompleted, BadRequest})
  {
  }

  /** A completion that won its claim names the first absent chunk, or ends the session: FAILED if the chunks do not add
      up to the announced size, and otherwise COMPLETED, with their concatenation stored and no chunk left. */
  lemma CompletionIs(s: State, sid: SessionId, a: AttachmentId, url: OpId)
    requires sid in s.sessions
    ensures var row := s.sessions[sid];
            var (t, r) := Completion(s, sid, a, url);
            && (r.Err? && r.error.Missing? <==> exists i: nat :: i < row.totalChunks && (sid, i) !in s.chunks)
            && (r.Ok? || r == Err(BadRequest) || (r.Err? && r.error.Missing?))
            && (r.Ok? ==>
                  && r.value == a
                  && t.sessions == s.sessions[sid := row.(status := COMPLETED, attachmentId := Some(a))]
                  && t.attachments == s.attachments[a := Attachment(sid, url, row.fileSize, true)]
                  && url in t.files && |t.files[url]| == row.fileSize && t.files == s.files[url := t.files[url]]
                  && forall k :: (k in t.chunks <==> k in s.chunks && !(k.0 == sid && k.1 < row.totalChunks)) &&
                                 (k in t.chunks ==> t.chunks[k] == s.chunks[k]))
            && (r == Err(BadRequest) ==> t == s.(sessions := s.sessions[sid := row.(status := FAILED)]))
            && (r.Err? && r.error.Missing? ==>
                  && (sid, r.error.index) !in s.chunks && r.error.index < row.totalChunks
                  && (forall i: nat | i < r.error.index :: (sid, i) in s.chunks)
                  && sid in t.sessions && t == s.(sessions := s.sessions[sid := t.sessions[sid]])
                  && t.sessions[sid] == row.(receivedChunks := t.sessions[sid].receivedChunks,
                                             bytesReceived := row.bytesReceived - 524_288)
                  && forall i :: i in t.sessions[sid].receivedChunks <==> i in row.receivedChunks && i != r.error.index)
  {
    hide Concat;
  }

  /** With every chunk there, all that counts is whether they add up. */
  lemma CompletionOfAll(s: State, sid: SessionId, a: AttachmentId, url: OpId, pieces: seq<Bytes>)
    requires sid in s.sessions && s.sessions[sid].totalChunks == |pieces|
    requires forall i: nat | i < |pieces| :: (sid, i) in s.chunks && s.chunks[(sid, i)] == pieces[i]
    ensures var (t, r) := Completion(s, sid, a, url);
            if |Concat(pieces)| == s.sessions[sid].fileSize then r == Ok(a) && t.files == s.files[url := Concat(pieces)]
            else r == Err(BadRequest)
  {
    LeastMissingIs(s.chunks, sid, |pieces|, |pieces|);
    assert Collected(s.chunks, sid, |pieces|) == pieces;
    hide Concat;
  }

  /** An abort closes a session of the caller's that is neither COMPLETED nor ABORTED and deletes its chunks. */
  lemma AbortIs(s: State, sid: SessionId, uid: UserId)
    ensures var (t, r) := AbortOutcome(s, sid, uid);
            if sid !in s.sessions then r == Err(NotFound) && t == s
            else if s.sessions[sid].userId != uid then r == Err(Forbidden) && t == s
            else
              var row := s.sessions[sid];
              && r == Ok(())
              && (row.status == COMPLETED || row.status == ABORTED ==> t == s)
              && (row.status != COMPLETED && row.status != ABORTED ==>
                    && t == s.(sessions := s.sessions[sid := row.(status := ABORTED)], chunks := t.chunks)
                    && forall k :: (k in t.chunks <==> k in s.chunks && !(k.0 == sid && k.1 < row.totalChunks)) &&
                                   (k in t.chunks ==> t.chunks[k] == s.chunks[k]))
  {
  }

  /** Each piece lies in the whole right after the ones before it. */
  lemma {:induction false} PieceInWhole(pieces: seq<Bytes>, i: nat)
    requires i < |pieces|
    ensures var start := |Concat(pieces[..i])|;
            && |Concat(pieces[..i + 1])| == start + |pieces[i]| && start + |pieces[i]| <= |Concat(pieces)|
            && Concat(pieces)[start..start + |pieces[i]|] == pieces[i]
            && (i == 0 ==> start == 0) && (i == |pieces| - 1 ==> start + |pieces[i]| == |Concat(pieces)|)
  {
    assert pieces[..i + 1][..i] == pieces[..i];
    if i < |pieces| - 1 {
      var front := pieces[..|pieces| - 1];
      assert front[..i] == pieces[..i] && front[..i + 1] == pieces[..i + 1];
      PieceInWhole(front, i);
    } else {
      assert pieces[..i + 1] == pieces;
    }
  }
}
