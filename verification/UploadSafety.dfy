/** What every interleaving of the upload calls keeps. */
module UploadSafety {
  import opened Prelude
  import opened UploadProtocol

  /** The call owns the claim on `sid`: it may still commit, or hand the session back as PENDING. */
  predicate Holds(pc: Pc, sid: SessionId) {
    match pc
    case Claimed(x, _) => x == sid
    case Downloading(x, _, _, _) => x == sid
    case Forgetting(x, _, _) => x == sid
    case BackToPending(x, _) => x == sid
    case Uploading(x, _, _, _) => x == sid
    case Committing(x, _, _, _) => x == sid
    case _ => false
  }

  predicate BeforeCommit(pc: Pc, sid: SessionId) {
    Holds(pc, sid) && !pc.Forgetting? && !pc.BackToPending?
  }

  predicate RowOk(s: State, sid: SessionId)
    requires sid in s.sessions
  {
    var row := s.sessions[sid];
    && row.fileSize <= MAX_SIZE
    && (row.status == COMPLETED ==> row.attachmentId.Some?)
    && (row.attachmentId.Some? ==>
          row.status != PENDING && row.attachmentId.value in s.attachments
          && s.attachments[row.attachmentId.value].session == sid)
  }

  predicate AttachmentOk(s: State, a: AttachmentId)
    requires a in s.attachments
  {
    var att := s.attachments[a];
    && att.session in s.sessions
    && s.sessions[att.session].attachmentId == Some(a)
    && att.fileSize == s.sessions[att.session].fileSize
  }

  predicate PcOk(s: State, pc: Pc) {
    && (!pc.SweepWrite? && !pc.Rejected? && !pc.Done? && !pc.ClaimLost? ==> pc.sid in s.sessions)
    && (pc.SweepWrite? ==> pc.sids <= s.sessions.Keys)
    && (pc.Claimed? || pc.Downloading? || pc.Forgetting? || pc.BackToPending? || pc.Uploading? || pc.Committing? ==>
          s.sessions[pc.sid].status != PENDING && s.sessions[pc.sid].attachmentId.None?)
    && (pc.Downloading? || pc.Uploading? || pc.Committing? ==> pc.seen.fileSize == s.sessions[pc.sid].fileSize)
    && (pc.Uploading? || pc.Committing? ==> |pc.whole| == pc.seen.fileSize)
    && (pc.PostCommit? || pc.CachedLookup? || pc.Answered? ==>
          pc.attachment in s.attachments && s.attachments[pc.attachment].session == pc.sid)
  }

  ghost predicate Exclusive(s: State) {
    forall p, q, sid | p in s.ops && q in s.ops && Holds(s.ops[p], sid) && Holds(s.ops[q], sid) :: p == q
  }

  ghost predicate Inv(s: State) {
    && (forall sid | sid in s.sessions :: RowOk(s, sid))
    && (forall a | a in s.attachments :: AttachmentOk(s, a))
    && (forall op | op in s.ops :: PcOk(s, s.ops[op]))
    && Exclusive(s)
  }

  /** Moving one call on, without a table write. */
  lemma PcKeepsInv(s: State, op: OpId, pc: Pc)
    requires Inv(s) && PcOk(s, pc)
    requires forall sid | Holds(pc, sid) :: op in s.ops && Holds(s.ops[op], sid)
    ensures Inv(SetPc(s, op, pc))
  {
    var t := SetPc(s, op, pc);
    forall o | o in t.ops ensures PcOk(t, t.ops[o]) {
      if o != op { assert PcOk(s, s.ops[o]); }
    }
    forall sid | sid in t.sessions ensures RowOk(t, sid) { assert RowOk(s, sid); }
    forall a | a in t.attachments ensures AttachmentOk(t, a) { assert AttachmentOk(s, a); }
  }

  /** A row write that keeps the attachment, the size, and does not make the session PENDING. */
  lemma RowKeepsInv(s: State, sid: SessionId, row: Session)
    requires Inv(s) && sid in s.sessions
    requires row.fileSize == s.sessions[sid].fileSize && row.attachmentId == s.sessions[sid].attachmentId
    requires row.status == s.sessions[sid].status || (row.status != PENDING && row.status != COMPLETED)
    ensures Inv(SetRow(s, sid, row))
  {
    var t := SetRow(s, sid, row);
    forall x | x in t.sessions ensures RowOk(t, x) { assert RowOk(s, x); }
    forall a | a in t.attachments ensures AttachmentOk(t, a) { assert AttachmentOk(s, a); }
    forall o | o in t.ops ensures PcOk(t, t.ops[o]) { assert PcOk(s, s.ops[o]); }
  }

  lemma WriteKeepsInv(s: State, op: OpId, sid: SessionId, status: Status, fault: Fault, next: Pc)
    requires Inv(s) && sid in s.sessions && status != PENDING && status != COMPLETED && PcOk(s, next) &&
             (next.Rejected? || next.Done?)
    ensures Inv(WriteStatus(s, op, sid, status, fault, next))
  {
    RowKeepsInv(s, sid, s.sessions[sid].(status := status));
    PcKeepsInv(if fault == FailBefore then s else SetStatus(s, sid, status), op, if fault == Fine then next
               else Rejected(Internal));
  }

  /** Handing the session back: only the holder does it, and stops holding. */
  lemma BackToPendingKeepsInv(s: State, op: OpId, fault: Fault)
    requires Inv(s) && op in s.ops && s.ops[op].BackToPending? && s.ops[op].sid in s.sessions
    ensures Inv(WriteStatus(s, op, s.ops[op].sid, PENDING, fault, Rejected(Missing(s.ops[op].index))))
  {
    var pc := s.ops[op];
    var next := if fault == Fine then Rejected(Missing(pc.index)) else Rejected(Internal);
    var u := SetPc(s, op, next);
    PcKeepsInv(s, op, next);
    if fault != FailBefore {
      var t := SetStatus(u, pc.sid, PENDING);
      assert PcOk(s, pc) && Holds(pc, pc.sid);
      forall o | o in t.ops ensures PcOk(t, t.ops[o]) {
        if o != op {
          assert PcOk(u, u.ops[o]);
          assert !Holds(s.ops[o], pc.sid);
        }
      }
      forall x | x in t.sessions ensures RowOk(t, x) { assert RowOk(u, x); }
      forall a | a in t.attachments ensures AttachmentOk(t, a) { assert AttachmentOk(u, a); }
    }
  }

  lemma ClaimKeepsInv(s: State, op: OpId, sid: SessionId, uid: UserId, now: int, fault: Fault)
    requires Inv(s) && op !in s.ops
    ensures Inv(Claim(s, op, sid, uid, now, fault))
  {
    if fault == FailBefore || !Claimable(s.sessions, sid, uid, now) {
      PcKeepsInv(s, op, if fault == Fine then ClaimLost(sid, uid) else Rejected(Internal));
    } else {
      RowKeepsInv(s, sid, s.sessions[sid].(status := COMPLETING));
      var u := SetStatus(s, sid, COMPLETING);
      var t := Claim(s, op, sid, uid, now, fault);
      assert RowOk(s, sid);
      forall o | o in t.ops ensures PcOk(t, t.ops[o]) {
        if o != op { assert PcOk(u, u.ops[o]); }
      }
      forall o | o in s.ops ensures !Holds(s.ops[o], sid) { assert PcOk(s, s.ops[o]); }
      forall x | x in t.sessions ensures RowOk(t, x) { assert RowOk(u, x); }
      forall a | a in t.attachments ensures AttachmentOk(t, a) { assert AttachmentOk(u, a); }
    }
  }

  lemma CommitKeepsInv(s: State, op: OpId, fault: Fault, newId: AttachmentId)
    requires Inv(s) && op in s.ops && s.ops[op].Committing? && s.ops[op].sid in s.sessions && newId !in s.attachments
    ensures Inv(Commit(s, op, s.ops[op], fault, newId))
  {
    var pc := s.ops[op];
    var sid := pc.sid;
    assert PcOk(s, pc);
    if fault == FailBefore {
      StorageKeepsInv(s, s.chunks, s.deleted, s.files, s.pending + {op});
      PcKeepsInv(s.(pending := s.pending + {op}), op, MarkFailed(sid, Internal));
    } else {
      var t := Commit(s, op, pc, fault, newId);
      forall o | o in t.ops ensures PcOk(t, t.ops[o]) {
        if o != op {
          assert PcOk(s, s.ops[o]);
          assert Holds(pc, sid);
          assert !Holds(s.ops[o], sid);
        }
      }
      forall x | x in t.sessions ensures RowOk(t, x) { assert RowOk(s, x); }
      forall a | a in t.attachments ensures AttachmentOk(t, a) {
        if a != newId { assert AttachmentOk(s, a); }
      }
    }
  }

  lemma SweepKeepsInv(s: State, op: OpId, fault: Fault)
    requires Inv(s) && op in s.ops && s.ops[op].SweepWrite?
    ensures Inv(Advance(s, op, fault, 0))
  {
    var u := s.(sessions := SweepRows(s.sessions, s.ops[op].sids));
    forall x | x in u.sessions ensures RowOk(u, x) { assert RowOk(s, x); }
    forall a | a in u.attachments ensures AttachmentOk(u, a) { assert AttachmentOk(s, a); }
    forall o | o in u.ops ensures PcOk(u, u.ops[o]) { assert PcOk(s, s.ops[o]); }
    PcKeepsInv(if fault == FailBefore then s else u, op, if fault == Fine then Done else Rejected(Internal));
  }

  lemma InitKeepsInv(s: State, sid: SessionId, row: Session)
    requires Inv(s) && sid !in s.sessions && row.attachmentId.None? && row.status == PENDING && row.fileSize <= MAX_SIZE
    ensures Inv(SetRow(s, sid, row))
  {
    var t := SetRow(s, sid, row);
    forall x | x in t.sessions ensures RowOk(t, x) { if x != sid { assert RowOk(s, x); } }
    forall a | a in t.attachments ensures AttachmentOk(t, a) { assert AttachmentOk(s, a); }
    forall o | o in t.ops ensures PcOk(t, t.ops[o]) { assert PcOk(s, s.ops[o]); }
  }

  /** Storage and the ledger of deletions are no part of it. */
  lemma StorageKeepsInv(s: State, chunks: map<(SessionId, nat), Bytes>, deleted: set<AttachmentId>,
                        files: map<OpId, Bytes>, pending: set<OpId>)
    requires Inv(s)
    ensures Inv(s.(chunks := chunks, deleted := deleted, files := files, pending := pending))
  {
    var t := s.(chunks := chunks, deleted := deleted, files := files, pending := pending);
    forall x | x in t.sessions ensures RowOk(t, x) { assert RowOk(s, x); }
    forall a | a in t.attachments ensures AttachmentOk(t, a) { assert AttachmentOk(s, a); }
    forall o | o in t.ops ensures PcOk(t, t.ops[o]) { assert PcOk(s, s.ops[o]); }
  }

  lemma DownloadKeepsInv(s: State, op: OpId, fault: Fault)
    requires Inv(s) && op in s.ops && s.ops[op].Downloading?
    ensures Inv(Download(s, op, s.ops[op], fault))
  {
    var t := Download(s, op, s.ops[op], fault);
    assert PcOk(s, s.ops[op]);
    assert Holds(s.ops[op], s.ops[op].sid);
    PcKeepsInv(s, op, t.ops[op]);
  }

  /** Steps that read a table, or storage, and write nothing. */
  lemma ReadKeepsInv(s: State, op: OpId, fault: Fault, newId: AttachmentId)
    requires Inv(s) && op in s.ops
    requires var pc := s.ops[op]; pc.ClaimLost? || pc.CachedLookup? || pc.PostCommit? || pc.Claimed?
    ensures Inv(AdvanceRow(s, op, s.ops[op], fault, newId))
  {
    var pc := s.ops[op];
    assert PcOk(s, pc);
    if pc.sid in s.sessions { assert RowOk(s, pc.sid); }
    hide Inv;
    var t := AdvanceRow(s, op, pc, fault, newId);
    assert t == SetPc(s, op, t.ops[op]);
    PcKeepsInv(s, op, t.ops[op]);
  }

  lemma UploadKeepsInv(s: State, op: OpId, fault: Fault, newId: AttachmentId)
    requires Inv(s) && op in s.ops && s.ops[op].Uploading?
    ensures Inv(AdvanceRow(s, op, s.ops[op], fault, newId))
  {
    var pc := s.ops[op];
    assert PcOk(s, pc) && Holds(pc, pc.sid);
    var t := AdvanceRow(s, op, pc, fault, newId);
    StorageKeepsInv(s, s.chunks, s.deleted, s.files[op := pc.whole], s.pending);
    var u := if fault == FailBefore then s else s.(files := s.files[op := pc.whole]);
    assert PcOk(u, t.ops[op]);
    hide Inv, PcOk;
    PcKeepsInv(u, op, t.ops[op]);
  }

  lemma ChunkKeepsInv(s: State, op: OpId, fault: Fault, newId: AttachmentId)
    requires Inv(s) && op in s.ops
    requires s.ops[op].ChunkUpload? || s.ops[op].ChunkRecord?
    ensures Inv(AdvanceRow(s, op, s.ops[op], fault, newId))
  {
    var pc := s.ops[op];
    assert PcOk(s, pc);
    var t := AdvanceRow(s, op, pc, fault, newId);
    if pc.ChunkUpload? {
      var u := s.(chunks := s.chunks[(pc.sid, pc.index) := pc.body]);
      StorageKeepsInv(s, u.chunks, s.deleted, s.files, s.pending);
      PcKeepsInv(if fault == FailBefore then s else u, op, t.ops[op]);
    } else {
      var row := RecordRow(s.sessions[pc.sid], pc.index, pc.size, pc.seen);
      RowKeepsInv(s, pc.sid, row);
      PcKeepsInv(if fault == FailBefore then s else SetRow(s, pc.sid, row), op, t.ops[op]);
    }
  }

  lemma ForgetKeepsInv(s: State, op: OpId, fault: Fault, newId: AttachmentId)
    requires Inv(s) && op in s.ops && s.ops[op].Forgetting?
    ensures Inv(AdvanceRow(s, op, s.ops[op], fault, newId))
  {
    var pc := s.ops[op];
    assert PcOk(s, pc);
    assert Holds(pc, pc.sid);
    var t := AdvanceRow(s, op, pc, fault, newId);
    var row := ForgetRow(s.sessions[pc.sid], pc.index, pc.seen);
    RowKeepsInv(s, pc.sid, row);
    PcKeepsInv(if fault == FailBefore then s else SetRow(s, pc.sid, row), op, t.ops[op]);
  }

  lemma AdvanceKeepsInv(s: State, op: OpId, fault: Fault, newId: AttachmentId)
    requires Inv(s) && op in s.ops
    ensures Inv(Advance(s, op, fault, newId))
  {
    hide Commit, Download, WriteStatus, SetRow, SetPc, RecordRow, ForgetRow, SweepRows;
    var pc := s.ops[op];
    assert PcOk(s, pc);
    hide Inv, RowOk;
    match pc
    case SweepWrite(_) => SweepKeepsInv(s, op, fault);
    case ExpiryWrite(sid) => WriteKeepsInv(s, op, sid, ABORTED, fault, Rejected(NotFound));
    case AbortWrite(sid) => WriteKeepsInv(s, op, sid, ABORTED, fault, Done);
    case MarkFailed(sid, e) => WriteKeepsInv(s, op, sid, FAILED, fault, Rejected(e));
    case BackToPending(_, _) => BackToPendingKeepsInv(s, op, fault);
    case Committing(sid, _, _, _) => if newId !in s.attachments { CommitKeepsInv(s, op, fault, newId); }
    case ChunkUpload(_, _, _, _) => ChunkKeepsInv(s, op, fault, newId);
    case ChunkRecord(_, _, _, _) => ChunkKeepsInv(s, op, fault, newId);
    case Forgetting(_, _, _) => ForgetKeepsInv(s, op, fault, newId);
    case Downloading(_, _, _, _) => DownloadKeepsInv(s, op, fault);
    case Claimed(_, _) => ReadKeepsInv(s, op, fault, newId);
    case Uploading(_, _, _, _) => UploadKeepsInv(s, op, fault, newId);
    case PostCommit(_, _) => ReadKeepsInv(s, op, fault, newId);
    case CachedLookup(_, _) => ReadKeepsInv(s, op, fault, newId);
    case ClaimLost(_, _) => ReadKeepsInv(s, op, fault, newId);
    case Answered(_, _) =>
    case Rejected(_) =>
    case Done =>
  }

  lemma StepKeepsInv(s: State, e: Event)
    requires Inv(s)
    ensures Inv(Step(s, e))
  {
    match e
    case Init(sid, uid, size, total, now) =>
      if sid !in s.sessions && InitAccepted(size, total) { InitKeepsInv(s, sid, NewSession(uid, size, total, now)); }
    case LoseChunk(sid, i) => StorageKeepsInv(s, s.chunks - {(sid, i)}, s.deleted, s.files, s.pending);
    case DeleteAttachment(a) =>
      if a in s.attachments {
        StorageKeepsInv(s, s.chunks, s.deleted + {a}, s.files, s.pending + {s.attachments[a].url});
      }
    case DropFile(url) => StorageKeepsInv(s, s.chunks, s.deleted, s.files - {url}, s.pending - {url});
    case Continue(op, fault, newId) => if op in s.ops { AdvanceKeepsInv(s, op, fault, newId); }
    case BeginChunk(op, sid, uid, i, body, now) =>
      if op !in s.ops { PcKeepsInv(s, op, BeginChunkPc(s, sid, uid, i, body, now)); }
    case BeginStatus(op, sid, uid, now) => if op !in s.ops { PcKeepsInv(s, op, BeginStatusPc(s, sid, uid, now)); }
    case BeginAbort(op, sid, uid) => if op !in s.ops { PcKeepsInv(s, op, BeginAbortPc(s, sid, uid)); }
    case BeginComplete(op, sid, uid, now, fault) => if op !in s.ops { ClaimKeepsInv(s, op, sid, uid, now, fault); }
    case BeginSweep(op, picked, now) =>
      if op !in s.ops && |picked| <= SWEEP_BATCH && forall sid | sid in picked :: Sweepable(s.sessions, sid, now) {
        PcKeepsInv(s, op, SweepWrite(picked));
      }
  }

  lemma {:induction false} RunKeepsInv(s: State, events: seq<Event>)
    requires Inv(s)
    ensures Inv(Run(s, events))
  {
    if events != [] {
      RunKeepsInv(s, events[..|events| - 1]);
      StepKeepsInv(Run(s, events[..|events| - 1]), events[|events| - 1]);
    }
  }

  // ─── Main results ──────────────────────────────────────

  /** However the calls interleave and fail, a session yields at most one attachment row, which it names, with exactly
      the announced size, never above the limit. What is in storage behind it is the subject of module UploadFiles. */
  lemma AtMostOneAttachment(events: seq<Event>, a: AttachmentId, b: AttachmentId)
    requires a in Run(Empty, events).attachments && b in Run(Empty, events).attachments
    ensures var s := Run(Empty, events);
            var att := s.attachments[a];
            && (att.session == s.attachments[b].session ==> a == b)
            && att.session in s.sessions && s.sessions[att.session].attachmentId == Some(a)
            && att.fileSize == s.sessions[att.session].fileSize <= MAX_SIZE
  {
    RunKeepsInv(Empty, events);
    var s := Run(Empty, events);
    assert AttachmentOk(s, a) && AttachmentOk(s, b) && RowOk(s, s.attachments[a].session);
  }

  /** The conditional claim is a mutex: one call at most is between its claim and its commit, and while it is
      there the session is not PENDING and has no attachment yet. */
  lemma ClaimIsMutex(events: seq<Event>, p: OpId, q: OpId, sid: SessionId)
    requires p in Run(Empty, events).ops && BeforeCommit(Run(Empty, events).ops[p], sid)
    ensures var s := Run(Empty, events);
            && sid in s.sessions && s.sessions[sid].status != PENDING
            && (forall a | a in s.attachments :: s.attachments[a].session != sid)
            && (q in s.ops && BeforeCommit(s.ops[q], sid) ==> p == q)
  {
    RunKeepsInv(Empty, events);
    var s := Run(Empty, events);
    assert PcOk(s, s.ops[p]);
    forall a | a in s.attachments ensures s.attachments[a].session != sid { assert AttachmentOk(s, a); }
  }

  /** Once an attachment exists for a session, then whatever happens later the session never accepts another
      claim and keeps pointing at that attachment. */
  lemma NeverPendingAgain(before: seq<Event>, after: seq<Event>, a: AttachmentId)
    requires a in Run(Empty, before).attachments
    ensures var s := Run(Empty, before + after);
            var sid := Run(Empty, before).attachments[a].session;
            && a in s.attachments && s.attachments[a] == Run(Empty, before).attachments[a]
            && sid in s.sessions && s.sessions[sid].status != PENDING && s.sessions[sid].attachmentId == Some(a)
  {
    RunSplit(Empty, before, after);
    RunKeepsInv(Empty, before + after);
    AttachmentsStay(Run(Empty, before), after, a);
    var s := Run(Empty, before + after);
    assert AttachmentOk(s, a) && RowOk(s, s.attachments[a].session);
  }

  lemma AttachmentStays(s: State, op: OpId, fault: Fault, newId: AttachmentId, a: AttachmentId)
    requires a in s.attachments && op in s.ops
    ensures var t := Advance(s, op, fault, newId); a in t.attachments && t.attachments[a] == s.attachments[a]
  {
    if !s.ops[op].Committing? {
      assert Advance(s, op, fault, newId).attachments == s.attachments;
    }
  }

  lemma {:induction false} AttachmentsStay(s: State, events: seq<Event>, a: AttachmentId)
    requires a in s.attachments
    ensures a in Run(s, events).attachments && Run(s, events).attachments[a] == s.attachments[a]
  {
    if events != [] {
      AttachmentsStay(s, events[..|events| - 1], a);
      var t := Run(s, events[..|events| - 1]);
      var e := events[|events| - 1];
      if e.Continue? && e.op in t.ops {
        AttachmentStays(t, e.op, e.fault, e.newId, a);
      }
    }
  }

  /** Any two `complete` calls of a session that answer, answer with the same attachment. */
  lemma AnswersAgree(events: seq<Event>, p: OpId, q: OpId)
    requires p in Run(Empty, events).ops && Run(Empty, events).ops[p].Answered?
    requires q in Run(Empty, events).ops && Run(Empty, events).ops[q].Answered?
    requires Run(Empty, events).ops[p].sid == Run(Empty, events).ops[q].sid
    ensures Run(Empty, events).ops[p].attachment == Run(Empty, events).ops[q].attachment
  {
    RunKeepsInv(Empty, events);
    var s := Run(Empty, events);
    assert PcOk(s, s.ops[p]) && PcOk(s, s.ops[q]);
    AtMostOneAttachment(events, s.ops[p].attachment, s.ops[q].attachment);
  }

  // ─── COMPLETED is not terminal ─────────────────────────

  /** The in-flight call will overwrite the status of `sid` whatever it has become meanwhile. */
  predicate WritesBlindly(pc: Pc, sid: SessionId) {
    match pc
    case ExpiryWrite(x) => x == sid
    case AbortWrite(x) => x == sid
    case SweepWrite(sids) => sid in sids
    case MarkFailed(x, _) => x == sid
    case _ => false
  }

  lemma StatusAfterAdvance(s: State, op: OpId, fault: Fault, newId: AttachmentId, sid: SessionId)
    requires Inv(s) && op in s.ops && sid in s.sessions && s.sessions[sid].status == COMPLETED
    ensures var t := Advance(s, op, fault, newId);
            sid in t.sessions
            && (t.sessions[sid].status != COMPLETED <==> fault != FailBefore && WritesBlindly(s.ops[op], sid))
  {
    var pc := s.ops[op];
    assert PcOk(s, pc);
    assert RowOk(s, sid);
    hide Inv, RowOk;
    if Finished(pc) || pc.SweepWrite? {
      return;
    }
    hide PcOk;
    if ReadsOnly(pc) {
      ReadersKeepRows(s, op, fault, newId);
    } else if pc.ExpiryWrite? || pc.AbortWrite? || pc.MarkFailed? {
      BlindWriterRow(s, op, fault, newId);
    } else {
      OtherWriterRow(s, op, fault, newId, sid);
    }
    hide AdvanceRow;
  }

  predicate ReadsOnly(pc: Pc) {
    pc.ClaimLost? || pc.CachedLookup? || pc.PostCommit? || pc.Claimed? || pc.Downloading? || pc.Uploading? ||
        pc.ChunkUpload?
  }

  lemma ReadersKeepRows(s: State, op: OpId, fault: Fault, newId: AttachmentId)
    requires op in s.ops && ReadsOnly(s.ops[op])
    ensures AdvanceRow(s, op, s.ops[op], fault, newId).sessions == s.sessions
  {
    hide Concat, AfterLostClaim;
  }

  lemma BlindWriterRow(s: State, op: OpId, fault: Fault, newId: AttachmentId)
    requires op in s.ops && (s.ops[op].ExpiryWrite? || s.ops[op].AbortWrite? || s.ops[op].MarkFailed?)
    requires s.ops[op].sid in s.sessions
    ensures var pc := s.ops[op];
            AdvanceRow(s, op, pc, fault, newId).sessions == if fault == FailBefore then s.sessions
              else s.sessions[pc.sid := s.sessions[pc.sid].(status := if pc.MarkFailed? then FAILED else ABORTED)]
  {
  }

  /** The other writers leave every other row alone, and two of them the status of their own. */
  lemma OtherWriterRow(s: State, op: OpId, fault: Fault, newId: AttachmentId, sid: SessionId)
    requires op in s.ops && sid in s.sessions
    requires var pc := s.ops[op]; pc.ChunkRecord? || pc.Forgetting? ||
                                  ((pc.BackToPending? || pc.Committing?) && pc.sid != sid)
    requires s.ops[op].sid in s.sessions
    ensures var t := AdvanceRow(s, op, s.ops[op], fault, newId);
            sid in t.sessions && t.sessions[sid].status == s.sessions[sid].status
  {
    hide Without;
  }

  /** From a reachable state, a step takes a session out of COMPLETED exactly when it is the unguarded status
      write of an abort, a lazy expiry, a sweep or a failure path that started earlier. */
  lemma CompletedIsLeftIff(events: seq<Event>, e: Event, sid: SessionId)
    requires sid in Run(Empty, events).sessions && Run(Empty, events).sessions[sid].status == COMPLETED
    ensures var s := Run(Empty, events);
            sid in Step(s, e).sessions
            && (Step(s, e).sessions[sid].status != COMPLETED <==>
                e.Continue? && e.fault != FailBefore && e.op in s.ops && WritesBlindly(s.ops[e.op], sid))
  {
    RunKeepsInv(Empty, events);
    var s := Run(Empty, events);
    if e.Continue? && e.op in s.ops {
      StatusAfterAdvance(s, e.op, e.fault, e.newId, sid);
    }
  }
}
