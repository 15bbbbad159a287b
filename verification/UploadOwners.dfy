/** Whose session it is: only its owner's calls read on, write to it or complete it. */
module UploadOwners {
  import opened Prelude
  import opened UploadProtocol
  import opened UploadSafety

  /** Who completes a session is the user who announced it. */
  ghost predicate Own(s: State, pc: Pc) {
    pc.Claimed? || pc.Downloading? || pc.Uploading? || pc.Committing? ==>
      pc.sid in s.sessions && s.sessions[pc.sid].userId == pc.uid
  }

  ghost predicate OwnCalls(s: State) {
    forall op | op in s.ops :: Own(s, s.ops[op])
  }

  ghost predicate SameUsers(s: State, t: State) {
    forall sid | sid in s.sessions :: sid in t.sessions && t.sessions[sid].userId == s.sessions[sid].userId
  }

  /** One call moves on, and writes at most one row, of the same user. */
  ghost predicate Moves(s: State, t: State, op: OpId) {
    SameUsers(s, t) && op in t.ops && t.ops == s.ops[op := t.ops[op]] && Own(t, t.ops[op])
  }

  lemma RowMoves(s: State, op: OpId, sid: SessionId, row: Session, pc: Pc)
    requires sid in s.sessions && row.userId == s.sessions[sid].userId && Own(s, pc)
    ensures Moves(s, SetPc(s, op, pc), op) && Moves(s, SetPc(SetRow(s, sid, row), op, pc), op)
  {
  }

  lemma Moved(s: State, op: OpId)
    requires op in s.ops && Own(s, s.ops[op])
    ensures Moves(s, s, op)
  {
    assert s.ops == s.ops[op := s.ops[op]];
  }

  lemma StaysPut(s: State, op: OpId, pc: Pc)
    requires Own(s, pc)
    ensures Moves(s, SetPc(s, op, pc), op)
  {
  }

  lemma WriteMoves(s: State, op: OpId, sid: SessionId, status: Status, fault: Fault, next: Pc)
    requires sid in s.sessions && (next.Rejected? || next.Done?)
    ensures Moves(s, WriteStatus(s, op, sid, status, fault, next), op)
  {
    RowMoves(s, op, sid, s.sessions[sid].(status := status), if fault == Fine then next else Rejected(Internal));
    hide Moves;
  }

  lemma DownloadMoves(s: State, op: OpId, fault: Fault)
    requires op in s.ops && s.ops[op].Downloading? && Own(s, s.ops[op])
    ensures Moves(s, Download(s, op, s.ops[op], fault), op)
  {
    hide Concat;
  }

  lemma CommitMoves(s: State, op: OpId, fault: Fault, newId: AttachmentId)
    requires op in s.ops && s.ops[op].Committing? && s.ops[op].sid in s.sessions
    ensures Moves(s, Commit(s, op, s.ops[op], fault, newId), op)
  {
  }

  lemma SweepMoves(s: State, op: OpId, fault: Fault, newId: AttachmentId)
    requires op in s.ops && s.ops[op].SweepWrite?
    ensures Moves(s, Advance(s, op, fault, newId), op)
  {
  }

  lemma ChunkMoves(s: State, op: OpId, fault: Fault, newId: AttachmentId)
    requires op in s.ops && (s.ops[op].ChunkUpload? || s.ops[op].ChunkRecord? || s.ops[op].Forgetting?)
    ensures Moves(s, AdvanceRow(s, op, s.ops[op], fault, newId), op)
  {
    hide Without, Download, Commit, WriteStatus, AfterLostClaim;
  }

  lemma ReadMoves(s: State, op: OpId, fault: Fault, newId: AttachmentId)
    requires op in s.ops && Own(s, s.ops[op])
    requires var pc := s.ops[op];
             pc.ClaimLost? || pc.CachedLookup? || pc.PostCommit? || pc.Claimed? || pc.Uploading?
    ensures Moves(s, AdvanceRow(s, op, s.ops[op], fault, newId), op)
  {
    hide Download, Commit, WriteStatus, RecordRow, ForgetRow;
  }

  lemma AdvanceKeepsUsers(s: State, op: OpId, fault: Fault, newId: AttachmentId)
    requires op in s.ops && Own(s, s.ops[op])
    ensures Moves(s, Advance(s, op, fault, newId), op)
  {
    hide Moves, Commit, Download, WriteStatus, SetRow, RecordRow, ForgetRow, AfterLostClaim;
    var pc := s.ops[op];
    if pc.Downloading? {
      DownloadMoves(s, op, fault);
    } else if pc.Committing? {
      Moved(s, op);
      if pc.sid in s.sessions { CommitMoves(s, op, fault, newId); }
    } else if pc.ChunkUpload? || pc.ChunkRecord? || pc.Forgetting? {
      ChunkMoves(s, op, fault, newId);
    } else if pc.ClaimLost? || pc.CachedLookup? || pc.PostCommit? || pc.Claimed? || pc.Uploading? {
      ReadMoves(s, op, fault, newId);
    } else if (pc.ExpiryWrite? || pc.AbortWrite? || pc.MarkFailed? || pc.BackToPending?) && pc.sid in s.sessions {
      WriteMoves(s, op, pc.sid, ABORTED, fault, Rejected(NotFound));
      WriteMoves(s, op, pc.sid, ABORTED, fault, Done);
      if pc.MarkFailed? { WriteMoves(s, op, pc.sid, FAILED, fault, Rejected(pc.error)); }
      if pc.BackToPending? { WriteMoves(s, op, pc.sid, PENDING, fault, Rejected(Missing(pc.index))); }
    } else if pc.SweepWrite? {
      SweepMoves(s, op, fault, newId);
    } else {
      Moved(s, op);
    }
  }

  predicate Begins(e: Event) {
    e.BeginChunk? || e.BeginStatus? || e.BeginAbort? || e.BeginComplete? || e.BeginSweep?
  }

  lemma BeginMoves(s: State, e: Event)
    requires Begins(e) && e.op !in s.ops && Step(s, e) != s
    ensures Moves(s, Step(s, e), e.op)
  {
    hide ActiveCheck, LazilyExpires, Sweepable, Advance;
    if e.BeginComplete? { ClaimMoves(s, e); }
    hide Claim;
  }

  lemma ClaimMoves(s: State, e: Event)
    requires e.BeginComplete? && e.op !in s.ops
    ensures Moves(s, Step(s, e), e.op)
  {
    hide Moves;
    if e.sid in s.sessions && Claimable(s.sessions, e.sid, e.uid, e.now) {
      RowMoves(s, e.op, e.sid, s.sessions[e.sid].(status := COMPLETING), Step(s, e).ops[e.op]);
    } else {
      StaysPut(s, e.op, Step(s, e).ops[e.op]);
    }
  }

  lemma OthersKeepUsers(s: State, e: Event)
    requires !Begins(e) && !e.Continue?
    ensures SameUsers(s, Step(s, e)) && Step(s, e).ops == s.ops
  {
    hide Advance;
  }

  lemma OwnStays(s: State, t: State, pc: Pc)
    requires Own(s, pc) && SameUsers(s, t)
    ensures Own(t, pc)
  {
  }

  lemma StepKeepsUsers(s: State, e: Event)
    requires OwnCalls(s)
    ensures SameUsers(s, Step(s, e)) && OwnCalls(Step(s, e))
  {
    var t := Step(s, e);
    if e.Continue? {
      if e.op in s.ops { AdvanceKeepsUsers(s, e.op, e.fault, e.newId); }
    } else if Begins(e) {
      if e.op !in s.ops && t != s { BeginMoves(s, e); }
    } else {
      OthersKeepUsers(s, e);
    }
    hide Own, Advance, BeginChunkPc, BeginStatusPc, BeginAbortPc, Claim;
    forall o | o in t.ops ensures Own(t, t.ops[o]) {
      if o in s.ops && t.ops[o] == s.ops[o] { OwnStays(s, t, s.ops[o]); }
    }
  }

  lemma {:induction false} RunKeepsUsers(events: seq<Event>)
    ensures OwnCalls(Run(Empty, events))
  {
    if events != [] {
      RunKeepsUsers(events[..|events| - 1]);
      StepKeepsUsers(Run(Empty, events[..|events| - 1]), events[|events| - 1]);
    }
  }

  // ─── Main results ──────────────────────────────────────

  /** In every run, a call between its claim and its commit is the session owner's. */
  lemma CompletersOwn(events: seq<Event>, op: OpId)
    requires op in Run(Empty, events).ops
    ensures var s := Run(Empty, events);
            var pc := s.ops[op];
            pc.Claimed? || pc.Downloading? || pc.Uploading? || pc.Committing? ==>
              pc.sid in s.sessions && pc.uid == s.sessions[pc.sid].userId
  {
    RunKeepsUsers(events);
    assert Own(Run(Empty, events), Run(Empty, events).ops[op]);
  }

  /** A claim is won exactly by the owner of a session that is PENDING and has not expired, and then makes it
      COMPLETING; a lost one changes nothing. */
  lemma ClaimIsWonIff(s: State, op: OpId, sid: SessionId, uid: UserId, now: int)
    requires op !in s.ops
    ensures var t := Step(s, BeginComplete(op, sid, uid, now, Fine));
            if sid in s.sessions && s.sessions[sid].userId == uid && s.sessions[sid].status == PENDING &&
               s.sessions[sid].expiresAt > now
            then t == s.(sessions := s.sessions[sid := s.sessions[sid].(status := COMPLETING)],
                         ops := s.ops[op := Claimed(sid, uid)])
            else t == s.(ops := s.ops[op := ClaimLost(sid, uid)])
  {
  }

  lemma StrangersAreTurnedAway(s: State, e: Event)
    requires e.BeginChunk? || e.BeginStatus? || e.BeginAbort? || e.BeginComplete?
    requires e.op !in s.ops && !(e.sid in s.sessions && s.sessions[e.sid].userId == e.uid)
    ensures var t := Step(s, e);
            t == s.(ops := t.ops) && e.op in t.ops &&
            (t.ops[e.op].Rejected? || t.ops[e.op] == ClaimLost(e.sid, e.uid))
  {
  }

  /** Whoever does not own a session changes nothing by any call about it, whatever happens in between. */
  lemma StrangersChangeNothing(s: State, e: Event, later: State, fault: Fault, newId: AttachmentId)
    requires e.BeginChunk? || e.BeginStatus? || e.BeginAbort? || e.BeginComplete?
    requires e.op !in s.ops && !(e.sid in s.sessions && s.sessions[e.sid].userId == e.uid)
    requires e.op in later.ops && Step(s, e).ops == s.ops[e.op := later.ops[e.op]]
    requires e.sid in later.sessions ==> later.sessions[e.sid].userId != e.uid
    ensures Step(s, e) == s.(ops := Step(s, e).ops)
    ensures var t := Step(later, Continue(e.op, fault, newId));
            t == later.(ops := t.ops) && e.op in t.ops && t.ops[e.op].Rejected?
  {
    StrangersAreTurnedAway(s, e);
    assert Step(s, e).ops[e.op] == later.ops[e.op];
    hide Commit, Download, WriteStatus, RecordRow, ForgetRow, SweepRows, Claim, BeginChunkPc, BeginStatusPc,
         BeginAbortPc;
  }
}
