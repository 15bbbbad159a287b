/** The assembled files behind the attachments. The file is uploaded before the transaction that creates its row, and
    when that transaction throws the file is deleted, although the transaction may have committed. */
module UploadFiles {
  import opened UploadProtocol
  import opened UploadSafety

  /** The call is past its commit, or never gets there: it will not create a row for its file any more. */
  predicate PastCommit(pc: Pc) {
    pc.PostCommit? || pc.MarkFailed? || pc.Answered? || pc.Rejected?
  }

  ghost predicate CallOk(s: State, op: OpId)
    requires op in s.ops
  {
    && (s.ops[op].Committing? ==> op in s.files && s.files[op] == s.ops[op].whole)
    && (op in s.pending ==> PastCommit(s.ops[op]))
  }

  /** The file is there exactly if its deletion has not run; and it is deleted only if the commit was not
      acknowledged. */
  ghost predicate FileOk(s: State, a: AttachmentId)
    requires a in s.attachments
  {
    var att := s.attachments[a];
    && att.url in s.ops && PastCommit(s.ops[att.url])
    && (att.url in s.files ==> |s.files[att.url]| == att.fileSize)
    && (a !in s.deleted ==> (att.url in s.files <==> att.acknowledged || att.url in s.pending)
                            && (att.url in s.pending ==> !att.acknowledged))
  }

  ghost predicate FilesInv(s: State) {
    && (forall op | op in s.ops :: CallOk(s, op))
    && (forall op | op in s.pending :: op in s.ops)
    && (forall a | a in s.attachments :: FileOk(s, a))
    && (forall a, b | a in s.attachments && b in s.attachments && s.attachments[a].url == s.attachments[b].url ::
        a == b)
    && s.deleted <= s.attachments.Keys
  }

  /** What no step of another kind does to the files. */
  ghost predicate SameFiles(s: State, t: State) {
    t.attachments == s.attachments && t.deleted == s.deleted && t.files == s.files && t.pending == s.pending
  }

  /** One call moves on, or begins, without touching files or rows. */
  lemma CallKeepsFiles(s: State, t: State, op: OpId, pc: Pc)
    requires FilesInv(s) && SameFiles(s, t) && t.ops == s.ops[op := pc]
    requires op in s.ops ==> (PastCommit(s.ops[op]) ==> PastCommit(pc))
    requires pc.Committing? ==> op in s.ops && s.ops[op] == pc
    ensures FilesInv(t)
  {
    forall o | o in t.ops ensures CallOk(t, o) {
      if o in s.ops { assert CallOk(s, o); }
    }
    forall a | a in t.attachments ensures FileOk(t, a) { assert FileOk(s, a); }
  }

  lemma OtherTablesKeepFiles(s: State, t: State)
    requires FilesInv(s) && SameFiles(s, t) && t.ops == s.ops
    ensures FilesInv(t)
  {
    forall o | o in t.ops ensures CallOk(t, o) { assert CallOk(s, o); }
    forall a | a in t.attachments ensures FileOk(t, a) { assert FileOk(s, a); }
  }

  lemma UploadKeepsFiles(s: State, op: OpId, fault: Fault, newId: AttachmentId)
    requires FilesInv(s) && op in s.ops && s.ops[op].Uploading? && s.ops[op].sid in s.sessions
    ensures FilesInv(AdvanceRow(s, op, s.ops[op], fault, newId))
  {
    var t := AdvanceRow(s, op, s.ops[op], fault, newId);
    assert CallOk(s, op);
    forall o | o in t.ops ensures CallOk(t, o) { assert CallOk(s, o); }
    forall a | a in t.attachments ensures FileOk(t, a) { assert FileOk(s, a); }
  }

  lemma CommitKeepsFiles(s: State, op: OpId, fault: Fault, newId: AttachmentId)
    requires FilesInv(s) && op in s.ops && s.ops[op].Committing? && s.ops[op].sid in s.sessions &&
             newId !in s.attachments
    requires |s.ops[op].whole| == s.ops[op].seen.fileSize
    ensures FilesInv(Commit(s, op, s.ops[op], fault, newId))
  {
    var t := Commit(s, op, s.ops[op], fault, newId);
    assert CallOk(s, op);
    forall o | o in t.ops ensures CallOk(t, o) { assert CallOk(s, o); }
    forall a | a in s.attachments ensures s.attachments[a].url != op { assert FileOk(s, a); }
    forall a | a in t.attachments ensures FileOk(t, a) { if a != newId { assert FileOk(s, a); } }
  }

  lemma DropKeepsFiles(s: State, url: OpId)
    requires FilesInv(s)
    ensures FilesInv(Step(s, DropFile(url)))
  {
    var t := Step(s, DropFile(url));
    forall o | o in t.ops ensures CallOk(t, o) { assert CallOk(s, o); }
    forall a | a in t.attachments ensures FileOk(t, a) { assert FileOk(s, a); }
  }

  lemma DeleteKeepsFiles(s: State, a: AttachmentId)
    requires FilesInv(s)
    ensures FilesInv(Step(s, DeleteAttachment(a)))
  {
    var t := Step(s, DeleteAttachment(a));
    assert a in s.attachments ==> FileOk(s, a);
    forall o | o in t.ops ensures CallOk(t, o) { assert CallOk(s, o); }
    forall b | b in t.attachments ensures FileOk(t, b) { assert FileOk(s, b); }
  }

  /** What a step that neither uploads nor commits the file does to the files. */
  ghost predicate Quiet(s: State, t: State, op: OpId)
    requires op in s.ops
  {
    SameFiles(s, t) && op in t.ops && t.ops == s.ops[op := t.ops[op]] &&
        (PastCommit(s.ops[op]) ==> PastCommit(t.ops[op])) &&
    !t.ops[op].Committing?
  }

  lemma QuietDownload(s: State, op: OpId, fault: Fault)
    requires op in s.ops && s.ops[op].Downloading?
    ensures Quiet(s, Download(s, op, s.ops[op], fault), op)
  {
    hide Concat;
  }

  lemma QuietRead(s: State, op: OpId, fault: Fault, newId: AttachmentId)
    requires op in s.ops && ReadsOnly(s.ops[op]) && !s.ops[op].Uploading? && !s.ops[op].Downloading?
    ensures Quiet(s, AdvanceRow(s, op, s.ops[op], fault, newId), op)
  {
    hide Download;
  }

  lemma QuietWrite(s: State, op: OpId, fault: Fault, newId: AttachmentId)
    requires op in s.ops
    requires var pc := s.ops[op]; pc.ExpiryWrite? || pc.AbortWrite? || pc.MarkFailed? || pc.BackToPending? ||
                                  pc.ChunkRecord? || pc.Forgetting?
    ensures Quiet(s, AdvanceRow(s, op, s.ops[op], fault, newId), op)
  {
    hide RecordRow, ForgetRow, Download;
    if s.ops[op].sid !in s.sessions { assert s.ops[op := s.ops[op]] == s.ops; }
  }

  lemma QuietRow(s: State, op: OpId, fault: Fault, newId: AttachmentId)
    requires op in s.ops && !s.ops[op].SweepWrite? && !Finished(s.ops[op]) && !s.ops[op].Uploading? &&
             !s.ops[op].Committing?
    ensures Quiet(s, AdvanceRow(s, op, s.ops[op], fault, newId), op)
  {
    var pc := s.ops[op];
    if pc.Downloading? {
      if pc.sid in s.sessions { QuietDownload(s, op, fault); } else { assert s.ops[op := pc] == s.ops; }
    } else if ReadsOnly(pc) {
      QuietRead(s, op, fault, newId);
    } else {
      QuietWrite(s, op, fault, newId);
    }
    hide Quiet, Download, WriteStatus;
  }

  lemma QuietAdvance(s: State, op: OpId, fault: Fault, newId: AttachmentId)
    requires op in s.ops && !s.ops[op].Uploading? && !s.ops[op].Committing?
    ensures Quiet(s, Advance(s, op, fault, newId), op)
  {
    var pc := s.ops[op];
    if !Finished(pc) && !pc.SweepWrite? {
      QuietRow(s, op, fault, newId);
      hide Quiet, AdvanceRow;
    } else {
      assert pc.SweepWrite? ==> Quiet(s, Advance(s, op, fault, newId), op);
      assert s.ops == s.ops[op := pc];
    }
  }

  lemma AdvanceKeepsFiles(s: State, op: OpId, fault: Fault, newId: AttachmentId)
    requires Inv(s) && FilesInv(s) && op in s.ops
    ensures FilesInv(Advance(s, op, fault, newId))
  {
    var pc := s.ops[op];
    assert PcOk(s, pc);
    hide Inv, FilesInv, PcOk;
    if pc.Uploading? {
      UploadKeepsFiles(s, op, fault, newId);
    } else if pc.Committing? {
      if newId !in s.attachments { CommitKeepsFiles(s, op, fault, newId); }
    } else {
      QuietAdvance(s, op, fault, newId);
      var t := Advance(s, op, fault, newId);
      hide Advance, SameFiles;
      CallKeepsFiles(s, t, op, t.ops[op]);
    }
  }

  lemma NewCallKeepsFiles(s: State, op: OpId, pc: Pc)
    requires FilesInv(s) && op !in s.ops && !pc.Committing?
    ensures FilesInv(SetPc(s, op, pc))
  {
    assert SameFiles(s, SetPc(s, op, pc));
    hide FilesInv, SameFiles;
    CallKeepsFiles(s, SetPc(s, op, pc), op, pc);
  }

  lemma ClaimKeepsFiles(s: State, op: OpId, sid: SessionId, uid: UserId, now: int, fault: Fault)
    requires FilesInv(s) && op !in s.ops
    ensures FilesInv(Claim(s, op, sid, uid, now, fault))
  {
    var t := Claim(s, op, sid, uid, now, fault);
    assert SameFiles(s, t) && t.ops == s.ops[op := t.ops[op]] && !t.ops[op].Committing?;
    hide FilesInv, SameFiles, Claim;
    CallKeepsFiles(s, t, op, t.ops[op]);
  }

  lemma StepKeepsFiles(s: State, e: Event)
    requires Inv(s) && FilesInv(s)
    ensures FilesInv(Step(s, e))
  {
    hide Inv, FilesInv, Advance, Claim;
    match e
    case Continue(op, fault, newId) => if op in s.ops { AdvanceKeepsFiles(s, op, fault, newId); }
    case DropFile(url) => DropKeepsFiles(s, url);
    case DeleteAttachment(a) => DeleteKeepsFiles(s, a);
    case Init(_, _, _, _, _) => OtherTablesKeepFiles(s, Step(s, e));
    case LoseChunk(_, _) => OtherTablesKeepFiles(s, Step(s, e));
    case BeginChunk(op, sid, uid, i, body, now) =>
        if op !in s.ops { NewCallKeepsFiles(s, op, BeginChunkPc(s, sid, uid, i, body, now)); }
    case BeginStatus(op, sid, uid, now) =>
        if op !in s.ops { NewCallKeepsFiles(s, op, BeginStatusPc(s, sid, uid, now)); }
    case BeginAbort(op, sid, uid) => if op !in s.ops { NewCallKeepsFiles(s, op, BeginAbortPc(s, sid, uid)); }
    case BeginComplete(op, sid, uid, now, fault) => if op !in s.ops { ClaimKeepsFiles(s, op, sid, uid, now, fault); }
    case BeginSweep(op, picked, _) => if op !in s.ops { NewCallKeepsFiles(s, op, SweepWrite(picked)); }
  }

  lemma {:induction false} RunKeepsFiles(events: seq<Event>)
    ensures FilesInv(Run(Empty, events))
  {
    if events != [] {
      RunKeepsInv(Empty, events[..|events| - 1]);
      RunKeepsFiles(events[..|events| - 1]);
      StepKeepsFiles(Run(Empty, events[..|events| - 1]), events[|events| - 1]);
    }
  }

  /** A commit is acknowledged exactly if its transaction did not throw. */
  lemma AcknowledgedIff(s: State, op: OpId, fault: Fault, newId: AttachmentId)
    requires op in s.ops && s.ops[op].Committing? && s.ops[op].sid in s.sessions && newId !in s.attachments
    ensures var t := Step(s, Continue(op, fault, newId));
            && (newId in t.attachments <==> fault != FailBefore)
            && (newId in t.attachments ==> (t.attachments[newId].acknowledged <==> fault == Fine))
            && (op in t.pending <==> op in s.pending || fault != Fine)
  {
  }

  // ─── Main results ──────────────────────────────────────

  /** In every run, for every attachment that no user has removed: its file is in storage exactly if its commit was
      acknowledged, or was not and the deletion this starts has not run yet. What is in storage has the announced
      size. */
  lemma FileStoredIff(events: seq<Event>, a: AttachmentId)
    requires a in Run(Empty, events).attachments && a !in Run(Empty, events).deleted
    ensures var s := Run(Empty, events);
            var att := s.attachments[a];
            && (att.url in s.files <==> att.acknowledged || att.url in s.pending)
            && att.session in s.sessions &&
               (att.url in s.files ==> |s.files[att.url]| == s.sessions[att.session].fileSize)
  {
    RunKeepsFiles(events);
    AtMostOneAttachment(events, a, a);
    assert FileOk(Run(Empty, events), a);
  }

  /** Once the deletions that were started have run, exactly the acknowledged commits have a file. */
  lemma SettledFiles(events: seq<Event>, a: AttachmentId)
    requires a in Run(Empty, events).attachments && a !in Run(Empty, events).deleted && Run(Empty, events).pending == {}
    ensures var s := Run(Empty, events); s.attachments[a].url in s.files <==> s.attachments[a].acknowledged
  {
    FileStoredIff(events, a);
  }

  /** No two attachments share a file, and no file is ever deleted while its call may still commit it. */
  lemma FilesAreOwned(events: seq<Event>, a: AttachmentId, b: AttachmentId, op: OpId)
    requires a in Run(Empty, events).attachments && b in Run(Empty, events).attachments
    ensures var s := Run(Empty, events);
            && (s.attachments[a].url == s.attachments[b].url ==> a == b)
            && (op in s.ops && s.ops[op].Committing? ==> op in s.files && op !in s.pending)
  {
    RunKeepsFiles(events);
    var s := Run(Empty, events);
    if op in s.ops { assert CallOk(s, op); }
  }
}
