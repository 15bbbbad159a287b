/** Two runs, from the empty tables, in which an upload does not end as one would expect. */
module UploadWitnesses {
  import opened Prelude
  import opened UploadProtocol
  import opened UploadSchedules

  const ONE_BYTE: Bytes := [0]

  /** A file of one byte is announced, and its only chunk is received. */
  const Announced: seq<Event> := [Init(0, 0, 1, 1, 0)] + [BeginChunk(0, 0, 0, 0, ONE_BYTE, 0), Next(0), Next(0)]

  /** Call 1 claims the session, downloads the chunk and uploads the file; its commit is next. */
  const Uploaded: seq<Event> := Claiming(1, 0, 0, 0, 1) + [Next(1), Next(1)]

  function Row(status: Status, attachment: Option<AttachmentId>): Session {
    Session(0, 1, 1, [0], 1, status, attachment, SESSION_TTL_MS)
  }

  function AfterChunk(ops: map<OpId, Pc>): State {
    State(map[0 := Row(PENDING, None)], map[(0, 0) := ONE_BYTE], map[], {}, map[], {}, ops)
  }

  lemma AnnouncedRun()
    ensures Run(Empty, Announced) == AfterChunk(map[0 := Done])
  {
    var row := NewSession(0, 1, 1, 0);
    var s := Empty.(sessions := map[0 := row]);
    Run1(Empty, Init(0, 0, 1, 1, 0));
    assert Step(Empty, Init(0, 0, 1, 1, 0)) == s;
    RunSplit(Empty, [Init(0, 0, 1, 1, 0)], [BeginChunk(0, 0, 0, 0, ONE_BYTE, 0), Next(0), Next(0)]);
    ReceiveRun(s, 0, 0, 0, 0, ONE_BYTE, 0);
    assert [] + [0] == [0];
    assert RecordRow(row, 0, 1, row) == Row(PENDING, None);
  }

  /** The tables when call 1 is about to commit. */
  function BeforeCommit(ops: map<OpId, Pc>): State {
    State(map[0 := Row(COMPLETING, None)], map[(0, 0) := ONE_BYTE], map[], {}, map[1 := ONE_BYTE], {},
          ops[1 := Committing(0, 0, Row(COMPLETING, None), ONE_BYTE)])
  }

  lemma UploadedRun(ops: map<OpId, Pc>)
    requires 1 !in ops
    ensures Run(AfterChunk(ops), Uploaded) == BeforeCommit(ops)
  {
    var s := AfterChunk(ops);
    DownloadedRun(s, 1, 0, 0, 0, 1);
    RunSplit(s, Claiming(1, 0, 0, 0, 1), [Next(1), Next(1)]);
    var d := Downloaded(s, 1, 0, 0, 1);
    assert Collected(s.chunks, 0, 1) == [ONE_BYTE];
    assert Concat([ONE_BYTE]) == ONE_BYTE by { assert [ONE_BYTE][..0] == []; }
    UploadRun(d, 1);
    assert d.ops[1 := Committing(0, 0, Row(COMPLETING, None), ONE_BYTE)] ==
        ops[1 := Committing(0, 0, Row(COMPLETING, None), ONE_BYTE)];
  }

  /** The tables after the commit of call 1, which ends as `fault` says. */
  function AfterCommit(ops: map<OpId, Pc>, fault: Fault): State
    requires fault != FailBefore
  {
    State(map[0 := Row(COMPLETED, Some(0))], map[(0, 0) := ONE_BYTE], map[0 := Attachment(0, 1, 1, fault == Fine)], {},
          map[1 := ONE_BYTE], if fault == Fine then {} else {1},
          ops[1 := if fault == Fine then PostCommit(0, 0) else MarkFailed(0, Internal)])
  }

  lemma CommittedRun(ops: map<OpId, Pc>, fault: Fault)
    requires 1 !in ops && fault != FailBefore
    ensures Step(BeforeCommit(ops), Continue(1, fault, 0)) == AfterCommit(ops, fault)
  {
    var pc := Committing(0, 0, Row(COMPLETING, None), ONE_BYTE);
    assert Step(BeforeCommit(ops), Continue(1, fault, 0)) == Commit(BeforeCommit(ops), 1, pc, fault, 0);
    var end := AfterCommit(ops, fault).ops[1];
    assert ops[1 := pc][1 := end] == ops[1 := end];
  }

  /** The commit takes effect but its acknowledgement is lost, so the file is deleted; then another `complete` finds the
      session completed. */
  const LostAcknowledgement: seq<Event> :=
    Announced + Uploaded + [Continue(1, FailAfter, 0), DropFile(1)] +
        [BeginComplete(2, 0, 0, 0, Fine), Next(2), Next(2)]

  /** The tables once the file of the lost commit is gone. */
  function WithoutFile(ops: map<OpId, Pc>): State {
    AfterCommit(ops, FailAfter).(files := map[], pending := {})
  }

  lemma DropStep(ops: map<OpId, Pc>)
    ensures Step(AfterCommit(ops, FailAfter), DropFile(1)) == WithoutFile(ops)
  {
    var t := AfterCommit(ops, FailAfter);
    assert t.files - {1} == map[] && t.pending - {1} == {};
  }

  lemma LostCommitRun(ops: map<OpId, Pc>)
    requires 1 !in ops
    ensures Run(BeforeCommit(ops), [Continue(1, FailAfter, 0), DropFile(1)]) == WithoutFile(ops)
  {
    Run2(BeforeCommit(ops), Continue(1, FailAfter, 0), DropFile(1));
    CommittedRun(ops, FailAfter);
    hide Step, Run;
    DropStep(ops);
  }

  /** A committed row can be left without its file, and `complete` can answer with it. */
  lemma AnswersWithoutFile()
    ensures var s := Run(Empty, LostAcknowledgement);
            && 0 in s.attachments && 0 !in s.deleted && !s.attachments[0].acknowledged &&
               s.attachments[0].url !in s.files
            && 2 in s.ops && s.ops[2] == Answered(0, 0)
  {
    hide Run, Step;
    var ops := map[0 := Done];
    var lost, again := [Continue(1, FailAfter, 0), DropFile(1)], [BeginComplete(2, 0, 0, 0, Fine), Next(2), Next(2)];
    AnnouncedRun();
    UploadedRun(ops);
    RunSplit(Empty, Announced, Uploaded);
    LostCommitRun(ops);
    RunSplit(Empty, Announced + Uploaded, lost);
    var u := WithoutFile(ops);
    assert LostEvents(u, 2, 0, 0, 0) == again;
    LostRun(u, 2, 0, 0, 0);
    RunSplit(Empty, Announced + Uploaded + lost, again);
  }

  /** An abort reads the session while it is PENDING and writes after another call has completed it. */
  const LateAbort: seq<Event> := Announced + [BeginAbort(3, 0, 0)] + Uploaded + [Continue(1, Fine, 0), Next(3)]

  lemma AbortBegins(ops: map<OpId, Pc>)
    requires 3 !in ops
    ensures Step(AfterChunk(ops), BeginAbort(3, 0, 0)) == AfterChunk(ops[3 := AbortWrite(0)])
  {
  }

  lemma AbortWrites(ops: map<OpId, Pc>)
    requires 3 in ops && ops[3] == AbortWrite(0)
    ensures var t := AfterCommit(ops, Fine); Step(t, Next(3)) == SetPc(SetStatus(t, 0, ABORTED), 3, Done)
  {
  }

  /** A completed session, with its attachment, can be marked ABORTED. */
  lemma CompletedIsAborted()
    ensures var s := Run(Empty, LateAbort);
            && 0 in s.sessions && s.sessions[0].status == ABORTED && s.sessions[0].attachmentId == Some(0)
            && 0 in s.attachments && s.attachments[0].acknowledged && s.attachments[0].url in s.files
            && Run(Empty, LateAbort[..|LateAbort| - 1]).sessions == map[0 := Row(COMPLETED, Some(0))]
  {
    hide Run, Step;
    var ops := map[0 := Done][3 := AbortWrite(0)];
    var begin, most := Announced + [BeginAbort(3, 0, 0)], Announced + [BeginAbort(3, 0, 0)] + Uploaded;
    AnnouncedRun();
    RunSnoc(Empty, Announced, BeginAbort(3, 0, 0));
    AbortBegins(map[0 := Done]);
    RunSplit(Empty, begin, Uploaded);
    UploadedRun(ops);
    RunSnoc(Empty, most, Continue(1, Fine, 0));
    CommittedRun(ops, Fine);
    RunSnoc(Empty, most + [Continue(1, Fine, 0)], Next(3));
    AbortWrites(ops);
    assert LateAbort == most + [Continue(1, Fine, 0)] + [Next(3)];
    assert LateAbort[..|LateAbort| - 1] == most + [Continue(1, Fine, 0)];
  }
}
