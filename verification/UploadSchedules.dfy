/** The upload calls run one at a time: what each does to the tables, and which protocol steps that is. */
module UploadSchedules {
  import opened Prelude
  import opened UploadProtocol

  // ─── What a session's chunk objects add up to ──────────

  ghost predicate HasAll(chunks: map<(SessionId, nat), Bytes>, sid: SessionId, n: nat) {
    forall i: nat | i < n :: (sid, i) in chunks
  }

  function Collected(chunks: map<(SessionId, nat), Bytes>, sid: SessionId, n: nat): (buffers: seq<Bytes>)
    requires HasAll(chunks, sid, n)
    ensures |buffers| == n
    ensures forall i: nat | i < n :: buffers[i] == chunks[(sid, i)]
  {
    seq(n, (i: nat) requires i < n && HasAll(chunks, sid, n) => chunks[(sid, i)])
  }

  /** The first index below `n` whose object is absent, or `n`. */
  function LeastMissing(chunks: map<(SessionId, nat), Bytes>, sid: SessionId, n: nat): (m: nat)
    ensures m <= n && HasAll(chunks, sid, m)
    ensures m < n ==> (sid, m) !in chunks
  {
    if n == 0 then 0
    else
      var m := LeastMissing(chunks, sid, n - 1);
      if m < n - 1 || (sid, m) !in chunks then m else n
  }

  lemma {:induction false} LeastMissingIs(chunks: map<(SessionId, nat), Bytes>, sid: SessionId, n: nat, m: nat)
    requires m <= n && HasAll(chunks, sid, m) && (m < n ==> (sid, m) !in chunks)
    ensures LeastMissing(chunks, sid, n) == m
  {
    var l := LeastMissing(chunks, sid, n);
    assert l < m ==> (sid, l) in chunks;
    assert m < l ==> (sid, m) in chunks;
  }

  function ChunkKeys(sid: SessionId, n: nat): (keys: set<(SessionId, nat)>)
    ensures forall k :: k in keys <==> k.0 == sid && k.1 < n
  {
    if n == 0 then {} else ChunkKeys(sid, n - 1) + {(sid, n - 1)}
  }

  // ─── Each call as a schedule of protocol steps ─────────

  function Next(op: OpId): Event {
    Continue(op, Fine, 0)
  }

  function Times(op: OpId, n: nat): seq<Event> {
    if n == 0 then [] else Times(op, n - 1) + [Next(op)]
  }

  lemma RunSnoc(s: State, events: seq<Event>, e: Event)
    ensures Run(s, events + [e]) == Step(Run(s, events), e)
  {
    assert (events + [e])[..|events|] == events;
  }

  lemma Run1(s: State, e: Event)
    ensures Run(s, [e]) == Step(s, e)
  {
    RunSnoc(s, [], e);
    assert [] + [e] == [e];
  }

  lemma Run2(s: State, e0: Event, e1: Event)
    ensures Run(s, [e0, e1]) == Step(Step(s, e0), e1)
  {
    Run1(s, e0);
    RunSnoc(s, [e0], e1);
    assert [e0] + [e1] == [e0, e1];
  }

  lemma Run3(s: State, e0: Event, e1: Event, e2: Event)
    ensures Run(s, [e0, e1, e2]) == Step(Step(Step(s, e0), e1), e2)
  {
    Run2(s, e0, e1);
    RunSnoc(s, [e0, e1], e2);
    assert [e0, e1] + [e2] == [e0, e1, e2];
  }

  lemma SetPcTwice(s: State, op: OpId, a: Pc, b: Pc)
    ensures SetPc(SetPc(s, op, a), op, b) == SetPc(s, op, b)
  {
    assert s.ops[op := a][op := b] == s.ops[op := b];
  }

  lemma DownloadStep(s: State, op: OpId, a: AttachmentId)
    requires op in s.ops && s.ops[op].Downloading? && s.ops[op].sid in s.sessions
    ensures Step(s, Continue(op, Fine, a)) == Download(s, op, s.ops[op], Fine)
  {
  }

  lemma {:induction false} DownloadRun(s: State, op: OpId, k: nat)
    requires op in s.ops && s.ops[op].Downloading? && s.ops[op].buffers == [] && s.ops[op].sid in s.sessions
    requires k <= s.ops[op].seen.totalChunks && HasAll(s.chunks, s.ops[op].sid, k)
    ensures Run(s, Times(op, k)) == SetPc(s, op, s.ops[op].(buffers := Collected(s.chunks, s.ops[op].sid, k)))
  {
    var pc := s.ops[op];
    if k == 0 {
      assert Collected(s.chunks, pc.sid, 0) == [];
      assert s.ops[op := pc] == s.ops;
    } else {
      DownloadRun(s, op, k - 1);
      var got := Collected(s.chunks, pc.sid, k - 1);
      var all := Collected(s.chunks, pc.sid, k);
      assert got + [s.chunks[(pc.sid, k - 1)]] == all;
      var t := SetPc(s, op, pc.(buffers := got));
      RunSnoc(s, Times(op, k - 1), Next(op));
      DownloadStep(t, op, 0);
      SetPcTwice(s, op, pc.(buffers := got), pc.(buffers := all));
    }
  }

  ghost function Deletions(sid: SessionId, n: nat): seq<Event> {
    if n == 0 then [] else Deletions(sid, n - 1) + [LoseChunk(sid, n - 1)]
  }

  lemma {:induction false} DeletionsRun(s: State, sid: SessionId, n: nat)
    ensures Run(s, Deletions(sid, n)) == s.(chunks := s.chunks - ChunkKeys(sid, n))
  {
    if n > 0 {
      DeletionsRun(s, sid, n - 1);
      RunSnoc(s, Deletions(sid, n - 1), LoseChunk(sid, n - 1));
      assert s.chunks - ChunkKeys(sid, n - 1) - {(sid, n - 1)} == s.chunks - ChunkKeys(sid, n);
    }
    assert s.chunks - {} == s.chunks;
  }

  /** The claim and the read after it. */
  lemma ClaimRun(s: State, op: OpId, sid: SessionId, uid: UserId, now: int)
    requires op !in s.ops && Claimable(s.sessions, sid, uid, now)
    ensures var u := SetStatus(s, sid, COMPLETING);
            Run(s, [BeginComplete(op, sid, uid, now, Fine), Next(op)]) ==
                SetPc(u, op, Downloading(sid, uid, u.sessions[sid], []))
  {
    Run2(s, BeginComplete(op, sid, uid, now, Fine), Next(op));
    var u := SetStatus(s, sid, COMPLETING);
    assert Step(s, BeginComplete(op, sid, uid, now, Fine)) == SetPc(u, op, Claimed(sid, uid));
    ReadAfterClaim(u, op, sid, uid);
  }

  lemma ReadAfterClaim(u: State, op: OpId, sid: SessionId, uid: UserId)
    requires sid in u.sessions
    ensures Step(SetPc(u, op, Claimed(sid, uid)), Next(op)) == SetPc(u, op, Downloading(sid, uid, u.sessions[sid], []))
  {
    SetPcTwice(u, op, Claimed(sid, uid), Downloading(sid, uid, u.sessions[sid], []));
  }

  lemma ForgetStep(s: State, op: OpId, sid: SessionId, i: nat, seen: Session)
    requires sid in s.sessions
    ensures Step(SetPc(s, op, Forgetting(sid, i, seen)), Next(op)) ==
            SetPc(SetRow(s, sid, ForgetRow(s.sessions[sid], i, seen)), op, BackToPending(sid, i))
  {
    SetPcTwice(s, op, Forgetting(sid, i, seen), BackToPending(sid, i));
  }

  lemma BackToPendingStep(s: State, op: OpId, sid: SessionId, i: nat)
    requires sid in s.sessions
    ensures Step(SetPc(s, op, BackToPending(sid, i)), Next(op)) ==
            SetPc(SetStatus(s, sid, PENDING), op, Rejected(Missing(i)))
  {
    SetPcTwice(s, op, BackToPending(sid, i), Rejected(Missing(i)));
  }

  /** From the last downloaded chunk on: a missing chunk. */
  lemma MissingRun(s: State, op: OpId)
    requires op in s.ops && s.ops[op].Downloading? && s.ops[op].sid in s.sessions
    requires var pc := s.ops[op]; |pc.buffers| < pc.seen.totalChunks && (pc.sid, |pc.buffers|) !in s.chunks
    ensures var pc := s.ops[op];
            var row := ForgetRow(s.sessions[pc.sid], |pc.buffers|, pc.seen).(status := PENDING);
            Run(s, [Next(op), Next(op), Next(op)]) == SetPc(SetRow(s, pc.sid, row), op, Rejected(Missing(|pc.buffers|)))
  {
    var pc := s.ops[op];
    var i := |pc.buffers|;
    var forgot := ForgetRow(s.sessions[pc.sid], i, pc.seen);
    Run3(s, Next(op), Next(op), Next(op));
    DownloadStep(s, op, 0);
    ForgetStep(s, op, pc.sid, i, pc.seen);
    BackToPendingStep(SetRow(s, pc.sid, forgot), op, pc.sid, i);
    assert s.sessions[pc.sid := forgot][pc.sid := forgot.(status := PENDING)] ==
        s.sessions[pc.sid := forgot.(status := PENDING)];
  }

  lemma MismatchRun(s: State, op: OpId)
    requires op in s.ops && s.ops[op].Downloading? && s.ops[op].sid in s.sessions
    requires var pc := s.ops[op]; |pc.buffers| >= pc.seen.totalChunks && |Concat(pc.buffers)| != pc.seen.fileSize
    ensures Run(s, [Next(op), Next(op)]) == SetPc(SetStatus(s, s.ops[op].sid, FAILED), op, Rejected(BadRequest))
  {
    Run2(s, Next(op), Next(op));
    var pc := s.ops[op];
    var s1 := Step(s, Next(op));
    assert s1 == SetPc(s, op, MarkFailed(pc.sid, BadRequest));
    assert s.ops[op := MarkFailed(pc.sid, BadRequest)][op := Rejected(BadRequest)] == s.ops[op := Rejected(BadRequest)];
  }

  /** The whole file is uploaded under the call's URL, and then its row is committed. */
  function WithFile(s: State, op: OpId, whole: Bytes): State {
    s.(files := s.files[op := whole])
  }

  function Committed(s: State, op: OpId, pc: Pc, a: AttachmentId): State
    requires pc.Downloading? && pc.sid in s.sessions
  {
    SetRow(s, pc.sid, s.sessions[pc.sid].(status := COMPLETED, attachmentId := Some(a)))
    .(attachments := s.attachments[a := Attachment(pc.sid, op, pc.seen.fileSize, true)],
      files := s.files[op := Concat(pc.buffers)])
  }

  lemma CommitStep(s: State, op: OpId, pc: Pc, whole: Bytes, a: AttachmentId)
    requires pc.Downloading? && pc.sid in s.sessions && a !in s.attachments && whole == Concat(pc.buffers)
    ensures Step(SetPc(WithFile(s, op, whole), op, Committing(pc.sid, pc.uid, pc.seen, whole)),
                 Continue(op, Fine, a)) ==
            SetPc(Committed(s, op, pc, a), op, PostCommit(pc.sid, a))
  {
    var c := Committing(pc.sid, pc.uid, pc.seen, whole);
    var s0 := SetPc(WithFile(s, op, whole), op, c);
    assert Step(s0, Continue(op, Fine, a)) == Commit(s0, op, c, Fine, a);
    SetPcTwice(s, op, c, PostCommit(pc.sid, a));
  }

  /** From the last downloaded chunk on: the size is right, and the file is uploaded. */
  lemma UploadRun(s: State, op: OpId)
    requires op in s.ops && s.ops[op].Downloading? && s.ops[op].sid in s.sessions
    requires var pc := s.ops[op]; |pc.buffers| >= pc.seen.totalChunks && |Concat(pc.buffers)| == pc.seen.fileSize
    ensures var pc := s.ops[op];
            var whole := Concat(pc.buffers);
            Run(s, [Next(op), Next(op)]) ==
                SetPc(WithFile(s, op, whole), op, Committing(pc.sid, pc.uid, pc.seen, whole))
  {
    var pc := s.ops[op];
    var whole := Concat(pc.buffers);
    Run2(s, Next(op), Next(op));
    DownloadStep(s, op, 0);
    var u := Uploading(pc.sid, pc.uid, pc.seen, whole);
    var c := Committing(pc.sid, pc.uid, pc.seen, whole);
    assert Step(SetPc(s, op, u), Next(op)) == SetPc(WithFile(SetPc(s, op, u), op, whole), op, c);
    SetPcTwice(s, op, u, c);
  }

  lemma AnswerStep(s: State, op: OpId, sid: SessionId, a: AttachmentId)
    ensures Step(SetPc(s, op, PostCommit(sid, a)), Next(op)) == SetPc(s, op, Answered(sid, a))
  {
    SetPcTwice(s, op, PostCommit(sid, a), Answered(sid, a));
  }

  lemma CommitRun(s: State, op: OpId, a: AttachmentId)
    requires op in s.ops && s.ops[op].Downloading? && s.ops[op].sid in s.sessions && a !in s.attachments
    requires var pc := s.ops[op]; |pc.buffers| >= pc.seen.totalChunks && |Concat(pc.buffers)| == pc.seen.fileSize
    ensures var pc := s.ops[op];
            Run(s, [Next(op), Next(op)] + [Continue(op, Fine, a), Next(op)]) ==
                SetPc(Committed(s, op, pc, a), op, Answered(pc.sid, a))
  {
    var pc := s.ops[op];
    var whole := Concat(pc.buffers);
    RunSplit(s, [Next(op), Next(op)], [Continue(op, Fine, a), Next(op)]);
    UploadRun(s, op);
    hide Run, Step;
    Run2(SetPc(WithFile(s, op, whole), op, Committing(pc.sid, pc.uid, pc.seen, whole)), Continue(op, Fine, a),
         Next(op));
    CommitStep(s, op, pc, whole, a);
    AnswerStep(Committed(s, op, pc, a), op, pc.sid, a);
  }

  function FoundMissing(s: State, sid: SessionId, m: nat): State
    requires sid in s.sessions
  {
    var row := s.sessions[sid];
    SetRow(s, sid, row.(receivedChunks := Without(row.receivedChunks, m),
                        bytesReceived := row.bytesReceived - CHUNK_SIZE))
  }

  function Downloaded(s: State, op: OpId, sid: SessionId, uid: UserId, m: nat): State
    requires sid in s.sessions && HasAll(s.chunks, sid, m)
  {
    var u := SetStatus(s, sid, COMPLETING);
    SetPc(u, op, Downloading(sid, uid, u.sessions[sid], Collected(s.chunks, sid, m)))
  }

  function Claiming(op: OpId, sid: SessionId, uid: UserId, now: int, m: nat): seq<Event> {
    [BeginComplete(op, sid, uid, now, Fine), Next(op)] + Times(op, m)
  }

  lemma DownloadedRun(s: State, op: OpId, sid: SessionId, uid: UserId, now: int, m: nat)
    requires op !in s.ops && Claimable(s.sessions, sid, uid, now)
    requires m <= s.sessions[sid].totalChunks && HasAll(s.chunks, sid, m)
    ensures Run(s, Claiming(op, sid, uid, now, m)) == Downloaded(s, op, sid, uid, m)
  {
    var u := SetStatus(s, sid, COMPLETING);
    var pc := Downloading(sid, uid, u.sessions[sid], []);
    ClaimRun(s, op, sid, uid, now);
    RunSplit(s, [BeginComplete(op, sid, uid, now, Fine), Next(op)], Times(op, m));
    DownloadRun(SetPc(u, op, pc), op, m);
    SetPcTwice(u, op, pc, pc.(buffers := Collected(s.chunks, sid, m)));
  }

  lemma CompleteMissingRun(s: State, op: OpId, sid: SessionId, uid: UserId, now: int, m: nat)
    requires op !in s.ops && Claimable(s.sessions, sid, uid, now)
    requires m < s.sessions[sid].totalChunks && HasAll(s.chunks, sid, m) && (sid, m) !in s.chunks
    ensures Run(s, Claiming(op, sid, uid, now, m) + [Next(op), Next(op), Next(op)])
         == SetPc(FoundMissing(s, sid, m), op, Rejected(Missing(m)))
  {
    DownloadedRun(s, op, sid, uid, now, m);
    RunSplit(s, Claiming(op, sid, uid, now, m), [Next(op), Next(op), Next(op)]);
    var d := Downloaded(s, op, sid, uid, m);
    MissingRun(d, op);
    assert d.ops[op := Rejected(Missing(m))] == s.ops[op := Rejected(Missing(m))];
    var row := FoundMissing(s, sid, m).sessions[sid];
    assert row == ForgetRow(d.sessions[sid], m, d.sessions[sid]).(status := PENDING);
    assert d.sessions[sid := row] == s.sessions[sid := row];
  }

  lemma CompleteMismatchRun(s: State, op: OpId, sid: SessionId, uid: UserId, now: int, n: nat)
    requires op !in s.ops && Claimable(s.sessions, sid, uid, now)
    requires n == s.sessions[sid].totalChunks && HasAll(s.chunks, sid, n)
    requires |Concat(Collected(s.chunks, sid, n))| != s.sessions[sid].fileSize
    ensures Run(s, Claiming(op, sid, uid, now, n) + [Next(op), Next(op)]) ==
            SetPc(SetStatus(s, sid, FAILED), op, Rejected(BadRequest))
  {
    DownloadedRun(s, op, sid, uid, now, n);
    RunSplit(s, Claiming(op, sid, uid, now, n), [Next(op), Next(op)]);
    var d := Downloaded(s, op, sid, uid, n);
    MismatchRun(d, op);
    assert d.ops[op := Rejected(BadRequest)] == s.ops[op := Rejected(BadRequest)];
    assert SetStatus(d, sid, FAILED).sessions == SetStatus(s, sid, FAILED).sessions;
  }

  /** The tables after a commit that leaves no chunk object behind. */
  function Assembled(s: State, sid: SessionId, a: AttachmentId, whole: Bytes, url: OpId): State
    requires sid in s.sessions
  {
    var row := s.sessions[sid];
    SetRow(s, sid, row.(status := COMPLETED, attachmentId := Some(a)))
    .(attachments := s.attachments[a := Attachment(sid, url, row.fileSize, true)], files := s.files[url := whole],
      chunks := s.chunks - ChunkKeys(sid, row.totalChunks))
  }

  lemma CompleteCommitRun(s: State, op: OpId, sid: SessionId, uid: UserId, now: int, n: nat, a: AttachmentId)
    requires op !in s.ops && Claimable(s.sessions, sid, uid, now) && a !in s.attachments
    requires n == s.sessions[sid].totalChunks && HasAll(s.chunks, sid, n)
    requires |Concat(Collected(s.chunks, sid, n))| == s.sessions[sid].fileSize
    ensures Run(s, Claiming(op, sid, uid, now, n) + ([Next(op), Next(op)] + [Continue(op, Fine, a), Next(op)]) +
                Deletions(sid, n))
         == SetPc(Assembled(s, sid, a, Concat(Collected(s.chunks, sid, n)), op), op, Answered(sid, a))
  {
    var finish := [Next(op), Next(op)] + [Continue(op, Fine, a), Next(op)];
    DownloadedRun(s, op, sid, uid, now, n);
    RunSplit(s, Claiming(op, sid, uid, now, n), finish);
    var d := Downloaded(s, op, sid, uid, n);
    CommitRun(d, op, a);
    RunSplit(s, Claiming(op, sid, uid, now, n) + finish, Deletions(sid, n));
    var v := SetPc(Committed(d, op, d.ops[op], a), op, Answered(sid, a));
    DeletionsRun(v, sid, n);
    AssembledIs(s, op, sid, uid, n, a);
  }

  lemma AssembledIs(s: State, op: OpId, sid: SessionId, uid: UserId, n: nat, a: AttachmentId)
    requires sid in s.sessions && n == s.sessions[sid].totalChunks && HasAll(s.chunks, sid, n)
    ensures var d := Downloaded(s, op, sid, uid, n);
            var v := SetPc(Committed(d, op, d.ops[op], a), op, Answered(sid, a));
            v.(chunks := v.chunks - ChunkKeys(sid, n)) ==
            SetPc(Assembled(s, sid, a, Concat(Collected(s.chunks, sid, n)), op), op, Answered(sid, a))
  {
    var d := Downloaded(s, op, sid, uid, n);
    assert d.ops[op := Answered(sid, a)] == s.ops[op := Answered(sid, a)];
    var row := s.sessions[sid].(status := COMPLETED, attachmentId := Some(a));
    assert d.sessions[sid].(status := COMPLETED, attachmentId := Some(a)) == row;
    assert d.sessions[sid := row] == s.sessions[sid := row];
  }

  lemma ChunkSteps(s: State, op: OpId, sid: SessionId, index: nat, body: Bytes, seen: Session)
    requires sid in s.sessions
    ensures Step(SetPc(s, op, ChunkUpload(sid, index, body, seen)), Next(op)) ==
            SetPc(s.(chunks := s.chunks[(sid, index) := body]), op, ChunkRecord(sid, index, |body|, seen))
  {
    SetPcTwice(s, op, ChunkUpload(sid, index, body, seen), ChunkRecord(sid, index, |body|, seen));
  }

  lemma RecordSteps(s: State, op: OpId, sid: SessionId, index: nat, size: nat, seen: Session)
    requires sid in s.sessions
    ensures Step(SetPc(s, op, ChunkRecord(sid, index, size, seen)), Next(op)) ==
            SetPc(SetRow(s, sid, RecordRow(s.sessions[sid], index, size, seen)), op, Done)
  {
    SetPcTwice(s, op, ChunkRecord(sid, index, size, seen), Done);
  }

  lemma ReceiveRun(s: State, op: OpId, sid: SessionId, uid: UserId, index: nat, body: Bytes, now: int)
    requires op !in s.ops && ActiveCheck(s.sessions, sid, uid, now).Ok? && index < s.sessions[sid].totalChunks &&
             |body| <= CHUNK_SIZE
    ensures var row := s.sessions[sid];
            Run(s, [BeginChunk(op, sid, uid, index, body, now), Next(op), Next(op)]) ==
            SetPc(SetRow(s.(chunks := s.chunks[(sid, index) := body]), sid, RecordRow(row, index, |body|, row)), op,
                  Done)
  {
    var row := s.sessions[sid];
    Run3(s, BeginChunk(op, sid, uid, index, body, now), Next(op), Next(op));
    assert Step(s, BeginChunk(op, sid, uid, index, body, now)) == SetPc(s, op, ChunkUpload(sid, index, body, row));
    ChunkSteps(s, op, sid, index, body, row);
    RecordSteps(s.(chunks := s.chunks[(sid, index) := body]), op, sid, index, |body|, row);
  }

  lemma WriteStatusStep(s: State, op: OpId, pc: Pc, sid: SessionId, status: Status, end: Pc)
    requires sid in s.sessions
    requires || (pc == ExpiryWrite(sid) && status == ABORTED && end == Rejected(NotFound))
             || (pc == AbortWrite(sid) && status == ABORTED && end == Done)
    ensures Step(SetPc(s, op, pc), Next(op)) == SetPc(SetStatus(s, sid, status), op, end)
  {
    SetPcTwice(s, op, pc, end);
  }

  lemma ExpiredRun(s: State, op: OpId, sid: SessionId, uid: UserId, e: Event, now: int)
    requires op !in s.ops && LazilyExpires(s.sessions, sid, uid, now)
    requires || (e.BeginChunk? && e.op == op && e.sid == sid && e.uid == uid && e.now == now)
             || e == BeginStatus(op, sid, uid, now)
    ensures Run(s, [e, Next(op)]) == SetPc(SetStatus(s, sid, ABORTED), op, Rejected(NotFound))
  {
    Run2(s, e, Next(op));
    WriteStatusStep(s, op, ExpiryWrite(sid), sid, ABORTED, Rejected(NotFound));
  }

  lemma RefusedRun(s: State, op: OpId, sid: SessionId, uid: UserId, index: int, body: Bytes, now: int, e: Error)
    requires op !in s.ops && !LazilyExpires(s.sessions, sid, uid, now)
    requires match ActiveCheck(s.sessions, sid, uid, now)
             case Err(x) => e == x
             case Ok(row) => (index < 0 || index >= row.totalChunks || |body| > CHUNK_SIZE) && e == BadRequest
    ensures Run(s, [BeginChunk(op, sid, uid, index, body, now)]) == SetPc(s, op, Rejected(e))
  {
    Run1(s, BeginChunk(op, sid, uid, index, body, now));
  }

  /** What a `complete` call that got the claim does to the tables, and answers. */
  function Completion(s: State, sid: SessionId, newId: AttachmentId, url: OpId): (State, Result<AttachmentId, Error>)
    requires sid in s.sessions
  {
    var row := s.sessions[sid];
    var m := LeastMissing(s.chunks, sid, row.totalChunks);
    if m < row.totalChunks then (FoundMissing(s, sid, m), Err(Missing(m)))
    else
      var whole := Concat(Collected(s.chunks, sid, m));
      if |whole| != row.fileSize then (SetStatus(s, sid, FAILED), Err(BadRequest))
      else (Assembled(s, sid, newId, whole, url), Ok(newId))
  }

  /** What a completion does to the tables does not depend on the calls in flight. */
  lemma CompletionIgnoresCalls(s: State, sid: SessionId, a: AttachmentId, url: OpId)
    requires sid in s.sessions
    ensures Completion(s, sid, a, url).0 == Completion(s.(ops := map[]), sid, a, url).0.(ops := s.ops)
    ensures Completion(s, sid, a, url).1 == Completion(s.(ops := map[]), sid, a, url).1
  {
    hide Concat, ChunkKeys, Without, Collected;
    var t := s.(ops := map[]);
    var row := s.sessions[sid];
    var m := LeastMissing(s.chunks, sid, row.totalChunks);
    hide LeastMissing;
    if m < row.totalChunks {
      assert FoundMissing(s, sid, m) == FoundMissing(t, sid, m).(ops := s.ops);
    } else {
      assert Assembled(s, sid, a, Concat(Collected(s.chunks, sid, m)), url) ==
        Assembled(t, sid, a, Concat(Collected(s.chunks, sid, m)), url).(ops := s.ops);
    }
  }

  /** Completion does not depend on the status the claim wrote. */
  lemma ClaimedCompletion(s: State, sid: SessionId, a: AttachmentId, url: OpId)
    requires sid in s.sessions
    ensures var c := SetStatus(s, sid, COMPLETING);
            var r := Completion(s, sid, a, url).1;
            && Completion(c, sid, a, url).1 == r
            && (r.Ok? ==> Completion(c, sid, a, url).0 == Completion(s, sid, a, url).0)
            && (r.Err? && r.error.Missing? ==>
                  SetStatus(FoundMissing(c, sid, r.error.index), sid, s.sessions[sid].status) ==
                      FoundMissing(s, sid, r.error.index))
            && SetStatus(c, sid, FAILED) == SetStatus(s, sid, FAILED)
  {
    var c := SetStatus(s, sid, COMPLETING);
    var row := s.sessions[sid];
    var r := Completion(s, sid, a, url).1;
    assert c.sessions[sid := row.(status := FAILED)] == s.sessions[sid := row.(status := FAILED)];
    if r.Ok? {
      var done := row.(status := COMPLETED, attachmentId := Some(a));
      assert c.sessions[sid := done] == s.sessions[sid := done];
    } else if r.error.Missing? {
      var back := FoundMissing(s, sid, r.error.index).sessions[sid];
      assert FoundMissing(c, sid, r.error.index).sessions[sid := back] == s.sessions[sid := back];
    }
  }

  /** What a `complete` call that did not get the claim answers. */
  function LostAnswer(s: State, sid: SessionId, uid: UserId): Result<AttachmentId, Error> {
    if sid !in s.sessions || s.sessions[sid].userId != uid then Err(NotFound)
    else
      var row := s.sessions[sid];
      if row.status == COMPLETED && row.attachmentId.Some? && row.attachmentId.value in s.attachments &&
           row.attachmentId.value !in s.deleted
      then Ok(row.attachmentId.value)
      else if row.status == COMPLETING then Err(InProgress)
      else Err(NotFound)
  }

  function LostEvents(s: State, op: OpId, sid: SessionId, uid: UserId, now: int): seq<Event> {
    if AfterLostClaim(s, ClaimLost(sid, uid)).CachedLookup?
    then [BeginComplete(op, sid, uid, now, Fine), Next(op), Next(op)]
    else [BeginComplete(op, sid, uid, now, Fine), Next(op)]
  }

  function LostPc(s: State, sid: SessionId, uid: UserId): Pc {
    match LostAnswer(s, sid, uid)
    case Ok(a) => Answered(sid, a)
    case Err(e) => Rejected(e)
  }

  lemma LookupStep(s: State, op: OpId, sid: SessionId, a: AttachmentId)
    ensures Step(SetPc(s, op, CachedLookup(sid, a)), Next(op)) ==
            SetPc(s, op, if a in s.attachments && a !in s.deleted then Answered(sid, a) else Rejected(NotFound))
  {
    SetPcTwice(s, op, CachedLookup(sid, a), Answered(sid, a));
    SetPcTwice(s, op, CachedLookup(sid, a), Rejected(NotFound));
  }

  lemma LostRun(s: State, op: OpId, sid: SessionId, uid: UserId, now: int)
    requires op !in s.ops && !Claimable(s.sessions, sid, uid, now)
    ensures Run(s, LostEvents(s, op, sid, uid, now)) == SetPc(s, op, LostPc(s, sid, uid))
  {
    var lost := ClaimLost(sid, uid);
    var after := AfterLostClaim(s, lost);
    var begin := BeginComplete(op, sid, uid, now, Fine);
    assert Step(s, begin) == SetPc(s, op, lost);
    SetPcTwice(s, op, lost, after);
    assert Step(SetPc(s, op, lost), Next(op)) == SetPc(s, op, after);
    if after.CachedLookup? {
      Run3(s, begin, Next(op), Next(op));
      LookupStep(s, op, sid, after.attachment);
    } else {
      Run2(s, begin, Next(op));
    }
  }

  /** What a chunk request does to the tables, and answers. */
  function Receipt(s: State, sid: SessionId, uid: UserId, index: int, body: Bytes, now: int): (State,
      Result<Session, Error>) {
    match ActiveCheck(s.sessions, sid, uid, now)
    case Err(e) => (if LazilyExpires(s.sessions, sid, uid, now) then SetStatus(s, sid, ABORTED) else s, Err(e))
    case Ok(row) =>
      if index < 0 || index >= row.totalChunks || |body| > CHUNK_SIZE then (s, Err(BadRequest))
      else
        var counted := RecordRow(row, index, |body|, row);
        (SetRow(s.(chunks := s.chunks[(sid, index) := body]), sid, counted), Ok(counted))
  }

  lemma ReceiptKeys(s: State, sid: SessionId, uid: UserId, index: int, body: Bytes, now: int)
    ensures var t := Receipt(s, sid, uid, index, body, now).0;
            t.sessions.Keys == s.sessions.Keys && t.attachments == s.attachments && t.deleted == s.deleted &&
                t.files == s.files && t.pending == s.pending
    ensures Receipt(s, sid, uid, index, body, now).0 ==
            Receipt(s.(ops := map[]), sid, uid, index, body, now).0.(ops := s.ops)
  {
  }

  function ReceiptPc(s: State, sid: SessionId, uid: UserId, index: int, body: Bytes, now: int): Pc {
    match Receipt(s, sid, uid, index, body, now).1
    case Ok(_) => Done
    case Err(e) => Rejected(e)
  }

  function ReceiptEvents(s: State, op: OpId, sid: SessionId, uid: UserId, index: int, body: Bytes,
                         now: int): seq<Event> {
    var begin := BeginChunk(op, sid, uid, index, body, now);
    if LazilyExpires(s.sessions, sid, uid, now) then [begin, Next(op)]
    else if Receipt(s, sid, uid, index, body, now).1.Ok? then [begin, Next(op), Next(op)]
    else [begin]
  }

  lemma ReceiptRun(s: State, op: OpId, sid: SessionId, uid: UserId, index: int, body: Bytes, now: int)
    requires op !in s.ops
    ensures Run(s, ReceiptEvents(s, op, sid, uid, index, body, now)) ==
            SetPc(Receipt(s, sid, uid, index, body, now).0, op, ReceiptPc(s, sid, uid, index, body, now))
  {
    var (t, r) := Receipt(s, sid, uid, index, body, now);
    if LazilyExpires(s.sessions, sid, uid, now) {
      ExpiredRun(s, op, sid, uid, BeginChunk(op, sid, uid, index, body, now), now);
    } else if r.Ok? {
      ReceiveRun(s, op, sid, uid, index, body, now);
    } else {
      RefusedRun(s, op, sid, uid, index, body, now, r.error);
    }
  }

  /** What an abort does to the tables, and answers. */
  function AbortOutcome(s: State, sid: SessionId, uid: UserId): (State, Result<(), Error>) {
    if sid !in s.sessions then (s, Err(NotFound))
    else
      var row := s.sessions[sid];
      if row.userId != uid then (s, Err(Forbidden))
      else if row.status == COMPLETED || row.status == ABORTED then (s, Ok(()))
      else (SetStatus(s, sid, ABORTED).(chunks := s.chunks - ChunkKeys(sid, row.totalChunks)), Ok(()))
  }

  lemma AbortKeys(s: State, sid: SessionId, uid: UserId)
    ensures var t := AbortOutcome(s, sid, uid).0;
            t.sessions.Keys == s.sessions.Keys && t.attachments == s.attachments && t.deleted == s.deleted &&
                t.files == s.files && t.pending == s.pending
    ensures AbortOutcome(s, sid, uid).0 == AbortOutcome(s.(ops := map[]), sid, uid).0.(ops := s.ops)
  {
  }

  function AbortPc(s: State, sid: SessionId, uid: UserId): Pc {
    match AbortOutcome(s, sid, uid).1
    case Ok(_) => Done
    case Err(e) => Rejected(e)
  }

  ghost function AbortEvents(s: State, op: OpId, sid: SessionId, uid: UserId): seq<Event> {
    hide Run, Deletions;
    var begin := BeginAbort(op, sid, uid);
    if BeginAbortPc(s, sid, uid).AbortWrite? then [begin, Next(op)] + Deletions(sid, s.sessions[sid].totalChunks)
         else [begin]
  }

  lemma AbortRun(s: State, op: OpId, sid: SessionId, uid: UserId)
    requires op !in s.ops
    ensures Run(s, AbortEvents(s, op, sid, uid)) == SetPc(AbortOutcome(s, sid, uid).0, op, AbortPc(s, sid, uid))
  {
    hide Run, Deletions;
    var begin := BeginAbort(op, sid, uid);
    if BeginAbortPc(s, sid, uid).AbortWrite? {
      Run2(s, begin, Next(op));
      WriteStatusStep(s, op, AbortWrite(sid), sid, ABORTED, Done);
      RunSplit(s, [begin, Next(op)], Deletions(sid, s.sessions[sid].totalChunks));
      DeletionsRun(SetPc(SetStatus(s, sid, ABORTED), op, Done), sid, s.sessions[sid].totalChunks);
    } else {
      Run1(s, begin);
    }
  }

  function Picked(batch: seq<SessionId>): (r: set<SessionId>)
    ensures forall sid :: sid in r <==> sid in batch
    ensures |r| <= |batch|
  {
    if batch == [] then {} else Picked(batch[..|batch| - 1]) + {batch[|batch| - 1]}
  }

  ghost function AllDeletions(sessions: map<SessionId, Session>, batch: seq<SessionId>): seq<Event>
    requires forall i | 0 <= i < |batch| :: batch[i] in sessions
  {
    if batch == [] then []
    else
      var last := batch[|batch| - 1];
      AllDeletions(sessions, batch[..|batch| - 1]) + Deletions(last, sessions[last].totalChunks)
  }

  /** Every chunk key of the swept sessions, by their announced number of chunks. */
  function SweptKeys(sessions: map<SessionId, Session>, batch: seq<SessionId>): (keys: set<(SessionId, nat)>)
    requires forall i | 0 <= i < |batch| :: batch[i] in sessions
    ensures forall k :: k in keys <==> k.0 in batch && k.1 < sessions[k.0].totalChunks
  {
    if batch == [] then {}
    else
      var last := batch[|batch| - 1];
      assert forall x :: x in batch <==> x in batch[..|batch| - 1] || x == last;
      SweptKeys(sessions, batch[..|batch| - 1]) + ChunkKeys(last, sessions[last].totalChunks)
  }

  lemma {:induction false} AllDeletionsRun(s: State, t: State, batch: seq<SessionId>)
    requires forall i | 0 <= i < |batch| :: batch[i] in s.sessions
    ensures Run(t, AllDeletions(s.sessions, batch)) == t.(chunks := t.chunks - SweptKeys(s.sessions, batch))
  {
    if batch == [] {
      assert t.chunks - {} == t.chunks;
    } else {
      var front, last := batch[..|batch| - 1], batch[|batch| - 1];
      AllDeletionsRun(s, t, front);
      RunSplit(t, AllDeletions(s.sessions, front), Deletions(last, s.sessions[last].totalChunks));
      var u := t.(chunks := t.chunks - SweptKeys(s.sessions, front));
      DeletionsRun(u, last, s.sessions[last].totalChunks);
      assert u.chunks - ChunkKeys(last, s.sessions[last].totalChunks) == t.chunks - SweptKeys(s.sessions, batch);
    }
  }

  function Swept(s: State, batch: seq<SessionId>): State
    requires forall i | 0 <= i < |batch| :: batch[i] in s.sessions
  {
    s.(sessions := SweepRows(s.sessions, Picked(batch)), chunks := s.chunks - SweptKeys(s.sessions, batch))
  }

  lemma SweepStep(s: State, op: OpId, sids: set<SessionId>)
    ensures Step(SetPc(s, op, SweepWrite(sids)), Next(op)) ==
            SetPc(s.(sessions := SweepRows(s.sessions, sids)), op, Done)
  {
    SetPcTwice(s, op, SweepWrite(sids), Done);
  }

  lemma SweepRun(s: State, op: OpId, batch: seq<SessionId>, now: int)
    requires op !in s.ops && |batch| <= SWEEP_BATCH && forall i | 0 <= i < |batch| ::
             batch[i] in s.sessions && Sweepable(s.sessions, batch[i], now)
    ensures Run(s, [BeginSweep(op, Picked(batch), now)] + AllDeletions(s.sessions, batch) + [Next(op)]) ==
            SetPc(Swept(s, batch), op, Done)
  {
    var begin := BeginSweep(op, Picked(batch), now);
    var t := SetPc(s, op, SweepWrite(Picked(batch)));
    Run1(s, begin);
    assert Step(s, begin) == t;
    RunSplit(s, [begin], AllDeletions(s.sessions, batch));
    AllDeletionsRun(s, t, batch);
    RunSnoc(s, [begin] + AllDeletions(s.sessions, batch), Next(op));
    SweepStep(s.(chunks := s.chunks - SweptKeys(s.sessions, batch)), op, Picked(batch));
  }

  /** A sweep aborts exactly the rows it picked and deletes exactly their chunk objects. */
  lemma SweptIs(s: State, batch: seq<SessionId>)
    requires forall i | 0 <= i < |batch| :: batch[i] in s.sessions
    requires forall k | k in s.chunks :: k.0 in s.sessions && k.1 < s.sessions[k.0].totalChunks
    ensures var t := Swept(s, batch);
            && t.sessions.Keys == s.sessions.Keys
            && (forall sid | sid in s.sessions ::
                t.sessions[sid] == if sid in batch then s.sessions[sid].(status := ABORTED) else s.sessions[sid])
            && (forall k :: k in t.chunks <==> k in s.chunks && k.0 !in batch)
            && (forall k | k in t.chunks :: t.chunks[k] == s.chunks[k])
  {
  }
}
