/** The upload service itself, one call at a time, with storage that keeps what it was given.

    Every method of the class is shown to be one schedule of the protocol's steps (the ghost `trace`), so what
    holds of every interleaving holds here too; beside that, each method says exactly what it does. */
module UploadService {
  import opened Prelude
  import opened UploadProtocol
  import opened UploadFiles
  import opened UploadOutcomes
  import opened UploadSafety
  import opened UploadSchedules

  function ButSession(chunks: map<(SessionId, nat), Bytes>, sid: SessionId): (r: map<(SessionId, nat), Bytes>)
    ensures forall k :: k in r <==> k in chunks && k.0 != sid
    ensures forall k | k in r :: r[k] == chunks[k]
  {
    map k | k in chunks && k.0 != sid :: chunks[k]
  }

  /** While a session accepts chunks, its row lists exactly the objects in storage, each once. */
  ghost predicate BookedExactly(row: Session, chunks: map<(SessionId, nat), Bytes>, sid: SessionId) {
    && (forall i, j | 0 <= i < j < |row.receivedChunks| :: row.receivedChunks[i] != row.receivedChunks[j])
    && (forall i: nat :: i in row.receivedChunks <==> (sid, i) in chunks)
  }

  ghost predicate Booked(sessions: map<SessionId, Session>, chunks: map<(SessionId, nat), Bytes>) {
    && (forall k | k in chunks :: k.0 in sessions && k.1 < sessions[k.0].totalChunks)
    && (forall sid | sid in sessions && sessions[sid].status == PENDING :: BookedExactly(sessions[sid], chunks, sid))
  }

  /** A session that leaves PENDING may lose its chunk objects; nobody else's books change. */
  lemma BookedAfterClosing(sessions: map<SessionId, Session>, chunks: map<(SessionId, nat), Bytes>, sid: SessionId,
                           row: Session)
    requires Booked(sessions, chunks) && sid in sessions && row.status != PENDING &&
             row.totalChunks == sessions[sid].totalChunks
    ensures Booked(sessions[sid := row], chunks) && Booked(sessions[sid := row], ButSession(chunks, sid))
  {
    var after := sessions[sid := row];
    forall x | x in after && after[x].status == PENDING
      ensures BookedExactly(after[x], chunks, x) && BookedExactly(after[x], ButSession(chunks, sid), x)
    {
      assert BookedExactly(sessions[x], chunks, x);
    }
  }

  lemma NoneLeft(sessions: map<SessionId, Session>, chunks: map<(SessionId, nat), Bytes>, sid: SessionId)
    requires Booked(sessions, chunks) && sid in sessions
    ensures chunks - ChunkKeys(sid, sessions[sid].totalChunks) == ButSession(chunks, sid)
  {
  }

  lemma BookedAfterInit(sessions: map<SessionId, Session>, chunks: map<(SessionId, nat), Bytes>, sid: SessionId,
                        row: Session)
    requires Booked(sessions, chunks) && sid !in sessions && row.receivedChunks == []
    ensures Booked(sessions[sid := row], chunks) && forall i: nat :: (sid, i) !in chunks
  {
    var after := sessions[sid := row];
    forall x | x in after && after[x].status == PENDING ensures BookedExactly(after[x], chunks, x) {
      if x != sid { assert BookedExactly(sessions[x], chunks, x); }
    }
  }

  lemma BookedAfterChunk(sessions: map<SessionId, Session>, chunks: map<(SessionId, nat), Bytes>, sid: SessionId,
                         index: nat, body: Bytes)
    requires Booked(sessions, chunks) && sid in sessions && index < sessions[sid].totalChunks
    ensures Booked(sessions[sid := RecordRow(sessions[sid], index, |body|, sessions[sid])],
                   chunks[(sid, index) := body])
  {
    var after := sessions[sid := RecordRow(sessions[sid], index, |body|, sessions[sid])];
    var stored := chunks[(sid, index) := body];
    forall x | x in after && after[x].status == PENDING ensures BookedExactly(after[x], stored, x) {
      assert BookedExactly(sessions[x], chunks, x);
    }
  }

  lemma {:induction false} WithoutAbsent(xs: seq<nat>, x: nat)
    requires x !in xs
    ensures Without(xs, x) == xs
  {
    if xs != [] {
      WithoutAbsent(xs[1..], x);
    }
  }

  lemma BookedAfterMissing(sessions: map<SessionId, Session>, chunks: map<(SessionId, nat), Bytes>, sid: SessionId,
                           m: nat, bytes: int)
    requires Booked(sessions, chunks) && sid in sessions && sessions[sid].status == PENDING && (sid, m) !in chunks
    ensures var row := sessions[sid];
            Booked(sessions[sid := row.(receivedChunks := Without(row.receivedChunks, m), bytesReceived := bytes)],
                   chunks)
  {
    var row := sessions[sid];
    assert BookedExactly(row, chunks, sid);
    WithoutAbsent(row.receivedChunks, m);
    var after := sessions[sid := row.(receivedChunks := Without(row.receivedChunks, m), bytesReceived := bytes)];
    forall x | x in after && after[x].status == PENDING ensures BookedExactly(after[x], chunks, x) {
      assert BookedExactly(sessions[x], chunks, x);
    }
  }

  lemma BookedAfterSweep(s: State, batch: seq<SessionId>)
    requires Booked(s.sessions, s.chunks) && forall i | 0 <= i < |batch| :: batch[i] in s.sessions
    ensures Booked(Swept(s, batch).sessions, Swept(s, batch).chunks)
  {
    SweptIs(s, batch);
    var t := Swept(s, batch);
    forall x | x in t.sessions && t.sessions[x].status == PENDING ensures BookedExactly(t.sessions[x], t.chunks, x) {
      assert BookedExactly(s.sessions[x], s.chunks, x);
    }
  }

  lemma BookedAfterReceipt(s: State, sid: SessionId, uid: UserId, index: int, body: Bytes, now: int)
    requires Booked(s.sessions, s.chunks)
    ensures var t := Receipt(s, sid, uid, index, body, now).0; Booked(t.sessions, t.chunks)
  {
    if LazilyExpires(s.sessions, sid, uid, now) {
      BookedAfterClosing(s.sessions, s.chunks, sid, s.sessions[sid].(status := ABORTED));
    } else if Receipt(s, sid, uid, index, body, now).1.Ok? {
      BookedAfterChunk(s.sessions, s.chunks, sid, index, body);
    }
  }

  lemma BookedAfterAbort(s: State, sid: SessionId, uid: UserId)
    requires Booked(s.sessions, s.chunks)
    ensures var t := AbortOutcome(s, sid, uid).0; Booked(t.sessions, t.chunks)
  {
    if BeginAbortPc(s, sid, uid).AbortWrite? {
      NoneLeft(s.sessions, s.chunks, sid);
      BookedAfterClosing(s.sessions, s.chunks, sid, s.sessions[sid].(status := ABORTED));
    }
  }

  /** What a `complete` call without the claim answers, in any reachable state: a conflict while the session is being
      completed, and its one attachment afterwards, unless a user removed it. */
  lemma LostAnswerIs(trace: seq<Event>, sid: SessionId, uid: UserId)
    ensures var s := Run(Empty, trace);
            var r := LostAnswer(s, sid, uid);
            && (r == Err(InProgress) <==> sid in s.sessions && s.sessions[sid].userId == uid &&
                                          s.sessions[sid].status == COMPLETING)
            && (r.Ok? <==> sid in s.sessions && s.sessions[sid].userId == uid && s.sessions[sid].status == COMPLETED &&
                           exists a :: a in s.attachments && a !in s.deleted && s.attachments[a].session == sid)
            && (r.Ok? ==> && r.value in s.attachments && s.attachments[r.value].session == sid && sid in s.sessions
                          && (forall a | a in s.attachments && s.attachments[a].session == sid :: a == r.value)
                          && (s.attachments[r.value].acknowledged ==>
                                s.attachments[r.value].url in s.files &&
                                    |s.files[s.attachments[r.value].url]| == s.sessions[sid].fileSize))
  {
    RunKeepsInv(Empty, trace);
    var s := Run(Empty, trace);
    hide Run;
    if sid in s.sessions { assert RowOk(s, sid); }
    forall a | a in s.attachments && s.attachments[a].session == sid
      ensures sid in s.sessions && s.sessions[sid].attachmentId == Some(a)
    {
      assert AttachmentOk(s, a);
    }
    var r := LostAnswer(s, sid, uid);
    if r.Ok? {
      FileStoredIff(trace, r.value);
    }
  }

  const GIGABYTE: nat := 1024 * 1024 * 1024

  class Service {
    var sessions: map<SessionId, Session>
    var chunks: map<(SessionId, nat), Bytes>
    var attachments: map<AttachmentId, Attachment>
    var deleted: set<AttachmentId>
    var files: map<OpId, Bytes>
    var pending: set<OpId>
    var nextSession: SessionId
    var nextAttachment: AttachmentId
    var calls: OpId
    ghost var trace: seq<Event>

    /** The tables are those of the protocol after the steps taken so far, by finished calls below `n`. */
    ghost predicate IsRun(n: OpId)
      reads this
    {
      var s := Run(Empty, trace);
      Shows(s) && Quiescent(s, n)
    }

    /** No call is left in flight, and their ids are below `n`. */
    static ghost predicate Quiescent(s: State, n: OpId) {
      forall op | op in s.ops :: op < n && Finished(s.ops[op])
    }

    function Tables(): State
      reads this
    {
      State(sessions, chunks, attachments, deleted, files, pending, map[])
    }

    ghost predicate Valid()
      reads this
    {
      && IsRun(calls)
      && Numbered()
      && Booked(sessions, chunks)
      && AllAcknowledged()
    }

    ghost predicate Numbered()
      reads this
    {
      (forall sid | sid in sessions :: sid < nextSession) && forall a | a in attachments :: a < nextAttachment
    }

    /** No call of this class has thrown after its effect, and no file is being deleted. */
    ghost predicate AllAcknowledged()
      reads this
    {
      pending == {} && forall a | a in attachments :: attachments[a].acknowledged
    }

    constructor ()
      ensures Valid() && sessions == map[] && chunks == map[] && attachments == map[] && files == map[]
    {
      sessions, chunks, attachments, deleted := map[], map[], map[], {};
      files, pending := map[], {};
      nextSession, nextAttachment, calls := 0, 0, 0;
      trace := [];
    }

    /** `mimeAllowed`, `issueFound` and `access` are what the checks on the request say; `used` is the sum of the file
        sizes of the workspace's attachments, and a quota of zero or less means none. */
    method Init(uid: UserId, fileSize: nat, totalChunks: nat, mimeAllowed: bool, issueFound: bool, access: bool,
                used: nat, maxStorageGB: int, now: int) returns (r: Result<SessionId, Error>)
      requires Valid()
      modifies this
      ensures Valid() && unchanged(`chunks, `attachments, `deleted, `files, `pending)
      ensures r.Ok? <==> mimeAllowed && fileSize <= 31_457_280 && fileSize <= totalChunks * 524_288 && issueFound &&
                         access && (maxStorageGB <= 0 || used + fileSize <= maxStorageGB * 1_073_741_824)
      ensures r.Err? ==> sessions == old(sessions)
      ensures r == Err(BadRequest) <==> !mimeAllowed || fileSize > 31_457_280 || fileSize > totalChunks * 524_288
      ensures r == Err(NotFound) ==> !issueFound
      ensures r.Err? && r.error != BadRequest && r.error != NotFound ==> issueFound && r.error == Forbidden
      ensures r.Ok? ==> r.value !in old(sessions) && (forall i: nat :: (r.value, i) !in chunks)
      ensures r.Ok? ==> sessions ==
                        old(sessions)[r.value := Session(uid, fileSize, totalChunks, [], 0, PENDING, None,
                                                         now + 3_600_000)]
    {
      if !mimeAllowed {
        return Err(BadRequest);
      }
      if fileSize > MAX_SIZE {
        return Err(BadRequest);
      }
      if fileSize > totalChunks * CHUNK_SIZE {
        return Err(BadRequest);
      }
      if !issueFound {
        return Err(NotFound);
      }
      if !access {
        return Err(Forbidden);
      }
      if maxStorageGB > 0 && used + fileSize > maxStorageGB * GIGABYTE {
        return Err(Forbidden);
      }
      var sid := CreateSession(uid, fileSize, totalChunks, now);
      return Ok(sid);
    }

    method CreateSession(uid: UserId, fileSize: nat, totalChunks: nat, now: int) returns (sid: SessionId)
      requires Valid() && InitAccepted(fileSize, totalChunks)
      modifies this
      ensures Valid() && unchanged(`chunks, `attachments, `deleted, `files, `pending)
      ensures sid !in old(sessions) && (forall i: nat :: (sid, i) !in chunks)
      ensures sessions == old(sessions)[sid := NewSession(uid, fileSize, totalChunks, now)]
    {
      sid := nextSession;
      BookedAfterInit(sessions, chunks, sid, NewSession(uid, fileSize, totalChunks, now));
      hide Booked, Run;
      sessions := sessions[sid := NewSession(uid, fileSize, totalChunks, now)];
      nextSession := nextSession + 1;
      RunSnoc(Empty, trace, Event.Init(sid, uid, fileSize, totalChunks, now));
      trace := trace + [Event.Init(sid, uid, fileSize, totalChunks, now)];
    }

    /** Append a call's steps to the trace, once the tables are what those steps make of them. */
    ghost method Log(events: seq<Event>, s: State, pc: Pc)
      requires Run(Run(Empty, trace), events) == SetPc(s, calls, pc) && Finished(pc)
      requires Shows(s) && Quiescent(s, calls)
      modifies `trace
      ensures IsRun(calls + 1)
    {
      RunSplit(Empty, trace, events);
      trace := trace + events;
    }

    /** The tables are those of `s`, up to the calls that have finished. */
    ghost predicate Shows(s: State)
      reads this
    {
      s.sessions == sessions && s.chunks == chunks && s.attachments == attachments && s.deleted == deleted &&
      s.files == files && s.pending == pending
    }

    ghost method LogReceipt(s: State, sid: SessionId, uid: UserId, index: int, body: Bytes, now: int)
      requires s == Run(Empty, trace) && Quiescent(s, calls)
      requires Booked(s.sessions, s.chunks) && Shows(Receipt(s, sid, uid, index, body, now).0)
      modifies `trace
      ensures IsRun(calls + 1) && Booked(sessions, chunks)
    {
      BookedAfterReceipt(s, sid, uid, index, body, now);
      ReceiptRun(s, calls, sid, uid, index, body, now);
      Log(ReceiptEvents(s, calls, sid, uid, index, body, now), Receipt(s, sid, uid, index, body, now).0,
          ReceiptPc(s, sid, uid, index, body, now));
    }

    /** The row a request may act on. An expired session is marked ABORTED on the way. */
    method GetActiveSession(sid: SessionId, uid: UserId, now: int) returns (r: Result<Session, Error>)
      modifies `sessions
      ensures r == ActiveCheck(old(sessions), sid, uid, now)
      ensures r.Ok? <==> sid in old(sessions) && old(sessions)[sid].userId == uid &&
                         now <= old(sessions)[sid].expiresAt &&
                         old(sessions)[sid].status in {PENDING, COMPLETING}
      ensures r.Ok? ==> r.value == old(sessions)[sid]
      ensures r == Err(Forbidden) <==> sid in old(sessions) && old(sessions)[sid].userId != uid
      ensures r == Err(AlreadyCompleted) <==> sid in old(sessions) && old(sessions)[sid].userId == uid &&
                                              now <= old(sessions)[sid].expiresAt &&
                                                  old(sessions)[sid].status == COMPLETED
      ensures sid in sessions && sessions[sid].userId == uid && r.Err? && r.error != AlreadyCompleted ==>
                sessions[sid].status in {ABORTED, FAILED}
      ensures sessions == if LazilyExpires(old(sessions), sid, uid, now)
                          then old(sessions)[sid := old(sessions)[sid].(status := ABORTED)] else old(sessions)
    {
      if sid !in sessions {
        return Err(NotFound);
      }
      var row := sessions[sid];
      if row.userId != uid {
        return Err(Forbidden);
      }
      if row.expiresAt < now {
        sessions := sessions[sid := row.(status := ABORTED)];
        return Err(NotFound);
      }
      if row.status == ABORTED || row.status == FAILED {
        return Err(NotFound);
      }
      if row.status == COMPLETED {
        return Err(AlreadyCompleted);
      }
      return Ok(row);
    }

    /** Write the chunk object, then count it in the row unless the row already lists it. */
    method StoreChunk(sid: SessionId, uid: UserId, index: int, body: Bytes, now: int)
      returns (r: Result<Session, Error>)
      modifies `sessions, `chunks
      ensures (Tables(), r) == Receipt(old(Tables()), sid, uid, index, body, now)
    {
      var active := GetActiveSession(sid, uid, now);
      if active.Err? {
        return Err(active.error);
      }
      var row := active.value;
      if index < 0 || index >= row.totalChunks || |body| > CHUNK_SIZE {
        return Err(BadRequest);
      }
      chunks := chunks[(sid, index) := body];
      if index !in row.receivedChunks {
        row := row.(receivedChunks := row.receivedChunks + [index], bytesReceived := row.bytesReceived + |body|);
      }
      sessions := sessions[sid := row];
      return Ok(row);
    }

    method ReceiveChunk(sid: SessionId, uid: UserId, index: int, body: Bytes, now: int)
      returns (r: Result<Session, Error>)
      requires Valid()
      modifies this
      ensures Valid()
      ensures (Tables(), r) == Receipt(old(Tables()), sid, uid, index, body, now)
      ensures r.Ok? <==>
              && sid in old(sessions) && old(sessions)[sid].userId == uid && now <= old(sessions)[sid].expiresAt
              && (old(sessions)[sid].status == PENDING || old(sessions)[sid].status == COMPLETING)
              && 0 <= index < old(sessions)[sid].totalChunks && |body| <= 524_288
      ensures r.Ok? ==> chunks == old(chunks)[(sid, index) := body] && sessions == old(sessions)[sid := r.value]
      ensures r.Err? ==> chunks == old(chunks)
    {
      ReceiptIs(Tables(), sid, uid, index, body, now);
      hide Receipt, Run, Booked;
      ghost var s := Run(Empty, trace);
      ReceiptKeys(s, sid, uid, index, body, now);
      r := StoreChunk(sid, uid, index, body, now);
      LogReceipt(s, sid, uid, index, body, now);
      calls := calls + 1;
    }

    ghost method LogLost(s: State, sid: SessionId, uid: UserId, now: int)
      requires s == Run(Empty, trace) && Quiescent(s, calls) && Shows(s)
      requires !Claimable(s.sessions, sid, uid, now)
      modifies `trace
      ensures IsRun(calls + 1)
    {
      LostRun(s, calls, sid, uid, now);
      Log(LostEvents(s, calls, sid, uid, now), s, LostPc(s, sid, uid));
    }

    ghost method LogMissing(s: State, sid: SessionId, uid: UserId, now: int, m: nat)
      requires s == Run(Empty, trace) && Quiescent(s, calls)
      requires Claimable(s.sessions, sid, uid, now)
      requires m < s.sessions[sid].totalChunks && HasAll(s.chunks, sid, m) && (sid, m) !in s.chunks
      requires Booked(s.sessions, s.chunks) && Shows(FoundMissing(s, sid, m))
      modifies `trace
      ensures IsRun(calls + 1) && Booked(sessions, chunks)
    {
      BookedAfterMissing(s.sessions, s.chunks, sid, m, s.sessions[sid].bytesReceived - CHUNK_SIZE);
      CompleteMissingRun(s, calls, sid, uid, now, m);
      Log(Claiming(calls, sid, uid, now, m) + [Next(calls), Next(calls), Next(calls)], FoundMissing(s, sid, m),
          Rejected(Missing(m)));
    }

    ghost method LogMismatch(s: State, sid: SessionId, uid: UserId, now: int, n: nat)
      requires s == Run(Empty, trace) && Quiescent(s, calls)
      requires Claimable(s.sessions, sid, uid, now) && n == s.sessions[sid].totalChunks && HasAll(s.chunks, sid, n)
      requires |Concat(Collected(s.chunks, sid, n))| != s.sessions[sid].fileSize
      requires Shows(SetStatus(s, sid, FAILED))
      modifies `trace
      ensures IsRun(calls + 1)
    {
      CompleteMismatchRun(s, calls, sid, uid, now, n);
      Log(Claiming(calls, sid, uid, now, n) + [Next(calls), Next(calls)], SetStatus(s, sid, FAILED),
          Rejected(BadRequest));
    }

    ghost method LogAssembled(s: State, sid: SessionId, uid: UserId, now: int, n: nat, a: AttachmentId)
      requires s == Run(Empty, trace) && Quiescent(s, calls)
      requires Claimable(s.sessions, sid, uid, now) && n == s.sessions[sid].totalChunks && HasAll(s.chunks, sid, n)
      requires |Concat(Collected(s.chunks, sid, n))| == s.sessions[sid].fileSize && a !in s.attachments
      requires Shows(Assembled(s, sid, a, Concat(Collected(s.chunks, sid, n)), calls))
      modifies `trace
      ensures IsRun(calls + 1)
    {
      CompleteCommitRun(s, calls, sid, uid, now, n, a);
      Log(Claiming(calls, sid, uid, now, n) + ([Next(calls), Next(calls)] + [Continue(calls, Fine, a), Next(calls)]) +
          Deletions(sid, n),
          Assembled(s, sid, a, Concat(Collected(s.chunks, sid, n)), calls), Answered(sid, a));
    }

    static lemma ShownCompletion(s: State, sid: SessionId, a: AttachmentId, url: OpId, t: State)
      requires sid in s.sessions && t == Completion(s.(ops := map[]), sid, a, url).0
      ensures Completion(s, sid, a, url).0 == t.(ops := s.ops)
    {
      CompletionIgnoresCalls(s, sid, a, url);
    }

    ghost method LogCompleted(s: State, sid: SessionId, uid: UserId, now: int, a: AttachmentId)
      requires s == Run(Empty, trace) && Quiescent(s, calls)
      requires Claimable(s.sessions, sid, uid, now) && a !in s.attachments
      requires Booked(s.sessions, s.chunks) && Shows(Completion(s, sid, a, calls).0)
      modifies `trace
      ensures IsRun(calls + 1) && Booked(sessions, chunks)
    {
      hide Run, Concat, Without, Booked, Quiescent, ChunkKeys, ButSession;
      var n := s.sessions[sid].totalChunks;
      var m := LeastMissing(s.chunks, sid, n);
      if m < n {
        LogMissing(s, sid, uid, now, m);
        return;
      }
      BookedAfterClosing(s.sessions, s.chunks, sid, sessions[sid]);
      NoneLeft(s.sessions, s.chunks, sid);
      var whole := Concat(Collected(s.chunks, sid, n));
      if |whole| != s.sessions[sid].fileSize {
        LogMismatch(s, sid, uid, now, n);
      } else {
        LogAssembled(s, sid, uid, now, n, a);
      }
    }

    /** Download every chunk, assemble and persist; the row was read right after the claim. */
    method AssembleAndPersist(sid: SessionId, row: Session) returns (r: Result<AttachmentId, Error>)
      requires sid in sessions && sessions[sid] == row && AllAcknowledged() && Numbered()
      modifies `sessions, `attachments, `chunks, `files, `nextAttachment
      ensures AllAcknowledged() && Numbered()
      ensures r == Completion(old(Tables()), sid, old(nextAttachment), old(calls)).1
      ensures match r
              case Ok(_) => Tables() == Completion(old(Tables()), sid, old(nextAttachment), old(calls)).0
              case Err(Missing(m)) => Tables() == FoundMissing(old(Tables()), sid, m)
              case Err(_) => Tables() == old(Tables())
    {
      var buffers: seq<Bytes> := [];
      var i := 0;
      while i < row.totalChunks
        invariant 0 <= i <= row.totalChunks && HasAll(chunks, sid, i)
        invariant buffers == Collected(chunks, sid, i)
        invariant chunks == old(chunks) && sessions == old(sessions) && attachments == old(attachments) &&
                  nextAttachment == old(nextAttachment)
        invariant files == old(files)
      {
        if (sid, i) !in chunks {
          LeastMissingIs(chunks, sid, row.totalChunks, i);
          sessions := sessions[sid := row.(receivedChunks := Without(row.receivedChunks, i),
                                           bytesReceived := row.bytesReceived - CHUNK_SIZE)];
          return Err(Missing(i));
        }
        buffers := buffers + [chunks[(sid, i)]];
        i := i + 1;
      }
      LeastMissingIs(chunks, sid, row.totalChunks, i);
      var whole := Concat(buffers);
      if |whole| != row.fileSize {
        return Err(BadRequest);
      }
      var a := nextAttachment;
      nextAttachment := nextAttachment + 1;
      files := files[calls := whole];
      attachments := attachments[a := Attachment(sid, calls, row.fileSize, true)];
      sessions := sessions[sid := row.(status := COMPLETED, attachmentId := Some(a))];
      chunks := chunks - ChunkKeys(sid, row.totalChunks);
      return Ok(a);
    }

    /** What is answered is the one attachment of this very session, with the announced size and its file in storage. */
    method AnswerLostClaim(sid: SessionId, uid: UserId) returns (r: Result<AttachmentId, Error>)
      requires IsRun(calls) && AllAcknowledged()
      ensures r == LostAnswer(Tables(), sid, uid)
      ensures r == Err(InProgress) <==> sid in sessions && sessions[sid].userId == uid &&
                                        sessions[sid].status == COMPLETING
      ensures r.Ok? <==> sid in sessions && sessions[sid].userId == uid && sessions[sid].status == COMPLETED &&
                         exists a :: a in attachments && a !in deleted && attachments[a].session == sid
      ensures r.Ok? ==> r.value in attachments && attachments[r.value].session == sid &&
                        (forall a | a in attachments && attachments[a].session == sid :: a == r.value) &&
                        attachments[r.value].url in files && |files[attachments[r.value].url]| == sessions[sid].fileSize
    {
      LostAnswerIs(trace, sid, uid);
      if sid !in sessions || sessions[sid].userId != uid {
        return Err(NotFound);
      }
      var seen := sessions[sid];
      if seen.status == COMPLETED && seen.attachmentId.Some? {
        if seen.attachmentId.value in attachments && seen.attachmentId.value !in deleted {
          return Ok(seen.attachmentId.value);
        }
      }
      if seen.status == COMPLETING {
        return Err(InProgress);
      }
      return Err(NotFound);
    }

    /** The call that got the claim: assemble, and on an error put the session where a retry finds it. */
    method CompleteClaimed(sid: SessionId) returns (r: Result<AttachmentId, Error>)
      requires sid in sessions && sessions[sid].status == PENDING && AllAcknowledged() && Numbered()
      modifies `sessions, `attachments, `chunks, `files, `nextAttachment
      ensures AllAcknowledged() && Numbered()
      ensures (Tables(), r) == Completion(old(Tables()), sid, old(nextAttachment), old(calls))
    {
      ghost var s := Tables();
      ClaimedCompletion(s, sid, nextAttachment, calls);
      sessions := sessions[sid := sessions[sid].(status := COMPLETING)];
      r := AssembleAndPersist(sid, sessions[sid]);
      if r.Err? && r.error.Missing? {
        sessions := sessions[sid := sessions[sid].(status := PENDING)];
      } else if r.Err? {
        sessions := sessions[sid := sessions[sid].(status := FAILED)];
      }
    }

    method CompleteWon(sid: SessionId, uid: UserId, now: int) returns (r: Result<AttachmentId, Error>)
      requires Valid() && Claimable(sessions, sid, uid, now)
      modifies this
      ensures Valid() && (Tables(), r) == Completion(old(Tables()), sid, old(nextAttachment), old(calls))
    {
      hide Run, Completion, Booked, Quiescent;
      ghost var s := Run(Empty, trace);
      ghost var a := nextAttachment;
      assert s.(ops := map[]) == Tables();
      r := CompleteClaimed(sid);
      ShownCompletion(s, sid, a, calls, Tables());
      assert Shows(Completion(s, sid, a, calls).0);
      LogCompleted(s, sid, uid, now, a);
      calls := calls + 1;
    }

    method Complete(sid: SessionId, uid: UserId, now: int) returns (r: Result<AttachmentId, Error>)
      requires Valid()
      modifies this
      ensures Valid()
      ensures r.Ok? || Tables() != old(Tables()) ==> sid in old(sessions) && old(sessions)[sid].userId == uid
      ensures if sid in old(sessions) && old(sessions)[sid].userId == uid && old(sessions)[sid].status == PENDING &&
                 old(sessions)[sid].expiresAt > now
              then (Tables(), r) == Completion(old(Tables()), sid, old(nextAttachment), old(calls)) &&
                  old(nextAttachment) !in old(attachments)
              else Tables() == old(Tables()) && r == LostAnswer(Tables(), sid, uid)
      ensures r.Ok? && Tables() != old(Tables()) ==>
                var row := old(sessions)[sid];
                && r.value !in old(attachments)
                && attachments == old(attachments)[r.value := Attachment(sid, old(calls), row.fileSize, true)]
                && sessions == old(sessions)[sid := row.(status := COMPLETED, attachmentId := Some(r.value))]
                && (forall i: nat | i < row.totalChunks :: (sid, i) in old(chunks) && (sid, i) !in chunks)
                && old(calls) in files && |files[old(calls)]| == row.fileSize
      ensures r.Err? ==> attachments == old(attachments) && files == old(files) && chunks == old(chunks)
    {
      if sid in sessions { CompletionIs(Tables(), sid, nextAttachment, calls); }
      hide Completion, LostAnswer, Booked;
      if Claimable(sessions, sid, uid, now) {
        r := CompleteWon(sid, uid, now);
      } else {
        r := AnswerLostClaim(sid, uid);
        LogLost(Run(Empty, trace), sid, uid, now);
        calls := calls + 1;
      }
    }

    ghost method LogAborted(s: State, sid: SessionId, uid: UserId)
      requires s == Run(Empty, trace) && Quiescent(s, calls)
      requires Booked(s.sessions, s.chunks) && Shows(AbortOutcome(s, sid, uid).0)
      modifies `trace
      ensures IsRun(calls + 1) && Booked(sessions, chunks)
    {
      BookedAfterAbort(s, sid, uid);
      AbortRun(s, calls, sid, uid);
      Log(AbortEvents(s, calls, sid, uid), AbortOutcome(s, sid, uid).0, AbortPc(s, sid, uid));
    }

    method AbortTables(sid: SessionId, uid: UserId) returns (r: Result<(), Error>)
      modifies `sessions, `chunks
      ensures (Tables(), r) == AbortOutcome(old(Tables()), sid, uid)
    {
      if sid !in sessions {
        return Err(NotFound);
      }
      var row := sessions[sid];
      if row.userId != uid {
        return Err(Forbidden);
      }
      if row.status == COMPLETED || row.status == ABORTED {
        return Ok(());
      }
      sessions := sessions[sid := row.(status := ABORTED)];
      chunks := chunks - ChunkKeys(sid, row.totalChunks);
      return Ok(());
    }

    method Abort(sid: SessionId, uid: UserId) returns (r: Result<(), Error>)
      requires Valid()
      modifies this
      ensures Valid()
      ensures (Tables(), r) == AbortOutcome(old(Tables()), sid, uid)
      ensures r.Ok? <==> sid in old(sessions) && old(sessions)[sid].userId == uid
      ensures r.Ok? ==>
                var row := old(sessions)[sid];
                sessions == if row.status == COMPLETED then old(sessions)
                            else old(sessions)[sid := row.(status := ABORTED)]
      ensures r.Err? ==> Tables() == old(Tables())
    {
      AbortIs(Tables(), sid, uid);
      assert sid in sessions ==> sessions[sid].(status := sessions[sid].status) == sessions[sid];
      ghost var s := Run(Empty, trace);
      AbortKeys(s, sid, uid);
      r := AbortTables(sid, uid);
      LogAborted(s, sid, uid);
      calls := calls + 1;
    }

    ghost method LogSwept(s: State, batch: seq<SessionId>, now: int)
      requires s == Run(Empty, trace) && Quiescent(s, calls)
      requires |batch| <= SWEEP_BATCH && forall i | 0 <= i < |batch| :: batch[i] in s.sessions &&
                                                                        Sweepable(s.sessions, batch[i], now)
      requires Booked(s.sessions, s.chunks) && Shows(Swept(s, batch))
      modifies `trace
      ensures IsRun(calls + 1) && Booked(sessions, chunks)
    {
      BookedAfterSweep(s, batch);
      SweepRun(s, calls, batch, now);
      Log([BeginSweep(calls, Picked(batch), now)] + AllDeletions(s.sessions, batch) + [Next(calls)], Swept(s, batch),
          Done);
    }

    method DeleteChunksOf(batch: seq<SessionId>)
      requires forall i | 0 <= i < |batch| :: batch[i] in sessions
      modifies `chunks
      ensures chunks == old(chunks) - SweptKeys(sessions, batch)
    {
      var i := 0;
      assert batch[..0] == [];
      while i < |batch|
        invariant 0 <= i <= |batch|
        invariant chunks == old(chunks) - SweptKeys(sessions, batch[..i])
      {
        assert batch[..i + 1][..i] == batch[..i];
        chunks := chunks - ChunkKeys(batch[i], sessions[batch[i]].totalChunks);
        i := i + 1;
      }
      assert batch[..i] == batch;
    }

    /** The chunk objects go first, one session at a time; then one update marks every row ABORTED. */
    method SweepTables(batch: seq<SessionId>)
      requires forall i | 0 <= i < |batch| :: batch[i] in sessions
      modifies `chunks, `sessions
      ensures Tables() == Swept(old(Tables()), batch)
    {
      DeleteChunksOf(batch);
      sessions := SweepRows(sessions, Picked(batch));
    }

    method SweepBatch(batch: seq<SessionId>, now: int)
      requires Valid()
      requires |batch| <= SWEEP_BATCH && forall i | 0 <= i < |batch| :: batch[i] in sessions &&
                                                                        Sweepable(sessions, batch[i], now)
      modifies this
      ensures Valid()
      ensures Tables() == Swept(old(Tables()), batch)
    {
      ghost var s := Run(Empty, trace);
      SweepTables(batch);
      LogSwept(s, batch, now);
      calls := calls + 1;
    }

    /** One run of the sweep over the rows its query returned. */
    method SweepExpiredSessions(batch: seq<SessionId>, now: int)
      requires Valid()
      requires |batch| <= 100 && forall i | 0 <= i < |batch| ::
                 && batch[i] in sessions && sessions[batch[i]].expiresAt < now
                 && sessions[batch[i]].status in {PENDING, FAILED}
      modifies this
      ensures Valid()
      ensures Tables() == Swept(old(Tables()), batch)
      ensures sessions.Keys == old(sessions.Keys) && forall sid | sid in sessions ::
                sessions[sid] == if sid in batch then old(sessions)[sid].(status := ABORTED) else old(sessions)[sid]
      ensures forall k :: (k in chunks <==> k in old(chunks) && k.0 !in batch) &&
                          (k in chunks ==> chunks[k] == old(chunks)[k])
    {
      SweptIs(Tables(), batch);
      hide Run, Swept;
      SweepBatch(batch, now);
    }
  }
}
