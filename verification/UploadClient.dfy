/** What a browser gets when it drives the upload service: the stored file is the file it cut up. */
module UploadClient {
  import opened Prelude
  import opened UploadProtocol
  import opened UploadSchedules
  import opened UploadService

  /** The pieces of a file, as a client cuts it: no piece above the chunk size, no file above the limit. */
  ghost predicate Pieces(pieces: seq<Bytes>) {
    (forall i | 0 <= i < |pieces| :: |pieces[i]| <= CHUNK_SIZE) && |Concat(pieces)| <= MAX_SIZE
  }

  lemma {:induction false} ConcatBound(pieces: seq<Bytes>)
    requires forall i | 0 <= i < |pieces| :: |pieces[i]| <= CHUNK_SIZE
    ensures |Concat(pieces)| <= |pieces| * CHUNK_SIZE
  {
    if pieces != [] {
      ConcatBound(pieces[..|pieces| - 1]);
    }
  }

  /** Whatever of the session's chunks is in storage is the right piece. */
  ghost predicate Faithful(chunks: map<(SessionId, nat), Bytes>, sid: SessionId, pieces: seq<Bytes>) {
    forall i: nat | i < |pieces| && (sid, i) in chunks :: chunks[(sid, i)] == pieces[i]
  }

  function Absent(chunks: map<(SessionId, nat), Bytes>, sid: SessionId, n: nat): set<nat> {
    set i: nat | i < n && (sid, i) !in chunks
  }

  /** A session of this user that takes chunks of this file until it expires, and has only right pieces in storage. */
  ghost predicate Open(sessions: map<SessionId, Session>, chunks: map<(SessionId, nat), Bytes>, sid: SessionId,
                       uid: UserId, pieces: seq<Bytes>, expiresAt: int) {
    && sid in sessions && sessions[sid].userId == uid && sessions[sid].status == PENDING
    && sessions[sid].expiresAt == expiresAt
    && sessions[sid].totalChunks == |pieces| && sessions[sid].fileSize == |Concat(pieces)|
    && Faithful(chunks, sid, pieces)
  }

  lemma CompletionOfWhole(s: State, sid: SessionId, pieces: seq<Bytes>, a: AttachmentId, url: OpId)
    requires sid in s.sessions && s.sessions[sid].totalChunks == |pieces| &&
             s.sessions[sid].fileSize == |Concat(pieces)|
    requires Faithful(s.chunks, sid, pieces)
    ensures var (t, r) := Completion(s, sid, a, url);
            var absent := Absent(s.chunks, sid, |pieces|);
            && (absent == {} ==> r == Ok(a) &&
                                 t.attachments == s.attachments[a := Attachment(sid, url, |Concat(pieces)|, true)]
                                 && t.files == s.files[url := Concat(pieces)])
            && (absent != {} ==> r.Err? && r.error.Missing? && r.error.index in absent && t.attachments == s.attachments
                                 && (forall i | i in absent :: r.error.index <= i) && t.chunks == s.chunks
                                 && t.sessions[sid].status == s.sessions[sid].status)
  {
    var m := LeastMissing(s.chunks, sid, |pieces|);
    if m == |pieces| {
      assert Collected(s.chunks, sid, m) == pieces;
    } else {
      assert m in Absent(s.chunks, sid, |pieces|);
    }
  }

  /** One chunk request, with the time at which the service handles it: it is refused exactly when the session has
      expired by then, and that ends the session. */
  method Send(service: Service, sid: SessionId, uid: UserId, pieces: seq<Bytes>, i: nat, now: int, ghost expiresAt: int)
    returns (r: Result<Session, Error>)
    requires service.Valid() && Pieces(pieces) && i < |pieces|
    requires Open(service.sessions, service.chunks, sid, uid, pieces, expiresAt)
    modifies service
    ensures service.Valid() && service.attachments == old(service.attachments)
    ensures r.Ok? <==> now <= expiresAt
    ensures r.Ok? ==> Open(service.sessions, service.chunks, sid, uid, pieces, expiresAt) &&
                      service.chunks.Keys == old(service.chunks.Keys) + {(sid, i)}
    ensures r.Err? ==> r.error == NotFound && sid in service.sessions && service.sessions[sid].status == ABORTED
  {
    r := service.ReceiveChunk(sid, uid, i, pieces[i], now);
  }

  /** Sends pieces until one is refused; `times[k]` is when the service handles the request for piece `order[k]`. */
  method SendAll(service: Service, sid: SessionId, uid: UserId, pieces: seq<Bytes>, order: seq<nat>, times: seq<int>,
                 ghost expiresAt: int)
    returns (r: Result<(), Error>)
    requires service.Valid() && Pieces(pieces) && |times| == |order| && forall k | 0 <= k < |order| ::
             order[k] < |pieces|
    requires Open(service.sessions, service.chunks, sid, uid, pieces, expiresAt)
    modifies service
    ensures service.Valid() && service.attachments == old(service.attachments)
    ensures r.Ok? <==> forall k | 0 <= k < |times| :: times[k] <= expiresAt
    ensures r.Ok? ==> Open(service.sessions, service.chunks, sid, uid, pieces, expiresAt)
    ensures r.Ok? ==> forall i: nat | i in order :: (sid, i) in service.chunks
    ensures r.Err? ==> r.error == NotFound && sid in service.sessions && service.sessions[sid].status == ABORTED
  {
    var k := 0;
    while k < |order|
      invariant 0 <= k <= |order| && service.Valid() && service.attachments == old(service.attachments)
      invariant Open(service.sessions, service.chunks, sid, uid, pieces, expiresAt)
      invariant forall j | 0 <= j < k :: times[j] <= expiresAt && (sid, order[j]) in service.chunks
    {
      var sent := Send(service, sid, uid, pieces, order[k], times[k], expiresAt);
      if sent.Err? {
        return Err(sent.error);
      }
      k := k + 1;
    }
    return Ok(());
  }

  /** The file stored behind the attachment is what the client cut up. */
  ghost predicate StoredAs(service: Service, a: AttachmentId, pieces: seq<Bytes>)
    reads service
  {
    && a in service.attachments && service.attachments[a].url in service.files
    && service.files[service.attachments[a].url] == Concat(pieces)
  }

  /** A completion of an open session comes before its expiry, or is refused without a change to the tables. */
  method Finish(service: Service, sid: SessionId, uid: UserId, pieces: seq<Bytes>, now: int, ghost expiresAt: int)
    returns (r: Result<AttachmentId, Error>)
    requires service.Valid() && Open(service.sessions, service.chunks, sid, uid, pieces, expiresAt)
    modifies service
    ensures service.Valid()
    ensures var absent := Absent(old(service.chunks), sid, |pieces|);
            && (r.Ok? <==> now < expiresAt && absent == {})
            && (now >= expiresAt ==> r == Err(NotFound) && service.Tables() == old(service.Tables()))
            && (now < expiresAt && absent != {} ==>
                  && r.Err? && r.error.Missing? && r.error.index in absent && service.chunks == old(service.chunks)
                  && Open(service.sessions, service.chunks, sid, uid, pieces, expiresAt))
    ensures r.Ok? ==> StoredAs(service, r.value, pieces) && r.value !in old(service.attachments) &&
                      service.attachments[r.value].session == sid &&
                          service.attachments[r.value].fileSize == |Concat(pieces)|
    ensures r.Err? ==> service.attachments == old(service.attachments)
  {
    CompletionOfWhole(service.Tables(), sid, pieces, service.nextAttachment, service.calls);
    hide Completion;
    r := service.Complete(sid, uid, now);
  }

  /** Announce a file, send its pieces in any order with any repeats, then complete, each request at its own time and
      by whatever clock handles it. The file is stored exactly if every piece is handled by the session's expiry and the
      completion before it; otherwise the client gets not-found and nothing is attached. */
  method Upload(service: Service, uid: UserId, pieces: seq<Bytes>, order: seq<nat>, start: int, times: seq<int>,
                end: int)
    returns (r: Result<AttachmentId, Error>)
    requires service.Valid() && Pieces(pieces) && |times| == |order|
    requires forall k | 0 <= k < |order| :: order[k] < |pieces|
    requires forall i: nat | i < |pieces| :: i in order
    modifies service
    ensures service.Valid()
    ensures r.Ok? <==> (forall k | 0 <= k < |times| :: times[k] <= start + SESSION_TTL_MS) &&
                       end < start + SESSION_TTL_MS
    ensures r.Ok? ==> r.value !in old(service.attachments) && StoredAs(service, r.value, pieces) &&
                      service.attachments[r.value].fileSize == |Concat(pieces)| <= MAX_SIZE
    ensures r.Err? ==> r.error == NotFound && service.attachments == old(service.attachments)
  {
    ConcatBound(pieces);
    ghost var expiresAt := start + SESSION_TTL_MS;
    var created := service.Init(uid, |Concat(pieces)|, |pieces|, true, true, true, 0, 0, start);
    var sid := created.value;
    var sent := SendAll(service, sid, uid, pieces, order, times, expiresAt);
    if sent.Err? {
      return Err(sent.error);
    }
    r := Finish(service, sid, uid, pieces, end, expiresAt);
  }

  /** Ask to complete at `asked`, and send the one piece that the answer names as missing at `sent`. Nothing is answered
      if that worked and there is one piece less to send. */
  method Round(service: Service, sid: SessionId, uid: UserId, pieces: seq<Bytes>, asked: int, sent: int,
               ghost expiresAt: int)
    returns (r: Option<Result<AttachmentId, Error>>)
    requires service.Valid() && Pieces(pieces) && Open(service.sessions, service.chunks, sid, uid, pieces, expiresAt)
    modifies service
    ensures service.Valid()
    ensures var n := |Absent(old(service.chunks), sid, |pieces|)|;
            && (r.Some? && r.value.Ok? <==> asked < expiresAt && n == 0)
            && (r.None? <==> asked < expiresAt && sent <= expiresAt && n > 0)
            && (r.None? ==> |Absent(service.chunks, sid, |pieces|)| == n - 1 &&
                            Open(service.sessions, service.chunks, sid, uid, pieces, expiresAt))
    ensures r.Some? && r.value.Ok? ==>
              && r.value.value !in old(service.attachments) && StoredAs(service, r.value.value, pieces)
              && service.attachments[r.value.value].session == sid
    ensures r.Some? && r.value.Err? ==> r.value.error == NotFound
    ensures r.None? || r.value.Err? ==> service.attachments == old(service.attachments)
  {
    ghost var absent := Absent(service.chunks, sid, |pieces|);
    var done := Finish(service, sid, uid, pieces, asked, expiresAt);
    if done.Ok? || !done.error.Missing? {
      return Some(done);
    }
    var i := done.error.index;
    var piece := Send(service, sid, uid, pieces, i, sent, expiresAt);
    if piece.Err? {
      return Some(Err(piece.error));
    }
    assert Absent(service.chunks, sid, |pieces|) == absent - {i};
    return None;
  }

  /** The requests of a resumed upload alternate between asking and sending, and none of the first n rounds is late. */
  ghost predicate InTime(asked: nat -> int, sent: nat -> int, n: nat, expiresAt: int) {
    forall k: nat | k < n :: asked(k) < expiresAt && sent(k) <= expiresAt
  }

  /** Ask to complete, send the one piece the answer names as missing, and ask again, at the times given: this ends with
      the file stored, after as many extra rounds as there were pieces missing, exactly if these requests are in time.
      Otherwise the first late one is answered not-found, and nothing is attached. */
  method Resume(service: Service, sid: SessionId, uid: UserId, pieces: seq<Bytes>, asked: nat -> int, sent: nat -> int,
                ghost expiresAt: int)
    returns (r: Result<AttachmentId, Error>, rounds: nat)
    requires service.Valid() && Pieces(pieces) && Open(service.sessions, service.chunks, sid, uid, pieces, expiresAt)
    modifies service
    ensures service.Valid()
    ensures var n := |Absent(old(service.chunks), sid, |pieces|)|;
            && (r.Ok? <==> InTime(asked, sent, n, expiresAt) && asked(n) < expiresAt)
            && (r.Ok? ==> rounds == n + 1) && rounds <= n + 1
    ensures r.Ok? ==> r.value !in old(service.attachments) && StoredAs(service, r.value, pieces) &&
                      service.attachments[r.value].session == sid
    ensures r.Err? ==> r.error == NotFound && service.attachments == old(service.attachments)
  {
    hide Open, Absent, Run, Booked, Pieces;
    ghost var n := |Absent(service.chunks, sid, |pieces|)|;
    rounds := 0;
    while true
      invariant service.Valid() && service.attachments == old(service.attachments)
      invariant Open(service.sessions, service.chunks, sid, uid, pieces, expiresAt)
      invariant rounds + |Absent(service.chunks, sid, |pieces|)| == n
      invariant InTime(asked, sent, rounds, expiresAt)
      decreases |Absent(service.chunks, sid, |pieces|)|
    {
      var answer := Round(service, sid, uid, pieces, asked(rounds), sent(rounds), expiresAt);
      rounds := rounds + 1;
      if answer.Some? {
        return answer.value, rounds;
      }
    }
  }
}
