/** The upload machine keeps its invariants. */
module UploadProofs {
  import opened Basics
  import opened Chunks
  import opened Filenames
  import opened Uploads

  // ---------------------------------------------------------------- frames

  /** What one goroutine's step must not do to another goroutine in phase p. */
  ghost predicate Leaves(s: State, s': State, p: Phase) {
    && (forall sid :: sid in s.hist.shapes ==> sid in s'.hist.shapes && s'.hist.shapes[sid] == s.hist.shapes[sid])
    && (Holds(p).Some? ==> LeavesClaim(s, s', Holds(p).value))
    && (Pending(p).Some? && Pending(p).value in s.images ==>
          Pending(p).value in s'.images && s'.images[Pending(p).value] == s.images[Pending(p).value])
  }

  ghost predicate LeavesClaim(s: State, s': State, sid: SessionId) {
    && (sid in s'.stage ==> sid in s.stage && s'.stage[sid] == s.stage[sid])
    && (forall i :: i in s'.hist.commits && s'.hist.commits[i] == sid ==> i in s.hist.commits && s.hist.commits[i] == sid)
  }

  lemma PhaseKeeps(hash: Hash, s: State, s': State, p: Phase)
    requires PhaseInv(hash, s, p) && Leaves(s, s', p)
    ensures PhaseInv(hash, s', p)
  {
  }

  ghost predicate OthersLeft(s: State, s': State, t: Tid) {
    forall u :: u in s.threads && u != t ==> Leaves(s, s', s.threads[u])
  }

  /** Only goroutine t moved, and everybody else is left alone. */
  lemma ThreadsKeep(hash: Hash, s: State, s': State, t: Tid)
    requires ThreadsInv(hash, s) && PhaseInv(hash, s', PhaseOf(s', t)) && OthersLeft(s, s', t)
    requires s'.threads == s.threads[t := PhaseOf(s', t)]
    ensures ThreadsInv(hash, s')
  {
    hide PhaseInv, Leaves;
    forall u | u in s'.threads ensures PhaseInv(hash, s', s'.threads[u]) {
      if u != t { PhaseKeeps(hash, s, s', s.threads[u]); }
    }
  }

  lemma OwnPhase(hash: Hash, s: State, t: Tid)
    requires Inv(hash, s)
    ensures PhaseInv(hash, s, PhaseOf(s, t))
  {
    hide ShapeInv, ClaimInv, CommitInv, CatalogInv;
  }

  /** Nobody else holds the claim that t holds. */
  lemma Alone(threads: Threads, sessions: Sessions, t: Tid, sid: SessionId)
    requires ClaimInv(threads, sessions) && t in threads && Holds(threads[t]) == Some(sid)
    ensures NoOther(threads, t, sid)
  {
  }

  ghost predicate NoOther(threads: Threads, t: Tid, sid: SessionId) {
    forall u :: u in threads && u != t ==> Holds(threads[u]) != Some(sid)
  }

  /** Steps that change nothing another goroutine relies on. */
  lemma LeftAlone(s: State, s': State, t: Tid)
    requires s'.hist.shapes == s.hist.shapes && s'.hist.commits == s.hist.commits && s'.images == s.images
    requires forall x :: x in s'.stage ==> x in s.stage && s'.stage[x] == s.stage[x]
    ensures OthersLeft(s, s', t)
  {
  }

  lemma StageLeft(s: State, s': State, t: Tid, sid: SessionId)
    requires s'.hist.shapes == s.hist.shapes && s'.hist.commits == s.hist.commits && s'.images == s.images
    requires forall x :: x in s'.stage && x != sid ==> x in s.stage && s'.stage[x] == s.stage[x]
    requires NoOther(s.threads, t, sid)
    ensures OthersLeft(s, s', t)
  {
  }

  /** The claim invariant survives a step that takes no new claim and never turns a
      claimed session back to "uploading". */
  lemma ClaimKeeps(threads: Threads, sessions: Sessions, t: Tid, p: Phase, sessions': Sessions)
    requires ClaimInv(threads, sessions)
    requires Holds(p).None? || (t in threads && Holds(p) == Holds(threads[t]))
    requires forall sid :: sid in sessions' ==> sid in sessions && sessions'[sid].finalizing == sessions[sid].finalizing
    ensures ClaimInv(threads[t := p], sessions')
  {
  }

  /** Rewriting one session's row: t is the only goroutine concerned with its claim. */
  lemma ClaimChanges(threads: Threads, sessions: Sessions, t: Tid, p: Phase, sid: SessionId, row: Session)
    requires ClaimInv(threads, sessions) && sid in sessions && NoOther(threads, t, sid)
    requires Holds(p).Some? ==> Holds(p) == Some(sid) && row.finalizing
    ensures ClaimInv(threads[t := p], sessions[sid := row])
  {
  }

  /** A pending image stays pending unless its own goroutine moves. */
  lemma StillPending(threads: Threads, t: Tid, p: Phase, i: ImageId)
    requires t in threads && Pending(threads[t]) == Some(i) ==> Pending(p) == Some(i)
    ensures IsPending(threads, i) ==> IsPending(threads[t := p], i)
  {
    if IsPending(threads, i) {
      var u :| u in threads && Pending(threads[u]) == Some(i);
      assert u in threads[t := p] && Pending(threads[t := p][u]) == Some(i);
    }
  }

  lemma CatalogKeeps(hash: Hash, images: Images, files: map<string, Bytes>, lost: set<ImageId>, threads: Threads, t: Tid, p: Phase)
    requires CatalogInv(hash, images, files, lost, threads)
    requires t in threads && Pending(threads[t]).Some? ==> Pending(p) == Pending(threads[t])
    ensures CatalogInv(hash, images, files, lost, threads[t := p])
  {
    hide FileOk, IsPending;
    forall i | i in images && i !in lost ensures IsPending(threads[t := p], i) || FileOk(images[i], files) {
      StillPending(threads, t, p, i);
    }
  }

  // ---------------------------------------------------------------- kinds of steps

  /** Changing only t's phase, without acquiring a claim or dropping a pending image. */
  lemma LocalMove(hash: Hash, s: State, t: Tid, p: Phase)
    requires Inv(hash, s) && PhaseInv(hash, s, p)
    requires Pending(PhaseOf(s, t)).Some? ==> Pending(p) == Pending(PhaseOf(s, t))
    requires Holds(p).None? || Holds(p) == Holds(PhaseOf(s, t))
    ensures Inv(hash, Goto(s, t, p))
  {
    hide ShapeInv, ClaimInv, CommitInv, CatalogInv, ThreadsInv, OthersLeft;
    var s' := Goto(s, t, p);
    LeftAlone(s, s', t);
    PhaseKeepsOwn(hash, s, s', p);
    ThreadsKeep(hash, s, s', t);
    ClaimKeeps(s.threads, s.sessions, t, p, s.sessions);
    CatalogKeeps(hash, s.images, s.files, s.hist.lost, s.threads, t, p);
  }

  /** PhaseInv does not look at the goroutines or at the tables of sessions and chunks. */
  lemma PhaseKeepsOwn(hash: Hash, s: State, s': State, p: Phase)
    requires PhaseInv(hash, s, p)
    requires s'.hist.shapes == s.hist.shapes && s'.hist.commits == s.hist.commits && s'.images == s.images && s'.stage == s.stage
    ensures PhaseInv(hash, s', p)
  {
  }

  /** t, which holds the claim, moves on and rewrites the staged file of its session. */
  lemma StageMove(hash: Hash, s: State, t: Tid, sid: SessionId, p: Phase, stage: map<SessionId, Bytes>)
    requires Inv(hash, s) && Holds(PhaseOf(s, t)) == Some(sid) == Holds(p) && Pending(PhaseOf(s, t)).None?
    requires forall x :: x in stage && x != sid ==> x in s.stage && stage[x] == s.stage[x]
    requires PhaseInv(hash, Goto(s, t, p).(stage := stage), p)
    ensures Inv(hash, Goto(s, t, p).(stage := stage))
  {
    hide ShapeInv, ClaimInv, CommitInv, CatalogInv, ThreadsInv, OthersLeft, PhaseInv;
    var s' := Goto(s, t, p).(stage := stage);
    Alone(s.threads, s.sessions, t, sid);
    StageLeft(s, s', t, sid);
    ThreadsKeep(hash, s, s', t);
    ClaimKeeps(s.threads, s.sessions, t, p, s.sessions);
    CatalogKeeps(hash, s.images, s.files, s.hist.lost, s.threads, t, p);
  }

  lemma GiveUpKeeps(hash: Hash, s: State, t: Tid, sid: SessionId)
    requires Inv(hash, s) && Holds(PhaseOf(s, t)) == Some(sid) && Pending(PhaseOf(s, t)).None?
    ensures Inv(hash, GiveUp(s, t, sid))
  {
    hide Inv;
    OwnPhase(hash, s, t);
    StageMove(hash, s, t, sid, Failing(sid), s.stage - {sid});
  }

  /** Rewriting a session row without changing its shape, or dropping it. */
  lemma FewerSessions(s: State, sessions: Sessions)
    requires ShapeInv(s.hist.shapes, s.sessions, s.chunks) && CommitInv(s.hist.commits, s.images, s.hist.shapes, s.sessions)
    requires forall sid :: sid in sessions ==> sid in s.sessions && sessions[sid].shape == s.sessions[sid].shape
    ensures ShapeInv(s.hist.shapes, sessions, s.chunks) && CommitInv(s.hist.commits, s.images, s.hist.shapes, sessions)
  {
    hide DirOk, UniqueRows;
  }

  lemma SessionMove(hash: Hash, s: State, t: Tid, p: Phase, sessions: Sessions)
    requires Inv(hash, s) && PhaseInv(hash, s, p) && Pending(PhaseOf(s, t)).None?
    requires forall sid :: sid in sessions ==> sid in s.sessions && sessions[sid].shape == s.sessions[sid].shape
    requires ClaimInv(s.threads[t := p], sessions)
    ensures Inv(hash, Goto(s, t, p).(sessions := sessions))
  {
    hide ClaimInv, CatalogInv, ThreadsInv, OthersLeft, PhaseInv, ShapeInv, CommitInv;
    var s' := Goto(s, t, p).(sessions := sessions);
    FewerSessions(s, sessions);
    LeftAlone(s, s', t);
    PhaseKeepsOwn(hash, s, s', p);
    ThreadsKeep(hash, s, s', t);
    CatalogKeeps(hash, s.images, s.files, s.hist.lost, s.threads, t, p);
  }

  // ---------------------------------------------------------------- one lemma per operation

  lemma CreateKeeps(hash: Hash, s: State, sid: SessionId, base: Name, expected: Option<Digest>, shape: Shape)
    requires Inv(hash, s)
    ensures Inv(hash, Create(s, sid, base, expected, shape))
  {
    hide ClaimInv, CatalogInv, ThreadsInv, ShapeInv, CommitInv;
    if sid !in s.hist.shapes && shape.Valid() {
      var s' := Create(s, sid, base, expected, shape);
      CreateTables(s, sid, s'.sessions[sid]);
      CreateThreads(hash, s, s');
      CreateClaims(hash, s, sid, s'.sessions[sid]);
    }
  }

  lemma CreateTables(s: State, sid: SessionId, row: Session)
    requires ShapeInv(s.hist.shapes, s.sessions, s.chunks) && CommitInv(s.hist.commits, s.images, s.hist.shapes, s.sessions)
    requires sid !in s.hist.shapes && row.shape.Valid()
    ensures ShapeInv(s.hist.shapes[sid := row.shape], s.sessions[sid := row], s.chunks)
    ensures CommitInv(s.hist.commits, s.images, s.hist.shapes[sid := row.shape], s.sessions[sid := row])
  {
    hide DirOk, UniqueRows;
  }

  lemma CreateThreads(hash: Hash, s: State, s': State)
    requires ThreadsInv(hash, s) && s'.threads == s.threads && s'.stage == s.stage
    requires s'.hist.commits == s.hist.commits && s'.images == s.images
    requires forall sid :: sid in s.hist.shapes ==> sid in s'.hist.shapes && s'.hist.shapes[sid] == s.hist.shapes[sid]
    ensures ThreadsInv(hash, s')
  {
    hide PhaseInv;
    forall u | u in s'.threads ensures PhaseInv(hash, s', s'.threads[u]) {
      PhaseKeeps(hash, s, s', s.threads[u]);
    }
  }

  /** A new session id has no holder. */
  lemma CreateClaims(hash: Hash, s: State, sid: SessionId, row: Session)
    requires Inv(hash, s) && sid !in s.hist.shapes
    ensures ClaimInv(s.threads, s.sessions[sid := row])
  {
    hide ShapeInv, CommitInv, CatalogInv;
    forall t | t in s.threads ensures Holds(s.threads[t]) != Some(sid) {
      assert PhaseInv(hash, s, s.threads[t]);
    }
  }

  lemma SessionShape(hash: Hash, s: State, sid: SessionId)
    requires Inv(hash, s) && sid in s.sessions
    ensures sid in s.hist.shapes && s.hist.shapes[sid].Valid() && s.sessions[sid].shape == s.hist.shapes[sid]
    ensures Fresh(s.hist.commits, sid)
  {
    hide ClaimInv, CatalogInv, ThreadsInv, DirOk, UniqueRows;
  }

  lemma StartWriteKeeps(hash: Hash, s: State, t: Tid, sid: SessionId, n: nat, body: Bytes)
    requires Inv(hash, s)
    ensures Inv(hash, StartWrite(s, t, sid, n, body))
  {
    hide Inv;
    if StartWrite(s, t, sid, n, body) != s {
      SessionShape(hash, s, sid);
      LocalMove(hash, s, t, Writing(sid, s.sessions[sid].shape, n, body));
    }
  }

  lemma PlaceChunkKeeps(hash: Hash, s: State, t: Tid)
    requires Inv(hash, s)
    ensures Inv(hash, PlaceChunk(s, t))
  {
    hide ClaimInv, CommitInv, CatalogInv, ThreadsInv, OthersLeft;
    var p, s' := PhaseOf(s, t), PlaceChunk(s, t);
    if p.Writing? {
      OwnPhase(hash, s, t);
      LeftAlone(s, s', t);
      ThreadsKeep(hash, s, s', t);
      ClaimKeeps(s.threads, s.sessions, t, PhaseOf(s', t), s.sessions);
      CatalogKeeps(hash, s.images, s.files, s.hist.lost, s.threads, t, PhaseOf(s', t));
      assert DirOk(s.hist.shapes[p.sid], s'.chunks[p.sid]);
    }
  }

  lemma BumpKeeps(hash: Hash, s: State, t: Tid)
    requires Inv(hash, s)
    ensures Inv(hash, Bump(s, t))
  {
    hide ShapeInv, ClaimInv, CommitInv, CatalogInv, ThreadsInv;
    var p := PhaseOf(s, t);
    if p.Bumping? {
      if p.sid in s.sessions && s.sessions[p.sid].uploaded < p.n {
        var sessions := s.sessions[p.sid := s.sessions[p.sid].(uploaded := p.n)];
        ClaimKeeps(s.threads, s.sessions, t, Idle, sessions);
        SessionMove(hash, s, t, Idle, sessions);
      } else {
        LocalMove(hash, s, t, Idle);
      }
    }
  }

  lemma FetchKeeps(hash: Hash, s: State, t: Tid, sid: SessionId)
    requires Inv(hash, s)
    ensures Inv(hash, Fetch(s, t, sid))
  {
    hide Inv;
    if Fetch(s, t, sid) != s {
      SessionShape(hash, s, sid);
      LocalMove(hash, s, t, Fetched(sid, s.sessions[sid]));
    }
  }

  /** A session still in state "uploading" has no holder. */
  lemma Unclaimed(threads: Threads, sessions: Sessions, t: Tid, sid: SessionId)
    requires ClaimInv(threads, sessions) && sid in sessions && !sessions[sid].finalizing
    ensures NoOther(threads, t, sid)
  {
  }

  lemma ClaimStepKeeps(hash: Hash, s: State, t: Tid)
    requires Inv(hash, s)
    ensures Inv(hash, Claim(s, t))
  {
    hide ShapeInv, ClaimInv, CommitInv, CatalogInv, ThreadsInv, NoOther, Fresh;
    var p := PhaseOf(s, t);
    if p.Fetched? {
      OwnPhase(hash, s, t);
      if p.sid in s.sessions && !s.sessions[p.sid].finalizing {
        SessionShape(hash, s, p.sid);
        Unclaimed(s.threads, s.sessions, t, p.sid);
        var q, row := Claimed(p.sid, p.sess, 0), s.sessions[p.sid].(finalizing := true);
        ClaimChanges(s.threads, s.sessions, t, q, p.sid, row);
        SessionMove(hash, s, t, q, s.sessions[p.sid := row]);
      } else {
        LocalMove(hash, s, t, Idle);
      }
    }
  }

  lemma StatKeeps(hash: Hash, s: State, t: Tid)
    requires Inv(hash, s)
    ensures Inv(hash, StatChunk(s, t))
  {
    hide Inv;
    var p := PhaseOf(s, t);
    if p.Claimed? {
      OwnPhase(hash, s, t);
      if p.seen >= p.sess.shape.num {
        ShapeOf(hash, s, p.sid);
        StageMove(hash, s, t, p.sid, Copying(p.sid, p.sess, 0, []), s.stage[p.sid := []]);
      } else if p.seen + 1 in DirOf(s, p.sid) {
        LocalMove(hash, s, t, Claimed(p.sid, p.sess, p.seen + 1));
      } else {
        GiveUpKeeps(hash, s, t, p.sid);
      }
    }
  }

  lemma ShapeOf(hash: Hash, s: State, sid: SessionId)
    requires Inv(hash, s) && sid in s.hist.shapes
    ensures s.hist.shapes[sid].Valid() && DirOk(s.hist.shapes[sid], DirOf(s, sid))
  {
    hide ClaimInv, CommitInv, CatalogInv, ThreadsInv;
  }

  lemma CopyKeeps(hash: Hash, s: State, t: Tid)
    requires Inv(hash, s)
    ensures Inv(hash, CopyChunk(s, t))
  {
    hide Inv, DirOk;
    var p := PhaseOf(s, t);
    if p.Copying? && p.i < p.sess.shape.num {
      OwnPhase(hash, s, t);
      if p.i + 1 !in DirOf(s, p.sid) {
        GiveUpKeeps(hash, s, t, p.sid);
      } else {
        var acc := p.acc + DirOf(s, p.sid)[p.i + 1];
        CopiedLength(hash, s, t);
        StageMove(hash, s, t, p.sid, Copying(p.sid, p.sess, p.i + 1, acc),
                  if p.sid in s.stage then s.stage[p.sid := acc] else s.stage);
      }
    }
  }

  /** Whichever version of a chunk is read, the running total stays on the chunk boundaries. */
  lemma CopiedLength(hash: Hash, s: State, t: Tid)
    requires Inv(hash, s) && PhaseOf(s, t).Copying?
    requires PhaseOf(s, t).i < PhaseOf(s, t).sess.shape.num && PhaseOf(s, t).i + 1 in DirOf(s, PhaseOf(s, t).sid)
    ensures var p := PhaseOf(s, t);
            |p.acc| + |DirOf(s, p.sid)[p.i + 1]| == p.sess.shape.Offset(p.i + 1)
  {
    hide Inv;
    var p := PhaseOf(s, t);
    OwnPhase(hash, s, t);
    ShapeOf(hash, s, p.sid);
    ChunkBounds(p.sess.shape, p.i + 1);
  }

  lemma VerifyKeeps(hash: Hash, s: State, t: Tid)
    requires Inv(hash, s)
    ensures Inv(hash, Verify(hash, s, t))
  {
    hide Inv;
    var p := PhaseOf(s, t);
    if p.Copying? && p.i >= p.sess.shape.num {
      OwnPhase(hash, s, t);
      if PhaseOf(Verify(hash, s, t), t).Assembled? {
        LocalMove(hash, s, t, Assembled(p.sid, p.sess, p.acc));
      } else {
        GiveUpKeeps(hash, s, t, p.sid);
      }
    }
  }

  lemma CommitStepKeeps(hash: Hash, s: State, t: Tid, iid: ImageId, format: string)
    requires Inv(hash, s)
    ensures Inv(hash, Commit(hash, s, t, iid, format))
  {
    hide ShapeInv, ClaimInv, CatalogInv, ThreadsInv, UniqueRows, CommitName;
    var p := PhaseOf(s, t);
    if p.Assembled? && iid !in s.hist.commits {
      match CommitName(s.images, p.sess.base, format, hash(p.acc))
      case None => GiveUpKeeps(hash, s, t, p.sid);
      case Some(f) =>
        var row := Image(f, hash(p.acc), p.sid, p.sess.expected, p.acc);
        CommitKeepsUnique(s.images, p.sess.base, format, hash(p.acc), iid, row);
        InsertRow(hash, s, t, iid, row);
    }
  }

  /** A new row, pending with t, under a name and hash nobody has. */
  lemma InsertRow(hash: Hash, s: State, t: Tid, iid: ImageId, row: Image)
    requires Inv(hash, s) && PhaseOf(s, t).Assembled? && iid !in s.hist.commits && UniqueRows(s.images[iid := row])
    requires row == Image(row.filename, hash(PhaseOf(s, t).acc), PhaseOf(s, t).sid, PhaseOf(s, t).sess.expected,
                          PhaseOf(s, t).acc)
    ensures Inv(hash, Inserted(s, t, iid, row))
  {
    hide ShapeInv, ClaimInv, CommitInv, CatalogInv, ThreadsInv, OthersLeft, UniqueRows, PhaseInv, NoOther;
    var s' := Inserted(s, t, iid, row);
    OwnPhase(hash, s, t);
    Alone(s.threads, s.sessions, t, row.origin);
    InsertLeaves(hash, s, t, iid, row);
    InsertPhase(hash, s, t, iid, row);
    ThreadsKeep(hash, s, s', t);
    ClaimKeeps(s.threads, s.sessions, t, PhaseOf(s', t), s'.sessions);
    InsertShapes(s.hist.shapes, s.sessions, s.chunks, row.origin);
    InsertCommits(hash, s, t, iid, row);
    InsertCatalog(hash, s, t, iid, row);
  }

  ghost function Inserted(s: State, t: Tid, iid: ImageId, row: Image): State
    requires PhaseOf(s, t).Assembled?
  {
    Goto(s, t, Committed(row.origin, iid, row.filename, PhaseOf(s, t).acc)).(
      images := s.images[iid := row], sessions := s.sessions - {row.origin}, hist := s.hist.(commits := s.hist.commits[iid := row.origin]))
  }

  lemma InsertLeaves(hash: Hash, s: State, t: Tid, iid: ImageId, row: Image)
    requires Inv(hash, s) && PhaseOf(s, t).Assembled? && iid !in s.hist.commits && NoOther(s.threads, t, row.origin)
    ensures OthersLeft(s, Inserted(s, t, iid, row), t)
  {
    hide ShapeInv, ClaimInv, CatalogInv, ThreadsInv, UniqueRows;
    assert iid !in s.images;
  }

  lemma InsertPhase(hash: Hash, s: State, t: Tid, iid: ImageId, row: Image)
    requires PhaseOf(s, t).Assembled? && PhaseInv(hash, s, PhaseOf(s, t))
    requires row.origin == PhaseOf(s, t).sid && row.bytes == PhaseOf(s, t).acc
    ensures PhaseInv(hash, Inserted(s, t, iid, row), PhaseOf(Inserted(s, t, iid, row), t))
  {
  }

  lemma InsertShapes(shapes: Shapes, sessions: Sessions, chunks: map<SessionId, ChunkDir>, sid: SessionId)
    requires ShapeInv(shapes, sessions, chunks)
    ensures ShapeInv(shapes, sessions - {sid}, chunks)
  {
  }

  lemma InsertCommits(hash: Hash, s: State, t: Tid, iid: ImageId, row: Image)
    requires CommitInv(s.hist.commits, s.images, s.hist.shapes, s.sessions) && iid !in s.hist.commits
    requires PhaseOf(s, t).Assembled? && PhaseInv(hash, s, PhaseOf(s, t)) && row.origin == PhaseOf(s, t).sid
    requires UniqueRows(s.images[iid := row])
    ensures CommitInv(s.hist.commits[iid := row.origin], s.images[iid := row], s.hist.shapes, s.sessions - {row.origin})
  {
    hide UniqueRows;
  }

  lemma InsertCatalog(hash: Hash, s: State, t: Tid, iid: ImageId, row: Image)
    requires CatalogInv(hash, s.images, s.files, s.hist.lost, s.threads)
    requires PhaseOf(s, t).Assembled? && PhaseInv(hash, s, PhaseOf(s, t))
    requires row.sha == hash(row.bytes) && row.bytes == PhaseOf(s, t).acc
    requires row.expected == PhaseOf(s, t).sess.expected
    ensures var s' := Inserted(s, t, iid, row); CatalogInv(hash, s'.images, s'.files, s'.hist.lost, s'.threads)
  {
    hide FileOk, IsPending;
    var s' := Inserted(s, t, iid, row);
    forall i | i in s'.images && i !in s'.hist.lost
      ensures IsPending(s'.threads, i) || FileOk(s'.images[i], s'.files)
    {
      if i == iid {
        NowPending(s'.threads, t, i);
      } else {
        StillPending(s.threads, t, s'.threads[t], i);
      }
    }
  }

  lemma NowPending(threads: Threads, t: Tid, i: ImageId)
    requires t in threads && Pending(threads[t]) == Some(i)
    ensures IsPending(threads, i)
  {
  }

  lemma MoveKeeps(hash: Hash, s: State, t: Tid)
    requires Inv(hash, s)
    ensures Inv(hash, Move(s, t))
  {
    hide ShapeInv, ClaimInv, CommitInv, CatalogInv, ThreadsInv, OthersLeft, NoOther;
    var p, s' := PhaseOf(s, t), Move(s, t);
    if p.Committed? {
      OwnPhase(hash, s, t);
      if p.sid in s.stage {
        LeftAlone(s, s', t);
        ThreadsKeep(hash, s, s', t);
        ClaimKeeps(s.threads, s.sessions, t, Sweeping(p.sid), s.sessions);
        MoveCatalog(hash, s, t);
      } else {
        LocalMove(hash, s, t, RenameFailed(p.sid, p.iid));
      }
    }
  }

  /** The rename provides the file of its own image and touches no other image's file. */
  lemma MoveCatalog(hash: Hash, s: State, t: Tid)
    requires Inv(hash, s) && PhaseOf(s, t).Committed? && PhaseOf(s, t).sid in s.stage
    ensures var s' := Move(s, t); CatalogInv(hash, s'.images, s'.files, s'.hist.lost, s'.threads)
  {
    hide ShapeInv, ClaimInv, ThreadsInv, IsPending;
    var p, s' := PhaseOf(s, t), Move(s, t);
    OwnPhase(hash, s, t);
    forall i | i in s'.images && i !in s'.hist.lost
      ensures IsPending(s'.threads, i) || FileOk(s'.images[i], s'.files)
    {
      if i != p.iid {
        assert s.images[i].filename != p.name;
        StillPending(s.threads, t, s'.threads[t], i);
      }
    }
  }

  lemma MoveFailsKeeps(hash: Hash, s: State, t: Tid)
    requires Inv(hash, s)
    ensures Inv(hash, MoveFails(s, t))
  {
    hide Inv;
    var p := PhaseOf(s, t);
    if p.Committed? {
      OwnPhase(hash, s, t);
      LocalMove(hash, s, t, RenameFailed(p.sid, p.iid));
    }
  }

  lemma RollbackKeeps(hash: Hash, s: State, t: Tid, works: bool)
    requires Inv(hash, s)
    ensures Inv(hash, Rollback(s, t, works))
  {
    hide Inv;
    var p := PhaseOf(s, t);
    if p.RenameFailed? {
      if works {
        DropRow(hash, s, t, s.images - {p.iid}, s.hist.lost);
      } else {
        DropRow(hash, s, t, s.images, s.hist.lost + {p.iid});
      }
    }
  }

  ghost predicate RowGone(s: State, iid: ImageId, images: Images, lost: set<ImageId>) {
    (images == s.images - {iid} && lost == s.hist.lost) || (images == s.images && lost == s.hist.lost + {iid})
  }

  /** The pending row of t is deleted, or left behind as lost. */
  lemma DropRow(hash: Hash, s: State, t: Tid, images: Images, lost: set<ImageId>)
    requires Inv(hash, s) && PhaseOf(s, t).RenameFailed? && RowGone(s, PhaseOf(s, t).iid, images, lost)
    ensures Inv(hash, GiveUp(s, t, PhaseOf(s, t).sid).(images := images, hist := s.hist.(lost := lost)))
  {
    hide ShapeInv, ClaimInv, CommitInv, CatalogInv, ThreadsInv, OthersLeft, NoOther, RowGone;
    var sid := PhaseOf(s, t).sid;
    var s' := GiveUp(s, t, sid).(images := images, hist := s.hist.(lost := lost));
    OwnPhase(hash, s, t);
    Alone(s.threads, s.sessions, t, sid);
    DropLeaves(hash, s, s', t, images, lost);
    ThreadsKeep(hash, s, s', t);
    ClaimKeeps(s.threads, s.sessions, t, Failing(sid), s.sessions);
    DropCatalog(hash, s, t, images, lost);
  }

  lemma DropLeaves(hash: Hash, s: State, s': State, t: Tid, images: Images, lost: set<ImageId>)
    requires ThreadsInv(hash, s) && PhaseOf(s, t).RenameFailed? && NoOther(s.threads, t, PhaseOf(s, t).sid)
    requires RowGone(s, PhaseOf(s, t).iid, images, lost)
    requires s' == GiveUp(s, t, PhaseOf(s, t).sid).(images := images, hist := s.hist.(lost := lost))
    ensures OthersLeft(s, s', t)
  {
    var p := PhaseOf(s, t);
    forall u | u in s.threads && u != t ensures Leaves(s, s', s.threads[u]) {
      assert PhaseInv(hash, s, s.threads[u]) && PhaseInv(hash, s, s.threads[t]);
    }
  }

  lemma DropCatalog(hash: Hash, s: State, t: Tid, images: Images, lost: set<ImageId>)
    requires Inv(hash, s) && PhaseOf(s, t).RenameFailed? && RowGone(s, PhaseOf(s, t).iid, images, lost)
    ensures CatalogInv(hash, images, s.files, lost, s.threads[t := Failing(PhaseOf(s, t).sid)])
    ensures CommitInv(s.hist.commits, images, s.hist.shapes, s.sessions)
  {
    hide ShapeInv, ClaimInv, ThreadsInv, IsPending, FileOk;
    var q := Failing(PhaseOf(s, t).sid);
    forall i | i in images && i !in lost ensures IsPending(s.threads[t := q], i) || FileOk(images[i], s.files) {
      StillPending(s.threads, t, q, i);
    }
  }

  lemma FailKeeps(hash: Hash, s: State, t: Tid)
    requires Inv(hash, s)
    ensures Inv(hash, FailFinalize(s, t))
  {
    hide Inv;
    var p := PhaseOf(s, t);
    if p.Claimed? || p.Copying? || p.Assembled? { GiveUpKeeps(hash, s, t, p.sid); }
  }

  lemma ReleaseKeeps(hash: Hash, s: State, t: Tid, works: bool)
    requires Inv(hash, s)
    ensures Inv(hash, Release(s, t, works))
  {
    hide ShapeInv, ClaimInv, CommitInv, CatalogInv, ThreadsInv, NoOther;
    var p := PhaseOf(s, t);
    if p.Failing? {
      if works && p.sid in s.sessions {
        var row := s.sessions[p.sid].(finalizing := false);
        Alone(s.threads, s.sessions, t, p.sid);
        ClaimChanges(s.threads, s.sessions, t, Idle, p.sid, row);
        SessionMove(hash, s, t, Idle, s.sessions[p.sid := row]);
      } else {
        LocalMove(hash, s, t, Idle);
        if !works { LeakKeeps(hash, Goto(s, t, Idle), p.sid); }
      }
    }
  }

  lemma LeakKeeps(hash: Hash, s: State, sid: SessionId)
    requires Inv(hash, s)
    ensures Inv(hash, s.(hist := s.hist.(leaked := s.hist.leaked + {sid})))
  {
    hide ShapeInv, ClaimInv, CommitInv, CatalogInv;
    var s' := s.(hist := s.hist.(leaked := s.hist.leaked + {sid}));
    forall t | t in s'.threads ensures PhaseInv(hash, s', s'.threads[t]) { assert PhaseInv(hash, s, s.threads[t]); }
  }

  lemma AbortKeeps(hash: Hash, s: State, t: Tid, sid: SessionId)
    requires Inv(hash, s)
    ensures Inv(hash, Abort(s, t, sid))
  {
    hide ShapeInv, ClaimInv, CommitInv, CatalogInv, ThreadsInv, Fresh;
    if PhaseOf(s, t).Idle? && sid in s.sessions {
      SessionShape(hash, s, sid);
      ClaimKeeps(s.threads, s.sessions, t, Sweeping(sid), s.sessions - {sid});
      SessionMove(hash, s, t, Sweeping(sid), s.sessions - {sid});
    }
  }

  lemma FewerChunks(shapes: Shapes, sessions: Sessions, chunks: map<SessionId, ChunkDir>, sid: SessionId, ns: set<nat>)
    requires ShapeInv(shapes, sessions, chunks) && sid in shapes
    ensures ShapeInv(shapes, sessions, chunks[sid := (if sid in chunks then chunks[sid] else map[]) - ns])
  {
  }

  lemma SweepKeeps(hash: Hash, s: State, t: Tid, ns: set<nat>, stageToo: bool)
    requires Inv(hash, s)
    ensures Inv(hash, Sweep(s, t, ns, stageToo))
  {
    hide ClaimInv, CommitInv, CatalogInv, ThreadsInv, OthersLeft, ShapeInv;
    var p, s' := PhaseOf(s, t), Sweep(s, t, ns, stageToo);
    if p.Sweeping? {
      OwnPhase(hash, s, t);
      FewerChunks(s.hist.shapes, s.sessions, s.chunks, p.sid, ns);
      LeftAlone(s, s', t);
      assert s'.threads == s.threads[t := PhaseOf(s', t)];
      ThreadsKeep(hash, s, s', t);
    }
  }

  lemma QuitKeeps(hash: Hash, s: State, t: Tid)
    requires Inv(hash, s)
    ensures Inv(hash, Quit(s, t))
  {
    hide Inv;
    var p := PhaseOf(s, t);
    if p.Writing? || p.Fetched? || p.Sweeping? { LocalMove(hash, s, t, Idle); }
  }

  lemma StepKeepsInv(hash: Hash, s: State, step: Step)
    requires Inv(hash, s)
    ensures Inv(hash, Next(hash, s, step))
  {
    hide Inv, Create, StartWrite, PlaceChunk, Bump, Fetch, Claim, StatChunk, CopyChunk, Verify, Commit, Move,
      MoveFails, Rollback, FailFinalize, Release, Abort, Sweep, Quit;
    match step
    case DoCreate(sid, base, expected, shape) => CreateKeeps(hash, s, sid, base, expected, shape);
    case DoStartWrite(t, sid, n, body) => StartWriteKeeps(hash, s, t, sid, n, body);
    case DoPlaceChunk(t) => PlaceChunkKeeps(hash, s, t);
    case DoBump(t) => BumpKeeps(hash, s, t);
    case DoFetch(t, sid) => FetchKeeps(hash, s, t, sid);
    case DoClaim(t) => ClaimStepKeeps(hash, s, t);
    case DoStat(t) => StatKeeps(hash, s, t);
    case DoCopy(t) => CopyKeeps(hash, s, t);
    case DoVerify(t) => VerifyKeeps(hash, s, t);
    case DoCommit(t, iid, format) => CommitStepKeeps(hash, s, t, iid, format);
    case DoMove(t) => MoveKeeps(hash, s, t);
    case DoMoveFails(t) => MoveFailsKeeps(hash, s, t);
    case DoRollback(t, works) => RollbackKeeps(hash, s, t, works);
    case DoFail(t) => FailKeeps(hash, s, t);
    case DoRelease(t, works) => ReleaseKeeps(hash, s, t, works);
    case DoAbort(t, sid) => AbortKeeps(hash, s, t, sid);
    case DoSweep(t, ns, stageToo) => SweepKeeps(hash, s, t, ns, stageToo);
    case DoQuit(t) => QuitKeeps(hash, s, t);
  }

  lemma {:induction false} RunKeepsInv(hash: Hash, steps: seq<Step>)
    ensures Inv(hash, Run(hash, steps))
  {
    if steps != [] {
      hide Inv, Next;
      RunKeepsInv(hash, steps[..|steps| - 1]);
      StepKeepsInv(hash, Run(hash, steps[..|steps| - 1]), steps[|steps| - 1]);
    }
  }
}
