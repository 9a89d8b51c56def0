/** What an abort prevents (internal/images/uploads.go): AbortUpload deletes the session row
    whatever its state, and the commit of a finalize does not look at the row. */
module UploadAbort {
  import opened Basics
  import opened Chunks
  import opened Filenames
  import opened Uploads
  import opened UploadProofs
  import opened UploadTheorems
  import opened UploadCompletes
  import opened UploadCatalog

  /** A finalize of sid between its claim and its commit. */
  predicate Publishing(p: Phase, sid: SessionId) {
    (p.Claimed? || p.Copying? || p.Assembled?) && p.sid == sid
  }

  // ---------------------------------------------------------------- nobody holds the claim

  /** The session is gone for good and nobody is left to publish it. */
  ghost predicate Barred(s: State, sid: SessionId) {
    && sid in s.hist.shapes && sid !in s.sessions
    && (forall t :: t in s.threads ==> !Publishing(s.threads[t], sid))
    && Fresh(s.hist.commits, sid)
  }

  /** A step that moves goroutine t to a phase that does not publish sid. */
  lemma BarredGoes(s: State, s': State, t: Tid, p: Phase, sid: SessionId)
    requires Barred(s, sid) && !Publishing(p, sid) && s'.threads == s.threads[t := p]
    requires s'.hist.shapes == s.hist.shapes && s'.hist.commits == s.hist.commits && (sid in s'.sessions ==> sid in s.sessions)
    ensures Barred(s', sid)
  {
    hide Fresh;
  }

  lemma NotPublishing(s: State, t: Tid, sid: SessionId)
    requires Barred(s, sid)
    ensures !Publishing(PhaseOf(s, t), sid)
  {
    hide Fresh;
  }

  lemma BarredCreate(s: State, id: SessionId, base: Name, expected: Option<Digest>, shape: Shape, sid: SessionId)
    requires Barred(s, sid)
    ensures Barred(Create(s, id, base, expected, shape), sid)
  {
    hide Fresh;
  }

  lemma BarredWrites(s: State, t: Tid, id: SessionId, n: nat, body: Bytes, sid: SessionId)
    requires Barred(s, sid)
    ensures Barred(StartWrite(s, t, id, n, body), sid) && Barred(PlaceChunk(s, t), sid)
  {
    hide Barred;
    var p := PhaseOf(s, t);
    if p.Idle? && id in s.sessions && !s.sessions[id].finalizing
       && 1 <= n <= s.sessions[id].shape.num && |body| == s.sessions[id].shape.ChunkLen(n)
    {
      BarredGoes(s, StartWrite(s, t, id, n, body), t, Writing(id, s.sessions[id].shape, n, body), sid);
    }
    if p.Writing? { BarredGoes(s, PlaceChunk(s, t), t, Bumping(p.sid, p.n), sid); }
  }

  lemma BarredBump(s: State, t: Tid, sid: SessionId)
    requires Barred(s, sid)
    ensures Barred(Bump(s, t), sid) && Barred(Quit(s, t), sid)
  {
    hide Barred;
    var p := PhaseOf(s, t);
    if p.Bumping? { BarredGoes(s, Bump(s, t), t, Idle, sid); }
    if p.Writing? || p.Fetched? || p.Sweeping? { BarredGoes(s, Quit(s, t), t, Idle, sid); }
  }

  lemma BarredClaim(s: State, t: Tid, id: SessionId, sid: SessionId)
    requires Barred(s, sid)
    ensures Barred(Fetch(s, t, id), sid) && Barred(Claim(s, t), sid)
  {
    hide Fresh;
    var p := PhaseOf(s, t);
    if p.Idle? && id in s.sessions { BarredGoes(s, Fetch(s, t, id), t, Fetched(id, s.sessions[id]), sid); }
    if p.Fetched? {
      if p.sid in s.sessions && !s.sessions[p.sid].finalizing {
        BarredGoes(s, Claim(s, t), t, Claimed(p.sid, p.sess, 0), sid);
      } else {
        BarredGoes(s, Claim(s, t), t, Idle, sid);
      }
    }
  }

  lemma BarredStat(s: State, t: Tid, sid: SessionId)
    requires Barred(s, sid)
    ensures Barred(StatChunk(s, t), sid)
  {
    hide Barred;
    NotPublishing(s, t, sid);
    var p := PhaseOf(s, t);
    if p.Claimed? {
      if p.seen >= p.sess.shape.num {
        BarredGoes(s, StatChunk(s, t), t, Copying(p.sid, p.sess, 0, []), sid);
      } else if p.seen + 1 in DirOf(s, p.sid) {
        BarredGoes(s, StatChunk(s, t), t, Claimed(p.sid, p.sess, p.seen + 1), sid);
      } else {
        BarredGoes(s, StatChunk(s, t), t, Failing(p.sid), sid);
      }
    }
  }

  lemma BarredCopy(s: State, t: Tid, sid: SessionId)
    requires Barred(s, sid)
    ensures Barred(CopyChunk(s, t), sid)
  {
    hide Barred;
    NotPublishing(s, t, sid);
    var p := PhaseOf(s, t);
    if p.Copying? && p.i < p.sess.shape.num {
      if p.i + 1 in DirOf(s, p.sid) {
        BarredGoes(s, CopyChunk(s, t), t, Copying(p.sid, p.sess, p.i + 1, p.acc + DirOf(s, p.sid)[p.i + 1]), sid);
      } else {
        BarredGoes(s, CopyChunk(s, t), t, Failing(p.sid), sid);
      }
    }
  }

  lemma BarredVerify(hash: Hash, s: State, t: Tid, sid: SessionId)
    requires Barred(s, sid)
    ensures Barred(Verify(hash, s, t), sid)
  {
    hide Barred;
    NotPublishing(s, t, sid);
    var p := PhaseOf(s, t);
    if p.Copying? && p.i >= p.sess.shape.num {
      if |p.acc| != p.sess.shape.total {
        BarredGoes(s, Verify(hash, s, t), t, Failing(p.sid), sid);
      } else if p.sess.expected.Some? && hash(p.acc) != p.sess.expected.value {
        BarredGoes(s, Verify(hash, s, t), t, Failing(p.sid), sid);
      } else {
        BarredGoes(s, Verify(hash, s, t), t, Assembled(p.sid, p.sess, p.acc), sid);
      }
    }
  }

  lemma BarredCommit(hash: Hash, s: State, t: Tid, iid: ImageId, format: string, sid: SessionId)
    requires Barred(s, sid)
    ensures Barred(Commit(hash, s, t, iid, format), sid)
  {
    hide CommitName;
    NotPublishing(s, t, sid);
    var p := PhaseOf(s, t);
    if p.Assembled? && iid !in s.hist.commits {
      match CommitName(s.images, p.sess.base, format, hash(p.acc))
      case None => BarredGoes(s, Commit(hash, s, t, iid, format), t, Failing(p.sid), sid);
      case Some(f) => assert Fresh(s.hist.commits[iid := p.sid], sid);
    }
  }

  lemma BarredMove(s: State, t: Tid, sid: SessionId)
    requires Barred(s, sid)
    ensures Barred(Move(s, t), sid) && Barred(MoveFails(s, t), sid)
  {
    hide Barred;
    var p := PhaseOf(s, t);
    if p.Committed? {
      BarredGoes(s, MoveFails(s, t), t, RenameFailed(p.sid, p.iid), sid);
      if p.sid in s.stage {
        BarredGoes(s, Move(s, t), t, Sweeping(p.sid), sid);
      } else {
        BarredGoes(s, Move(s, t), t, RenameFailed(p.sid, p.iid), sid);
      }
    }
  }

  lemma BarredRollback(s: State, t: Tid, works: bool, sid: SessionId)
    requires Barred(s, sid)
    ensures Barred(Rollback(s, t, works), sid)
  {
    hide Fresh;
  }

  lemma BarredFail(s: State, t: Tid, sid: SessionId)
    requires Barred(s, sid)
    ensures Barred(FailFinalize(s, t), sid)
  {
    hide Barred;
    var p := PhaseOf(s, t);
    if p.Claimed? || p.Copying? || p.Assembled? { BarredGoes(s, FailFinalize(s, t), t, Failing(p.sid), sid); }
  }

  lemma BarredRelease(s: State, t: Tid, works: bool, sid: SessionId)
    requires Barred(s, sid)
    ensures Barred(Release(s, t, works), sid)
  {
    hide Barred;
    var p := PhaseOf(s, t);
    if p.Failing? {
      if works && p.sid in s.sessions {
        BarredGoes(s, Release(s, t, works), t, Idle, sid);
      } else {
        BarredGoes(s, Release(s, t, works), t, Idle, sid);
      }
    }
  }

  lemma BarredAbort(s: State, t: Tid, id: SessionId, ns: set<nat>, stageToo: bool, sid: SessionId)
    requires Barred(s, sid)
    ensures Barred(Abort(s, t, id), sid) && Barred(Sweep(s, t, ns, stageToo), sid)
  {
    hide Fresh;
    if PhaseOf(s, t).Idle? && id in s.sessions { BarredGoes(s, Abort(s, t, id), t, Sweeping(id), sid); }
  }

  lemma BarredStep(hash: Hash, s: State, step: Step, sid: SessionId)
    requires Barred(s, sid)
    ensures Barred(Next(hash, s, step), sid)
  {
    hide Barred, Create, StartWrite, PlaceChunk, Bump, Fetch, Claim, StatChunk, CopyChunk, Verify,
      Commit, Move, MoveFails, Rollback, FailFinalize, Release, Abort, Sweep, Quit;
    match step
    case DoCreate(id, base, expected, shape) => BarredCreate(s, id, base, expected, shape, sid);
    case DoStartWrite(t, id, n, body) => BarredWrites(s, t, id, n, body, sid);
    case DoPlaceChunk(t) => BarredWrites(s, t, 0, 0, [], sid);
    case DoBump(t) => BarredBump(s, t, sid);
    case DoFetch(t, id) => BarredClaim(s, t, id, sid);
    case DoClaim(t) => BarredClaim(s, t, 0, sid);
    case DoStat(t) => BarredStat(s, t, sid);
    case DoCopy(t) => BarredCopy(s, t, sid);
    case DoVerify(t) => BarredVerify(hash, s, t, sid);
    case DoCommit(t, iid, format) => BarredCommit(hash, s, t, iid, format, sid);
    case DoMove(t) => BarredMove(s, t, sid);
    case DoMoveFails(t) => BarredMove(s, t, sid);
    case DoRollback(t, works) => BarredRollback(s, t, works, sid);
    case DoFail(t) => BarredFail(s, t, sid);
    case DoRelease(t, works) => BarredRelease(s, t, works, sid);
    case DoAbort(t, id) => BarredAbort(s, t, id, {}, false, sid);
    case DoSweep(t, ns, stageToo) => BarredAbort(s, t, 0, ns, stageToo, sid);
    case DoQuit(t) => BarredBump(s, t, sid);
  }

  lemma {:induction false} StaysBarred(hash: Hash, s: State, more: seq<Step>, sid: SessionId)
    requires Barred(s, sid)
    ensures Barred(After(hash, s, more), sid)
  {
    hide Barred, Next;
    if more != [] {
      var n := |more| - 1;
      StaysBarred(hash, s, more[..n], sid);
      BarredStep(hash, After(hash, s, more[..n]), more[n], sid);
    }
  }

  /** A finalize of sid is between its claim and its commit. */
  ghost predicate InFinalize(s: State, sid: SessionId) {
    exists u :: u in s.threads && Publishing(s.threads[u], sid)
  }

  /** The session contributes an image in some continuation. */
  ghost predicate MayPublish(hash: Hash, s: State, sid: SessionId) {
    exists more, i :: i in After(hash, s, more).hist.commits && After(hash, s, more).hist.commits[i] == sid
  }

  /** An abort that finds no finalize between its claim and its commit is final: whatever
      happens next, the session contributes nothing to the catalog. */
  lemma AbortIsFinal(hash: Hash, steps: seq<Step>, t: Tid, sid: SessionId)
    requires var s := Run(hash, steps); PhaseOf(s, t).Idle? && sid in s.sessions && !InFinalize(s, sid)
    ensures !MayPublish(hash, Abort(Run(hash, steps), t, sid), sid)
  {
    var s := Run(hash, steps);
    RunKeepsInv(hash, steps);
    hide Run;
    var s' := Abort(s, t, sid);
    assert Barred(s', sid) by { BarredNow(hash, s, t, sid); }
    forall more, i | i in After(hash, s', more).hist.commits ensures After(hash, s', more).hist.commits[i] != sid {
      StaysBarred(hash, s', more, sid);
    }
  }

  lemma BarredNow(hash: Hash, s: State, t: Tid, sid: SessionId)
    requires Inv(hash, s) && PhaseOf(s, t).Idle? && sid in s.sessions && !InFinalize(s, sid)
    ensures Barred(Abort(s, t, sid), sid)
  {
    hide CatalogInv, ClaimInv, ThreadsInv;
  }

  // ---------------------------------------------------------------- somebody does

  /** The copy loop runs on to the end of the file, staged file or not. */
  lemma {:induction false} CopyRest(hash: Hash, s: State, steps: seq<Step>, u: Tid, job: Job, sess: Session, i: nat)
    returns (longer: seq<Step>)
    requires job.Valid() && sess.shape == job.shape && i <= job.shape.num && job.shape.Offset(i) <= |job.file|
    requires HasAll(DirOf(s, job.sid), job.shape.num) && HonestDir(job, DirOf(s, job.sid))
    requires Untouched(s, After(hash, s, steps))
    requires PhaseOf(After(hash, s, steps), u) == Copying(job.sid, sess, i, job.file[..job.shape.Offset(i)])
    ensures Untouched(s, After(hash, s, longer))
    ensures PhaseOf(After(hash, s, longer), u) == Copying(job.sid, sess, job.shape.num, job.file)
    decreases job.shape.num - i
  {
    hide After, HonestDir, CopyChunk, Next;
    longer := steps;
    if i < job.shape.num {
      CopyPiece(job, DirOf(s, job.sid), i, job.file[..job.shape.Offset(i)]);
      OneCopy(hash, s, steps, u);
      CopiesOne(After(hash, s, steps), u);
      longer := CopyRest(hash, s, steps + [DoCopy(u)], u, job, sess, i + 1);
    } else {
      assert job.file[..job.shape.total] == job.file;
    }
  }

  /** The commit does not look at the session row. */
  lemma CommitsAnyway(hash: Hash, s: State, u: Tid, iid: ImageId, format: string)
    requires var p := PhaseOf(s, u);
      p.Assembled? && iid !in s.hist.commits && CommitName(s.images, p.sess.base, format, hash(p.acc)).Some?
    ensures var p, s' := PhaseOf(s, u), Commit(hash, s, u, iid, format);
            && iid in s'.hist.commits && s'.hist.commits[iid] == p.sid
            && iid in s'.images && s'.images[iid].origin == p.sid && s'.images[iid].bytes == p.acc
  {
    hide CommitName;
  }

  /** A complete upload of the job's file whose client gave the right hash, if any, and for
      which a commit under the given format and id would find a name. */
  ghost predicate Publishable(hash: Hash, job: Job, s: State, iid: ImageId, format: string)
    requires job.Valid()
  {
    && HasAll(DirOf(s, job.sid), job.shape.num) && HonestDir(job, DirOf(s, job.sid))
    && iid !in s.hist.commits && job.sid in s.hist.announced
    && (s.hist.announced[job.sid].None? || s.hist.announced[job.sid].value == hash(job.file))
    && forall base :: CommitName(s.images, base, format, hash(job.file)).Some?
  }

  /** From the assembled file to the commit. */
  lemma FinishesFrom(hash: Hash, job: Job, s: State, steps: seq<Step>, u: Tid, sess: Session, iid: ImageId, format: string)
    returns (longer: seq<Step>)
    requires job.Valid() && Publishable(hash, job, s, iid, format) && Untouched(s, After(hash, s, steps))
    requires s.hist.commits == After(hash, s, steps).hist.commits
    requires PhaseOf(After(hash, s, steps), u) == Assembled(job.sid, sess, job.file)
    ensures var s' := After(hash, s, longer);
            && iid in s'.hist.commits && s'.hist.commits[iid] == job.sid
            && iid in s'.images && s'.images[iid].origin == job.sid && s'.images[iid].bytes == job.file
  {
    hide After, CommitName, Commit, HonestDir;
    One(hash, s, steps, DoCommit(u, iid, format));
    CommitsAnyway(hash, After(hash, s, steps), u, iid, format);
    longer := steps + [DoCommit(u, iid, format)];
  }

  lemma VerifiesFrom(hash: Hash, job: Job, s: State, steps: seq<Step>, u: Tid, sess: Session, iid: ImageId, format: string)
    returns (longer: seq<Step>)
    requires job.Valid() && Publishable(hash, job, s, iid, format) && Untouched(s, After(hash, s, steps))
    requires sess.shape == job.shape && (sess.expected.None? || sess.expected.value == hash(job.file))
    requires PhaseOf(After(hash, s, steps), u) == Copying(job.sid, sess, job.shape.num, job.file)
    ensures var s' := After(hash, s, longer);
            && iid in s'.hist.commits && s'.hist.commits[iid] == job.sid
            && iid in s'.images && s'.images[iid].origin == job.sid && s'.images[iid].bytes == job.file
  {
    hide After, Publishable, Verify;
    One(hash, s, steps, DoVerify(u));
    Verifies(hash, After(hash, s, steps), u, job.sid, sess, job.file);
    longer := FinishesFrom(hash, job, s, steps + [DoVerify(u)], u, sess, iid, format);
  }

  /** What a finalizer between claim and commit knows in an honest run. */
  lemma PublisherKnows(hash: Hash, job: Job, s: State, u: Tid)
    requires job.Valid() && Inv(hash, s) && HonestState(job, s) && Extra(s) && Publishing(PhaseOf(s, u), job.sid)
    ensures var p := PhaseOf(s, u);
            && p.sess.shape == job.shape && job.sid in s.hist.announced && p.sess.expected == s.hist.announced[job.sid]
            && (p.Copying? ==> p.i <= job.shape.num && job.shape.Offset(p.i) <= |job.file|
                               && p.acc == job.file[..job.shape.Offset(p.i)])
            && (p.Assembled? ==> p.acc == job.file)
  {
    hide Inv, Placed, LostOk, HonestDir, HonestRows;
    HonestNow(hash, job, s, u);
    KnowsNow(s, u);
  }

  /** A finalize between its claim and its commit can still publish. */
  lemma Publishes(hash: Hash, job: Job, s: State, u: Tid, iid: ImageId, format: string) returns (more: seq<Step>)
    requires job.Valid() && Publishable(hash, job, s, iid, format) && Publishing(PhaseOf(s, u), job.sid)
    requires var p := PhaseOf(s, u);
      && p.sess.shape == job.shape && p.sess.expected == s.hist.announced[job.sid]
      && (p.Copying? ==> p.i <= job.shape.num && job.shape.Offset(p.i) <= |job.file|
                         && p.acc == job.file[..job.shape.Offset(p.i)])
      && (p.Assembled? ==> p.acc == job.file)
    ensures var s' := After(hash, s, more);
            && iid in s'.hist.commits && s'.hist.commits[iid] == job.sid
            && iid in s'.images && s'.images[iid].origin == job.sid && s'.images[iid].bytes == job.file
  {
    hide After, HonestDir, CommitName;
    var p := PhaseOf(s, u);
    Nothing(hash, s);
    if p.Assembled? {
      more := FinishesFrom(hash, job, s, [], u, p.sess, iid, format);
    } else {
      more := [];
      var i := if p.Copying? then p.i else 0;
      if p.Claimed? {
        more := StatAll(hash, s, [], u, job.sid, p.sess, p.seen);
        StartCopy(job);
      }
      more := CopyRest(hash, s, more, u, job, p.sess, i);
      more := VerifiesFrom(hash, job, s, more, u, p.sess, iid, format);
    }
  }

  /** Exactly when an abort keeps a complete upload out of the catalog: when no finalize is
      between its claim and its commit at the abort. */
  lemma AbortPreventsIff(hash: Hash, job: Job, steps: seq<Step>, t: Tid, iid: ImageId, format: string)
    requires job.Valid() && forall k :: 0 <= k < |steps| ==> Honest(job, steps[k])
    requires var s := Run(hash, steps);
      PhaseOf(s, t).Idle? && job.sid in s.sessions && Publishable(hash, job, s, iid, format)
    ensures var s := Run(hash, steps);
            MayPublish(hash, Abort(s, t, job.sid), job.sid) <==> InFinalize(s, job.sid)
  {
    var s := Run(hash, steps);
    if InFinalize(s, job.sid) {
      RunKeepsInv(hash, steps);
      HonestRun(hash, job, steps);
      RunExtra(hash, steps);
      hide Run, Inv, HonestState, Extra, Honest;
      var more := PublishesAfterAbort(hash, job, s, t, iid, format);
      assert iid in After(hash, Abort(s, t, job.sid), more).hist.commits;
    } else {
      AbortIsFinal(hash, steps, t, job.sid);
    }
  }

  lemma PublishesAfterAbort(hash: Hash, job: Job, s: State, t: Tid, iid: ImageId, format: string) returns (more: seq<Step>)
    requires job.Valid() && Inv(hash, s) && HonestState(job, s) && Extra(s)
    requires PhaseOf(s, t).Idle? && job.sid in s.sessions && Publishable(hash, job, s, iid, format)
    requires InFinalize(s, job.sid)
    ensures var s' := After(hash, Abort(s, t, job.sid), more);
            && iid in s'.hist.commits && s'.hist.commits[iid] == job.sid
            && iid in s'.images && s'.images[iid].origin == job.sid && s'.images[iid].bytes == job.file
  {
    hide Inv, HonestState, Extra, After, HonestDir, CommitName;
    var u :| u in s.threads && Publishing(s.threads[u], job.sid);
    PublisherKnows(hash, job, s, u);
    var s1 := Abort(s, t, job.sid);
    assert PhaseOf(s1, u) == PhaseOf(s, u) && s1.chunks == s.chunks && s1.images == s.images && s1.hist == s.hist;
    more := Publishes(hash, job, s1, u, iid, format);
  }

  /** It does happen: for every file, a run from the empty store in which a finalize has
      claimed the session, the session is aborted, and the file appears in the catalog. */
  lemma AbortedAndPublished(hash: Hash, job: Job, base: Name, expected: Option<Digest>, iid: ImageId, format: string)
    returns (before: seq<Step>, more: seq<Step>)
    requires job.Valid() && (expected.None? || expected.value == hash(job.file))
    ensures job.sid in Run(hash, before).sessions
    ensures var s := Run(hash, before + [DoAbort(1, job.sid)]); job.sid !in s.sessions
    ensures var s := Run(hash, before + [DoAbort(1, job.sid)] + more);
            iid in s.images && s.images[iid].origin == job.sid && s.images[iid].bytes == job.file
  {
    hide After, Holding, Publishable, Fetch, Claim, Abort, Run;
    var a := Fills(hash, job, base, expected, 0);
    var s := After(hash, INIT, a);
    One(hash, INIT, a, DoFetch(0, job.sid));
    One(hash, INIT, a + [DoFetch(0, job.sid)], DoClaim(0));
    before := a + [DoFetch(0, job.sid)] + [DoClaim(0)];
    RunIsAfter(hash, before);
    One(hash, INIT, before, DoAbort(1, job.sid));
    RunIsAfter(hash, before + [DoAbort(1, job.sid)]);
    ClaimedThenAborted(hash, job, s, base, expected, iid, format);
    more := Publishes(hash, job, Abort(Claim(Fetch(s, 0, job.sid), 0), 1, job.sid), 0, iid, format);
    Chained(hash, INIT, before + [DoAbort(1, job.sid)], more);
    RunIsAfter(hash, before + [DoAbort(1, job.sid)] + more);
  }

  lemma ClaimedThenAborted(hash: Hash, job: Job, s: State, base: Name, expected: Option<Digest>, iid: ImageId, format: string)
    requires job.Valid() && Holding(s, job, base, expected, 0, job.shape.num)
    requires expected.None? || expected.value == hash(job.file)
    ensures job.sid in Claim(Fetch(s, 0, job.sid), 0).sessions
    ensures var s' := Abort(Claim(Fetch(s, 0, job.sid), 0), 1, job.sid);
            && job.sid !in s'.sessions && Publishable(hash, job, s', iid, format)
            && PhaseOf(s', 0) == Claimed(job.sid, s.sessions[job.sid], 0)
            && s.sessions[job.sid].shape == job.shape && s.sessions[job.sid].expected == s'.hist.announced[job.sid]
  {
    hide HonestDir, CommitName;
    var s1 := Fetch(s, 0, job.sid);
    assert PhaseOf(s1, 0) == Fetched(job.sid, s.sessions[job.sid]) && s1.sessions == s.sessions;
    var s2 := Claim(s1, 0);
    assert PhaseOf(s2, 0) == Claimed(job.sid, s.sessions[job.sid], 0) && PhaseOf(s2, 1).Idle?;
    var s3 := Abort(s2, 1, job.sid);
    assert s3.images == map[] && s3.chunks == s.chunks && s3.hist == s.hist;
    forall b: Name ensures CommitName(s3.images, b, format, hash(job.file)).Some? { FirstName(b, format, hash(job.file)); }
  }
}
