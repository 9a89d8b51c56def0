/** What every interleaving of uploads guarantees. */
module UploadTheorems {
  import opened Basics
  import opened Chunks
  import opened Filenames
  import opened Uploads
  import opened UploadProofs

  /** Moving an assembled image into place leaves every other row's file as it was. */
  lemma MoveOverwritesNobody(hash: Hash, steps: seq<Step>, t: Tid, i: ImageId)
    requires var s := Run(hash, steps);
             PhaseOf(s, t).Committed? && i in s.images && i != PhaseOf(s, t).iid
    ensures var s := Run(hash, steps);
            var f := s.images[i].filename;
            var s' := Move(s, t);
            (f in s'.files <==> f in s.files) && (f in s.files ==> s'.files[f] == s.files[f])
  {
    hide CatalogInv, ShapeInv, ClaimInv;
    RunKeepsInv(hash, steps);
    OwnPhase(hash, Run(hash, steps), t);
  }

  /** At most one goroutine holds a session's finalize claim. */
  lemma OneFinalizer(hash: Hash, steps: seq<Step>, t: Tid, u: Tid)
    requires Holds(PhaseOf(Run(hash, steps), t)).Some?
    requires Holds(PhaseOf(Run(hash, steps), t)) == Holds(PhaseOf(Run(hash, steps), u))
    ensures t == u
  {
    hide CatalogInv, ShapeInv, CommitInv, ThreadsInv;
    RunKeepsInv(hash, steps);
  }

  /** State "uploading" means no finalizer is active. */
  lemma UploadingMeansUnclaimed(hash: Hash, steps: seq<Step>, sid: SessionId, t: Tid)
    requires sid in Run(hash, steps).sessions && !Run(hash, steps).sessions[sid].finalizing
    ensures Holds(PhaseOf(Run(hash, steps), t)) != Some(sid)
  {
    hide CatalogInv, ShapeInv, CommitInv, ThreadsInv;
    RunKeepsInv(hash, steps);
  }

  /** A failed finalizer's release concerns its own claim only: nobody else holds the
      claim of that session, and no other session's row changes. */
  lemma ReleaseIsOwn(hash: Hash, steps: seq<Step>, t: Tid, works: bool, u: Tid, sid: SessionId)
    requires PhaseOf(Run(hash, steps), t).Failing? && u != t
    ensures var s := Run(hash, steps);
            && Holds(PhaseOf(s, u)) != Some(PhaseOf(s, t).sid)
            && (sid != PhaseOf(s, t).sid && sid in s.sessions ==>
                  sid in Release(s, t, works).sessions && Release(s, t, works).sessions[sid] == s.sessions[sid])
  {
    hide CatalogInv, ShapeInv, CommitInv, ThreadsInv;
    RunKeepsInv(hash, steps);
  }

  /** Each session contributes at most one image over the whole run, rolled back or not,
      and the row of a session that contributed one is gone. */
  lemma OneImagePerSession(hash: Hash, steps: seq<Step>, i: ImageId, j: ImageId)
    requires i in Run(hash, steps).hist.commits && j in Run(hash, steps).hist.commits
    requires Run(hash, steps).hist.commits[i] == Run(hash, steps).hist.commits[j]
    ensures i == j && Run(hash, steps).hist.commits[i] !in Run(hash, steps).sessions
  {
    hide CatalogInv, ShapeInv, ClaimInv, ThreadsInv;
    RunKeepsInv(hash, steps);
  }

  /** Once the concat loop is through, the size check cannot fail, whatever chunk
      writes straggled in while it ran. */
  lemma AssembledSizeIsDeclared(hash: Hash, steps: seq<Step>, t: Tid)
    requires var p := PhaseOf(Run(hash, steps), t); p.Copying? && p.i >= p.sess.shape.num
    ensures var p := PhaseOf(Run(hash, steps), t); |p.acc| == p.sess.shape.total
  {
    hide Inv;
    RunKeepsInv(hash, steps);
    OwnPhase(hash, Run(hash, steps), t);
  }

  // ---------------------------------------------------------------- reassembly

  /** The upload under discussion: a session, its shape and the file the client cuts. */
  datatype Job = Job(sid: SessionId, shape: Shape, file: Bytes) {
    predicate Valid() { shape.Valid() && |file| == shape.total }
  }

  /** The session is created with the job's shape, and every chunk write carries the
      right piece of the file, in any order and any number of times. */
  predicate Honest(job: Job, step: Step)
    requires job.Valid()
  {
    && (step.DoCreate? && step.sid == job.sid ==> step.shape == job.shape)
    && (step.DoStartWrite? && step.sid == job.sid && 1 <= step.n <= job.shape.num ==>
          step.body == Cut(job.file, job.shape, step.n))
  }

  predicate HonestDir(job: Job, dir: ChunkDir)
    requires job.Valid()
  {
    forall n :: n in dir && 1 <= n <= job.shape.num ==> dir[n] == Cut(job.file, job.shape, n)
  }

  predicate HonestPhase(job: Job, p: Phase)
    requires job.Valid()
  {
    match p
    case Writing(sid, _, n, body) =>
      sid == job.sid && 1 <= n <= job.shape.num ==> body == Cut(job.file, job.shape, n)
    case Copying(sid, _, i, acc) =>
      sid == job.sid ==> i <= job.shape.num && job.shape.Offset(i) <= |job.file|
                         && acc == job.file[..job.shape.Offset(i)]
    case Assembled(sid, _, acc) => sid == job.sid ==> acc == job.file
    case _ => true
  }

  ghost predicate HonestThreads(job: Job, threads: Threads)
    requires job.Valid()
  {
    forall t :: t in threads ==> HonestPhase(job, threads[t])
  }

  ghost predicate HonestRows(job: Job, images: Images) {
    forall i :: i in images && images[i].origin == job.sid ==> images[i].bytes == job.file
  }

  ghost predicate HonestState(job: Job, s: State)
    requires job.Valid()
  {
    && ShapeKept(job, s.hist.shapes)
    && HonestDir(job, DirOf(s, job.sid))
    && HonestThreads(job, s.threads)
    && HonestRows(job, s.images)
  }

  ghost predicate ShapeKept(job: Job, shapes: Shapes) {
    job.sid in shapes ==> shapes[job.sid] == job.shape
  }

  /** What t is known to be doing. */
  lemma HonestNow(hash: Hash, job: Job, s: State, t: Tid)
    requires job.Valid() && Inv(hash, s) && HonestState(job, s)
    ensures HonestPhase(job, PhaseOf(s, t)) && PhaseInv(hash, s, PhaseOf(s, t))
  {
    hide Inv, PhaseInv, Cut;
    OwnPhase(hash, s, t);
  }

  lemma HonestTo(job: Job, threads: Threads, t: Tid, p: Phase)
    requires job.Valid() && HonestThreads(job, threads) && HonestPhase(job, p)
    ensures HonestThreads(job, threads[t := p])
  {
    hide HonestPhase;
  }

  /** A step that moves only goroutine t, to a phase that carries no bytes. */
  lemma HonestGoes(job: Job, s: State, s': State, t: Tid, p: Phase)
    requires job.Valid() && HonestState(job, s)
    requires !p.Writing? && !p.Copying? && !p.Assembled?
    requires s'.threads == s.threads[t := p] && s'.hist.shapes == s.hist.shapes && s'.chunks == s.chunks && s'.images == s.images
    ensures HonestState(job, s')
  {
    hide Cut, HonestDir, HonestRows, HonestThreads;
    HonestTo(job, s.threads, t, p);
  }

  lemma RowsShrink(job: Job, images: Images, i: ImageId)
    requires HonestRows(job, images)
    ensures HonestRows(job, images - {i})
  {
  }

  lemma RowsGrow(job: Job, images: Images, i: ImageId, row: Image)
    requires HonestRows(job, images) && (row.origin == job.sid ==> row.bytes == job.file)
    ensures HonestRows(job, images[i := row])
  {
  }

  lemma DirShrinks(job: Job, dir: ChunkDir, ns: set<nat>)
    requires job.Valid() && HonestDir(job, dir)
    ensures HonestDir(job, dir - ns)
  {
    hide Cut;
  }

  lemma DirGrows(job: Job, dir: ChunkDir, n: nat, body: Bytes)
    requires job.Valid() && HonestDir(job, dir)
    requires 1 <= n <= job.shape.num ==> body == Cut(job.file, job.shape, n)
    ensures HonestDir(job, dir[n := body])
  {
    hide Cut;
  }

  lemma HonestCreate(hash: Hash, job: Job, s: State, sid: SessionId, base: Name, expected: Option<Digest>, shape: Shape)
    requires job.Valid() && HonestState(job, s) && (sid == job.sid ==> shape == job.shape)
    ensures HonestState(job, Create(s, sid, base, expected, shape))
  {
    hide Cut, HonestDir, HonestRows, HonestThreads;
  }

  lemma HonestWrite(hash: Hash, job: Job, s: State, t: Tid, sid: SessionId, n: nat, body: Bytes)
    requires job.Valid() && Inv(hash, s) && HonestState(job, s)
    requires sid == job.sid && 1 <= n <= job.shape.num ==> body == Cut(job.file, job.shape, n)
    ensures HonestState(job, StartWrite(s, t, sid, n, body))
  {
    hide Inv, Cut, HonestDir, HonestRows, HonestThreads, PhaseInv;
    var p := PhaseOf(s, t);
    if StartWrite(s, t, sid, n, body) != s {
      HonestTo(job, s.threads, t, Writing(sid, s.sessions[sid].shape, n, body));
    }
  }

  lemma HonestPlace(hash: Hash, job: Job, s: State, t: Tid)
    requires job.Valid() && Inv(hash, s) && HonestState(job, s)
    ensures HonestState(job, PlaceChunk(s, t))
  {
    hide Inv, Cut, HonestDir, HonestRows, HonestThreads, PhaseInv;
    var p := PhaseOf(s, t);
    HonestNow(hash, job, s, t);
    if p.Writing? {
      HonestTo(job, s.threads, t, Bumping(p.sid, p.n));
      if p.sid == job.sid { DirGrows(job, DirOf(s, job.sid), p.n, p.body); }
    }
  }

  lemma HonestBump(hash: Hash, job: Job, s: State, t: Tid)
    requires job.Valid() && Inv(hash, s) && HonestState(job, s)
    ensures HonestState(job, Bump(s, t))
  {
    hide Inv, HonestState, PhaseInv;
    var p := PhaseOf(s, t);
    if p.Bumping? {
      if p.sid in s.sessions && s.sessions[p.sid].uploaded < p.n {
        HonestGoes(job, s, Bump(s, t), t, Idle);
      } else {
        HonestGoes(job, s, Bump(s, t), t, Idle);
      }
    }
  }

  lemma HonestFetch(hash: Hash, job: Job, s: State, t: Tid, sid: SessionId)
    requires job.Valid() && Inv(hash, s) && HonestState(job, s)
    ensures HonestState(job, Fetch(s, t, sid))
  {
    hide Inv, HonestState, PhaseInv;
    var p := PhaseOf(s, t);
    if p.Idle? && sid in s.sessions { HonestGoes(job, s, Fetch(s, t, sid), t, Fetched(sid, s.sessions[sid])); }
  }

  lemma HonestClaim(hash: Hash, job: Job, s: State, t: Tid)
    requires job.Valid() && Inv(hash, s) && HonestState(job, s)
    ensures HonestState(job, Claim(s, t))
  {
    hide Inv, HonestState, PhaseInv;
    var p := PhaseOf(s, t);
    if p.Fetched? {
      if p.sid in s.sessions && !s.sessions[p.sid].finalizing {
        HonestGoes(job, s, Claim(s, t), t, Claimed(p.sid, p.sess, 0));
      } else {
        HonestGoes(job, s, Claim(s, t), t, Idle);
      }
    }
  }

  lemma HonestStat(hash: Hash, job: Job, s: State, t: Tid)
    requires job.Valid() && Inv(hash, s) && HonestState(job, s)
    ensures HonestState(job, StatChunk(s, t))
  {
    hide Inv, HonestState, PhaseInv;
    var p := PhaseOf(s, t);
    if p.Claimed? {
      if p.seen >= p.sess.shape.num {
        HonestOpen(job, s, t, p.sid, p.sess);
      } else if p.seen + 1 in DirOf(s, p.sid) {
        HonestGoes(job, s, StatChunk(s, t), t, Claimed(p.sid, p.sess, p.seen + 1));
      } else {
        HonestGoes(job, s, StatChunk(s, t), t, Failing(p.sid));
      }
    }
  }

  lemma HonestOpen(job: Job, s: State, t: Tid, sid: SessionId, sess: Session)
    requires job.Valid() && HonestState(job, s)
    ensures HonestState(job, Goto(s, t, Copying(sid, sess, 0, [])).(stage := s.stage[sid := []]))
  {
    hide Cut, HonestDir, HonestRows, HonestThreads;
    StartCopy(job);
    HonestTo(job, s.threads, t, Copying(sid, sess, 0, []));
  }

  lemma StartCopy(job: Job)
    requires job.Valid()
    ensures job.shape.Offset(0) == 0 && job.file[..0] == []
  {
  }

  lemma HonestAppend(hash: Hash, job: Job, s: State, t: Tid)
    requires job.Valid() && Inv(hash, s) && HonestState(job, s)
    requires var p := PhaseOf(s, t); p.Copying? && p.i < p.sess.shape.num && p.i + 1 in DirOf(s, p.sid)
    ensures HonestState(job, CopyChunk(s, t))
  {
    hide Inv, Cut, HonestDir, HonestRows, HonestThreads;
    var p := PhaseOf(s, t);
    HonestNow(hash, job, s, t);
    if p.sid == job.sid { CopyPiece(job, DirOf(s, p.sid), p.i, p.acc); }
    HonestTo(job, s.threads, t, Copying(p.sid, p.sess, p.i + 1, p.acc + DirOf(s, p.sid)[p.i + 1]));
  }

  lemma HonestCopy(hash: Hash, job: Job, s: State, t: Tid)
    requires job.Valid() && Inv(hash, s) && HonestState(job, s)
    ensures HonestState(job, CopyChunk(s, t))
  {
    hide Inv, HonestState, PhaseInv;
    var p := PhaseOf(s, t);
    if p.Copying? && p.i < p.sess.shape.num {
      if p.i + 1 in DirOf(s, p.sid) {
        HonestAppend(hash, job, s, t);
      } else {
        HonestGoes(job, s, CopyChunk(s, t), t, Failing(p.sid));
      }
    }
  }

  /** Appending chunk i + 1 extends the assembled prefix of the file by one piece. */
  lemma CopyPiece(job: Job, dir: ChunkDir, i: nat, acc: Bytes)
    requires job.Valid() && HonestDir(job, dir) && i < job.shape.num && i + 1 in dir
    requires job.shape.Offset(i) <= |job.file| && acc == job.file[..job.shape.Offset(i)]
    ensures job.shape.Offset(i + 1) <= |job.file|
    ensures acc + dir[i + 1] == job.file[..job.shape.Offset(i + 1)]
  {
    ChunkBounds(job.shape, i + 1);
    assert dir[i + 1] == Cut(job.file, job.shape, i + 1);
  }

  lemma HonestWhole(hash: Hash, job: Job, s: State, t: Tid)
    requires job.Valid() && Inv(hash, s) && HonestState(job, s)
    requires var p := PhaseOf(s, t); p.Copying? && p.i >= p.sess.shape.num
    ensures var p := PhaseOf(s, t); HonestState(job, Goto(s, t, Assembled(p.sid, p.sess, p.acc)))
  {
    hide Inv, Cut, HonestDir, HonestRows, HonestThreads;
    var p := PhaseOf(s, t);
    HonestNow(hash, job, s, t);
    if p.sid == job.sid { assert job.file[..|job.file|] == job.file; }
    HonestTo(job, s.threads, t, Assembled(p.sid, p.sess, p.acc));
  }

  lemma HonestVerify(hash: Hash, job: Job, s: State, t: Tid)
    requires job.Valid() && Inv(hash, s) && HonestState(job, s)
    ensures HonestState(job, Verify(hash, s, t))
  {
    hide Inv, HonestState;
    var p := PhaseOf(s, t);
    if p.Copying? && p.i >= p.sess.shape.num {
      hide PhaseInv;
      if |p.acc| != p.sess.shape.total {
        HonestGoes(job, s, Verify(hash, s, t), t, Failing(p.sid));
      } else if p.sess.expected.Some? && hash(p.acc) != p.sess.expected.value {
        HonestGoes(job, s, Verify(hash, s, t), t, Failing(p.sid));
      } else {
        HonestWhole(hash, job, s, t);
      }
    }
  }

  lemma HonestCommit(hash: Hash, job: Job, s: State, t: Tid, iid: ImageId, format: string)
    requires job.Valid() && Inv(hash, s) && HonestState(job, s)
    ensures HonestState(job, Commit(hash, s, t, iid, format))
  {
    hide Inv, Cut, HonestDir, HonestRows, HonestThreads, PhaseInv, CommitName;
    var p := PhaseOf(s, t);
    HonestNow(hash, job, s, t);
    if p.Assembled? && iid !in s.hist.commits {
      match CommitName(s.images, p.sess.base, format, hash(p.acc))
      case None => HonestTo(job, s.threads, t, Failing(p.sid));
      case Some(f) =>
        HonestTo(job, s.threads, t, Committed(p.sid, iid, f, p.acc));
        RowsGrow(job, s.images, iid, Image(f, hash(p.acc), p.sid, p.sess.expected, p.acc));
    }
  }

  lemma HonestMove(hash: Hash, job: Job, s: State, t: Tid)
    requires job.Valid() && Inv(hash, s) && HonestState(job, s)
    ensures HonestState(job, Move(s, t))
  {
    hide Inv, HonestState, PhaseInv;
    var p := PhaseOf(s, t);
    if p.Committed? {
      if p.sid in s.stage {
        HonestGoes(job, s, Move(s, t), t, Sweeping(p.sid));
      } else {
        HonestGoes(job, s, Move(s, t), t, RenameFailed(p.sid, p.iid));
      }
    }
  }

  lemma HonestMoveFails(hash: Hash, job: Job, s: State, t: Tid)
    requires job.Valid() && Inv(hash, s) && HonestState(job, s)
    ensures HonestState(job, MoveFails(s, t))
  {
    hide Inv, HonestState, PhaseInv;
    var p := PhaseOf(s, t);
    if p.Committed? { HonestGoes(job, s, MoveFails(s, t), t, RenameFailed(p.sid, p.iid)); }
  }

  lemma HonestRollback(hash: Hash, job: Job, s: State, t: Tid, works: bool)
    requires job.Valid() && Inv(hash, s) && HonestState(job, s)
    ensures HonestState(job, Rollback(s, t, works))
  {
    hide Inv, Cut, HonestDir, HonestRows, HonestThreads, PhaseInv;
    var p := PhaseOf(s, t);
    if p.RenameFailed? {
      HonestTo(job, s.threads, t, Failing(p.sid));
      RowsShrink(job, s.images, p.iid);
    }
  }

  lemma HonestFail(hash: Hash, job: Job, s: State, t: Tid)
    requires job.Valid() && Inv(hash, s) && HonestState(job, s)
    ensures HonestState(job, FailFinalize(s, t))
  {
    hide Inv, HonestState, PhaseInv;
    var p := PhaseOf(s, t);
    if p.Claimed? || p.Copying? || p.Assembled? { HonestGoes(job, s, FailFinalize(s, t), t, Failing(p.sid)); }
  }

  lemma HonestRelease(hash: Hash, job: Job, s: State, t: Tid, works: bool)
    requires job.Valid() && Inv(hash, s) && HonestState(job, s)
    ensures HonestState(job, Release(s, t, works))
  {
    hide Inv, HonestState, PhaseInv;
    var p := PhaseOf(s, t);
    if p.Failing? {
      if works && p.sid in s.sessions {
        HonestGoes(job, s, Release(s, t, works), t, Idle);
      } else {
        HonestGoes(job, s, Release(s, t, works), t, Idle);
      }
    }
  }

  lemma HonestAbort(hash: Hash, job: Job, s: State, t: Tid, sid: SessionId)
    requires job.Valid() && Inv(hash, s) && HonestState(job, s)
    ensures HonestState(job, Abort(s, t, sid))
  {
    hide Inv, HonestState, PhaseInv;
    var p := PhaseOf(s, t);
    if p.Idle? && sid in s.sessions { HonestGoes(job, s, Abort(s, t, sid), t, Sweeping(sid)); }
  }

  lemma HonestSweep(hash: Hash, job: Job, s: State, t: Tid, ns: set<nat>, stageToo: bool)
    requires job.Valid() && Inv(hash, s) && HonestState(job, s)
    ensures HonestState(job, Sweep(s, t, ns, stageToo))
  {
    hide Inv, Cut, HonestDir, HonestRows, HonestThreads, PhaseInv;
    var p := PhaseOf(s, t);
    if p.Sweeping? && p.sid == job.sid { DirShrinks(job, DirOf(s, job.sid), ns); }
  }

  lemma HonestQuit(hash: Hash, job: Job, s: State, t: Tid)
    requires job.Valid() && Inv(hash, s) && HonestState(job, s)
    ensures HonestState(job, Quit(s, t))
  {
    hide Inv, HonestState, PhaseInv;
    var p := PhaseOf(s, t);
    if p.Writing? || p.Fetched? || p.Sweeping? { HonestGoes(job, s, Quit(s, t), t, Idle); }
  }

  lemma HonestStep(hash: Hash, job: Job, s: State, step: Step)
    requires job.Valid() && Inv(hash, s) && HonestState(job, s) && Honest(job, step)
    ensures HonestState(job, Next(hash, s, step))
  {
    hide Inv, HonestState, Create, StartWrite, PlaceChunk, Bump, Fetch, Claim, StatChunk, CopyChunk, Verify,
      Commit, Move, MoveFails, Rollback, FailFinalize, Release, Abort, Sweep, Quit;
    match step
    case DoCreate(sid, base, expected, shape) => HonestCreate(hash, job, s, sid, base, expected, shape);
    case DoStartWrite(t, sid, n, body) => HonestWrite(hash, job, s, t, sid, n, body);
    case DoPlaceChunk(t) => HonestPlace(hash, job, s, t);
    case DoBump(t) => HonestBump(hash, job, s, t);
    case DoFetch(t, sid) => HonestFetch(hash, job, s, t, sid);
    case DoClaim(t) => HonestClaim(hash, job, s, t);
    case DoStat(t) => HonestStat(hash, job, s, t);
    case DoCopy(t) => HonestCopy(hash, job, s, t);
    case DoVerify(t) => HonestVerify(hash, job, s, t);
    case DoCommit(t, iid, format) => HonestCommit(hash, job, s, t, iid, format);
    case DoMove(t) => HonestMove(hash, job, s, t);
    case DoMoveFails(t) => HonestMoveFails(hash, job, s, t);
    case DoRollback(t, works) => HonestRollback(hash, job, s, t, works);
    case DoFail(t) => HonestFail(hash, job, s, t);
    case DoRelease(t, works) => HonestRelease(hash, job, s, t, works);
    case DoAbort(t, sid) => HonestAbort(hash, job, s, t, sid);
    case DoSweep(t, ns, stageToo) => HonestSweep(hash, job, s, t, ns, stageToo);
    case DoQuit(t) => HonestQuit(hash, job, s, t);
  }

  lemma {:induction false} HonestRun(hash: Hash, job: Job, steps: seq<Step>)
    requires job.Valid() && forall k :: 0 <= k < |steps| ==> Honest(job, steps[k])
    ensures HonestState(job, Run(hash, steps))
  {
    if steps != [] {
      hide Inv, Next, Honest, HonestState;
      var n := |steps| - 1;
      HonestRun(hash, job, steps[..n]);
      RunKeepsInv(hash, steps[..n]);
      HonestStep(hash, job, Run(hash, steps[..n]), steps[n]);
    }
  }

  /** Cut a file at the chunk boundaries and upload the pieces in any order, with any
      retries, interleaved with anything: whatever the session ends up contributing to
      the catalog is that file. */
  lemma UploadReassembles(hash: Hash, job: Job, steps: seq<Step>, i: ImageId)
    requires job.Valid() && forall k :: 0 <= k < |steps| ==> Honest(job, steps[k])
    requires i in Run(hash, steps).images && Run(hash, steps).images[i].origin == job.sid
    requires i !in Run(hash, steps).hist.lost && !IsPending(Run(hash, steps).threads, i)
    ensures var s := Run(hash, steps);
            && s.images[i].filename in s.files && s.files[s.images[i].filename] == job.file
            && s.images[i].sha == hash(job.file)
  {
    hide ShapeInv, ClaimInv, CommitInv, ThreadsInv, IsPending, HonestDir, HonestThreads;
    RunKeepsInv(hash, steps);
    HonestRun(hash, job, steps);
  }
}
