/** Which catalog rows have their file, exactly, and whose hash they carry. */
module UploadCatalog {
  import opened Basics
  import opened Chunks
  import opened Filenames
  import opened Uploads
  import opened UploadProofs

  type Announced = map<SessionId, Option<Digest>>
  type Files = map<string, Bytes>

  /** Every file in the catalog directory belongs to a settled row whose rename worked. */
  ghost predicate Placed(images: Images, files: Files, lost: set<ImageId>, threads: Threads) {
    forall f :: f in files ==> HasRow(images, lost, threads, f)
  }

  ghost predicate HasRow(images: Images, lost: set<ImageId>, threads: Threads, f: string) {
    exists i :: i in images && i !in lost && !IsPending(threads, i) && images[i].filename == f
  }

  ghost predicate LostOk(lost: set<ImageId>, commits: Commits, threads: Threads) {
    forall i :: i in lost ==> i in commits && !IsPending(threads, i)
  }

  /** The session row a finalizer works from. */
  function Snapshot(p: Phase): Option<(SessionId, Session)> {
    match p
    case Fetched(sid, sess) => Some((sid, sess))
    case Claimed(sid, sess, _) => Some((sid, sess))
    case Copying(sid, sess, _, _) => Some((sid, sess))
    case Assembled(sid, sess, _) => Some((sid, sess))
    case _ => None
  }

  predicate Knows(announced: Announced, p: Phase) {
    match Snapshot(p)
    case None => true
    case Some((sid, sess)) => sid in announced && announced[sid] == sess.expected
  }

  /** Rows, snapshots and images carry the hash given when the session was created. */
  ghost predicate Told(announced: Announced, shapes: Shapes, sessions: Sessions, threads: Threads, images: Images) {
    && (forall sid :: sid in announced ==> sid in shapes)
    && (forall sid :: sid in sessions ==> sid in announced && announced[sid] == sessions[sid].expected)
    && (forall t :: t in threads ==> Knows(announced, threads[t]))
    && (forall i :: i in images ==> images[i].origin in announced && announced[images[i].origin] == images[i].expected)
  }

  ghost predicate Extra(s: State) {
    && Placed(s.images, s.files, s.hist.lost, s.threads)
    && LostOk(s.hist.lost, s.hist.commits, s.threads)
    && Told(s.hist.announced, s.hist.shapes, s.sessions, s.threads, s.images)
  }

  // ---------------------------------------------------------------- who is pending

  function Now(threads: Threads, t: Tid): Phase {
    if t in threads then threads[t] else Idle
  }

  /** A goroutine that is pending on nothing, before and after, changes nobody's status. */
  lemma PendingSame(threads: Threads, t: Tid, p: Phase, i: ImageId)
    requires Pending(Now(threads, t)) == Pending(p)
    ensures IsPending(threads[t := p], i) <==> IsPending(threads, i)
  {
    var threads' := threads[t := p];
    if IsPending(threads, i) {
      var u :| u in threads && Pending(threads[u]) == Some(i);
      assert u in threads' && Pending(threads'[u]) == Some(i);
    }
    if IsPending(threads', i) {
      var u :| u in threads' && Pending(threads'[u]) == Some(i);
      assert u in threads && Pending(threads[u]) == Some(i);
    }
  }

  lemma PendingAdds(threads: Threads, t: Tid, p: Phase, i: ImageId)
    requires Pending(Now(threads, t)).None? && Pending(p).Some?
    ensures IsPending(threads[t := p], i) <==> i == Pending(p).value || IsPending(threads, i)
  {
    var threads' := threads[t := p];
    if IsPending(threads, i) {
      var u :| u in threads && Pending(threads[u]) == Some(i);
      assert u in threads' && Pending(threads'[u]) == Some(i);
    }
    assert t in threads' && threads'[t] == p;
  }

  lemma PendingHolds(hash: Hash, s: State, t: Tid)
    requires Inv(hash, s) && t in s.threads && Pending(s.threads[t]).Some?
    ensures var i := Pending(s.threads[t]).value; i in s.images && Holds(s.threads[t]) == Some(s.images[i].origin)
  {
    hide CatalogInv, ShapeInv, ClaimInv, CommitInv;
    assert PhaseInv(hash, s, s.threads[t]);
  }

  /** At most one goroutine is pending on an image, so it stops being pending with that one. */
  lemma PendingDrops(hash: Hash, s: State, t: Tid, p: Phase, i: ImageId)
    requires Inv(hash, s) && Pending(PhaseOf(s, t)).Some? && Pending(p).None?
    ensures IsPending(s.threads[t := p], i) <==> IsPending(s.threads, i) && i != Pending(PhaseOf(s, t)).value
  {
    hide CatalogInv, ShapeInv;
    var threads' := s.threads[t := p];
    if IsPending(s.threads, i) && i != Pending(PhaseOf(s, t)).value {
      var u :| u in s.threads && Pending(s.threads[u]) == Some(i);
      assert u in threads' && Pending(threads'[u]) == Some(i);
    }
    if IsPending(threads', i) {
      var u :| u in threads' && Pending(threads'[u]) == Some(i);
      assert u != t && u in s.threads && s.threads[u] == threads'[u];
      PendingHolds(hash, s, u);
      PendingHolds(hash, s, t);
    }
  }

  // ---------------------------------------------------------------- steps

  /** A step that moves goroutine t between phases with nothing pending. */
  lemma Walks(s: State, s': State, t: Tid, p: Phase)
    requires Extra(s) && s'.threads == s.threads[t := p] && Pending(PhaseOf(s, t)).None? && Pending(p).None?
    requires Knows(s.hist.announced, p)
    requires s'.images == s.images && s'.files == s.files && s'.hist.lost == s.hist.lost && s'.hist.commits == s.hist.commits
    requires s'.hist.announced == s.hist.announced && s'.hist.shapes == s.hist.shapes
    requires forall sid :: sid in s'.sessions ==> sid in s.sessions && s'.sessions[sid].expected == s.sessions[sid].expected
    ensures Extra(s')
  {
    hide IsPending, Knows;
    forall i ensures IsPending(s'.threads, i) <==> IsPending(s.threads, i) { PendingSame(s.threads, t, p, i); }
    forall f | f in s'.files ensures HasRow(s'.images, s'.hist.lost, s'.threads, f) {
      assert HasRow(s.images, s.hist.lost, s.threads, f);
    }
  }

  lemma KnowsNow(s: State, t: Tid)
    requires Extra(s)
    ensures Knows(s.hist.announced, PhaseOf(s, t))
  {
    hide Placed, LostOk;
  }

  lemma CreateExtra(s: State, sid: SessionId, base: Name, expected: Option<Digest>, shape: Shape)
    requires Extra(s)
    ensures Extra(Create(s, sid, base, expected, shape))
  {
    hide Placed, LostOk;
  }

  lemma WriteExtra(s: State, t: Tid, sid: SessionId, n: nat, body: Bytes)
    requires Extra(s)
    ensures Extra(StartWrite(s, t, sid, n, body))
  {
    hide Extra;
    if PhaseOf(s, t).Idle? && sid in s.sessions && !s.sessions[sid].finalizing
       && 1 <= n <= s.sessions[sid].shape.num && |body| == s.sessions[sid].shape.ChunkLen(n)
    {
      Walks(s, StartWrite(s, t, sid, n, body), t, Writing(sid, s.sessions[sid].shape, n, body));
    }
  }

  lemma PlaceExtra(s: State, t: Tid)
    requires Extra(s)
    ensures Extra(PlaceChunk(s, t))
  {
    hide Extra;
    var p := PhaseOf(s, t);
    if p.Writing? { Walks(s, PlaceChunk(s, t), t, Bumping(p.sid, p.n)); }
  }

  lemma BumpExtra(s: State, t: Tid)
    requires Extra(s)
    ensures Extra(Bump(s, t))
  {
    hide Extra;
    var p := PhaseOf(s, t);
    if p.Bumping? {
      if p.sid in s.sessions && s.sessions[p.sid].uploaded < p.n {
        Walks(s, Bump(s, t), t, Idle);
      } else {
        Walks(s, Bump(s, t), t, Idle);
      }
    }
  }

  lemma FetchExtra(s: State, t: Tid, sid: SessionId)
    requires Extra(s)
    ensures Extra(Fetch(s, t, sid))
  {
    hide Placed, LostOk;
    if PhaseOf(s, t).Idle? && sid in s.sessions { Walks(s, Fetch(s, t, sid), t, Fetched(sid, s.sessions[sid])); }
  }

  lemma ClaimExtra(s: State, t: Tid)
    requires Extra(s)
    ensures Extra(Claim(s, t))
  {
    hide Extra;
    var p := PhaseOf(s, t);
    KnowsNow(s, t);
    if p.Fetched? {
      if p.sid in s.sessions && !s.sessions[p.sid].finalizing {
        Walks(s, Claim(s, t), t, Claimed(p.sid, p.sess, 0));
      } else {
        Walks(s, Claim(s, t), t, Idle);
      }
    }
  }

  lemma StatExtra(s: State, t: Tid)
    requires Extra(s)
    ensures Extra(StatChunk(s, t))
  {
    hide Extra;
    var p := PhaseOf(s, t);
    KnowsNow(s, t);
    if p.Claimed? {
      if p.seen >= p.sess.shape.num {
        Walks(s, StatChunk(s, t), t, Copying(p.sid, p.sess, 0, []));
      } else if p.seen + 1 in DirOf(s, p.sid) {
        Walks(s, StatChunk(s, t), t, Claimed(p.sid, p.sess, p.seen + 1));
      } else {
        Walks(s, StatChunk(s, t), t, Failing(p.sid));
      }
    }
  }

  lemma CopyExtra(s: State, t: Tid)
    requires Extra(s)
    ensures Extra(CopyChunk(s, t))
  {
    hide Extra;
    var p := PhaseOf(s, t);
    KnowsNow(s, t);
    if p.Copying? && p.i < p.sess.shape.num {
      if p.i + 1 in DirOf(s, p.sid) {
        Walks(s, CopyChunk(s, t), t, Copying(p.sid, p.sess, p.i + 1, p.acc + DirOf(s, p.sid)[p.i + 1]));
      } else {
        Walks(s, CopyChunk(s, t), t, Failing(p.sid));
      }
    }
  }

  lemma VerifyExtra(hash: Hash, s: State, t: Tid)
    requires Extra(s)
    ensures Extra(Verify(hash, s, t))
  {
    hide Extra;
    var p := PhaseOf(s, t);
    KnowsNow(s, t);
    if p.Copying? && p.i >= p.sess.shape.num {
      if |p.acc| != p.sess.shape.total {
        Walks(s, Verify(hash, s, t), t, Failing(p.sid));
      } else if p.sess.expected.Some? && hash(p.acc) != p.sess.expected.value {
        Walks(s, Verify(hash, s, t), t, Failing(p.sid));
      } else {
        Walks(s, Verify(hash, s, t), t, Assembled(p.sid, p.sess, p.acc));
      }
    }
  }

  lemma CommitExtra(hash: Hash, s: State, t: Tid, iid: ImageId, format: string)
    requires Inv(hash, s) && Extra(s)
    ensures Extra(Commit(hash, s, t, iid, format))
  {
    hide Inv, Extra, CommitName;
    var p := PhaseOf(s, t);
    if p.Assembled? && iid !in s.hist.commits {
      match CommitName(s.images, p.sess.base, format, hash(p.acc))
      case None => Walks(s, Commit(hash, s, t, iid, format), t, Failing(p.sid));
      case Some(f) => Commits(hash, s, t, iid, f, Commit(hash, s, t, iid, format));
    }
  }

  /** The state right after a commit. */
  ghost predicate Committing(hash: Hash, s: State, t: Tid, iid: ImageId, f: string, s': State) {
    var p := PhaseOf(s, t);
    && p.Assembled? && iid !in s.hist.commits
    && s'.threads == s.threads[t := Committed(p.sid, iid, f, p.acc)]
    && s'.images == s.images[iid := Image(f, hash(p.acc), p.sid, p.sess.expected, p.acc)]
    && s'.hist == s.hist.(commits := s.hist.commits[iid := p.sid]) && s'.sessions == s.sessions - {p.sid}
    && s'.files == s.files
  }

  lemma CommitPlaced(hash: Hash, s: State, t: Tid, iid: ImageId, f: string, s': State)
    requires Extra(s) && Committing(hash, s, t, iid, f, s') && iid !in s.images
    ensures Placed(s'.images, s'.files, s'.hist.lost, s'.threads) && LostOk(s'.hist.lost, s'.hist.commits, s'.threads)
  {
    hide IsPending, Told;
    var p := PhaseOf(s, t);
    forall i ensures IsPending(s'.threads, i) <==> i == iid || IsPending(s.threads, i) {
      PendingAdds(s.threads, t, Committed(p.sid, iid, f, p.acc), i);
    }
    forall g | g in s'.files ensures HasRow(s'.images, s'.hist.lost, s'.threads, g) {
      assert HasRow(s.images, s.hist.lost, s.threads, g);
      var i :| i in s.images && i !in s.hist.lost && !IsPending(s.threads, i) && s.images[i].filename == g;
      assert i in s'.images && s'.images[i] == s.images[i];
    }
  }

  lemma CommitTold(hash: Hash, s: State, t: Tid, iid: ImageId, f: string, s': State)
    requires Extra(s) && Committing(hash, s, t, iid, f, s')
    ensures Told(s'.hist.announced, s'.hist.shapes, s'.sessions, s'.threads, s'.images)
  {
    hide Placed, LostOk;
    KnowsNow(s, t);
  }

  lemma Commits(hash: Hash, s: State, t: Tid, iid: ImageId, f: string, s': State)
    requires Inv(hash, s) && Extra(s) && Committing(hash, s, t, iid, f, s')
    ensures Extra(s')
  {
    hide ShapeInv, ClaimInv, CatalogInv, ThreadsInv, Placed, Told, LostOk, Committing;
    assert iid !in s.images by { NewImage(hash, s, t, iid, f, s'); }
    CommitPlaced(hash, s, t, iid, f, s');
    CommitTold(hash, s, t, iid, f, s');
  }

  lemma NewImage(hash: Hash, s: State, t: Tid, iid: ImageId, f: string, s': State)
    requires Inv(hash, s) && Committing(hash, s, t, iid, f, s')
    ensures iid !in s.images
  {
    hide ShapeInv, ClaimInv, CatalogInv, ThreadsInv;
  }

  /** The image a goroutine is pending on exists and is neither lost nor settled. */
  lemma PendingRow(hash: Hash, s: State, t: Tid)
    requires Inv(hash, s) && Extra(s) && Pending(PhaseOf(s, t)).Some?
    ensures var i := Pending(PhaseOf(s, t)).value;
            i in s.images && i in s.hist.commits && i !in s.hist.lost && IsPending(s.threads, i)
  {
    hide ShapeInv, ClaimInv, CatalogInv, Placed, Told;
    assert PhaseInv(hash, s, s.threads[t]);
    assert Pending(s.threads[t]) == Some(Pending(PhaseOf(s, t)).value);
  }

  /** What becomes of the image a goroutine was pending on: its file arrives, its row is
      dropped, or it is lost. */
  predicate Outcome(s: State, s': State, i: ImageId)
    requires i in s.images
  {
    || (s'.images == s.images && s'.hist == s.hist && s'.files.Keys == s.files.Keys + {s.images[i].filename})
    || (s'.files == s.files && s'.images == s.images - {i} && s'.hist == s.hist)
    || (s'.files == s.files && s'.images == s.images && s'.hist == s.hist.(lost := s.hist.lost + {i}))
  }

  lemma OutcomePlaced(s: State, s': State, iid: ImageId)
    requires Placed(s.images, s.files, s.hist.lost, s.threads) && iid in s.images && iid !in s.hist.lost
    requires IsPending(s.threads, iid) && Outcome(s, s', iid)
    requires forall i :: IsPending(s'.threads, i) <==> IsPending(s.threads, i) && i != iid
    ensures Placed(s'.images, s'.files, s'.hist.lost, s'.threads)
  {
    hide IsPending;
    forall f | f in s'.files ensures HasRow(s'.images, s'.hist.lost, s'.threads, f) {
      if f in s.files {
        assert HasRow(s.images, s.hist.lost, s.threads, f);
        var i :| i in s.images && i !in s.hist.lost && !IsPending(s.threads, i) && s.images[i].filename == f;
        assert i in s'.images && i !in s'.hist.lost && !IsPending(s'.threads, i) && s'.images[i].filename == f;
      } else {
        assert iid in s'.images && iid !in s'.hist.lost && !IsPending(s'.threads, iid) && s'.images[iid].filename == f;
      }
    }
  }

  lemma OutcomeTold(s: State, s': State, t: Tid, p: Phase, iid: ImageId)
    requires Told(s.hist.announced, s.hist.shapes, s.sessions, s.threads, s.images) && Snapshot(p).None?
    requires iid in s.images && Outcome(s, s', iid) && s'.threads == s.threads[t := p] && s'.sessions == s.sessions
    ensures Told(s'.hist.announced, s'.hist.shapes, s'.sessions, s'.threads, s'.images)
  {
    assert Knows(s.hist.announced, p);
    hide Knows;
  }

  /** A goroutine stops being pending: by the rename, or by giving up on it. */
  lemma Settles(hash: Hash, s: State, t: Tid, p: Phase, s': State)
    requires Inv(hash, s) && Extra(s) && Pending(PhaseOf(s, t)).Some? && Pending(p).None? && Snapshot(p).None?
    requires s'.threads == s.threads[t := p] && s'.sessions == s.sessions
    requires Pending(PhaseOf(s, t)).value in s.images && Outcome(s, s', Pending(PhaseOf(s, t)).value)
    ensures Extra(s')
  {
    hide Inv, IsPending, Placed, Told, Snapshot;
    PendingRow(hash, s, t);
    var iid := Pending(PhaseOf(s, t)).value;
    forall i ensures IsPending(s'.threads, i) <==> IsPending(s.threads, i) && i != iid { PendingDrops(hash, s, t, p, i); }
    OutcomePlaced(s, s', iid);
    OutcomeTold(s, s', t, p, iid);
  }

  lemma MoveExtra(hash: Hash, s: State, t: Tid)
    requires Inv(hash, s) && Extra(s)
    ensures Extra(Move(s, t))
  {
    hide Inv, Extra;
    var p := PhaseOf(s, t);
    if p.Committed? {
      PendingRow(hash, s, t);
      if p.sid in s.stage {
        CommittedName(hash, s, t);
        Settles(hash, s, t, Sweeping(p.sid), Move(s, t));
      } else {
        Stalls(s, Move(s, t), t, RenameFailed(p.sid, p.iid));
      }
    }
  }

  lemma CommittedName(hash: Hash, s: State, t: Tid)
    requires Inv(hash, s) && PhaseOf(s, t).Committed?
    ensures var p := PhaseOf(s, t); p.iid in s.images && s.images[p.iid].filename == p.name
  {
    hide Inv;
    OwnPhase(hash, s, t);
  }

  /** The rename fails: the goroutine stays pending on the same image. */
  lemma Stalls(s: State, s': State, t: Tid, p: Phase)
    requires Extra(s) && s' == Goto(s, t, p) && Pending(PhaseOf(s, t)) == Pending(p) && Snapshot(p).None?
    ensures Extra(s')
  {
    hide IsPending;
    forall i ensures IsPending(s'.threads, i) <==> IsPending(s.threads, i) { PendingSame(s.threads, t, p, i); }
    forall f | f in s'.files ensures HasRow(s'.images, s'.hist.lost, s'.threads, f) {
      assert HasRow(s.images, s.hist.lost, s.threads, f);
    }
  }

  lemma MoveFailsExtra(s: State, t: Tid)
    requires Extra(s)
    ensures Extra(MoveFails(s, t))
  {
    hide Extra;
    var p := PhaseOf(s, t);
    if p.Committed? { Stalls(s, MoveFails(s, t), t, RenameFailed(p.sid, p.iid)); }
  }

  lemma RollbackExtra(hash: Hash, s: State, t: Tid, works: bool)
    requires Inv(hash, s) && Extra(s)
    ensures Extra(Rollback(s, t, works))
  {
    hide Inv, Extra;
    var p := PhaseOf(s, t);
    if p.RenameFailed? { PendingRow(hash, s, t); Settles(hash, s, t, Failing(p.sid), Rollback(s, t, works)); }
  }

  lemma FailExtra(s: State, t: Tid)
    requires Extra(s)
    ensures Extra(FailFinalize(s, t))
  {
    hide Extra;
    var p := PhaseOf(s, t);
    if p.Claimed? || p.Copying? || p.Assembled? { Walks(s, FailFinalize(s, t), t, Failing(p.sid)); }
  }

  lemma ReleaseExtra(s: State, t: Tid, works: bool)
    requires Extra(s)
    ensures Extra(Release(s, t, works))
  {
    hide Extra;
    var p := PhaseOf(s, t);
    if p.Failing? {
      if works && p.sid in s.sessions {
        Walks(s, Release(s, t, works), t, Idle);
      } else {
        Walks(s, Release(s, t, works), t, Idle);
      }
    }
  }

  lemma AbortExtra(s: State, t: Tid, sid: SessionId)
    requires Extra(s)
    ensures Extra(Abort(s, t, sid))
  {
    hide Extra;
    if PhaseOf(s, t).Idle? && sid in s.sessions { Walks(s, Abort(s, t, sid), t, Sweeping(sid)); }
  }

  lemma SweepExtra(s: State, t: Tid, ns: set<nat>, stageToo: bool)
    requires Extra(s)
    ensures Extra(Sweep(s, t, ns, stageToo))
  {
    hide Placed, LostOk, Told;
  }

  lemma QuitExtra(s: State, t: Tid)
    requires Extra(s)
    ensures Extra(Quit(s, t))
  {
    hide Extra;
    var p := PhaseOf(s, t);
    if p.Writing? || p.Fetched? || p.Sweeping? { Walks(s, Quit(s, t), t, Idle); }
  }

  lemma StepExtra(hash: Hash, s: State, step: Step)
    requires Inv(hash, s) && Extra(s)
    ensures Extra(Next(hash, s, step))
  {
    hide Inv, Extra, Create, StartWrite, PlaceChunk, Bump, Fetch, Claim, StatChunk, CopyChunk, Verify,
      Commit, Move, MoveFails, Rollback, FailFinalize, Release, Abort, Sweep, Quit;
    match step
    case DoCreate(sid, base, expected, shape) => CreateExtra(s, sid, base, expected, shape);
    case DoStartWrite(t, sid, n, body) => WriteExtra(s, t, sid, n, body);
    case DoPlaceChunk(t) => PlaceExtra(s, t);
    case DoBump(t) => BumpExtra(s, t);
    case DoFetch(t, sid) => FetchExtra(s, t, sid);
    case DoClaim(t) => ClaimExtra(s, t);
    case DoStat(t) => StatExtra(s, t);
    case DoCopy(t) => CopyExtra(s, t);
    case DoVerify(t) => VerifyExtra(hash, s, t);
    case DoCommit(t, iid, format) => CommitExtra(hash, s, t, iid, format);
    case DoMove(t) => MoveExtra(hash, s, t);
    case DoMoveFails(t) => MoveFailsExtra(s, t);
    case DoRollback(t, works) => RollbackExtra(hash, s, t, works);
    case DoFail(t) => FailExtra(s, t);
    case DoRelease(t, works) => ReleaseExtra(s, t, works);
    case DoAbort(t, sid) => AbortExtra(s, t, sid);
    case DoSweep(t, ns, stageToo) => SweepExtra(s, t, ns, stageToo);
    case DoQuit(t) => QuitExtra(s, t);
  }

  lemma {:induction false} RunExtra(hash: Hash, steps: seq<Step>)
    ensures Extra(Run(hash, steps))
  {
    if steps != [] {
      hide Inv, Next, Extra;
      var n := |steps| - 1;
      RunExtra(hash, steps[..n]);
      RunKeepsInv(hash, steps[..n]);
      StepExtra(hash, Run(hash, steps[..n]), steps[n]);
    }
  }

  // ---------------------------------------------------------------- theorems

  /** Catalog integrity, exactly.  A row that is not between its commit and its rename has
      its file on disk, with the bytes that were hashed, if and only if the rename and the
      compensating delete did not both fail; a row that lost both has no file under its name.
      The row's sha256 is the hash of those bytes, and it is the hash the client announced
      when it created the session, if it announced one. */
  lemma CatalogIntegrity(hash: Hash, steps: seq<Step>, i: ImageId)
    requires i in Run(hash, steps).images && !IsPending(Run(hash, steps).threads, i)
    ensures var s := Run(hash, steps);
            var row := s.images[i];
            && (i !in s.hist.lost <==> row.filename in s.files && s.files[row.filename] == row.bytes)
            && (i in s.hist.lost ==> row.filename !in s.files)
            && row.sha == hash(row.bytes)
            && row.origin in s.hist.announced
            && (s.hist.announced[row.origin].Some? ==> s.hist.announced[row.origin].value == row.sha)
  {
    RunKeepsInv(hash, steps);
    RunExtra(hash, steps);
    hide Run, IsPending, ShapeInv, ClaimInv, ThreadsInv;
    var s := Run(hash, steps);
    if s.images[i].filename in s.files {
      assert HasRow(s.images, s.hist.lost, s.threads, s.images[i].filename);
    }
  }

  /** The catalog table and the lost rows are as before. */
  predicate SameTable(s: State, s': State) {
    s'.images == s.images && s'.hist.lost == s.hist.lost
  }

  lemma WritesKeepTable(s: State, t: Tid, sid: SessionId, n: nat, body: Bytes)
    ensures SameTable(s, StartWrite(s, t, sid, n, body)) && SameTable(s, PlaceChunk(s, t)) && SameTable(s, Bump(s, t))
    ensures SameTable(s, Abort(s, t, sid)) && SameTable(s, Quit(s, t))
  {
  }

  lemma ReadsKeepTable(s: State, t: Tid, sid: SessionId)
    ensures SameTable(s, Fetch(s, t, sid)) && SameTable(s, Claim(s, t))
  {
  }

  lemma LoopsKeepTable(s: State, t: Tid)
    ensures SameTable(s, StatChunk(s, t)) && SameTable(s, CopyChunk(s, t))
  {
  }

  lemma EndsKeepTable(s: State, t: Tid, works: bool)
    ensures SameTable(s, FailFinalize(s, t)) && SameTable(s, Release(s, t, works))
  {
  }

  lemma MovesKeepTable(hash: Hash, s: State, t: Tid)
    ensures SameTable(s, Verify(hash, s, t)) && SameTable(s, Move(s, t)) && SameTable(s, MoveFails(s, t))
  {
  }

  lemma OthersKeepTable(s: State, sid: SessionId, base: Name, expected: Option<Digest>, shape: Shape, t: Tid, ns: set<nat>, stageToo: bool)
    ensures SameTable(s, Create(s, sid, base, expected, shape)) && SameTable(s, Sweep(s, t, ns, stageToo))
  {
  }

  /** A lost row keeps its place and its name, and stays lost. */
  predicate StillLost(s: State, s': State, i: ImageId)
    requires i in s.images
  {
    i in s'.images && s'.images[i] == s.images[i] && i in s'.hist.lost
  }

  lemma SameStillLost(s: State, s': State, i: ImageId)
    requires SameTable(s, s') && i in s.images && i in s.hist.lost
    ensures StillLost(s, s', i)
  {
  }

  lemma LostCommit(hash: Hash, s: State, t: Tid, iid: ImageId, format: string, i: ImageId)
    requires LostOk(s.hist.lost, s.hist.commits, s.threads) && i in s.images && i in s.hist.lost
    ensures StillLost(s, Commit(hash, s, t, iid, format), i)
  {
    hide CommitName, IsPending;
  }

  lemma LostRollback(hash: Hash, s: State, t: Tid, works: bool, i: ImageId)
    requires Inv(hash, s) && Extra(s) && i in s.images && i in s.hist.lost
    ensures StillLost(s, Rollback(s, t, works), i)
  {
    hide Inv, Extra;
    if PhaseOf(s, t).RenameFailed? { PendingRow(hash, s, t); }
  }

  /** Only commits and rollbacks touch the catalog table. */
  lemma TableKept(hash: Hash, s: State, step: Step)
    requires !step.DoCommit? && !step.DoRollback?
    ensures SameTable(s, Next(hash, s, step))
  {
    hide SameTable, Create, StartWrite, PlaceChunk, Bump, Fetch, Claim, StatChunk, CopyChunk, Verify,
      Move, MoveFails, FailFinalize, Release, Abort, Sweep, Quit;
    match step {
      case DoCreate(sid, base, expected, shape) => OthersKeepTable(s, sid, base, expected, shape, 0, {}, false);
      case DoStartWrite(t, sid, n, body) => WritesKeepTable(s, t, sid, n, body);
      case DoPlaceChunk(t) => WritesKeepTable(s, t, 0, 0, []);
      case DoBump(t) => WritesKeepTable(s, t, 0, 0, []);
      case DoAbort(t, sid) => WritesKeepTable(s, t, sid, 0, []);
      case DoQuit(t) => WritesKeepTable(s, t, 0, 0, []);
      case DoFetch(t, sid) => ReadsKeepTable(s, t, sid);
      case DoClaim(t) => ReadsKeepTable(s, t, 0);
      case DoStat(t) => LoopsKeepTable(s, t);
      case DoCopy(t) => LoopsKeepTable(s, t);
      case DoVerify(t) => MovesKeepTable(hash, s, t);
      case DoMove(t) => MovesKeepTable(hash, s, t);
      case DoMoveFails(t) => MovesKeepTable(hash, s, t);
      case DoFail(t) => EndsKeepTable(s, t, true);
      case DoRelease(t, works) => EndsKeepTable(s, t, works);
      case DoSweep(t, ns, stageToo) =>
        OthersKeepTable(s, 0, "x", None, Shape(0, 0, 0), t, ns, stageToo);
    }
  }

  lemma LostStep(hash: Hash, s: State, step: Step, i: ImageId)
    requires Inv(hash, s) && Extra(s) && i in s.images && i in s.hist.lost
    ensures StillLost(s, Next(hash, s, step), i)
  {
    hide Inv, Placed, Told, LostOk, SameTable, StillLost, Create, StartWrite, PlaceChunk, Bump, Fetch, Claim, StatChunk,
      CopyChunk, Verify, Commit, Move, MoveFails, Rollback, FailFinalize, Release, Abort, Sweep, Quit;
    if step.DoCommit? {
      LostCommit(hash, s, step.t, step.iid, step.format, i);
    } else if step.DoRollback? {
      LostRollback(hash, s, step.t, step.works, i);
    } else {
      TableKept(hash, s, step);
      SameStillLost(s, Next(hash, s, step), i);
    }
  }

  /** Whatever happens next, a lost row stays as it is. */
  lemma {:induction false} LostForever(hash: Hash, steps: seq<Step>, more: seq<Step>, i: ImageId)
    requires i in Run(hash, steps).images && i in Run(hash, steps).hist.lost
    ensures var s, s' := Run(hash, steps), Run(hash, steps + more);
            i in s'.images && s'.images[i] == s.images[i] && i in s'.hist.lost
  {
    hide Inv, Next, Extra;
    if more == [] {
      assert steps + more == steps;
    } else {
      var n := |more| - 1;
      var before := steps + more[..n];
      assert (steps + more)[..|steps| + n] == before;
      LostForever(hash, steps, more[..n], i);
      RunKeepsInv(hash, before);
      RunExtra(hash, before);
      LostStep(hash, Run(hash, before), more[n], i);
    }
  }
}
