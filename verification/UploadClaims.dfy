/** A finalize claim is never left behind (internal/images/uploads.go): every error return
    after the claim leads to the deferred release. */
module UploadClaims {
  import opened Basics
  import opened Chunks
  import opened Filenames
  import opened Uploads
  import opened UploadProofs

  ghost predicate Held(threads: Threads, sid: SessionId) {
    exists t :: t in threads && Holds(threads[t]) == Some(sid)
  }

  /** A session is "finalizing" because a finalizer holds its claim or because the statement
      that should have released it failed, and not for both reasons. */
  ghost predicate Accounted(sessions: Sessions, threads: Threads, leaked: set<SessionId>) {
    forall sid :: sid in sessions ==> RowAccounted(sessions[sid].finalizing, Held(threads, sid), sid in leaked)
  }

  predicate RowAccounted(finalizing: bool, held: bool, leaked: bool) {
    (finalizing <==> held || leaked) && !(held && leaked)
  }

  ghost predicate Claims(s: State) {
    Accounted(s.sessions, s.threads, s.hist.leaked) && (forall sid :: sid in s.hist.leaked ==> sid in s.hist.shapes)
  }

  lemma HeldBy(threads: Threads, t: Tid, sid: SessionId)
    requires t in threads && Holds(threads[t]) == Some(sid)
    ensures Held(threads, sid)
  {
  }

  /** A goroutine that moves changes at most who holds what it held and what it now holds. */
  lemma HeldMoves(threads: Threads, t: Tid, p: Phase, sid: SessionId)
    ensures Holds(p) == Some(sid) ==> Held(threads[t := p], sid)
    ensures (t !in threads || Holds(threads[t]) != Some(sid)) && Holds(p) != Some(sid) ==>
      (Held(threads[t := p], sid) <==> Held(threads, sid))
  {
    hide Holds;
    var threads' := threads[t := p];
    if Holds(p) == Some(sid) { assert t in threads' && threads'[t] == p; }
    if Held(threads, sid) {
      var u :| u in threads && Holds(threads[u]) == Some(sid);
      assert u != t ==> u in threads' && threads'[u] == threads[u];
    }
    if Held(threads', sid) {
      var u :| u in threads' && Holds(threads'[u]) == Some(sid);
      assert u != t ==> u in threads && threads'[u] == threads[u];
    }
  }

  /** Rows only disappear or keep their flag. */
  predicate FlagsKept(a: Sessions, b: Sessions) {
    forall sid :: sid in b ==> sid in a && a[sid].finalizing == b[sid].finalizing
  }

  /** A goroutine that goes on holding what it held. */
  lemma Steady(s: State, s': State, t: Tid, p: Phase)
    requires Claims(s) && s'.threads == s.threads[t := p] && Holds(PhaseOf(s, t)) == Holds(p)
    requires FlagsKept(s.sessions, s'.sessions) && s'.hist.leaked == s.hist.leaked && s'.hist.shapes == s.hist.shapes
    ensures Claims(s')
  {
    hide Held, Holds;
    forall sid | sid in s'.sessions ensures RowAccounted(s'.sessions[sid].finalizing, Held(s'.threads, sid), sid in s'.hist.leaked) {
      assert RowAccounted(s.sessions[sid].finalizing, Held(s.threads, sid), sid in s.hist.leaked);
      HeldMoves(s.threads, t, p, sid);
      if Holds(p) == Some(sid) { HeldNow(s, t, sid); }
    }
  }

  lemma HeldNow(s: State, t: Tid, sid: SessionId)
    requires Holds(PhaseOf(s, t)) == Some(sid)
    ensures Held(s.threads, sid)
  {
  }

  /** The only holder of a session lets go of it. */
  lemma LetsGo(hash: Hash, s: State, s': State, t: Tid, p: Phase, sid: SessionId)
    requires Inv(hash, s) && Claims(s) && s'.threads == s.threads[t := p]
    requires Holds(PhaseOf(s, t)) == Some(sid) && Holds(p).None?
    requires forall x :: x in s'.sessions && x != sid ==> x in s.sessions && s'.sessions[x].finalizing == s.sessions[x].finalizing
    requires s'.hist.shapes == s.hist.shapes && (forall x :: x != sid ==> (x in s'.hist.leaked <==> x in s.hist.leaked))
    requires sid in s'.hist.leaked ==> sid in s.hist.shapes
    requires sid in s'.sessions ==> s'.sessions[sid].finalizing == (sid in s'.hist.leaked)
    ensures Claims(s')
  {
    hide Held, Holds, Inv;
    NotHeldBut(hash, s, t, p, sid);
    forall x | x in s'.sessions ensures RowAccounted(s'.sessions[x].finalizing, Held(s'.threads, x), x in s'.hist.leaked) {
      if x != sid {
        assert RowAccounted(s.sessions[x].finalizing, Held(s.threads, x), x in s.hist.leaked);
        HeldMoves(s.threads, t, p, x);
      }
    }
  }

  lemma NotHeldBut(hash: Hash, s: State, t: Tid, p: Phase, sid: SessionId)
    requires Inv(hash, s) && Holds(PhaseOf(s, t)) == Some(sid) && Holds(p) != Some(sid)
    ensures !Held(s.threads[t := p], sid)
  {
    hide ShapeInv, CommitInv, CatalogInv, ThreadsInv;
    var threads' := s.threads[t := p];
    forall u | u in threads' ensures Holds(threads'[u]) != Some(sid) {
      if u != t { assert u in s.threads && threads'[u] == s.threads[u]; }
    }
  }

  // ---------------------------------------------------------------- one lemma per operation

  lemma CreateClaims(hash: Hash, s: State, id: SessionId, base: Name, expected: Option<Digest>, shape: Shape)
    requires Inv(hash, s) && Claims(s)
    ensures Claims(Create(s, id, base, expected, shape))
  {
    hide Held, Inv;
    if id !in s.hist.shapes && shape.Valid() {
      var s' := Create(s, id, base, expected, shape);
      NewUnheld(hash, s, id);
      forall sid | sid in s'.sessions ensures RowAccounted(s'.sessions[sid].finalizing, Held(s'.threads, sid), sid in s'.hist.leaked) {
        if sid != id { assert RowAccounted(s.sessions[sid].finalizing, Held(s.threads, sid), sid in s.hist.leaked); }
      }
    }
  }

  lemma NewUnheld(hash: Hash, s: State, id: SessionId)
    requires Inv(hash, s) && id !in s.hist.shapes
    ensures !Held(s.threads, id)
  {
    hide ShapeInv, CommitInv, CatalogInv, ClaimInv;
    forall t | t in s.threads ensures Holds(s.threads[t]) != Some(id) { assert PhaseInv(hash, s, s.threads[t]); }
  }

  lemma WriteClaims(s: State, t: Tid, sid: SessionId, n: nat, body: Bytes)
    requires Claims(s)
    ensures Claims(StartWrite(s, t, sid, n, body)) && Claims(PlaceChunk(s, t))
  {
    hide Claims;
    var p := PhaseOf(s, t);
    if p.Idle? && sid in s.sessions && !s.sessions[sid].finalizing
       && 1 <= n <= s.sessions[sid].shape.num && |body| == s.sessions[sid].shape.ChunkLen(n)
    {
      Steady(s, StartWrite(s, t, sid, n, body), t, Writing(sid, s.sessions[sid].shape, n, body));
    }
    if p.Writing? { Steady(s, PlaceChunk(s, t), t, Bumping(p.sid, p.n)); }
  }

  lemma BumpClaims(s: State, t: Tid)
    requires Claims(s)
    ensures Claims(Bump(s, t)) && Claims(Quit(s, t))
  {
    hide Claims;
    var p := PhaseOf(s, t);
    if p.Bumping? {
      if p.sid in s.sessions && s.sessions[p.sid].uploaded < p.n {
        Steady(s, Bump(s, t), t, Idle);
      } else {
        Steady(s, Bump(s, t), t, Idle);
      }
    }
    if p.Writing? || p.Fetched? || p.Sweeping? { Steady(s, Quit(s, t), t, Idle); }
  }

  lemma FetchClaims(s: State, t: Tid, sid: SessionId)
    requires Claims(s)
    ensures Claims(Fetch(s, t, sid)) && Claims(Abort(s, t, sid))
  {
    hide Claims;
    if PhaseOf(s, t).Idle? && sid in s.sessions {
      Steady(s, Fetch(s, t, sid), t, Fetched(sid, s.sessions[sid]));
      Steady(s, Abort(s, t, sid), t, Sweeping(sid));
    }
  }

  lemma ClaimClaims(s: State, t: Tid)
    requires Claims(s)
    ensures Claims(Claim(s, t))
  {
    hide Held;
    var p := PhaseOf(s, t);
    if p.Fetched? {
      var s' := Claim(s, t);
      if p.sid in s.sessions && !s.sessions[p.sid].finalizing {
        forall sid | sid in s'.sessions ensures RowAccounted(s'.sessions[sid].finalizing, Held(s'.threads, sid), sid in s'.hist.leaked) {
          assert RowAccounted(s.sessions[sid].finalizing, Held(s.threads, sid), sid in s.hist.leaked);
          HeldMoves(s.threads, t, Claimed(p.sid, p.sess, 0), sid);
        }
      } else {
        Steady(s, s', t, Idle);
      }
    }
  }

  lemma StatClaims(s: State, t: Tid)
    requires Claims(s)
    ensures Claims(StatChunk(s, t))
  {
    hide Claims;
    var p := PhaseOf(s, t);
    if p.Claimed? {
      if p.seen >= p.sess.shape.num {
        Steady(s, StatChunk(s, t), t, Copying(p.sid, p.sess, 0, []));
      } else if p.seen + 1 in DirOf(s, p.sid) {
        Steady(s, StatChunk(s, t), t, Claimed(p.sid, p.sess, p.seen + 1));
      } else {
        Steady(s, StatChunk(s, t), t, Failing(p.sid));
      }
    }
  }

  lemma CopyClaims(s: State, t: Tid)
    requires Claims(s)
    ensures Claims(CopyChunk(s, t))
  {
    hide Claims;
    var p := PhaseOf(s, t);
    if p.Copying? && p.i < p.sess.shape.num {
      if p.i + 1 in DirOf(s, p.sid) {
        Steady(s, CopyChunk(s, t), t, Copying(p.sid, p.sess, p.i + 1, p.acc + DirOf(s, p.sid)[p.i + 1]));
      } else {
        Steady(s, CopyChunk(s, t), t, Failing(p.sid));
      }
    }
  }

  lemma VerifyClaims(hash: Hash, s: State, t: Tid)
    requires Claims(s)
    ensures Claims(Verify(hash, s, t))
  {
    hide Claims;
    var p := PhaseOf(s, t);
    if p.Copying? && p.i >= p.sess.shape.num {
      if |p.acc| != p.sess.shape.total {
        Steady(s, Verify(hash, s, t), t, Failing(p.sid));
      } else if p.sess.expected.Some? && hash(p.acc) != p.sess.expected.value {
        Steady(s, Verify(hash, s, t), t, Failing(p.sid));
      } else {
        Steady(s, Verify(hash, s, t), t, Assembled(p.sid, p.sess, p.acc));
      }
    }
  }

  lemma CommitClaims(hash: Hash, s: State, t: Tid, iid: ImageId, format: string)
    requires Claims(s)
    ensures Claims(Commit(hash, s, t, iid, format))
  {
    hide Claims, CommitName;
    var p := PhaseOf(s, t);
    if p.Assembled? && iid !in s.hist.commits {
      match CommitName(s.images, p.sess.base, format, hash(p.acc))
      case None => Steady(s, Commit(hash, s, t, iid, format), t, Failing(p.sid));
      case Some(f) => Steady(s, Commit(hash, s, t, iid, format), t, Committed(p.sid, iid, f, p.acc));
    }
  }

  lemma MoveClaims(hash: Hash, s: State, t: Tid)
    requires Inv(hash, s) && Claims(s)
    ensures Claims(Move(s, t)) && Claims(MoveFails(s, t))
  {
    hide Claims, Inv;
    var p := PhaseOf(s, t);
    if p.Committed? {
      Steady(s, MoveFails(s, t), t, RenameFailed(p.sid, p.iid));
      if p.sid in s.stage {
        CommittedIsGone(hash, s, t);
        LetsGo(hash, s, Move(s, t), t, Sweeping(p.sid), p.sid);
      } else {
        Steady(s, Move(s, t), t, RenameFailed(p.sid, p.iid));
      }
    }
  }

  lemma CommittedIsGone(hash: Hash, s: State, t: Tid)
    requires Inv(hash, s) && PhaseOf(s, t).Committed?
    ensures PhaseOf(s, t).sid !in s.sessions && PhaseOf(s, t).sid in s.hist.shapes
  {
    hide ShapeInv, CatalogInv, ClaimInv;
    assert PhaseInv(hash, s, s.threads[t]);
  }

  lemma FailClaims(s: State, t: Tid, works: bool)
    requires Claims(s)
    ensures Claims(FailFinalize(s, t)) && Claims(Rollback(s, t, works))
  {
    hide Claims;
    var p := PhaseOf(s, t);
    if p.Claimed? || p.Copying? || p.Assembled? { Steady(s, FailFinalize(s, t), t, Failing(p.sid)); }
    if p.RenameFailed? { Steady(s, Rollback(s, t, works), t, Failing(p.sid)); }
  }

  lemma ReleaseClaims(hash: Hash, s: State, t: Tid, works: bool)
    requires Inv(hash, s) && Claims(s)
    ensures Claims(Release(s, t, works))
  {
    hide Inv;
    var p := PhaseOf(s, t);
    if p.Failing? {
      OwnPhase(hash, s, t);
      HeldNow(s, t, p.sid);
      hide Held;
      if p.sid in s.sessions { assert RowAccounted(s.sessions[p.sid].finalizing, Held(s.threads, p.sid), p.sid in s.hist.leaked); }
      LetsGo(hash, s, Release(s, t, works), t, Idle, p.sid);
    }
  }

  lemma SweepClaims(s: State, t: Tid, ns: set<nat>, stageToo: bool)
    requires Claims(s)
    ensures Claims(Sweep(s, t, ns, stageToo))
  {
    hide Accounted;
  }

  lemma StepClaims(hash: Hash, s: State, step: Step)
    requires Inv(hash, s) && Claims(s)
    ensures Claims(Next(hash, s, step))
  {
    hide Inv, Claims, Create, StartWrite, PlaceChunk, Bump, Fetch, Claim, StatChunk, CopyChunk, Verify,
      Commit, Move, MoveFails, Rollback, FailFinalize, Release, Abort, Sweep, Quit;
    match step
    case DoCreate(sid, base, expected, shape) => CreateClaims(hash, s, sid, base, expected, shape);
    case DoStartWrite(t, sid, n, body) => WriteClaims(s, t, sid, n, body);
    case DoPlaceChunk(t) => WriteClaims(s, t, 0, 0, []);
    case DoBump(t) => BumpClaims(s, t);
    case DoFetch(t, sid) => FetchClaims(s, t, sid);
    case DoClaim(t) => ClaimClaims(s, t);
    case DoStat(t) => StatClaims(s, t);
    case DoCopy(t) => CopyClaims(s, t);
    case DoVerify(t) => VerifyClaims(hash, s, t);
    case DoCommit(t, iid, format) => CommitClaims(hash, s, t, iid, format);
    case DoMove(t) => MoveClaims(hash, s, t);
    case DoMoveFails(t) => MoveClaims(hash, s, t);
    case DoRollback(t, works) => FailClaims(s, t, works);
    case DoFail(t) => FailClaims(s, t, true);
    case DoRelease(t, works) => ReleaseClaims(hash, s, t, works);
    case DoAbort(t, sid) => FetchClaims(s, t, sid);
    case DoSweep(t, ns, stageToo) => SweepClaims(s, t, ns, stageToo);
    case DoQuit(t) => BumpClaims(s, t);
  }

  lemma {:induction false} RunClaims(hash: Hash, steps: seq<Step>)
    ensures Claims(Run(hash, steps))
  {
    if steps != [] {
      hide Inv, Next, Claims;
      var n := |steps| - 1;
      RunClaims(hash, steps[..n]);
      RunKeepsInv(hash, steps[..n]);
      StepClaims(hash, Run(hash, steps[..n]), steps[n]);
    }
  }

  // ---------------------------------------------------------------- theorems

  predicate SameLeaks(s: State, s': State) {
    s'.hist.leaked == s.hist.leaked
  }

  lemma WritesLeakNothing(s: State, t: Tid, sid: SessionId, n: nat, body: Bytes)
    ensures SameLeaks(s, StartWrite(s, t, sid, n, body)) && SameLeaks(s, PlaceChunk(s, t)) && SameLeaks(s, Bump(s, t))
    ensures SameLeaks(s, Abort(s, t, sid)) && SameLeaks(s, Quit(s, t))
  {
  }

  lemma ReadsLeakNothing(s: State, t: Tid, sid: SessionId)
    ensures SameLeaks(s, Fetch(s, t, sid)) && SameLeaks(s, Claim(s, t))
  {
  }

  lemma LoopsLeakNothing(s: State, t: Tid)
    ensures SameLeaks(s, StatChunk(s, t)) && SameLeaks(s, CopyChunk(s, t))
  {
  }

  lemma MovesLeakNothing(hash: Hash, s: State, t: Tid)
    ensures SameLeaks(s, Verify(hash, s, t)) && SameLeaks(s, Move(s, t)) && SameLeaks(s, MoveFails(s, t))
    ensures SameLeaks(s, FailFinalize(s, t))
  {
  }

  lemma TablesLeakNothing(hash: Hash, s: State, t: Tid, iid: ImageId, format: string, works: bool)
    ensures SameLeaks(s, Commit(hash, s, t, iid, format))
    ensures SameLeaks(s, Rollback(s, t, works)) && SameLeaks(s, Release(s, t, true))
  {
    hide CommitName;
  }

  lemma OthersLeakNothing(s: State, id: SessionId, base: Name, expected: Option<Digest>, shape: Shape, t: Tid, ns: set<nat>, stageToo: bool)
    ensures SameLeaks(s, Create(s, id, base, expected, shape)) && SameLeaks(s, Sweep(s, t, ns, stageToo))
  {
  }

  /** Only a release whose statement fails leaks a claim. */
  lemma LeakStep(hash: Hash, s: State, step: Step)
    requires !(step.DoRelease? && !step.works)
    ensures SameLeaks(s, Next(hash, s, step))
  {
    hide SameLeaks, Create, StartWrite, PlaceChunk, Bump, Fetch, Claim, StatChunk, CopyChunk, Verify,
      Commit, Move, MoveFails, Rollback, FailFinalize, Release, Abort, Sweep, Quit;
    match step
    case DoCreate(sid, base, expected, shape) => OthersLeakNothing(s, sid, base, expected, shape, 0, {}, false);
    case DoStartWrite(t, sid, n, body) => WritesLeakNothing(s, t, sid, n, body);
    case DoPlaceChunk(t) => WritesLeakNothing(s, t, 0, 0, []);
    case DoBump(t) => WritesLeakNothing(s, t, 0, 0, []);
    case DoFetch(t, sid) => ReadsLeakNothing(s, t, sid);
    case DoClaim(t) => ReadsLeakNothing(s, t, 0);
    case DoStat(t) => LoopsLeakNothing(s, t);
    case DoCopy(t) => LoopsLeakNothing(s, t);
    case DoVerify(t) => MovesLeakNothing(hash, s, t);
    case DoCommit(t, iid, format) => TablesLeakNothing(hash, s, t, iid, format, true);
    case DoMove(t) => MovesLeakNothing(hash, s, t);
    case DoMoveFails(t) => MovesLeakNothing(hash, s, t);
    case DoRollback(t, works) => TablesLeakNothing(hash, s, t, 0, "", works);
    case DoFail(t) => MovesLeakNothing(hash, s, t);
    case DoRelease(t, works) => TablesLeakNothing(hash, s, t, 0, "", true);
    case DoAbort(t, sid) => WritesLeakNothing(s, t, sid, 0, []);
    case DoSweep(t, ns, stageToo) => OthersLeakNothing(s, 0, "x", None, Shape(0, 0, 0), t, ns, stageToo);
    case DoQuit(t) => WritesLeakNothing(s, t, 0, 0, []);
  }

  lemma {:induction false} NothingLeaks(hash: Hash, steps: seq<Step>)
    requires forall k :: 0 <= k < |steps| ==> !(steps[k].DoRelease? && !steps[k].works)
    ensures Run(hash, steps).hist.leaked == {}
  {
    hide Next;
    if steps != [] {
      var n := |steps| - 1;
      NothingLeaks(hash, steps[..n]);
      LeakStep(hash, Run(hash, steps[..n]), steps[n]);
    }
  }

  /** State "finalizing" means that a finalizer is active, in every run in which no release
      statement fails: no error return of a finalize ever leaves its claim behind. */
  lemma FinalizingIffHeld(hash: Hash, steps: seq<Step>, sid: SessionId)
    requires forall k :: 0 <= k < |steps| ==> !(steps[k].DoRelease? && !steps[k].works)
    requires sid in Run(hash, steps).sessions
    ensures var s := Run(hash, steps);
            s.sessions[sid].finalizing <==> exists t :: t in s.threads && Holds(s.threads[t]) == Some(sid)
  {
    hide Run;
    RunClaims(hash, steps);
    NothingLeaks(hash, steps);
    var s := Run(hash, steps);
    assert RowAccounted(s.sessions[sid].finalizing, Held(s.threads, sid), sid in s.hist.leaked);
  }

  /** A release that works gives the session back: the row is as before but for its state,
      which is "uploading" again, and nothing else changes but the goroutine, now idle. */
  lemma ReleaseRestores(s: State, t: Tid, sid: SessionId)
    requires PhaseOf(s, t) == Failing(sid) && sid in s.sessions
    ensures var s' := Release(s, t, true);
            && sid in s'.sessions && !s'.sessions[sid].finalizing
            && s'.sessions[sid].base == s.sessions[sid].base && s'.sessions[sid].expected == s.sessions[sid].expected
            && s'.sessions[sid].shape == s.sessions[sid].shape && s'.sessions[sid].uploaded == s.sessions[sid].uploaded
            && s'.sessions - {sid} == s.sessions - {sid} && PhaseOf(s', t).Idle?
            && s'.chunks == s.chunks && s'.images == s.images && s'.files == s.files && s'.hist == s.hist
  {
  }

  /** No chunk write of a session starts while a finalizer holds its claim. */
  lemma HeldRefusesWrites(hash: Hash, steps: seq<Step>, t: Tid, u: Tid, sid: SessionId, n: nat, body: Bytes)
    requires Holds(PhaseOf(Run(hash, steps), t)) == Some(sid)
    ensures StartWrite(Run(hash, steps), u, sid, n, body) == Run(hash, steps)
  {
    RunKeepsInv(hash, steps);
    hide Run, ShapeInv, CommitInv, CatalogInv, ThreadsInv;
    assert t in Run(hash, steps).threads;
  }

  /** The progress counter is a high-water mark. */
  lemma BumpIsHighWater(s: State, t: Tid)
    requires PhaseOf(s, t).Bumping? && PhaseOf(s, t).sid in s.sessions
    ensures var p, s' := PhaseOf(s, t), Bump(s, t);
            var was := s.sessions[p.sid].uploaded;
            && s'.sessions == s.sessions[p.sid := s.sessions[p.sid].(uploaded := if was < p.n then p.n else was)]
            && PhaseOf(s', t).Idle? && s'.chunks == s.chunks && s'.images == s.images
  {
    var p := PhaseOf(s, t);
    assert s.sessions[p.sid := s.sessions[p.sid]] == s.sessions;
  }

  /** The rename moves the staged bytes under the committed name and leaves nothing behind. */
  lemma MoveIsRename(s: State, t: Tid)
    requires PhaseOf(s, t).Committed? && PhaseOf(s, t).sid in s.stage
    ensures var p, s' := PhaseOf(s, t), Move(s, t);
            && s'.files == s.files[p.name := s.stage[p.sid]] && p.sid !in s'.stage && s'.stage == s.stage - {p.sid}
            && s'.images == s.images && s'.sessions == s.sessions
  {
  }
}
