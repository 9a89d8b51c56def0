/** An undisturbed finalize of a complete upload succeeds: the counterpart of the safety
    theorems, which constrain whatever a finalize may do. */
module UploadCompletes {
  import opened Basics
  import opened Chunks
  import opened Filenames
  import opened Uploads
  import opened UploadTheorems

  /** A run continued from s. */
  function After(hash: Hash, s: State, steps: seq<Step>): State {
    if steps == [] then s else Next(hash, After(hash, s, steps[..|steps| - 1]), steps[|steps| - 1])
  }

  lemma One(hash: Hash, s: State, steps: seq<Step>, step: Step)
    ensures After(hash, s, steps + [step]) == Next(hash, After(hash, s, steps), step)
  {
    hide Next;
    assert (steps + [step])[..|steps|] == steps;
  }

  /** What the steps before the commit leave alone. */
  predicate Untouched(s: State, s': State) {
    s'.images == s.images && s'.hist.commits == s.hist.commits && s'.chunks == s.chunks && s'.files == s.files
  }

  predicate StagedAs(s: State, sid: SessionId, acc: Bytes) {
    sid in s.stage && s.stage[sid] == acc
  }

  lemma ClaimState(s: State, t: Tid, sid: SessionId)
    requires PhaseOf(s, t).Idle? && sid in s.sessions && !s.sessions[sid].finalizing
    ensures var s' := Claim(Fetch(s, t, sid), t);
            Untouched(s, s') && PhaseOf(s', t) == Claimed(sid, s.sessions[sid], 0)
  {
    var s1 := Fetch(s, t, sid);
    assert PhaseOf(s1, t) == Fetched(sid, s.sessions[sid]) && s1.sessions == s.sessions;
  }

  lemma Claims(hash: Hash, s: State, t: Tid, sid: SessionId) returns (steps: seq<Step>)
    requires PhaseOf(s, t).Idle? && sid in s.sessions && !s.sessions[sid].finalizing
    ensures var s' := After(hash, s, steps);
            Untouched(s, s') && PhaseOf(s', t) == Claimed(sid, s.sessions[sid], 0)
  {
    hide After, Fetch, Claim, Untouched;
    ClaimState(s, t, sid);
    Nothing(hash, s);
    One(hash, s, [], DoFetch(t, sid));
    One(hash, s, [] + [DoFetch(t, sid)], DoClaim(t));
    steps := [] + [DoFetch(t, sid)] + [DoClaim(t)];
  }

  lemma Nothing(hash: Hash, s: State)
    ensures After(hash, s, []) == s
  {
  }

  /** The presence loop passes. */
  lemma {:induction false} StatAll(hash: Hash, s: State, steps: seq<Step>, t: Tid, sid: SessionId, sess: Session, seen: nat)
    returns (longer: seq<Step>)
    requires HasAll(DirOf(s, sid), sess.shape.num)
    requires Untouched(s, After(hash, s, steps)) && PhaseOf(After(hash, s, steps), t) == Claimed(sid, sess, seen)
    ensures var s' := After(hash, s, longer);
            Untouched(s, s') && PhaseOf(s', t) == Copying(sid, sess, 0, []) && StagedAs(s', sid, [])
    decreases if seen < sess.shape.num then sess.shape.num - seen else 0
  {
    hide After;
    One(hash, s, steps, DoStat(t));
    longer := steps + [DoStat(t)];
    if seen < sess.shape.num {
      longer := StatAll(hash, s, longer, t, sid, sess, seen + 1);
    }
  }

  lemma CopiesOne(s: State, t: Tid)
    requires var p := PhaseOf(s, t); p.Copying? && p.i < p.sess.shape.num && p.i + 1 in DirOf(s, p.sid)
    ensures var p := PhaseOf(s, t);
            var acc := p.acc + DirOf(s, p.sid)[p.i + 1];
            && Untouched(s, CopyChunk(s, t)) && PhaseOf(CopyChunk(s, t), t) == Copying(p.sid, p.sess, p.i + 1, acc)
            && (p.sid in s.stage ==> StagedAs(CopyChunk(s, t), p.sid, acc))
  {
  }

  lemma OneCopy(hash: Hash, s: State, steps: seq<Step>, t: Tid)
    ensures After(hash, s, steps + [DoCopy(t)]) == CopyChunk(After(hash, s, steps), t)
  {
    hide After, CopyChunk;
    One(hash, s, steps, DoCopy(t));
  }

  /** The copy loop appends every chunk. */
  lemma {:induction false} CopyAll(hash: Hash, s: State, steps: seq<Step>, t: Tid, sid: SessionId, sess: Session, i: nat)
    returns (longer: seq<Step>)
    requires i <= sess.shape.num && HasAll(DirOf(s, sid), sess.shape.num)
    requires Untouched(s, After(hash, s, steps)) && StagedAs(After(hash, s, steps), sid, Concat(DirOf(s, sid), i))
    requires PhaseOf(After(hash, s, steps), t) == Copying(sid, sess, i, Concat(DirOf(s, sid), i))
    ensures var s' := After(hash, s, longer);
            var all := Concat(DirOf(s, sid), sess.shape.num);
            Untouched(s, s') && PhaseOf(s', t) == Copying(sid, sess, sess.shape.num, all) && StagedAs(s', sid, all)
    decreases sess.shape.num - i
  {
    hide After, CopyChunk, Next;
    longer := steps;
    if i < sess.shape.num {
      OneCopy(hash, s, steps, t);
      CopiesOne(After(hash, s, steps), t);
      longer := CopyAll(hash, s, steps + [DoCopy(t)], t, sid, sess, i + 1);
    }
  }

  lemma Verifies(hash: Hash, s: State, t: Tid, sid: SessionId, sess: Session, file: Bytes)
    requires PhaseOf(s, t) == Copying(sid, sess, sess.shape.num, file)
    requires |file| == sess.shape.total && (sess.expected.None? || sess.expected.value == hash(file))
    ensures Verify(hash, s, t) == Goto(s, t, Assembled(sid, sess, file))
  {
  }

  lemma Commits(hash: Hash, s: State, t: Tid, sid: SessionId, sess: Session, file: Bytes, iid: ImageId, format: string)
    requires PhaseOf(s, t) == Assembled(sid, sess, file) && StagedAs(s, sid, file)
    requires iid !in s.hist.commits && CommitName(s.images, sess.base, format, hash(file)).Some?
    ensures var f := CommitName(s.images, sess.base, format, hash(file)).value;
            var s' := Commit(hash, s, t, iid, format);
            && PhaseOf(s', t) == Committed(sid, iid, f, file) && StagedAs(s', sid, file) && s'.files == s.files
            && s'.images == s.images[iid := Image(f, hash(file), sid, sess.expected, file)]
  {
    hide CommitName;
  }

  lemma Moves(s: State, t: Tid, sid: SessionId, iid: ImageId, f: string, file: Bytes)
    requires PhaseOf(s, t) == Committed(sid, iid, f, file) && StagedAs(s, sid, file)
    ensures Move(s, t).images == s.images && Move(s, t).files == s.files[f := file]
  {
  }

  /** Verify, commit and move. */
  lemma Publish(hash: Hash, s: State, t: Tid, sid: SessionId, sess: Session, file: Bytes, iid: ImageId, format: string)
    requires PhaseOf(s, t) == Copying(sid, sess, sess.shape.num, file) && StagedAs(s, sid, file)
    requires |file| == sess.shape.total && (sess.expected.None? || sess.expected.value == hash(file))
    requires iid !in s.hist.commits && CommitName(s.images, sess.base, format, hash(file)).Some?
    ensures var f := CommitName(s.images, sess.base, format, hash(file)).value;
            var s' := Move(Commit(hash, Verify(hash, s, t), t, iid, format), t);
            && s'.images == s.images[iid := Image(f, hash(file), sid, sess.expected, file)]
            && s'.files == s.files[f := file]
  {
    hide CommitName, Verify, Commit, Move;
    Verifies(hash, s, t, sid, sess, file);
    var s1 := Goto(s, t, Assembled(sid, sess, file));
    Commits(hash, s1, t, sid, sess, file, iid, format);
    var s2 := Commit(hash, s1, t, iid, format);
    Moves(s2, t, sid, iid, CommitName(s.images, sess.base, format, hash(file)).value, file);
  }

  lemma Publishing(hash: Hash, s: State, steps: seq<Step>, t: Tid, iid: ImageId, format: string) returns (longer: seq<Step>)
    ensures After(hash, s, longer) == Move(Commit(hash, Verify(hash, After(hash, s, steps), t), t, iid, format), t)
  {
    hide After, Verify, Commit, Move;
    One(hash, s, steps, DoVerify(t));
    One(hash, s, steps + [DoVerify(t)], DoCommit(t, iid, format));
    One(hash, s, steps + [DoVerify(t)] + [DoCommit(t, iid, format)], DoMove(t));
    longer := steps + [DoVerify(t)] + [DoCommit(t, iid, format)] + [DoMove(t)];
  }

  /** Once every piece of a cut file is on disk, a finalize that runs undisturbed puts
      exactly that file into the catalog, whenever the client's hash, if any, is the file's
      and the commit finds a free name. */
  lemma CompleteUploadSucceeds(hash: Hash, job: Job, s: State, t: Tid, iid: ImageId, format: string) returns (steps: seq<Step>)
    requires job.Valid() && HasAll(DirOf(s, job.sid), job.shape.num) && HonestDir(job, DirOf(s, job.sid))
    requires PhaseOf(s, t).Idle? && job.sid in s.sessions && iid !in s.hist.commits
    requires var sess := s.sessions[job.sid];
      && !sess.finalizing && sess.shape == job.shape && (sess.expected.None? || sess.expected.value == hash(job.file))
      && CommitName(s.images, sess.base, format, hash(job.file)).Some?
    ensures var sess, s' := s.sessions[job.sid], After(hash, s, steps);
            var f := CommitName(s.images, sess.base, format, hash(job.file)).value;
            && s'.images == s.images[iid := Image(f, hash(job.file), job.sid, sess.expected, job.file)]
            && s'.files == s.files[f := job.file]
  {
    hide After, CommitName, Cut, Verify, Commit, Move;
    var sid, sess := job.sid, s.sessions[job.sid];
    var a := Claims(hash, s, t, sid);
    var b := StatAll(hash, s, a, t, sid, sess, 0);
    var c := CopyAll(hash, s, b, t, sid, sess, 0);
    ConcatOfCuts(job.file, job.shape, DirOf(s, sid), job.shape.num);
    assert job.file[..job.shape.total] == job.file;
    Publish(hash, After(hash, s, c), t, sid, sess, job.file, iid, format);
    steps := Publishing(hash, s, c, t, iid, format);
  }

  // ---------------------------------------------------------------- from an empty store

  lemma {:induction false} RunIsAfter(hash: Hash, steps: seq<Step>)
    ensures Run(hash, steps) == After(hash, INIT, steps)
  {
    hide Next;
    if steps != [] { RunIsAfter(hash, steps[..|steps| - 1]); }
  }

  /** An otherwise empty store with the first n pieces of the job's file on disk. */
  predicate Holding(s: State, job: Job, base: Name, expected: Option<Digest>, t: Tid, n: nat)
    requires job.Valid()
  {
    && PhaseOf(s, t).Idle? && job.sid in s.sessions
    && var sess := s.sessions[job.sid];
    && sess.base == base && sess.expected == expected && sess.shape == job.shape && !sess.finalizing
    && HasAll(DirOf(s, job.sid), n) && HonestDir(job, DirOf(s, job.sid))
    && s.images == map[] && s.files == map[] && s.hist.commits == map[] && s.threads.Keys <= {t}
    && job.sid in s.hist.announced && s.hist.announced[job.sid] == expected
  }

  /** What an undisturbed chunk write does. */
  ghost predicate Landed(s: State, s': State, t: Tid, sid: SessionId, n: nat, body: Bytes) {
    && PhaseOf(s', t).Idle? && s'.threads.Keys <= s.threads.Keys + {t} && DirOf(s', sid) == DirOf(s, sid)[n := body]
    && sid in s.sessions && sid in s'.sessions && s'.sessions[sid].(uploaded := 0) == s.sessions[sid].(uploaded := 0)
    && s'.images == s.images && s'.files == s.files && s'.hist == s.hist
  }

  lemma Places(s: State, t: Tid)
    requires PhaseOf(s, t).Writing?
    ensures var p, s' := PhaseOf(s, t), PlaceChunk(s, t);
            && PhaseOf(s', t) == Bumping(p.sid, p.n) && s'.threads.Keys == s.threads.Keys + {t}
            && DirOf(s', p.sid) == DirOf(s, p.sid)[p.n := p.body]
            && s'.sessions == s.sessions && s'.images == s.images && s'.files == s.files && s'.hist == s.hist
  {
  }

  lemma Bumps(s: State, t: Tid)
    requires PhaseOf(s, t).Bumping? && PhaseOf(s, t).sid in s.sessions
    ensures var sid, s' := PhaseOf(s, t).sid, Bump(s, t);
            && PhaseOf(s', t).Idle? && s'.threads.Keys == s.threads.Keys + {t} && s'.chunks == s.chunks
            && sid in s'.sessions && s'.sessions[sid].(uploaded := 0) == s.sessions[sid].(uploaded := 0)
            && s'.images == s.images && s'.files == s.files && s'.hist == s.hist
  {
  }

  lemma Lands(s: State, t: Tid, sid: SessionId, n: nat, body: Bytes)
    requires PhaseOf(s, t).Idle? && sid in s.sessions && !s.sessions[sid].finalizing
    requires 1 <= n <= s.sessions[sid].shape.num && |body| == s.sessions[sid].shape.ChunkLen(n)
    ensures Landed(s, Bump(PlaceChunk(StartWrite(s, t, sid, n, body), t), t), t, sid, n, body)
  {
    hide PlaceChunk, Bump;
    var s1 := StartWrite(s, t, sid, n, body);
    assert s1 == Goto(s, t, Writing(sid, s.sessions[sid].shape, n, body));
    Places(s1, t);
    Bumps(PlaceChunk(s1, t), t);
  }

  lemma WritesOne(s: State, job: Job, base: Name, expected: Option<Digest>, t: Tid, n: nat)
    requires job.Valid() && n < job.shape.num && Holding(s, job, base, expected, t, n)
    ensures Holding(Bump(PlaceChunk(StartWrite(s, t, job.sid, n + 1, Cut(job.file, job.shape, n + 1)), t), t),
                    job, base, expected, t, n + 1)
  {
    hide Cut, StartWrite, PlaceChunk, Bump;
    CutLength(job, n + 1);
    Lands(s, t, job.sid, n + 1, Cut(job.file, job.shape, n + 1));
  }

  lemma CutLength(job: Job, n: nat)
    requires job.Valid() && 1 <= n <= job.shape.num
    ensures |Cut(job.file, job.shape, n)| == job.shape.ChunkLen(n)
  {
    ChunkBounds(job.shape, n);
  }

  lemma {:induction false} WritesAll(hash: Hash, steps: seq<Step>, job: Job, base: Name, expected: Option<Digest>, t: Tid, n: nat)
    returns (longer: seq<Step>)
    requires job.Valid() && n <= job.shape.num && Holding(After(hash, INIT, steps), job, base, expected, t, n)
    ensures Holding(After(hash, INIT, longer), job, base, expected, t, job.shape.num)
    decreases job.shape.num - n
  {
    hide After, Holding, StartWrite, PlaceChunk, Bump, Cut;
    longer := steps;
    if n < job.shape.num {
      var body := Cut(job.file, job.shape, n + 1);
      WritesOne(After(hash, INIT, steps), job, base, expected, t, n);
      One(hash, INIT, steps, DoStartWrite(t, job.sid, n + 1, body));
      var a := steps + [DoStartWrite(t, job.sid, n + 1, body)];
      One(hash, INIT, a, DoPlaceChunk(t));
      One(hash, INIT, a + [DoPlaceChunk(t)], DoBump(t));
      longer := WritesAll(hash, a + [DoPlaceChunk(t)] + [DoBump(t)], job, base, expected, t, n + 1);
    }
  }

  lemma Fills(hash: Hash, job: Job, base: Name, expected: Option<Digest>, t: Tid) returns (steps: seq<Step>)
    requires job.Valid()
    ensures Holding(After(hash, INIT, steps), job, base, expected, t, job.shape.num)
  {
    One(hash, INIT, [], DoCreate(job.sid, base, expected, job.shape));
    Nothing(hash, INIT);
    assert Holding(Create(INIT, job.sid, base, expected, job.shape), job, base, expected, t, 0);
    hide After, Holding;
    steps := WritesAll(hash, [] + [DoCreate(job.sid, base, expected, job.shape)], job, base, expected, t, 0);
  }

  lemma FirstName(base: Name, format: string, sha: Digest)
    ensures CommitName(map[], base, format, sha).Some?
  {
  }

  /** A finalize up to its commit. */
  lemma UpToCommit(hash: Hash, job: Job, base: Name, expected: Option<Digest>, t: Tid, iid: ImageId, format: string)
    returns (steps: seq<Step>)
    requires job.Valid() && (expected.None? || expected.value == hash(job.file))
    ensures var s := After(hash, INIT, steps);
            && iid in s.images && s.files == map[]
            && s.images[iid].bytes == job.file && s.images[iid].origin == job.sid && s.images[iid].expected == expected
            && PhaseOf(s, t) == Committed(job.sid, iid, s.images[iid].filename, job.file)
  {
    hide After, CommitName, Cut, Verify, Commit, Next;
    var a := Fills(hash, job, base, expected, t);
    var s := After(hash, INIT, a);
    var sess := s.sessions[job.sid];
    var b := Claims(hash, s, t, job.sid);
    b := StatAll(hash, s, b, t, job.sid, sess, 0);
    b := CopyAll(hash, s, b, t, job.sid, sess, 0);
    ConcatOfCuts(job.file, job.shape, DirOf(s, job.sid), job.shape.num);
    assert job.file[..job.shape.total] == job.file;
    FirstName(base, format, hash(job.file));
    var s1 := After(hash, s, b);
    Verifies(hash, s1, t, job.sid, sess, job.file);
    Commits(hash, Goto(s1, t, Assembled(job.sid, sess, job.file)), t, job.sid, sess, job.file, iid, format);
    b := VerifyAndCommit(hash, s, b, t, iid, format);
    Chained(hash, INIT, a, b);
    steps := a + b;
  }

  lemma VerifyAndCommit(hash: Hash, s: State, steps: seq<Step>, t: Tid, iid: ImageId, format: string) returns (longer: seq<Step>)
    ensures After(hash, s, longer) == Commit(hash, Verify(hash, After(hash, s, steps), t), t, iid, format)
  {
    hide After, Verify, Commit;
    One(hash, s, steps, DoVerify(t));
    One(hash, s, steps + [DoVerify(t)], DoCommit(t, iid, format));
    longer := steps + [DoVerify(t)] + [DoCommit(t, iid, format)];
  }

  lemma {:induction false} Chained(hash: Hash, s: State, a: seq<Step>, b: seq<Step>)
    ensures After(hash, s, a + b) == After(hash, After(hash, s, a), b)
  {
    hide Next;
    if b == [] {
      assert a + b == a;
    } else {
      var n := |b| - 1;
      assert (a + b)[..|a| + n] == a + b[..n];
      Chained(hash, s, a, b[..n]);
    }
  }

  lemma GivesUp(s: State, t: Tid)
    requires PhaseOf(s, t).Committed?
    ensures var s' := Rollback(MoveFails(s, t), t, false);
            && s'.images == s.images && s'.files == s.files && Pending(PhaseOf(s', t)).None?
            && PhaseOf(s, t).iid in s'.hist.lost
  {
    var s1 := MoveFails(s, t);
    assert PhaseOf(s1, t).RenameFailed?;
  }

  /** The property that catalog rows have files does fail: upload any file from scratch, let
      the rename fail and then the delete that should undo the commit.  The row stays, its
      file is nowhere. */
  lemma LostRun(hash: Hash, job: Job, base: Name, expected: Option<Digest>, t: Tid, iid: ImageId, format: string)
    returns (steps: seq<Step>)
    requires job.Valid() && (expected.None? || expected.value == hash(job.file))
    ensures var s := Run(hash, steps);
            && iid in s.images && iid in s.hist.lost && Pending(PhaseOf(s, t)).None?
            && s.images[iid].bytes == job.file && s.images[iid].origin == job.sid && s.images[iid].expected == expected
            && s.images[iid].filename !in s.files
  {
    hide After, MoveFails, Rollback;
    var a := UpToCommit(hash, job, base, expected, t, iid, format);
    GivesUp(After(hash, INIT, a), t);
    One(hash, INIT, a, DoMoveFails(t));
    One(hash, INIT, a + [DoMoveFails(t)], DoRollback(t, false));
    steps := a + [DoMoveFails(t)] + [DoRollback(t, false)];
    RunIsAfter(hash, steps);
  }
}
