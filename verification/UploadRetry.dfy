/** A finalize that finds a chunk missing gives the session back, and once the missing pieces
    are written a second finalize succeeds (internal/images/uploads.go). */
module UploadRetry {
  import opened Basics
  import opened Chunks
  import opened Filenames
  import opened Uploads
  import opened UploadTheorems
  import opened UploadCompletes
  import opened UploadClaims

  /** The presence loop walks over the chunks that are there. */
  lemma {:induction false} StatUpTo(hash: Hash, s: State, steps: seq<Step>, t: Tid, sid: SessionId, sess: Session, seen: nat, k: nat)
    returns (longer: seq<Step>)
    requires seen <= k <= sess.shape.num && HasAll(DirOf(s, sid), k)
    requires Untouched(s, After(hash, s, steps)) && PhaseOf(After(hash, s, steps), t) == Uploads.Claimed(sid, sess, seen)
    requires After(hash, s, steps).hist == s.hist
    ensures var s' := After(hash, s, longer);
            && Untouched(s, s') && PhaseOf(s', t) == Uploads.Claimed(sid, sess, k) && s'.hist == s.hist
            && s'.sessions == After(hash, s, steps).sessions
    decreases k - seen
  {
    hide After;
    longer := steps;
    if seen < k {
      One(hash, s, steps, DoStat(t));
      longer := StatUpTo(hash, s, steps + [DoStat(t)], t, sid, sess, seen + 1, k);
    }
  }

  /** Claim, then fail on the first missing chunk, then release. */
  lemma FailsOnMissing(s: State, t: Tid, sid: SessionId, sess: Session, k: nat)
    requires PhaseOf(s, t) == Uploads.Claimed(sid, sess, k) && k < sess.shape.num && k + 1 !in DirOf(s, sid) && sid in s.sessions
    ensures PhaseOf(StatChunk(s, t), t) == Failing(sid)
    ensures var s' := Release(StatChunk(s, t), t, true);
            && PhaseOf(s', t).Idle? && s'.sessions == s.sessions[sid := s.sessions[sid].(finalizing := false)]
            && Untouched(s, s') && s'.hist == s.hist
  {
    var s1 := StatChunk(s, t);
    assert s1 == GiveUp(s, t, sid);
    ReleaseRestores(s1, t, sid);
  }

  lemma ClaimRow(s: State, t: Tid, sid: SessionId)
    requires PhaseOf(s, t).Idle? && sid in s.sessions && !s.sessions[sid].finalizing
    ensures var s' := Claim(Fetch(s, t, sid), t);
            && s'.sessions == s.sessions[sid := s.sessions[sid].(finalizing := true)] && s'.hist == s.hist
            && Untouched(s, s') && PhaseOf(s', t) == Uploads.Claimed(sid, s.sessions[sid], 0)
  {
    var s1 := Fetch(s, t, sid);
    assert PhaseOf(s1, t) == Fetched(sid, s.sessions[sid]) && s1.sessions == s.sessions;
  }

  lemma FetchAndClaim(hash: Hash, s: State, t: Tid, sid: SessionId) returns (steps: seq<Step>)
    ensures After(hash, s, steps) == Claim(Fetch(s, t, sid), t)
  {
    hide After, Fetch, Claim;
    Nothing(hash, s);
    One(hash, s, [], DoFetch(t, sid));
    One(hash, s, [] + [DoFetch(t, sid)], DoClaim(t));
    steps := [] + [DoFetch(t, sid)] + [DoClaim(t)];
  }

  lemma StatAndRelease(hash: Hash, s: State, steps: seq<Step>, t: Tid)
    ensures After(hash, s, steps + [DoStat(t)]) == StatChunk(After(hash, s, steps), t)
    ensures After(hash, s, steps + [DoStat(t)] + [DoRelease(t, true)]) == Release(StatChunk(After(hash, s, steps), t), t, true)
  {
    hide After, StatChunk, Release;
    One(hash, s, steps, DoStat(t));
    One(hash, s, steps + [DoStat(t)], DoRelease(t, true));
  }

  /** An undisturbed finalize that finds chunk k + 1 missing fails and leaves every table and
      chunk file as it found them. */
  lemma IncompleteFails(hash: Hash, s: State, t: Tid, sid: SessionId, k: nat) returns (steps: seq<Step>)
    requires PhaseOf(s, t).Idle? && sid in s.sessions && !s.sessions[sid].finalizing
    requires k < s.sessions[sid].shape.num && HasAll(DirOf(s, sid), k) && k + 1 !in DirOf(s, sid)
    ensures |steps| > 0 && steps[|steps| - 1] == DoRelease(t, true)
    ensures PhaseOf(After(hash, s, steps[..|steps| - 1]), t) == Failing(sid)
    ensures var s' := After(hash, s, steps);
            Untouched(s, s') && s'.sessions == s.sessions && s'.hist == s.hist && PhaseOf(s', t).Idle?
  {
    hide After, Next, Fetch, Claim, StatChunk, Release;
    var sess := s.sessions[sid];
    ClaimRow(s, t, sid);
    var a := FetchAndClaim(hash, s, t, sid);
    var b := StatUpTo(hash, s, a, t, sid, sess, 0, k);
    var s1 := After(hash, s, b);
    FailsOnMissing(s1, t, sid, sess, k);
    StatAndRelease(hash, s, b, t);
    steps := b + [DoStat(t)] + [DoRelease(t, true)];
    assert steps[..|steps| - 1] == b + [DoStat(t)];
    assert s.sessions[sid := sess.(finalizing := true)][sid := sess] == s.sessions;
  }

  // ---------------------------------------------------------------- the missing pieces

  /** The first n pieces are there; otherwise the store is as in s0. */
  ghost predicate Resumed(s0: State, s: State, job: Job, t: Tid, n: nat)
    requires job.Valid() && job.sid in s0.sessions
  {
    && PhaseOf(s, t).Idle? && job.sid in s.sessions
    && s.sessions[job.sid].(uploaded := 0) == s0.sessions[job.sid].(uploaded := 0)
    && HasAll(DirOf(s, job.sid), n) && HonestDir(job, DirOf(s, job.sid))
    && s.images == s0.images && s.files == s0.files && s.hist == s0.hist
  }

  lemma ResumesOne(s0: State, s: State, job: Job, t: Tid, n: nat)
    requires job.Valid() && job.sid in s0.sessions && n < job.shape.num && Resumed(s0, s, job, t, n)
    requires s0.sessions[job.sid].shape == job.shape && !s0.sessions[job.sid].finalizing
    ensures Resumed(s0, Bump(PlaceChunk(StartWrite(s, t, job.sid, n + 1, Cut(job.file, job.shape, n + 1)), t), t), job, t, n + 1)
  {
    hide Cut, StartWrite, PlaceChunk, Bump;
    CutLength(job, n + 1);
    Lands(s, t, job.sid, n + 1, Cut(job.file, job.shape, n + 1));
  }

  lemma {:induction false} ResumesAll(hash: Hash, s0: State, steps: seq<Step>, job: Job, t: Tid, n: nat) returns (longer: seq<Step>)
    requires job.Valid() && job.sid in s0.sessions && n <= job.shape.num && Resumed(s0, After(hash, s0, steps), job, t, n)
    requires s0.sessions[job.sid].shape == job.shape && !s0.sessions[job.sid].finalizing
    ensures Resumed(s0, After(hash, s0, longer), job, t, job.shape.num)
    decreases job.shape.num - n
  {
    hide After, Resumed, StartWrite, PlaceChunk, Bump, Cut;
    longer := steps;
    if n < job.shape.num {
      var body := Cut(job.file, job.shape, n + 1);
      ResumesOne(s0, After(hash, s0, steps), job, t, n);
      One(hash, s0, steps, DoStartWrite(t, job.sid, n + 1, body));
      var a := steps + [DoStartWrite(t, job.sid, n + 1, body)];
      One(hash, s0, a, DoPlaceChunk(t));
      One(hash, s0, a + [DoPlaceChunk(t)], DoBump(t));
      longer := ResumesAll(hash, s0, a + [DoPlaceChunk(t)] + [DoBump(t)], job, t, n + 1);
    }
  }

  /** Retry: a finalize that failed on a missing chunk does not spoil the upload.  After its
      release the pieces can be written and a second finalize puts exactly the file into the
      catalog. */
  lemma RetrySucceeds(hash: Hash, job: Job, s: State, t: Tid, k: nat, iid: ImageId, format: string)
    returns (failing: seq<Step>, retry: seq<Step>)
    requires job.Valid() && PhaseOf(s, t).Idle? && job.sid in s.sessions && iid !in s.hist.commits
    requires k < job.shape.num && HasAll(DirOf(s, job.sid), k) && k + 1 !in DirOf(s, job.sid) && HonestDir(job, DirOf(s, job.sid))
    requires var sess := s.sessions[job.sid];
      && !sess.finalizing && sess.shape == job.shape && (sess.expected.None? || sess.expected.value == hash(job.file))
      && CommitName(s.images, sess.base, format, hash(job.file)).Some?
    ensures |failing| > 0 && PhaseOf(After(hash, s, failing[..|failing| - 1]), t) == Failing(job.sid)
    ensures After(hash, s, failing).sessions == s.sessions && PhaseOf(After(hash, s, failing), t).Idle?
    ensures var sess, s' := s.sessions[job.sid], After(hash, s, failing + retry);
            var f := CommitName(s.images, sess.base, format, hash(job.file)).value;
            && s'.images == s.images[iid := Image(f, hash(job.file), job.sid, sess.expected, job.file)]
            && s'.files == s.files[f := job.file]
  {
    hide After, CommitName, Cut, HonestDir;
    failing := IncompleteFails(hash, s, t, job.sid, k);
    var s1 := After(hash, s, failing);
    Nothing(hash, s1);
    assert Resumed(s1, s1, job, t, 0);
    var a := ResumesAll(hash, s1, [], job, t, 0);
    var s2 := After(hash, s1, a);
    var b := CompleteUploadSucceeds(hash, job, s2, t, iid, format);
    Chained(hash, s1, a, b);
    Chained(hash, s, failing, a + b);
    retry := a + b;
  }
}
