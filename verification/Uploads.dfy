/** Chunked uploads to the content-addressed catalog (internal/images/uploads.go and
    store.go): any interleaving of create, chunk write, finalize and abort, split at
    every database statement and file-system call.  SHA-256 is an arbitrary function
    from bytes to digests. */
module Uploads {
  import opened Basics
  import opened Chunks
  import opened Filenames

  type Tid = nat

  /** SHA-256, uninterpreted. */
  type Hash = Bytes -> Digest

  /** An upload_sessions row. */
  datatype Session = Session(base: Name, expected: Option<Digest>, shape: Shape, uploaded: nat, finalizing: bool)

  /** Where a request goroutine stands. */
  datatype Phase =
    | Idle
    | Writing(sid: SessionId, shape: Shape, n: nat, body: Bytes)        // state checked, bytes in .partial
    | Bumping(sid: SessionId, n: nat)                                    // renamed into place
    | Fetched(sid: SessionId, sess: Session)                             // finalize: row read
    | Claimed(sid: SessionId, sess: Session, seen: nat)                  // state flipped, chunks 1..seen exist
    | Copying(sid: SessionId, sess: Session, i: nat, acc: Bytes)         // i chunks written to `assembled`
    | Assembled(sid: SessionId, sess: Session, acc: Bytes)               // size and hash checked
    | Committed(sid: SessionId, iid: ImageId, name: string, acc: Bytes)  // row in, session row gone
    | RenameFailed(sid: SessionId, iid: ImageId)
    | Failing(sid: SessionId)                                            // error return, claim not yet released
    | Sweeping(sid: SessionId)                                           // RemoveAll of the upload directory

  /** History, which no step reads but to keep ids fresh: every session ever created with its
      shape and the hash its client announced, the session each image came from, the images
      whose rename and whose rollback statement both failed, and the sessions whose release
      statement failed. */
  datatype History = History(shapes: map<SessionId, Shape>, announced: map<SessionId, Option<Digest>>,
                             commits: map<ImageId, SessionId>, lost: set<ImageId>, leaked: set<SessionId>)

  /** Tables, files and goroutines. */
  datatype State = State(sessions: map<SessionId, Session>, images: Images,
                         chunks: map<SessionId, ChunkDir>, stage: map<SessionId, Bytes>, files: map<string, Bytes>,
                         threads: map<Tid, Phase>, hist: History)

  function PhaseOf(s: State, t: Tid): Phase {
    if t in s.threads then s.threads[t] else Idle
  }

  function Goto(s: State, t: Tid, p: Phase): State {
    s.(threads := s.threads[t := p])
  }

  function DirOf(s: State, sid: SessionId): ChunkDir {
    if sid in s.chunks then s.chunks[sid] else map[]
  }

  /** An error return of a claimed finalize: remove the staged file, release later. */
  function GiveUp(s: State, t: Tid, sid: SessionId): State {
    Goto(s, t, Failing(sid)).(stage := s.stage - {sid})
  }

  // ---------------------------------------------------------------- the operations, step by step

  /** CreateUpload with a random, unused id. */
  function Create(s: State, sid: SessionId, base: Name, expected: Option<Digest>, shape: Shape): State {
    if sid in s.hist.shapes || !shape.Valid() then s
    else s.(sessions := s.sessions[sid := Session(base, expected, shape, 0, false)],
            hist := s.hist.(shapes := s.hist.shapes[sid := shape], announced := s.hist.announced[sid := expected]))
  }

  /** WriteChunk up to the rename: the row is read and checked, the body is the right length. */
  function StartWrite(s: State, t: Tid, sid: SessionId, n: nat, body: Bytes): State {
    if PhaseOf(s, t).Idle? && sid in s.sessions && !s.sessions[sid].finalizing
       && 1 <= n <= s.sessions[sid].shape.num && |body| == s.sessions[sid].shape.ChunkLen(n)
    then Goto(s, t, Writing(sid, s.sessions[sid].shape, n, body))
    else s
  }

  /** The rename of the chunk; the session may meanwhile be finalizing or gone. */
  function PlaceChunk(s: State, t: Tid): State {
    match PhaseOf(s, t)
    case Writing(sid, shape, n, body) =>
      Goto(s, t, Bumping(sid, n)).(chunks := s.chunks[sid := DirOf(s, sid)[n := body]])
    case _ => s
  }

  /** BumpUploadedChunks: a high-water mark. */
  function Bump(s: State, t: Tid): State {
    match PhaseOf(s, t)
    case Bumping(sid, n) =>
      if sid in s.sessions && s.sessions[sid].uploaded < n
      then Goto(s, t, Idle).(sessions := s.sessions[sid := s.sessions[sid].(uploaded := n)])
      else Goto(s, t, Idle)
    case _ => s
  }

  /** FinalizeUpload reads the session row. */
  function Fetch(s: State, t: Tid, sid: SessionId): State {
    if PhaseOf(s, t).Idle? && sid in s.sessions then Goto(s, t, Fetched(sid, s.sessions[sid])) else s
  }

  /** claimFinalize: UPDATE ... WHERE state = 'uploading'. */
  function Claim(s: State, t: Tid): State {
    match PhaseOf(s, t)
    case Fetched(sid, sess) =>
      if sid in s.sessions && !s.sessions[sid].finalizing
      then Goto(s, t, Claimed(sid, sess, 0)).(sessions := s.sessions[sid := s.sessions[sid].(finalizing := true)])
      else Goto(s, t, Idle)
    case _ => s
  }

  /** One os.Stat of the presence loop, or, after the last, opening the staged file. */
  function StatChunk(s: State, t: Tid): State {
    match PhaseOf(s, t)
    case Claimed(sid, sess, seen) =>
      if seen < sess.shape.num then
        if seen + 1 in DirOf(s, sid) then Goto(s, t, Claimed(sid, sess, seen + 1)) else GiveUp(s, t, sid)
      else Goto(s, t, Copying(sid, sess, 0, [])).(stage := s.stage[sid := []])
    case _ => s
  }

  /** One iteration of concatChunks.  If the staged file was unlinked meanwhile the
      bytes go to the unlinked file. */
  function CopyChunk(s: State, t: Tid): State {
    match PhaseOf(s, t)
    case Copying(sid, sess, i, acc) =>
      if i >= sess.shape.num then s
      else if i + 1 !in DirOf(s, sid) then GiveUp(s, t, sid)
      else
        var acc' := acc + DirOf(s, sid)[i + 1];
        Goto(s, t, Copying(sid, sess, i + 1, acc')).(stage := if sid in s.stage then s.stage[sid := acc'] else s.stage)
    case _ => s
  }

  /** The size and hash checks. */
  function Verify(hash: Hash, s: State, t: Tid): State {
    match PhaseOf(s, t)
    case Copying(sid, sess, i, acc) =>
      if i < sess.shape.num then s
      else if |acc| != sess.shape.total then GiveUp(s, t, sid)
      else if sess.expected.Some? && hash(acc) != sess.expected.value then GiveUp(s, t, sid)
      else Goto(s, t, Assembled(sid, sess, acc))
    case _ => s
  }

  /** The FinalizeImage transaction: dedupe, derive the name, insert, delete the session row. */
  function Commit(hash: Hash, s: State, t: Tid, iid: ImageId, format: string): State {
    match PhaseOf(s, t)
    case Assembled(sid, sess, acc) =>
      if iid in s.hist.commits then s
      else
        (match CommitName(s.images, sess.base, format, hash(acc))
         case None => GiveUp(s, t, sid)
         case Some(f) =>
           Goto(s, t, Committed(sid, iid, f, acc)).(
             images := s.images[iid := Image(f, hash(acc), sid, sess.expected, acc)],
             sessions := s.sessions - {sid},
             hist := s.hist.(commits := s.hist.commits[iid := sid])))
    case _ => s
  }

  /** The rename into the catalog directory, which needs the staged file to still be there. */
  function Move(s: State, t: Tid): State {
    match PhaseOf(s, t)
    case Committed(sid, iid, name, acc) =>
      if sid in s.stage
      then Goto(s, t, Sweeping(sid)).(files := s.files[name := s.stage[sid]], stage := s.stage - {sid})
      else Goto(s, t, RenameFailed(sid, iid))
    case _ => s
  }

  /** The rename may also fail for any other reason. */
  function MoveFails(s: State, t: Tid): State {
    match PhaseOf(s, t)
    case Committed(sid, iid, name, acc) => Goto(s, t, RenameFailed(sid, iid))
    case _ => s
  }

  /** The compensating DELETE; its error is ignored by the code. */
  function Rollback(s: State, t: Tid, works: bool): State {
    match PhaseOf(s, t)
    case RenameFailed(sid, iid) =>
      if works then GiveUp(s, t, sid).(images := s.images - {iid})
      else GiveUp(s, t, sid).(hist := s.hist.(lost := s.hist.lost + {iid}))
    case _ => s
  }

  /** Any I/O or database error of a finalize between claim and commit. */
  function FailFinalize(s: State, t: Tid): State {
    match PhaseOf(s, t)
    case Claimed(sid, _, _) => GiveUp(s, t, sid)
    case Copying(sid, _, _, _) => GiveUp(s, t, sid)
    case Assembled(sid, _, _) => GiveUp(s, t, sid)
    case _ => s
  }

  /** releaseFinalize, best effort. */
  function Release(s: State, t: Tid, works: bool): State {
    match PhaseOf(s, t)
    case Failing(sid) =>
      if !works then Goto(s, t, Idle).(hist := s.hist.(leaked := s.hist.leaked + {sid}))
      else if sid in s.sessions
      then Goto(s, t, Idle).(sessions := s.sessions[sid := s.sessions[sid].(finalizing := false)])
      else Goto(s, t, Idle)
    case _ => s
  }

  /** AbortUpload: the row goes first, whatever its state. */
  function Abort(s: State, t: Tid, sid: SessionId): State {
    if PhaseOf(s, t).Idle? && sid in s.sessions
    then Goto(s, t, Sweeping(sid)).(sessions := s.sessions - {sid})
    else s
  }

  /** Part of a RemoveAll: some chunk files and possibly the staged file disappear. */
  function Sweep(s: State, t: Tid, ns: set<nat>, stageToo: bool): State {
    match PhaseOf(s, t)
    case Sweeping(sid) =>
      s.(chunks := s.chunks[sid := DirOf(s, sid) - ns], stage := if stageToo then s.stage - {sid} else s.stage)
    case _ => s
  }

  /** A request ends: a chunk write that failed, a finished sweep, a lost finalize race. */
  function Quit(s: State, t: Tid): State {
    match PhaseOf(s, t)
    case Writing(_, _, _, _) => Goto(s, t, Idle)
    case Fetched(_, _) => Goto(s, t, Idle)
    case Sweeping(_) => Goto(s, t, Idle)
    case _ => s
  }

  datatype Step =
    | DoCreate(sid: SessionId, base: Name, expected: Option<Digest>, shape: Shape)
    | DoStartWrite(t: Tid, sid: SessionId, n: nat, body: Bytes)
    | DoPlaceChunk(t: Tid) | DoBump(t: Tid)
    | DoFetch(t: Tid, sid: SessionId) | DoClaim(t: Tid) | DoStat(t: Tid) | DoCopy(t: Tid) | DoVerify(t: Tid)
    | DoCommit(t: Tid, iid: ImageId, format: string)
    | DoMove(t: Tid) | DoMoveFails(t: Tid) | DoRollback(t: Tid, works: bool)
    | DoFail(t: Tid) | DoRelease(t: Tid, works: bool)
    | DoAbort(t: Tid, sid: SessionId) | DoSweep(t: Tid, ns: set<nat>, stageToo: bool) | DoQuit(t: Tid)

  function Next(hash: Hash, s: State, step: Step): State {
    match step
    case DoCreate(sid, base, expected, shape) => Create(s, sid, base, expected, shape)
    case DoStartWrite(t, sid, n, body) => StartWrite(s, t, sid, n, body)
    case DoPlaceChunk(t) => PlaceChunk(s, t)
    case DoBump(t) => Bump(s, t)
    case DoFetch(t, sid) => Fetch(s, t, sid)
    case DoClaim(t) => Claim(s, t)
    case DoStat(t) => StatChunk(s, t)
    case DoCopy(t) => CopyChunk(s, t)
    case DoVerify(t) => Verify(hash, s, t)
    case DoCommit(t, iid, format) => Commit(hash, s, t, iid, format)
    case DoMove(t) => Move(s, t)
    case DoMoveFails(t) => MoveFails(s, t)
    case DoRollback(t, works) => Rollback(s, t, works)
    case DoFail(t) => FailFinalize(s, t)
    case DoRelease(t, works) => Release(s, t, works)
    case DoAbort(t, sid) => Abort(s, t, sid)
    case DoSweep(t, ns, stageToo) => Sweep(s, t, ns, stageToo)
    case DoQuit(t) => Quit(s, t)
  }

  const INIT := State(map[], map[], map[], map[], map[], map[], History(map[], map[], map[], {}, {}))

  function Run(hash: Hash, steps: seq<Step>): State {
    if steps == [] then INIT else Next(hash, Run(hash, steps[..|steps| - 1]), steps[|steps| - 1])
  }

  // ---------------------------------------------------------------- invariants

  /** The session whose finalize claim a goroutine holds. */
  function Holds(p: Phase): Option<SessionId> {
    match p
    case Claimed(sid, _, _) => Some(sid)
    case Copying(sid, _, _, _) => Some(sid)
    case Assembled(sid, _, _) => Some(sid)
    case Committed(sid, _, _, _) => Some(sid)
    case RenameFailed(sid, _) => Some(sid)
    case Failing(sid) => Some(sid)
    case _ => None
  }

  /** The image a goroutine has committed but not yet moved into place. */
  function Pending(p: Phase): Option<ImageId> {
    match p
    case Committed(_, iid, _, _) => Some(iid)
    case RenameFailed(_, iid) => Some(iid)
    case _ => None
  }

  type Shapes = map<SessionId, Shape>
  type Sessions = map<SessionId, Session>
  type Commits = map<ImageId, SessionId>
  type Threads = map<Tid, Phase>

  /** Sessions and chunk files agree with the shape the session was created with. */
  ghost predicate ShapeInv(shapes: Shapes, sessions: Sessions, chunks: map<SessionId, ChunkDir>) {
    && (forall sid :: sid in shapes ==> shapes[sid].Valid())
    && (forall sid :: sid in sessions ==> sid in shapes && sessions[sid].shape == shapes[sid])
    && (forall sid :: sid in chunks ==> sid in shapes && DirOk(shapes[sid], chunks[sid]))
  }

  ghost predicate DirOk(sh: Shape, dir: ChunkDir) {
    forall n :: n in dir ==> 1 <= n <= sh.num && |dir[n]| == sh.ChunkLen(n)
  }

  /** One holder per session, and a session with a holder is not "uploading". */
  ghost predicate ClaimInv(threads: Threads, sessions: Sessions) {
    && (forall t, u :: t in threads && u in threads && t != u && Holds(threads[t]).Some? ==>
          Holds(threads[t]) != Holds(threads[u]))
    && (forall t :: t in threads && Holds(threads[t]).Some? && Holds(threads[t]).value in sessions ==>
          sessions[Holds(threads[t]).value].finalizing)
  }

  /** A session contributes at most one image, and none while its row exists. */
  ghost predicate CommitInv(commits: Commits, images: Images, shapes: Shapes, sessions: Sessions) {
    && (forall i, j :: i in commits && j in commits && i != j ==> commits[i] != commits[j])
    && (forall i :: i in commits ==> commits[i] in shapes && commits[i] !in sessions)
    && (forall i :: i in images ==> i in commits && images[i].origin == commits[i])
    && UniqueRows(images)
  }

  /** What a goroutine knows in each phase. */
  ghost predicate PhaseInv(hash: Hash, s: State, p: Phase) {
    match p
    case Writing(sid, shape, n, body) =>
      sid in s.hist.shapes && shape == s.hist.shapes[sid] && 1 <= n <= shape.num && |body| == shape.ChunkLen(n)
    case Fetched(sid, sess) => sid in s.hist.shapes && sess.shape == s.hist.shapes[sid]
    case Claimed(sid, sess, seen) => Fresh(s.hist.commits, sid) && sid in s.hist.shapes && sess.shape == s.hist.shapes[sid]
    case Copying(sid, sess, i, acc) =>
      && Fresh(s.hist.commits, sid) && sid in s.hist.shapes && sess.shape == s.hist.shapes[sid] && StageIs(s, sid, acc)
      && i <= sess.shape.num && |acc| == sess.shape.Offset(i)
    case Assembled(sid, sess, acc) =>
      && Fresh(s.hist.commits, sid) && sid in s.hist.shapes && sess.shape == s.hist.shapes[sid] && StageIs(s, sid, acc)
      && |acc| == sess.shape.total && (sess.expected.Some? ==> sess.expected.value == hash(acc))
    case Committed(sid, iid, name, acc) =>
      && sid in s.hist.shapes && iid in s.images && s.images[iid].filename == name && s.images[iid].bytes == acc
      && s.images[iid].origin == sid && StageIs(s, sid, acc)
    case RenameFailed(sid, iid) => sid in s.hist.shapes && iid in s.images && s.images[iid].origin == sid
    case Failing(sid) => sid in s.hist.shapes
    case Sweeping(sid) => sid in s.hist.shapes
    case _ => true
  }

  /** The session has contributed no image so far. */
  ghost predicate Fresh(commits: Commits, sid: SessionId) {
    forall i :: i in commits ==> commits[i] != sid
  }

  ghost predicate StageIs(s: State, sid: SessionId, acc: Bytes) {
    sid in s.stage ==> s.stage[sid] == acc
  }

  ghost predicate ThreadsInv(hash: Hash, s: State) {
    forall t :: t in s.threads ==> PhaseInv(hash, s, s.threads[t])
  }

  ghost predicate IsPending(threads: Threads, i: ImageId) {
    exists t :: t in threads && Pending(threads[t]) == Some(i)
  }

  /** The file of a catalog row is on disk and holds the bytes that were hashed. */
  ghost predicate FileOk(row: Image, files: map<string, Bytes>) {
    row.filename in files && files[row.filename] == row.bytes
  }

  ghost predicate CatalogInv(hash: Hash, images: Images, files: map<string, Bytes>, lost: set<ImageId>, threads: Threads) {
    && (forall i :: i in images && i !in lost ==> IsPending(threads, i) || FileOk(images[i], files))
    && (forall i :: i in images ==> images[i].sha == hash(images[i].bytes))
    && (forall i :: i in images && images[i].expected.Some? ==> images[i].expected.value == images[i].sha)
  }

  ghost predicate Inv(hash: Hash, s: State) {
    && ShapeInv(s.hist.shapes, s.sessions, s.chunks)
    && ClaimInv(s.threads, s.sessions)
    && CommitInv(s.hist.commits, s.images, s.hist.shapes, s.sessions)
    && CatalogInv(hash, s.images, s.files, s.hist.lost, s.threads)
    && ThreadsInv(hash, s)
  }
}
