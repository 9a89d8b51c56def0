/** The agent's asynchronous log sink (cmd/agent/reporter_handler.go): a bounded channel,
    a fixed pool of workers and a flush that any number of goroutines may call, split at
    every channel operation and every POST. */
module LogSink {
  type Entry = string

  const CAP := 1024      // asyncLogChannelCap
  const WORKERS := 5     // asyncLogConcurrency

  /** A worker, or a goroutine inside flush.  A flush remembers, as history, what had
      been accepted when it began. */
  datatype Actor =
    | Idle | Busy(e: Entry) | Exited
    | Draining(before: multiset<Entry>)
    | Posting(before: multiset<Entry>, e: Entry)
    | Waiting(before: multiset<Entry>)
    | Returned(before: multiset<Entry>)
  {
    predicate IsWorker() { Idle? || Busy? || Exited? }
    predicate Holding() { Busy? || Posting? }
  }

  /** The first five actors are the workers.  `submitted`, `dropped` and `posted` are history. */
  datatype State = State(queue: seq<Entry>, stopped: bool, actors: seq<Actor>,
                         submitted: multiset<Entry>, dropped: multiset<Entry>, posted: multiset<Entry>)

  datatype Step =
    | Submit(e: Entry)
    | Take(i: nat)      // worker: receive from the channel
    | Post(i: nat)      // worker or flush: the POST ends, well or badly
    | Exit(i: nat)      // worker: receive from stopCh
    | Begin             // a new flush: close stopCh unless closed
    | Drain(i: nat)     // flush: receive, or leave the loop when the channel is empty
    | Return(i: nat)    // flush: wg.Wait returns

  function Act(s: State, i: nat, a: Actor): State
    requires i < |s.actors|
  {
    s.(actors := s.actors[i := a])
  }

  predicate AllExited(actors: seq<Actor>) {
    |actors| >= WORKERS && forall i :: 0 <= i < WORKERS ==> actors[i].Exited?
  }

  function DoSubmit(s: State, e: Entry): State {
    if |s.queue| < CAP
    then s.(queue := s.queue + [e], submitted := s.submitted + multiset{e})
    else s.(dropped := s.dropped + multiset{e}, submitted := s.submitted + multiset{e})
  }

  function DoTake(s: State, i: nat): State {
    if i < |s.actors| && s.actors[i].Idle? && s.queue != []
    then Act(s, i, Busy(s.queue[0])).(queue := s.queue[1..]) else s
  }

  function DoPost(s: State, i: nat): State {
    if i >= |s.actors| || !s.actors[i].Holding() then s
    else
      var a := s.actors[i];
      Act(s, i, if a.Busy? then Idle else Draining(a.before)).(posted := s.posted + multiset{a.e})
  }

  function DoExit(s: State, i: nat): State {
    if i < |s.actors| && s.actors[i].Idle? && s.stopped then Act(s, i, Exited) else s
  }

  function DoBegin(s: State): State {
    s.(stopped := true, actors := s.actors + [Draining(Accepted(s))])
  }

  function DoDrain(s: State, i: nat): State {
    if i >= |s.actors| || !s.actors[i].Draining? then s
    else if s.queue == [] then Act(s, i, Waiting(s.actors[i].before))
    else Act(s, i, Posting(s.actors[i].before, s.queue[0])).(queue := s.queue[1..])
  }

  function DoReturn(s: State, i: nat): State {
    if i < |s.actors| && s.actors[i].Waiting? && AllExited(s.actors) then Act(s, i, Returned(s.actors[i].before)) else s
  }

  function Next(s: State, step: Step): State {
    match step
    case Submit(e) => DoSubmit(s, e)
    case Take(i) => DoTake(s, i)
    case Post(i) => DoPost(s, i)
    case Exit(i) => DoExit(s, i)
    case Begin => DoBegin(s)
    case Drain(i) => DoDrain(s, i)
    case Return(i) => DoReturn(s, i)
  }

  const INIT := State([], false, [Idle, Idle, Idle, Idle, Idle], multiset{}, multiset{}, multiset{})

  function Run(steps: seq<Step>): State {
    if steps == [] then INIT else Next(Run(steps[..|steps| - 1]), steps[|steps| - 1])
  }

  // ---------------------------------------------------------------- entries in someone's hands

  function Hand(a: Actor): multiset<Entry> {
    if a.Holding() then multiset{a.e} else multiset{}
  }

  function Held(actors: seq<Actor>): multiset<Entry> {
    if actors == [] then multiset{} else Held(actors[..|actors| - 1]) + Hand(actors[|actors| - 1])
  }

  /** Out of the channel: posted or about to be. */
  function Secured(s: State): multiset<Entry> { Held(s.actors) + s.posted }

  function Accepted(s: State): multiset<Entry> { multiset(s.queue) + Secured(s) }

  lemma {:induction false} PickUp(actors: seq<Actor>, i: nat, a: Actor)
    requires i < |actors| && !actors[i].Holding()
    ensures Held(actors[i := a]) == Held(actors) + Hand(a)
  {
    hide Held;
    var n := |actors| - 1;
    var front := actors[..n];
    assert actors == front + [actors[n]];
    HeldAppend(front, actors[n]);
    if i == n {
      assert actors[i := a] == front + [a];
      HeldAppend(front, a);
    } else {
      hide Hand;
      assert actors[i := a] == front[i := a] + [actors[n]];
      HeldAppend(front[i := a], actors[n]);
      PickUp(front, i, a);
      Regroup(Held(front), Hand(a), Hand(actors[n]));
    }
  }

  lemma PutDown(actors: seq<Actor>, i: nat, a: Actor)
    requires i < |actors| && !a.Holding()
    ensures Held(actors) == Held(actors[i := a]) + Hand(actors[i])
  {
    assert actors[i := a][i := actors[i]] == actors;
    PickUp(actors[i := a], i, actors[i]);
  }

  lemma Regroup(x: multiset<Entry>, y: multiset<Entry>, z: multiset<Entry>)
    ensures x + y + z == x + z + y
    ensures x + (y + z) == x + y + z
  {
  }

  lemma {:induction false} IdleHands(actors: seq<Actor>)
    requires forall i :: 0 <= i < |actors| ==> !actors[i].Holding()
    ensures Held(actors) == multiset{}
  {
    if actors != [] { IdleHands(actors[..|actors| - 1]); }
  }

  lemma HeldAppend(actors: seq<Actor>, a: Actor)
    ensures Held(actors + [a]) == Held(actors) + Hand(a)
  {
    assert (actors + [a])[..|actors|] == actors;
  }

  lemma {:induction false} HeldBy(actors: seq<Actor>, e: Entry)
    ensures e in Held(actors) <==> exists i :: 0 <= i < |actors| && e in Hand(actors[i])
  {
    if actors != [] {
      var n := |actors| - 1;
      HeldBy(actors[..n], e);
      if e in Held(actors[..n]) {
        var i :| 0 <= i < n && e in Hand(actors[..n][i]);
        assert e in Hand(actors[i]);
      }
      if i :| 0 <= i < |actors| && e in Hand(actors[i]) {
        assert i == n || e in Hand(actors[..n][i]);
      }
    }
  }

  lemma Pop(q: seq<Entry>)
    requires q != []
    ensures multiset(q) == multiset{q[0]} + multiset(q[1..])
  {
    assert q == [q[0]] + q[1..];
  }

  // ---------------------------------------------------------------- invariants

  /** Every submitted entry is in exactly one place. */
  ghost predicate Conserved(s: State) {
    s.submitted == s.dropped + Accepted(s)
  }

  ghost predicate ActorOk(s: State, i: nat)
    requires i < |s.actors|
  {
    var a := s.actors[i];
    && (i < WORKERS <==> a.IsWorker())
    && (a.Exited? ==> s.stopped)
    && (!a.IsWorker() ==> s.stopped && a.before <= Accepted(s))
    && (a.Waiting? || a.Returned? ==> a.before <= Secured(s))
    && (a.Returned? ==> AllExited(s.actors))
  }

  ghost predicate Inv(s: State) {
    && Conserved(s) && |s.queue| <= CAP && |s.actors| >= WORKERS
    && forall i :: 0 <= i < |s.actors| ==> ActorOk(s, i)
  }

  /** A step that moves one actor keeps the others' promises when nothing accepted or
      secured is lost. */
  lemma OthersOk(s: State, s': State, i: nat)
    requires Inv(s) && i < |s.actors| && |s'.actors| == |s.actors|
    requires s.stopped ==> s'.stopped
    requires AllExited(s.actors) ==> AllExited(s'.actors)
    requires forall k :: 0 <= k < |s.actors| && k != i ==> s'.actors[k] == s.actors[k]
    requires Secured(s) <= Secured(s') && Accepted(s) <= Accepted(s')
    ensures forall k :: 0 <= k < |s'.actors| && k != i ==> ActorOk(s', k)
  {
    hide Secured, Accepted, AllExited;
    forall k | 0 <= k < |s'.actors| && k != i ensures ActorOk(s', k) {
      assert ActorOk(s, k);
    }
  }

  lemma SubmitKeeps(s: State, e: Entry)
    requires Inv(s)
    ensures Inv(DoSubmit(s, e))
  {
    hide Accepted, Secured;
    var s' := DoSubmit(s, e);
    SubmitAccepts(s, e);
    forall k | 0 <= k < |s'.actors| ensures ActorOk(s', k) { assert ActorOk(s, k); }
    if |s.queue| == CAP { Regroup(s.dropped, Accepted(s), multiset{e}); }
  }

  lemma SubmitAccepts(s: State, e: Entry)
    ensures var s' := DoSubmit(s, e);
            && Secured(s') == Secured(s)
            && Accepted(s') == if |s.queue| < CAP then Accepted(s) + multiset{e} else Accepted(s)
  {
    hide Held;
    assert multiset(s.queue + [e]) == multiset(s.queue) + multiset{e};
  }

  /** Taking the head of the queue secures it and accepts nothing new. */
  lemma Secure(s: State, i: nat, a: Actor)
    requires i < |s.actors| && !s.actors[i].Holding() && s.queue != [] && a.Holding() && a.e == s.queue[0]
    ensures var s' := Act(s, i, a).(queue := s.queue[1..]);
            Accepted(s') == Accepted(s) && Secured(s) <= Secured(s')
  {
    hide Held;
    var q, h, e := multiset(s.queue[1..]), Held(s.actors), multiset{a.e};
    PickUp(s.actors, i, a);
    Pop(s.queue);
    assert Hand(a) == e;
    assert q + ((h + e) + s.posted) == (e + q) + (h + s.posted);
    assert h + s.posted <= (h + e) + s.posted;
  }

  lemma TakeKeeps(s: State, i: nat)
    requires Inv(s)
    ensures Inv(DoTake(s, i))
  {
    hide Accepted, Secured;
    if i < |s.actors| && s.actors[i].Idle? && s.queue != [] {
      assert ActorOk(s, i);
      Secure(s, i, Busy(s.queue[0]));
      OthersOk(s, DoTake(s, i), i);
    }
  }

  lemma PostSecures(s: State, i: nat)
    requires i < |s.actors| && s.actors[i].Holding()
    ensures Accepted(DoPost(s, i)) == Accepted(s) && Secured(DoPost(s, i)) == Secured(s)
  {
    hide Held;
    var a := s.actors[i];
    var a' := if a.Busy? then Idle else Draining(a.before);
    PutDown(s.actors, i, a');
    var h := Held(s.actors[i := a']);
    assert h + (s.posted + multiset{a.e}) == (h + multiset{a.e}) + s.posted;
  }

  lemma PostKeeps(s: State, i: nat)
    requires Inv(s)
    ensures Inv(DoPost(s, i))
  {
    hide Accepted, Secured;
    if i < |s.actors| && s.actors[i].Holding() {
      assert ActorOk(s, i);
      PostSecures(s, i);
      OthersOk(s, DoPost(s, i), i);
    }
  }

  lemma EmptyHanded(s: State, i: nat, a: Actor)
    requires i < |s.actors| && !s.actors[i].Holding() && !a.Holding()
    ensures Accepted(Act(s, i, a)) == Accepted(s) && Secured(Act(s, i, a)) == Secured(s)
  {
    hide Held;
    PickUp(s.actors, i, a);
    assert Held(s.actors) + multiset{} == Held(s.actors);
  }

  lemma ExitKeeps(s: State, i: nat)
    requires Inv(s)
    ensures Inv(DoExit(s, i))
  {
    hide Accepted, Secured;
    if i < |s.actors| && s.actors[i].Idle? && s.stopped {
      assert ActorOk(s, i);
      EmptyHanded(s, i, Exited);
      OthersOk(s, DoExit(s, i), i);
    }
  }

  /** A flush that begins takes nothing yet. */
  lemma BeginTakesNothing(s: State)
    ensures Accepted(DoBegin(s)) == Accepted(s) && Secured(DoBegin(s)) == Secured(s)
  {
    hide Held;
    HeldAppend(s.actors, Draining(Accepted(s)));
  }

  lemma BeginKeeps(s: State)
    requires Inv(s)
    ensures Inv(DoBegin(s))
  {
    hide Accepted, Secured;
    var s' := DoBegin(s);
    BeginTakesNothing(s);
    forall k | 0 <= k < |s.actors| ensures ActorOk(s', k) { assert ActorOk(s, k); }
  }

  lemma DrainKeeps(s: State, i: nat)
    requires Inv(s)
    ensures Inv(DoDrain(s, i))
  {
    hide Accepted, Secured;
    if i < |s.actors| && s.actors[i].Draining? {
      assert ActorOk(s, i);
      if s.queue == [] {
        EmptyHanded(s, i, Waiting(s.actors[i].before));
        assert Accepted(s) <= Secured(s) by { NothingQueued(s); }
      } else {
        Secure(s, i, Posting(s.actors[i].before, s.queue[0]));
      }
      OthersOk(s, DoDrain(s, i), i);
    }
  }

  lemma NothingQueued(s: State)
    requires s.queue == []
    ensures Accepted(s) == Secured(s)
  {
    hide Secured;
  }

  lemma ReturnKeeps(s: State, i: nat)
    requires Inv(s)
    ensures Inv(DoReturn(s, i))
  {
    hide Accepted, Secured;
    if i < |s.actors| && s.actors[i].Waiting? && AllExited(s.actors) {
      assert ActorOk(s, i);
      EmptyHanded(s, i, Returned(s.actors[i].before));
      OthersOk(s, DoReturn(s, i), i);
    }
  }

  lemma StepKeepsInv(s: State, step: Step)
    requires Inv(s)
    ensures Inv(Next(s, step))
  {
    hide Inv, DoSubmit, DoTake, DoPost, DoExit, DoBegin, DoDrain, DoReturn;
    match step
    case Submit(e) => SubmitKeeps(s, e);
    case Take(i) => TakeKeeps(s, i);
    case Post(i) => PostKeeps(s, i);
    case Exit(i) => ExitKeeps(s, i);
    case Begin => BeginKeeps(s);
    case Drain(i) => DrainKeeps(s, i);
    case Return(i) => ReturnKeeps(s, i);
  }

  lemma {:induction false} RunKeepsInv(steps: seq<Step>)
    ensures Inv(Run(steps))
  {
    if steps != [] {
      hide Inv, Next;
      RunKeepsInv(steps[..|steps| - 1]);
      StepKeepsInv(Run(steps[..|steps| - 1]), steps[|steps| - 1]);
    } else {
      IdleHands(INIT.actors);
    }
  }

  // ---------------------------------------------------------------- theorems

  /** Conservation, in every reachable state: submitted entries are dropped, queued, in
      someone's hands or posted, each exactly once, and the channel keeps its bound. */
  lemma Conservation(steps: seq<Step>)
    ensures var s := Run(steps);
            && s.submitted == s.dropped + multiset(s.queue) + Held(s.actors) + s.posted
            && s.posted <= s.submitted && |s.queue| <= CAP
  {
    RunKeepsInv(steps);
  }

  /** No two submissions are the same entry. */
  ghost predicate Distinct(s: State) {
    forall e :: s.submitted[e] <= 1
  }

  /** Some flush other than i is in the middle of a POST of an entry accepted before i began. */
  ghost predicate SnatchedFrom(s: State, i: nat)
    requires i < |s.actors| && s.actors[i].Returned?
  {
    exists k :: 0 <= k < |s.actors| && s.actors[k].Posting? && s.actors[k].e in s.actors[i].before
  }

  /** Once a flush has returned all workers are gone, and what was accepted before it
      began is posted except for what other flushes hold. */
  lemma ReturnedFlush(steps: seq<Step>, i: nat)
    requires i < |Run(steps).actors| && Run(steps).actors[i].Returned?
    ensures var s := Run(steps);
            && AllExited(s.actors) && s.actors[i].before <= s.posted + Held(s.actors)
            && (forall k :: 0 <= k < |s.actors| && s.actors[k].Holding() ==> s.actors[k].Posting? && k != i)
            && (!SnatchedFrom(s, i) ==> s.actors[i].before <= s.posted)
  {
    var s := Run(steps);
    RunKeepsInv(steps);
    assert ActorOk(s, i);
    forall k | 0 <= k < |s.actors| && s.actors[k].Holding() ensures s.actors[k].Posting? {
      assert ActorOk(s, k);
    }
    if !SnatchedFrom(s, i) {
      forall e | e in s.actors[i].before ensures s.actors[i].before[e] <= s.posted[e] {
        HeldBy(s.actors, e);
      }
    }
  }

  /** Exactly when a returned flush has kept its promise: every entry accepted before it
      began has been posted, once, if and only if no other flush still holds one of them. */
  lemma FlushCompleteIff(steps: seq<Step>, i: nat)
    requires i < |Run(steps).actors| && Run(steps).actors[i].Returned? && Distinct(Run(steps))
    ensures var s := Run(steps);
            (forall e :: e in s.actors[i].before ==> s.posted[e] == 1) <==> !SnatchedFrom(s, i)
  {
    var s := Run(steps);
    RunKeepsInv(steps);
    Conservation(steps);
    ReturnedFlush(steps, i);
    if k :| 0 <= k < |s.actors| && s.actors[k].Posting? && s.actors[k].e in s.actors[i].before {
      var e := s.actors[k].e;
      assert e in Hand(s.actors[k]);
      HeldBy(s.actors, e);
      assert s.submitted[e] == s.dropped[e] + multiset(s.queue)[e] + Held(s.actors)[e] + s.posted[e];
      assert s.posted[e] == 0;
    }
    if !SnatchedFrom(s, i) {
      forall e | e in s.actors[i].before ensures s.posted[e] == 1 {
        assert s.posted[e] <= s.submitted[e];
      }
    }
  }

  /** When flushes do not overlap, a returned flush has everything accepted before posted. */
  lemma SerialFlushComplete(steps: seq<Step>, i: nat)
    requires WORKERS <= i < |Run(steps).actors|
    requires forall k :: WORKERS <= k < |Run(steps).actors| ==> Run(steps).actors[k].Returned?
    ensures Run(steps).actors[i].before <= Run(steps).posted
  {
    RunKeepsInv(steps);
    ReturnedFlush(steps, i);
    forall k | 0 <= k < WORKERS ensures !Run(steps).actors[k].Posting? { assert ActorOk(Run(steps), k); }
  }

  // ---------------------------------------------------------------- flush terminates

  function Work(a: Actor): nat {
    match a
    case Idle => 1
    case Busy(_) => 2
    case Exited => 0
    case Draining(_) => 2
    case Posting(_, _) => 3
    case Waiting(_) => 1
    case Returned(_) => 0
  }

  function TotalWork(actors: seq<Actor>): nat {
    if actors == [] then 0 else TotalWork(actors[..|actors| - 1]) + Work(actors[|actors| - 1])
  }

  function Measure(s: State): nat {
    3 * |s.queue| + TotalWork(s.actors)
  }

  lemma {:induction false} WorkUpdate(actors: seq<Actor>, i: nat, a: Actor)
    requires i < |actors|
    ensures TotalWork(actors[i := a]) == TotalWork(actors) - Work(actors[i]) + Work(a)
  {
    var n := |actors| - 1;
    if i == n {
      assert actors[i := a][..n] == actors[..n];
    } else {
      assert actors[i := a][..n] == actors[..n][i := a];
      WorkUpdate(actors[..n], i, a);
    }
  }

  /** Every step of a worker or a flush that does anything uses up work. */
  lemma StepsUseUpWork(s: State, step: Step)
    requires !step.Submit? && !step.Begin?
    ensures Next(s, step) == s || Measure(Next(s, step)) < Measure(s)
  {
    hide TotalWork;
    if step.i < |s.actors| {
      var s' := Next(s, step);
      if s' != s {
        assert s'.actors == s.actors[step.i := s'.actors[step.i]];
        WorkUpdate(s.actors, step.i, s'.actors[step.i]);
      }
    }
  }

  /** Until every flush has returned some step uses up work, so that a flush returns
      under every fair schedule once submissions pause. */
  lemma FlushNeverStuck(steps: seq<Step>, i: nat) returns (step: Step)
    requires WORKERS <= i < |Run(steps).actors| && !Run(steps).actors[i].Returned?
    ensures !step.Submit? && !step.Begin? && Measure(Next(Run(steps), step)) < Measure(Run(steps))
  {
    var s := Run(steps);
    RunKeepsInv(steps);
    hide Run, Measure;
    var a := s.actors[i];
    assert ActorOk(s, i);
    if a.Draining? {
      step := Drain(i);
    } else if a.Posting? {
      step := Post(i);
    } else if AllExited(s.actors) {
      step := Return(i);
    } else {
      var w :| 0 <= w < WORKERS && !s.actors[w].Exited?;
      assert ActorOk(s, w);
      step := if s.actors[w].Idle? then Exit(w) else Post(w);
    }
    assert Next(s, step).actors[step.i] != s.actors[step.i];
    StepsUseUpWork(s, step);
  }

  // ---------------------------------------------------------------- overlapping flushes

  lemma Grows(steps: seq<Step>, step: Step)
    ensures Run(steps + [step]) == Next(Run(steps), step)
  {
    assert (steps + [step])[..|steps|] == steps;
  }

  /** One flush takes the only entry, a second finds the channel empty. */
  lemma TwoFlushes(s: State) returns (t: State)
    requires s.queue == ["x"] && s.actors == INIT.actors && s.posted == multiset{}
    ensures t == DoDrain(DoBegin(DoDrain(DoBegin(s), 5)), 6)
    ensures t.stopped && t.posted == multiset{} && t.submitted == s.submitted && |t.actors| == 7
    ensures t.actors[5].Posting? && t.actors[6] == Waiting(multiset{"x"})
    ensures forall k :: 0 <= k < 5 ==> t.actors[k].Idle?
  {
    hide Accepted;
    var s1 := DoDrain(DoBegin(s), 5);
    OneFlush(s);
    t := DoDrain(DoBegin(s1), 6);
  }

  lemma OneFlush(s: State)
    requires s.queue == ["x"] && s.actors == INIT.actors && s.posted == multiset{}
    ensures var t := DoDrain(DoBegin(s), 5);
            && t.queue == [] && t.actors == INIT.actors + [Posting(multiset{"x"}, "x")]
            && Accepted(t) == multiset{"x"}
  {
    hide Held;
    var x := multiset{"x"};
    IdleHands(INIT.actors);
    assert multiset(s.queue) == x && Accepted(s) == x;
    var t := DoDrain(DoBegin(s), 5);
    assert t.actors == INIT.actors + [Posting(x, "x")];
    HeldAppend(INIT.actors, Posting(x, "x"));
  }

  lemma Opening() returns (steps: seq<Step>)
    ensures Run(steps).queue == ["x"] && Run(steps).actors == INIT.actors && Run(steps).posted == multiset{}
    ensures Run(steps).submitted == multiset{"x"}
  {
    steps := [Submit("x")];
    assert steps[..0] == [];
  }

  lemma FlushTwice(steps: seq<Step>) returns (longer: seq<Step>)
    ensures Run(longer) == DoDrain(DoBegin(DoDrain(DoBegin(Run(steps)), 5)), 6)
  {
    hide Run, DoBegin, DoDrain;
    Grows(steps, Begin);
    Grows(steps + [Begin], Drain(5));
    Grows(steps + [Begin] + [Drain(5)], Begin);
    Grows(steps + [Begin] + [Drain(5)] + [Begin], Drain(6));
    longer := steps + [Begin] + [Drain(5)] + [Begin] + [Drain(6)];
  }

  /** Two overlapping flushes: the first to return has not seen the entry posted. */
  lemma FirstReturnMayMiss() returns (steps: seq<Step>)
    ensures var s := Run(steps);
            && |s.actors| == 7 && s.actors[5].Posting? && s.actors[6] == Returned(multiset{"x"})
            && s.posted == multiset{} && s.submitted == multiset{"x"}
  {
    hide Run, DoBegin, DoDrain, DoSubmit, DoTake, DoPost;
    var first := Opening();
    steps := FlushTwice(first);
    var t := TwoFlushes(Run(first));
    var k := 0;
    while k < 5
      invariant k <= 5
      invariant var s := Run(steps);
        && s.stopped && |s.actors| == 7 && s.actors[5].Posting? && s.actors[6] == Waiting(multiset{"x"})
        && s.posted == multiset{} && s.submitted == multiset{"x"}
        && (forall i :: 0 <= i < k ==> s.actors[i].Exited?) && (forall i :: k <= i < 5 ==> s.actors[i].Idle?)
    {
      Grows(steps, Exit(k));
      steps := steps + [Exit(k)];
      k := k + 1;
    }
    Grows(steps, Return(6));
    steps := steps + [Return(6)];
  }

  // ---------------------------------------------------------------- the channel

  /** A submission enters the channel at its end, unless the channel already holds 1024
      entries; only then is it dropped. */
  lemma SubmitSpelt(s: State, e: Entry)
    ensures var s' := Next(s, Submit(e));
            && s'.submitted == s.submitted + multiset{e} && s'.posted == s.posted && s'.actors == s.actors
            && (|s.queue| < 1024 ==> s'.queue == s.queue + [e] && s'.dropped == s.dropped)
            && (|s.queue| >= 1024 ==> s'.queue == s.queue && s'.dropped == s.dropped + multiset{e})
  {
  }

  /** An idle worker takes the oldest entry of the channel and posts it; a draining flush
      does the same. */
  lemma TakeSpelt(s: State, i: nat)
    requires i < |s.actors| && s.queue != []
    ensures s.actors[i].Idle? ==>
      var s' := Next(s, Take(i)); s'.actors[i] == Busy(s.queue[0]) && [s.queue[0]] + s'.queue == s.queue
    ensures s.actors[i].Draining? ==>
      var s' := Next(s, Drain(i)); s'.actors[i].Posting? && s'.actors[i].e == s.queue[0] && [s.queue[0]] + s'.queue == s.queue
    ensures s.actors[i].Busy? ==>
      var s' := Next(s, Post(i)); s'.actors[i].Idle? && s'.posted == s.posted + multiset{s.actors[i].e} && s'.queue == s.queue
  {
  }

  /** Five workers, all idle, and an empty channel to begin with. */
  lemma StartSpelt()
    ensures Run([]).queue == [] && |Run([]).actors| == 5 && !Run([]).stopped
    ensures forall i :: 0 <= i < 5 ==> Run([]).actors[i].Idle?
  {
  }
}
