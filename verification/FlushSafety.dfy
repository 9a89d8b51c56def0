/** When a call of the log sink's flush may be relied on (cmd/agent/reporter_handler.go):
    exactly which states at the call make it safe, over every continuation. */
module FlushSafety {
  import opened LogSink

  /** A continuation of a run in which no further flush begins. */
  predicate Extends(steps: seq<Step>, longer: seq<Step>) {
    steps <= longer && forall k :: |steps| <= k < |longer| ==> !longer[k].Begin?
  }

  // ---------------------------------------------------------------- a race that ends badly

  /** Nothing but a submission changes what has been accepted. */
  lemma AcceptedKept(s: State, step: Step)
    requires !step.Submit?
    ensures Accepted(Next(s, step)) == Accepted(s)
  {
    hide Accepted;
    if step.Begin? {
      BeginTakesNothing(s);
    } else if step.i < |s.actors| {
      var i, a := step.i, s.actors[step.i];
      if step.Take? && a.Idle? && s.queue != [] { Secure(s, i, Busy(s.queue[0])); }
      if step.Post? && a.Holding() { PostSecures(s, i); }
      if step.Exit? && a.Idle? && s.stopped { EmptyHanded(s, i, Exited); }
      if step.Return? && a.Waiting? { EmptyHanded(s, i, Returned(a.before)); }
      if step.Drain? && a.Draining? {
        if s.queue == [] { EmptyHanded(s, i, Waiting(a.before)); } else { Secure(s, i, Posting(a.before, s.queue[0])); }
      }
    }
  }

  /** Flush j runs while flush i sits on an entry it has not posted. */
  predicate Races(s: State, i: nat, held: Actor, j: nat, b: multiset<Entry>) {
    && WORKERS <= i < |s.actors| && WORKERS <= j < |s.actors| && i != j && s.stopped
    && s.actors[i] == held && held.Posting?
    && Accepted(s) == b
    && forall w :: 0 <= w < WORKERS ==> s.actors[w].IsWorker()
  }

  lemma RaceGoesOn(s: State, step: Step, i: nat, held: Actor, j: nat, b: multiset<Entry>)
    requires Races(s, i, held, j, b) && (step.Drain? || step.Post? || step.Exit? || step.Return?) && step.i != i
    ensures Races(Next(s, step), i, held, j, b)
  {
    hide Accepted, Held;
    AcceptedKept(s, step);
  }

  /** Flush j empties the channel by itself. */
  lemma {:induction false} DrainsAll(steps: seq<Step>, i: nat, held: Actor, j: nat, b: multiset<Entry>) returns (longer: seq<Step>)
    requires Races(Run(steps), i, held, j, b) && Run(steps).actors[j] == Draining(b)
    ensures Extends(steps, longer) && Races(Run(longer), i, held, j, b) && Run(longer).actors[j] == Waiting(b)
    decreases |Run(steps).queue|
  {
    hide Run, Accepted;
    var s := Run(steps);
    Grows(steps, Drain(j));
    RaceGoesOn(s, Drain(j), i, held, j, b);
    longer := steps + [Drain(j)];
    if s.queue != [] {
      Grows(longer, Post(j));
      RaceGoesOn(Run(longer), Post(j), i, held, j, b);
      longer := DrainsAll(longer + [Post(j)], i, held, j, b);
    }
  }

  /** The workers from number w on finish their POSTs and stop. */
  lemma {:induction false} WorkersLeave(steps: seq<Step>, i: nat, held: Actor, j: nat, b: multiset<Entry>, w: nat)
    returns (longer: seq<Step>)
    requires w <= WORKERS && Races(Run(steps), i, held, j, b) && Run(steps).actors[j] == Waiting(b)
    requires forall k :: 0 <= k < w ==> Run(steps).actors[k].Exited?
    ensures Extends(steps, longer)
    ensures Races(Run(longer), i, held, j, b) && Run(longer).actors[j] == Waiting(b) && AllExited(Run(longer).actors)
    decreases WORKERS - w
  {
    hide Run, Accepted;
    longer := steps;
    if w < WORKERS {
      if Run(longer).actors[w].Busy? {
        Grows(longer, Post(w));
        RaceGoesOn(Run(longer), Post(w), i, held, j, b);
        longer := longer + [Post(w)];
      }
      Grows(longer, Exit(w));
      RaceGoesOn(Run(longer), Exit(w), i, held, j, b);
      longer := WorkersLeave(longer + [Exit(w)], i, held, j, b, w + 1);
    }
  }

  /** An entry in somebody's hands is accepted and not posted. */
  lemma HeldIsMissing(s: State, i: nat)
    requires i < |s.actors| && s.actors[i].Holding()
    ensures !(Accepted(s) <= s.posted)
  {
    var e := s.actors[i].e;
    assert e in Hand(s.actors[i]);
    HeldBy(s.actors, e);
    assert Accepted(s)[e] == multiset(s.queue)[e] + Held(s.actors)[e] + s.posted[e];
  }

  lemma RaceEnds(steps: seq<Step>, i: nat, held: Actor, j: nat, b: multiset<Entry>) returns (longer: seq<Step>)
    requires Races(Run(steps), i, held, j, b) && Run(steps).actors[j] == Draining(b)
    ensures Extends(steps, longer)
    ensures var s := Run(longer); j < |s.actors| && s.actors[j] == Returned(b) && !(b <= s.posted)
  {
    hide Run, Accepted;
    longer := DrainsAll(steps, i, held, j, b);
    longer := WorkersLeave(longer, i, held, j, b, 0);
    Grows(longer, Return(j));
    RaceGoesOn(Run(longer), Return(j), i, held, j, b);
    longer := longer + [Return(j)];
    HeldIsMissing(Run(longer), i);
  }

  /** Another flush is in the middle of a POST, or still draining a channel that is not empty. */
  ghost predicate Danger(s: State) {
    exists i :: 0 <= i < |s.actors| && Threatens(s, i)
  }

  predicate Threatens(s: State, i: nat)
    requires i < |s.actors|
  {
    s.actors[i].Posting? || (s.actors[i].Draining? && s.queue != [])
  }

  /** A flush that begins while another one posts races with it. */
  lemma RaceBegins(s: State, i: nat)
    requires Inv(s) && i < |s.actors| && s.actors[i].Posting?
    ensures Races(DoBegin(s), i, s.actors[i], |s.actors|, Accepted(s))
  {
    hide Accepted;
    BeginTakesNothing(s);
    assert ActorOk(s, i);
    forall w | 0 <= w < WORKERS ensures s.actors[w].IsWorker() { assert ActorOk(s, w); }
  }

  /** And so does one that begins while another one drains, once that one has taken an entry. */
  lemma DrainRaceBegins(s: State, i: nat)
    requires Inv(s) && i < |s.actors| && s.actors[i].Draining? && s.queue != []
    ensures Races(DoDrain(DoBegin(s), i), i, Posting(s.actors[i].before, s.queue[0]), |s.actors|, Accepted(s))
    ensures DoDrain(DoBegin(s), i).actors[|s.actors|] == Draining(Accepted(s))
  {
    hide Accepted;
    BeginTakesNothing(s);
    AcceptedKept(DoBegin(s), Drain(i));
    assert ActorOk(s, i);
    forall w | 0 <= w < WORKERS ensures s.actors[w].IsWorker() { assert ActorOk(s, w); }
  }

  /** In danger a flush that begins may return before everything accepted before it is posted. */
  lemma OverlapMayMiss(steps: seq<Step>) returns (longer: seq<Step>)
    requires Danger(Run(steps))
    ensures Extends(steps + [Begin], longer)
    ensures var s, j := Run(longer), |Run(steps).actors|;
            j < |s.actors| && s.actors[j] == Returned(Accepted(Run(steps))) && !(Accepted(Run(steps)) <= s.posted)
  {
    hide Run, Accepted, Races, Inv, DoDrain;
    RunKeepsInv(steps);
    var s, b, j := Run(steps), Accepted(Run(steps)), |Run(steps).actors|;
    var i :| 0 <= i < |s.actors| && Threatens(s, i);
    Grows(steps, Begin);
    if s.actors[i].Posting? {
      RaceBegins(s, i);
      longer := RaceEnds(steps + [Begin], i, s.actors[i], j, b);
    } else {
      DrainRaceBegins(s, i);
      Grows(steps + [Begin], Drain(i));
      longer := RaceEnds(steps + [Begin] + [Drain(i)], i, Posting(s.actors[i].before, s.queue[0]), j, b);
    }
  }

  // ---------------------------------------------------------------- a flush that is safe

  /** Only the workers can still owe entries of b, or no flush but j is left to take one. */
  ghost predicate Sheltered(s: State, j: nat, b: multiset<Entry>) {
    && WORKERS <= j < |s.actors| && !s.actors[j].IsWorker() && s.actors[j].before == b
    && (b <= s.posted + Held(s.actors[..WORKERS]) || Alone(s, j))
  }

  predicate Alone(s: State, j: nat) {
    forall k :: WORKERS <= k < |s.actors| && k != j ==> s.actors[k].Waiting? || s.actors[k].Returned?
  }

  /** What the workers hold or have posted only grows. */
  lemma WorkersKeep(s: State, step: Step)
    requires Inv(s) && !step.Begin?
    ensures var s' := Next(s, step);
            |s'.actors| == |s.actors| && s.posted + Held(s.actors[..WORKERS]) <= s'.posted + Held(s'.actors[..WORKERS])
  {
    hide Held, Accepted, Secured;
    if !step.Submit? && step.i < |s.actors| {
      var i, w := step.i, s.actors[..WORKERS];
      var s' := Next(s, step);
      assert ActorOk(s, i);
      if i < WORKERS {
        assert s'.actors[..WORKERS] == w[i := s'.actors[i]];
        if step.Post? && s.actors[i].Holding() {
          PutDown(w, i, s'.actors[i]);
          Regroup(s.posted, Hand(w[i]), Held(w[i := s'.actors[i]]));
        } else if !s.actors[i].Holding() {
          PickUp(w, i, s'.actors[i]);
        }
      } else {
        assert s'.actors[..WORKERS] == w;
      }
    }
  }

  lemma StepSheltered(s: State, step: Step, j: nat, b: multiset<Entry>)
    requires Inv(s) && Sheltered(s, j, b) && !step.Begin?
    ensures Sheltered(Next(s, step), j, b)
  {
    hide Held, Inv, Accepted;
    WorkersKeep(s, step);
    FlushKept(s, step, j);
  }

  /** A flush stays the flush it is, and being alone lasts. */
  lemma FlushKept(s: State, step: Step, j: nat)
    requires WORKERS <= j < |s.actors| && !s.actors[j].IsWorker() && !step.Begin?
    ensures var s' := Next(s, step);
            && |s'.actors| == |s.actors| && !s'.actors[j].IsWorker() && s'.actors[j].before == s.actors[j].before
            && (Alone(s, j) ==> Alone(s', j))
  {
    hide Held, Accepted;
  }

  lemma {:induction false} RunSheltered(steps: seq<Step>, longer: seq<Step>, j: nat, b: multiset<Entry>)
    requires Extends(steps, longer) && Sheltered(Run(steps), j, b)
    ensures Sheltered(Run(longer), j, b)
    decreases |longer|
  {
    hide Sheltered, Next, Inv;
    if longer != steps {
      var n := |longer| - 1;
      RunSheltered(steps, longer[..n], j, b);
      RunKeepsInv(longer[..n]);
      StepSheltered(Run(longer[..n]), longer[n], j, b);
    }
  }

  lemma {:induction false} HeldByFirst(actors: seq<Actor>, n: nat)
    requires n <= |actors| && forall k :: n <= k < |actors| ==> !actors[k].Holding()
    ensures Held(actors) == Held(actors[..n])
  {
    if n < |actors| {
      var m := |actors| - 1;
      HeldByFirst(actors[..m], n);
      assert actors[..m][..n] == actors[..n];
    } else {
      assert actors[..n] == actors;
    }
  }

  /** A flush that begins out of danger is sheltered. */
  lemma BeginsSheltered(s: State)
    requires Inv(s) && !Danger(s)
    ensures Sheltered(DoBegin(s), |s.actors|, Accepted(s))
  {
    hide Held;
    var s', j, b := DoBegin(s), |s.actors|, Accepted(s);
    forall k | WORKERS <= k < j ensures !s.actors[k].Holding() && (s.queue != [] ==> s.actors[k].Waiting? || s.actors[k].Returned?) {
      assert ActorOk(s, k) && !Threatens(s, k);
    }
    assert s'.actors[..WORKERS] == s.actors[..WORKERS];
    if s.queue == [] {
      HeldByFirst(s.actors, WORKERS);
      Commutes(Held(s.actors), s.posted);
    }
  }

  lemma Commutes(x: multiset<Entry>, y: multiset<Entry>)
    ensures multiset([]) + (x + y) <= y + x
  {
  }

  lemma ShelteredReturn(steps: seq<Step>, j: nat, b: multiset<Entry>)
    requires Sheltered(Run(steps), j, b) && Run(steps).actors[j].Returned?
    ensures b <= Run(steps).posted
  {
    hide Run, Held;
    var s := Run(steps);
    RunKeepsInv(steps);
    ReturnedFlush(steps, j);
    if Alone(s, j) {
      forall k | 0 <= k < |s.actors| ensures !s.actors[k].Posting? { assert ActorOk(s, k); }
    } else {
      IdleHands(s.actors[..WORKERS]);
    }
  }

  /** A call of flush that begins now will, whenever it returns and whatever happens until
      then short of another call, have everything accepted before it posted. */
  ghost predicate Reliable(steps: seq<Step>) {
    forall longer :: Extends(steps + [Begin], longer) ==> Kept(longer, |Run(steps).actors|, Accepted(Run(steps)))
  }

  /** If flush j has returned, b is posted. */
  ghost predicate Kept(longer: seq<Step>, j: nat, b: multiset<Entry>) {
    j < |Run(longer).actors| && Run(longer).actors[j].Returned? ==> b <= Run(longer).posted
  }

  /** Exactly when a flush may be relied on, read off the state in which it is called: no
      other flush is in the middle of a POST, and none still drains a channel with entries. */
  lemma FlushSafeIff(steps: seq<Step>)
    ensures Reliable(steps) <==> !Danger(Run(steps))
  {
    hide Run, Danger, Accepted, Extends;
    if Danger(Run(steps)) {
      var longer := OverlapMayMiss(steps);
      assert !Kept(longer, |Run(steps).actors|, Accepted(Run(steps)));
    } else {
      RunKeepsInv(steps);
      BeginsSheltered(Run(steps));
      Grows(steps, Begin);
      forall longer | Extends(steps + [Begin], longer) ensures Kept(longer, |Run(steps).actors|, Accepted(Run(steps))) {
        RunSheltered(steps + [Begin], longer, |Run(steps).actors|, Accepted(Run(steps)));
        if |Run(steps).actors| < |Run(longer).actors| && Run(longer).actors[|Run(steps).actors|].Returned? {
          ShelteredReturn(longer, |Run(steps).actors|, Accepted(Run(steps)));
        }
      }
    }
  }

  // ---------------------------------------------------------------- whatever is called later

  /** The same against every continuation, further calls of flush included. */
  ghost predicate AlwaysReliable(steps: seq<Step>) {
    forall longer :: steps + [Begin] <= longer ==> Kept(longer, |Run(steps).actors|, Accepted(Run(steps)))
  }

  /** Only the workers can still owe entries of b. */
  ghost predicate Owed(s: State, j: nat, b: multiset<Entry>) {
    && WORKERS <= j < |s.actors| && !s.actors[j].IsWorker() && s.actors[j].before == b
    && b <= s.posted + Held(s.actors[..WORKERS])
  }

  lemma StepOwed(s: State, step: Step, j: nat, b: multiset<Entry>)
    requires Inv(s) && Owed(s, j, b)
    ensures Owed(Next(s, step), j, b)
  {
    hide Held, Inv, Accepted;
    if step.Begin? {
      assert DoBegin(s).actors[..WORKERS] == s.actors[..WORKERS];
    } else {
      WorkersKeep(s, step);
      FlushKept(s, step, j);
    }
  }

  lemma {:induction false} RunOwed(steps: seq<Step>, longer: seq<Step>, j: nat, b: multiset<Entry>)
    requires steps <= longer && Owed(Run(steps), j, b)
    ensures Owed(Run(longer), j, b)
    decreases |longer|
  {
    hide Owed, Next, Inv;
    if longer != steps {
      var n := |longer| - 1;
      RunOwed(steps, longer[..n], j, b);
      RunKeepsInv(longer[..n]);
      StepOwed(Run(longer[..n]), longer[n], j, b);
    }
  }

  /** No flush posts. */
  predicate Quiet(s: State) {
    forall i :: 0 <= i < |s.actors| ==> !s.actors[i].Posting?
  }

  lemma BeginsOwed(s: State)
    requires Inv(s) && s.queue == [] && Quiet(s)
    ensures Owed(DoBegin(s), |s.actors|, Accepted(s))
  {
    hide Held;
    forall k | WORKERS <= k < |s.actors| ensures !s.actors[k].Holding() { assert ActorOk(s, k); }
    assert DoBegin(s).actors[..WORKERS] == s.actors[..WORKERS];
    HeldByFirst(s.actors, WORKERS);
    Commutes(Held(s.actors), s.posted);
  }

  /** With entries queued, a later flush can take one from under the first. */
  lemma LaterMayMiss(steps: seq<Step>) returns (longer: seq<Step>)
    requires Run(steps).queue != []
    ensures steps + [Begin] <= longer && !Kept(longer, |Run(steps).actors|, Accepted(Run(steps)))
  {
    hide Run, Accepted, Races, Inv;
    var s, j := Run(steps), |Run(steps).actors|;
    var twice := steps + [Begin] + [Begin];
    Grows(steps, Begin);
    Grows(steps + [Begin], Begin);
    Grows(twice, Drain(j + 1));
    RunKeepsInv(steps);
    LaterRaceBegins(s);
    longer := RaceEnds(twice + [Drain(j + 1)], j + 1, Posting(Accepted(s), s.queue[0]), j, Accepted(s));
  }

  lemma LaterRaceBegins(s: State)
    requires Inv(s) && s.queue != []
    ensures var s', j := DoDrain(DoBegin(DoBegin(s)), |s.actors| + 1), |s.actors|;
            Races(s', j + 1, Posting(Accepted(s), s.queue[0]), j, Accepted(s)) && s'.actors[j] == Draining(Accepted(s))
  {
    hide Accepted;
    BeginTakesNothing(s);
    BeginTakesNothing(DoBegin(s));
    AcceptedKept(DoBegin(DoBegin(s)), Drain(|s.actors| + 1));
    forall w | 0 <= w < WORKERS ensures s.actors[w].IsWorker() { assert ActorOk(s, w); }
  }

  /** A flush may be relied on whatever else is called, exactly when the channel is empty and
      no other flush posts. */
  lemma FlushAlwaysSafeIff(steps: seq<Step>)
    ensures AlwaysReliable(steps) <==> Run(steps).queue == [] && Quiet(Run(steps))
  {
    hide Run, Accepted, Owed, Inv;
    var s, j, b := Run(steps), |Run(steps).actors|, Accepted(Run(steps));
    if s.queue != [] {
      var longer := LaterMayMiss(steps);
      assert !Kept(longer, j, b);
    } else if !Quiet(s) {
      var i :| 0 <= i < |s.actors| && s.actors[i].Posting?;
      assert Threatens(s, i);
      var longer := OverlapMayMiss(steps);
      assert !Kept(longer, j, b);
    } else {
      RunKeepsInv(steps);
      BeginsOwed(s);
      Grows(steps, Begin);
      forall longer | steps + [Begin] <= longer ensures Kept(longer, j, b) {
        RunOwed(steps + [Begin], longer, j, b);
        if j < |Run(longer).actors| && Run(longer).actors[j].Returned? { OwedReturn(longer, j, b); }
      }
    }
  }

  lemma OwedReturn(steps: seq<Step>, j: nat, b: multiset<Entry>)
    requires Owed(Run(steps), j, b) && Run(steps).actors[j].Returned?
    ensures b <= Run(steps).posted
  {
    ShelteredReturn(steps, j, b);
  }
}
