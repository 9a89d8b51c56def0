/** Deletes against PUTs, repeated PUTs, and the sequential store as a special case of the
    interleaving model (internal/bindings/store.go). */
module BindingTheorems {
  import opened Basics
  import A = Addresses
  import opened Prober
  import opened Allocator
  import opened Bindings

  /** A run continued from s. */
  ghost function After(s: State, steps: seq<Step>): State {
    if steps == [] then s else Next(After(s, steps[..|steps| - 1]), steps[|steps| - 1])
  }

  lemma One(s: State, steps: seq<Step>, step: Step)
    ensures After(s, steps + [step]) == Next(After(s, steps), step)
  {
    hide Next;
    assert (steps + [step])[..|steps|] == steps;
  }

  lemma {:induction false} RunIsAfter(steps: seq<Step>)
    ensures Run(steps) == After(INIT, steps)
  {
    hide Next;
    if steps != [] { RunIsAfter(steps[..|steps| - 1]); }
  }

  // ---------------------------------------------------------------- deletes against PUTs

  /** The phases in which a PUT has read the row and not yet written it. */
  predicate Loading(p: Phase) {
    p.ReadFirst? || p.Scanning? || p.Reserved? || p.Decided? || p.ReadSecond?
  }

  /** A delete of m falls between the reads of a PUT of m and its insert. */
  ghost predicate Strikes(s: State, step: Step, m: Uuid) {
    step.Delete? && m in step.ms && exists t :: t in s.threads && Loading(s.threads[t]) && s.threads[t].put.machine == m
  }

  /** Nothing of m was brought back and no running PUT of m is about to. */
  ghost predicate Settled(s: State, m: Uuid) {
    && (forall c :: (m, c) !in s.hist.undone)
    && (forall t :: t in s.threads && Loading(s.threads[t]) && s.threads[t].put.machine == m ==> m !in s.hist.gone)
  }

  lemma StaysSettled(s: State, step: Step, m: Uuid)
    requires Settled(s, m) && !Strikes(s, step, m)
    ensures Settled(Next(s, step), m)
  {
    var s' := Next(s, step);
    if !Writes(step) { QuietShape(s, step, Actor(step).value); }
  }

  lemma {:induction false} RunSettled(steps: seq<Step>, m: Uuid)
    requires forall k :: 0 <= k < |steps| ==> !Strikes(Run(steps[..k]), steps[k], m)
    ensures Settled(Run(steps), m)
  {
    if steps != [] {
      hide Next, Strikes, Settled;
      var n := |steps| - 1;
      forall k | 0 <= k < n ensures steps[..n][..k] == steps[..k] {}
      RunSettled(steps[..n], m);
      StaysSettled(Run(steps[..n]), steps[n], m);
    } else {
      assert Settled(INIT, m);
    }
  }

  /** Last mention wins: in every run in which no delete of m falls between the reads of a
      PUT of m and its insert, each of the nine overrides of m is what the last PUT that
      mentioned it since the last delete dictates. */
  lemma LastMentionWins(steps: seq<Step>, m: Uuid, c: Col)
    requires forall k :: 0 <= k < |steps| ==> !Strikes(Run(steps[..k]), steps[k], m)
    ensures Get(Existing(Run(steps).rows, m), c) == LastMention(Run(steps).hist.log, m, c)
  {
    hide Run, Next, Strikes;
    RunSettled(steps, m);
    LastMentionIff(steps, m, c);
  }

  /** Exactly which columns a delete loses to a PUT it falls into: after the insert a column
      is what the PUT alone would give it on a fresh row, if and only if the PUT mentions it
      or had loaded nothing for it. */
  lemma DeleteUndoneIff(s: State, t: Tid, c: Col)
    requires PhaseOf(s, t).ReadSecond?
    ensures var p := PhaseOf(s, t);
            var m, loaded := p.put.machine, p.cols + p.more;
            var s' := Next(Next(s, Delete({m})), Insert(t));
            && m in s'.rows
            && (Get(s'.rows[m].cols, c) == NewColumn(p.put, map[], c) <==>
                  c in p.put.mentions || Get(loaded, c).None? || Blank(loaded[c]))
  {
    var p := PhaseOf(s, t);
    var loaded := p.cols + p.more;
    var s' := Next(Next(s, Delete({p.put.machine})), Insert(t));
    assert s'.rows[p.put.machine].cols == Resolve(p.put, loaded);
    assert Get(Resolve(p.put, loaded), c) == NewColumn(p.put, loaded, c);
  }

  // ---------------------------------------------------------------- the sequential store is a run

  /** A PUT that loads the row and checks its keys. */
  lemma {:induction false} ChecksKeys(s: State, steps: seq<Step>, t: Tid, put: Put, cols: Columns, n: nat)
    returns (longer: seq<Step>)
    requires KeysKnown(put, After(s, steps).keys) && n <= |MentionedKeys(put)|
    requires PhaseOf(After(s, steps), t) == ReadFirst(put, cols, n)
    ensures After(s, longer) == Goto(After(s, steps), t, ReadFirst(put, cols, |MentionedKeys(put)|))
    decreases |MentionedKeys(put)| - n
  {
    hide After;
    var here := After(s, steps);
    if n == |MentionedKeys(put)| {
      longer := steps;
      assert Goto(here, t, ReadFirst(put, cols, n)) == here by { SamePhase(here, t); }
    } else {
      One(s, steps, CheckKey(t));
      assert MentionedKeys(put)[n] in here.keys;
      longer := ChecksKeys(s, steps + [CheckKey(t)], t, put, cols, n + 1);
    }
  }

  lemma SamePhase(s: State, t: Tid)
    requires t in s.threads
    ensures Goto(s, t, PhaseOf(s, t)) == s
  {
    assert s.threads[t := s.threads[t]] == s.threads;
  }

  lemma FirstSteps(s: State, t: Tid, put: Put)
    requires s.lock.None? && PhaseOf(s, t).Idle?
    ensures Next(Next(s, BeginPut(t, put)), ReadOverrides(t))
         == Goto(s, t, ReadFirst(put, Part(Existing(s.rows, put.machine), true), 0)).(lock := Some(t), hist := s.hist.(gone := {}))
  {
    hide Part;
    var s1 := Next(s, BeginPut(t, put));
    assert s1 == Goto(s, t, Locked(put)).(lock := Some(t));
  }

  lemma Reads(s: State, t: Tid, put: Put) returns (steps: seq<Step>)
    requires s.lock.None? && PhaseOf(s, t).Idle? && KeysKnown(put, s.keys)
    ensures After(s, steps) == Goto(s, t, ReadFirst(put, Part(Existing(s.rows, put.machine), true), |MentionedKeys(put)|)).(
                                 lock := Some(t), hist := s.hist.(gone := {}))
  {
    hide After, Next, Part, MentionedKeys;
    var cols := Part(Existing(s.rows, put.machine), true);
    FirstSteps(s, t, put);
    Nothing(s);
    One(s, [], BeginPut(t, put));
    One(s, [] + [BeginPut(t, put)], ReadOverrides(t));
    steps := [] + [BeginPut(t, put)] + [ReadOverrides(t)];
    steps := ChecksKeys(s, steps, t, put, cols, 0);
  }

  lemma Nothing(s: State)
    ensures After(s, []) == s
  {
  }

  /** Deciding the address, by the rule the sequential store obeys. */
  lemma Decides(s: State, steps: seq<Step>, t: Tid, put: Put, cols: Columns, sn: Option<Subnet>, w: Surroundings,
                probe: Layer, addr: Option<A.IP>)
    returns (longer: seq<Step>, isNew: bool)
    requires var here := After(s, steps);
      && PhaseOf(here, t) == ReadFirst(put, cols, |MentionedKeys(put)|) && (put.addr.Some? ==> put.fixed)
      && AddressRule(put, OwnAddress(here.rows, put.machine), sn, OtherAddresses(here.rows, put.machine), w, probe, addr)
      && (sn.Some? ==> SubnetOf(put, cols).Some?)
    ensures var here := After(s, steps);
            After(s, longer) == Goto(here, t, Decided(put, cols, addr, OriginOf(put, here.rows, sn), isNew))
  {
    hide After, FirstFit;
    var here := After(s, steps);
    isNew := false;
    if put.addr.Some? == put.fixed {
      One(s, steps, DecideGiven(t));
      longer := steps + [DecideGiven(t)];
    } else {
      One(s, steps, ReadOwn(t, sn.value.net));
      longer := steps + [ReadOwn(t, sn.value.net)];
      if !Keeps(sn.value, OwnAddress(here.rows, put.machine)) {
        longer := Picks(s, longer, t, put, cols, sn.value, w, probe, addr.value);
        isNew := true;
        assert After(s, longer) == Goto(here, t, Decided(put, cols, addr, Auto, true));
      }
    }
  }

  lemma Picks(s: State, steps: seq<Step>, t: Tid, put: Put, cols: Columns, sn: Subnet, w: Surroundings,
              probe: Layer, a: A.IP)
    returns (longer: seq<Step>)
    requires PhaseOf(After(s, steps), t) == Scanning(put, cols, sn.net)
    requires Allocates(sn, OtherAddresses(After(s, steps).rows, put.machine), w, probe, Some(a))
    ensures After(s, longer) == Goto(After(s, steps), t, Decided(put, cols, Some(a), Auto, true))
  {
    hide After, FirstFit;
    var here := After(s, steps);
    var others := OtherAddresses(here.rows, put.machine);
    var used :| ReservedFor(sn, others, w, used) && FirstFit(sn.net, used, probe, Some(a));
    assert used + others == used;
    One(s, steps, Reserve(t, used));
    One(s, steps + [Reserve(t, used)], Pick(t, probe, a));
    longer := steps + [Reserve(t, used)] + [Pick(t, probe, a)];
  }

  /** The three last steps of a PUT, from the state in which its address is decided. */
  lemma LastSteps(s: State, t: Tid, put: Put, addr: Option<A.IP>, origin: Origin, isNew: bool)
    requires PhaseOf(s, t) == Decided(put, Part(Existing(s.rows, put.machine), true), addr, origin, isNew)
    ensures var s' := Next(Next(Next(s, ReadRest(t)), Insert(t)), Release(t));
            && s'.rows == s.rows[put.machine := Row(addr, origin, Resolve(put, Existing(s.rows, put.machine)), put.desired)]
            && s'.keys == s.keys && s'.lock.None? && s'.threads == s.threads[t := Idle]
            && s'.hist.log == s.hist.log + [Stored(put)]
  {
    hide Resolve, UndoneBy;
    var existing := Existing(s.rows, put.machine);
    assert Part(existing, true) + Part(existing, false) == existing;
    var s1 := Next(s, ReadRest(t));
    assert s1 == Goto(s, t, ReadSecond(put, Part(existing, true), addr, origin, isNew, Part(existing, false)));
    var s2 := Next(s1, Insert(t));
    assert PhaseOf(s2, t).Done?;
  }

  lemma Stores(s: State, steps: seq<Step>, t: Tid, put: Put, addr: Option<A.IP>, origin: Origin, isNew: bool)
    returns (longer: seq<Step>)
    requires var here := After(s, steps);
      PhaseOf(here, t) == Decided(put, Part(Existing(here.rows, put.machine), true), addr, origin, isNew)
    ensures var here, s' := After(s, steps), After(s, longer);
            && s'.rows == here.rows[put.machine := Row(addr, origin, Resolve(put, Existing(here.rows, put.machine)), put.desired)]
            && s'.keys == here.keys && s'.lock.None? && s'.threads == here.threads[t := Idle]
            && s'.hist.log == here.hist.log + [Stored(put)]
  {
    hide After, Next, Resolve, Part;
    LastSteps(After(s, steps), t, put, addr, origin, isNew);
    One(s, steps, ReadRest(t));
    One(s, steps + [ReadRest(t)], Insert(t));
    One(s, steps + [ReadRest(t)] + [Insert(t)], Release(t));
    longer := steps + [ReadRest(t)] + [Insert(t)] + [Release(t)];
  }

  /** Every successful call of the sequential store is a run of the interleaving model: from
      a state with the lock free, an undisturbed PUT stores the row that Store.Upsert's
      contract describes, and nothing else changes. */
  lemma UpsertIsRun(s: State, t: Tid, put: Put, sn: Option<Subnet>, w: Surroundings, probe: Layer, addr: Option<A.IP>)
    returns (steps: seq<Step>)
    requires s.lock.None? && PhaseOf(s, t).Idle? && KeysKnown(put, s.keys) && (put.addr.Some? ==> put.fixed)
    requires sn.Some? <==> Governing(put, Existing(s.rows, put.machine)).Some?
    requires AddressRule(put, OwnAddress(s.rows, put.machine), sn, OtherAddresses(s.rows, put.machine), w, probe, addr)
    ensures var s' := After(s, steps);
            && s'.rows == s.rows[put.machine := Row(addr, OriginOf(put, s.rows, sn),
                                                    Resolve(put, Existing(s.rows, put.machine)), put.desired)]
            && s'.keys == s.keys && s'.lock.None? && PhaseOf(s', t).Idle?
            && s'.hist.log == s.hist.log + [Stored(put)]
  {
    hide After, AddressRule, OriginOf, Next, Resolve;
    var cols := Part(Existing(s.rows, put.machine), true);
    var a := Reads(s, t, put);
    var b, isNew := Decides(s, a, t, put, cols, sn, w, probe, addr);
    steps := Stores(s, b, t, put, addr, OriginOf(put, s.rows, sn), isNew);
  }

  /** So is every refused call, which leaves no trace in the tables. */
  lemma RefusedIsRun(s: State, t: Tid, put: Put) returns (steps: seq<Step>)
    requires s.lock.None? && PhaseOf(s, t).Idle?
    ensures var s' := After(s, steps);
            s'.rows == s.rows && s'.keys == s.keys && s'.hist == s.hist && s'.lock.None? && PhaseOf(s', t).Idle?
  {
    hide After;
    Nothing(s);
    One(s, [], BeginPut(t, put));
    One(s, [] + [BeginPut(t, put)], Bindings.Fail(t));
    steps := [] + [BeginPut(t, put)] + [Bindings.Fail(t)];
  }

  /** A PUT that names an unknown key is stopped by its own checks, without any other failure. */
  lemma UnknownKeyIsRun(s: State, t: Tid, put: Put) returns (steps: seq<Step>)
    requires s.lock.None? && PhaseOf(s, t).Idle? && !KeysKnown(put, s.keys)
    ensures forall k :: 0 <= k < |steps| ==> !steps[k].Fail?
    ensures var s' := After(s, steps); s'.rows == s.rows && s'.keys == s.keys && s'.lock.None? && PhaseOf(s', t).Idle?
  {
    hide After, Next, Part, MentionedKeys;
    FirstSteps(s, t, put);
    Nothing(s);
    One(s, [], BeginPut(t, put));
    One(s, [] + [BeginPut(t, put)], ReadOverrides(t));
    steps := [] + [BeginPut(t, put)] + [ReadOverrides(t)];
    steps := ChecksFail(s, steps, t, put, Part(Existing(s.rows, put.machine), true), 0);
  }

  lemma {:induction false} ChecksFail(s: State, steps: seq<Step>, t: Tid, put: Put, cols: Columns, n: nat)
    returns (longer: seq<Step>)
    requires !KeysKnown(put, After(s, steps).keys) && n <= |MentionedKeys(put)|
    requires forall k :: 0 <= k < n ==> MentionedKeys(put)[k] in After(s, steps).keys
    requires PhaseOf(After(s, steps), t) == ReadFirst(put, cols, n)
    requires forall k :: 0 <= k < |steps| ==> !steps[k].Fail?
    ensures forall k :: 0 <= k < |longer| ==> !longer[k].Fail?
    ensures var a, b := After(s, steps), After(s, longer);
            b.rows == a.rows && b.keys == a.keys && b.lock.None? && PhaseOf(b, t).Idle?
    decreases |MentionedKeys(put)| - n
  {
    hide After, MentionedKeys;
    var here := After(s, steps);
    assert n < |MentionedKeys(put)|;
    One(s, steps, CheckKey(t));
    longer := steps + [CheckKey(t)];
    if MentionedKeys(put)[n] in here.keys { longer := ChecksFail(s, longer, t, put, cols, n + 1); }
  }

  // ---------------------------------------------------------------- the other operations

  /** ClearDesiredState touches one column of one row. */
  lemma ClearDesiredSpelt(s: State, m: Uuid)
    ensures var s' := Next(s, ClearDesired(m));
            && s'.rows.Keys == s.rows.Keys && s'.keys == s.keys && s'.threads == s.threads && s'.lock == s.lock
            && (m in s.rows ==> s'.rows[m].desired == "none")
            && forall u :: u in s.rows ==>
                 && s'.rows[u].addr == s.rows[u].addr && s'.rows[u].cols == s.rows[u].cols
                 && (u != m ==> s'.rows[u].desired == s.rows[u].desired)
  {
  }

  lemma CountsAndDrops(s: State, t: Tid, k: KeyId)
    requires s.lock.None? && PhaseOf(s, t).Idle?
    requires forall m, ids :: m in s.rows && SshKeys in s.rows[m].cols && s.rows[m].cols[SshKeys] == Keys(ids) ==> k !in ids
    ensures var s' := Next(Next(Next(Next(s, BeginKeyDelete(t, k)), CountKey(t)), DropKey(t)), Release(t));
            s'.keys == s.keys - {k} && s'.rows == s.rows && s'.lock.None? && PhaseOf(s', t).Idle?
  {
    var s1 := Next(s, BeginKeyDelete(t, k));
    assert PhaseOf(s1, t) == KeyLocked(k) && s1.rows == s.rows;
    forall m | m in s.rows ensures !Names(s.rows[m].cols, k) {}
    var s2 := Next(s1, CountKey(t));
    assert PhaseOf(s2, t) == KeyCounted(k);
    var s3 := Next(s2, DropKey(t));
    assert PhaseOf(s3, t).Done?;
  }

  /** A key that no binding lists can be deleted. */
  lemma UnlistedKeyGoes(s: State, t: Tid, k: KeyId) returns (steps: seq<Step>)
    requires s.lock.None? && PhaseOf(s, t).Idle?
    requires forall m, ids :: m in s.rows && SshKeys in s.rows[m].cols && s.rows[m].cols[SshKeys] == Keys(ids) ==> k !in ids
    ensures var s' := After(s, steps);
            s'.keys == s.keys - {k} && s'.rows == s.rows && s'.lock.None? && PhaseOf(s', t).Idle?
  {
    hide After, Next;
    CountsAndDrops(s, t, k);
    Nothing(s);
    One(s, [], BeginKeyDelete(t, k));
    One(s, [] + [BeginKeyDelete(t, k)], CountKey(t));
    One(s, [] + [BeginKeyDelete(t, k)] + [CountKey(t)], DropKey(t));
    One(s, [] + [BeginKeyDelete(t, k)] + [CountKey(t)] + [DropKey(t)], Release(t));
    steps := [] + [BeginKeyDelete(t, k)] + [CountKey(t)] + [DropKey(t)] + [Release(t)];
  }

  /** A key that some binding lists is refused at the count, which gives the lock back. */
  lemma ListedKeyStays(s: State, t: Tid, k: KeyId, m: Uuid, ids: seq<KeyId>)
    requires PhaseOf(s, t) == KeyLocked(k)
    requires m in s.rows && SshKeys in s.rows[m].cols && s.rows[m].cols[SshKeys] == Keys(ids) && k in ids
    ensures var s' := Next(s, CountKey(t)); s'.keys == s.keys && s'.rows == s.rows && s'.lock.None? && PhaseOf(s', t).Idle?
  {
    assert Names(s.rows[m].cols, k);
  }

  // ---------------------------------------------------------------- a delete that is undone

  lemma {:induction false} CreatesKeys(ids: seq<KeyId>) returns (steps: seq<Step>)
    ensures After(INIT, steps) == INIT.(keys := After(INIT, steps).keys)
    ensures forall k :: k in ids ==> k in After(INIT, steps).keys
  {
    if ids == [] {
      steps := [];
    } else {
      hide After;
      var n := |ids| - 1;
      var front := CreatesKeys(ids[..n]);
      One(INIT, front, CreateKey(ids[n]));
      steps := front + [CreateKey(ids[n])];
      forall k | k in ids ensures k in After(INIT, steps).keys { assert k in ids[..n] || k == ids[n]; }
    }
  }

  lemma {:induction false} Chained(s: State, a: seq<Step>, b: seq<Step>)
    ensures After(s, a + b) == After(After(s, a), b)
  {
    hide Next;
    if b == [] {
      assert a + b == a;
    } else {
      var n := |b| - 1;
      assert (a + b)[..|a| + n] == a + b[..n];
      Chained(s, a, b[..n]);
    }
  }

  /** From the empty store, one PUT that stores a value for a column. */
  lemma StoresFirst(m: Uuid, c: Col, v: Value) returns (steps: seq<Step>)
    requires !Blank(v)
    ensures var s := After(INIT, steps);
            m in s.rows && Get(s.rows[m].cols, c) == Some(v) && s.lock.None? && PhaseOf(s, 0).Idle?
  {
    hide After, Next;
    var first := Put(m, false, None, map[c := v], "");
    var silent: Layer := _ => Unavailable;
    var a := CreatesKeys(MentionedKeys(first));
    var s := After(INIT, a);
    var b := UpsertIsRun(s, 0, first, None, Surroundings([], [], None), silent, None);
    assert Get(After(s, b).rows[m].cols, c) == NewColumn(first, map[], c) == Some(v);
    Chained(INIT, a, b);
    steps := a + b;
  }

  /** From the empty store: store any override on any machine, start a PUT that does not
      mention it, delete the row, let the PUT finish.  The override is back, although nothing
      since the delete mentions it. */
  lemma DeleteUndoneRun(m: Uuid, c: Col, v: Value) returns (steps: seq<Step>)
    requires !Blank(v)
    ensures var s := Run(steps);
            && m in s.rows && Get(s.rows[m].cols, c) == Some(v) && LastMention(s.hist.log, m, c) == None
            && (m, c) in s.hist.undone
  {
    hide After, Next;
    var a := StoresFirst(m, c, v);
    var b := StartsSecond(INIT, a, Put(m, false, None, map[], ""));
    One(INIT, b, Delete({m}));
    One(INIT, b + [Delete({m})], Insert(0));
    steps := b + [Delete({m})] + [Insert(0)];
    RunIsAfter(steps);
    Resurrects(After(INIT, b), 0, c);
  }

  /** The lock holder reads a row completely. */
  lemma StartsSecond(s: State, steps: seq<Step>, put: Put) returns (longer: seq<Step>)
    requires After(s, steps).lock.None? && PhaseOf(After(s, steps), 0).Idle? && put.mentions == map[]
    requires !put.fixed && put.addr.None?
    ensures var here, p := After(s, steps), PhaseOf(After(s, longer), 0);
            && p.ReadSecond? && p.put == put && p.cols + p.more == Existing(here.rows, put.machine)
  {
    hide After, Next;
    var here := After(s, steps);
    FirstSteps(here, 0, put);
    One(s, steps, BeginPut(0, put));
    One(s, steps + [BeginPut(0, put)], ReadOverrides(0));
    var a := steps + [BeginPut(0, put)] + [ReadOverrides(0)];
    One(s, a, DecideGiven(0));
    One(s, a + [DecideGiven(0)], ReadRest(0));
    longer := a + [DecideGiven(0)] + [ReadRest(0)];
    ReadsAll(After(s, a), put);
  }

  lemma ReadsAll(s: State, put: Put)
    requires PhaseOf(s, 0) == ReadFirst(put, Part(Existing(s.rows, put.machine), true), 0)
    requires put.mentions == map[] && !put.fixed && put.addr.None?
    ensures var p := PhaseOf(Next(Next(s, DecideGiven(0)), ReadRest(0)), 0);
            p.ReadSecond? && p.put == put && p.cols + p.more == Existing(s.rows, put.machine)
  {
    var existing := Existing(s.rows, put.machine);
    assert Part(existing, true) + Part(existing, false) == existing;
    var s1 := Next(s, DecideGiven(0));
    assert PhaseOf(s1, 0).Decided? && s1.rows == s.rows;
  }

  lemma Resurrects(s: State, t: Tid, c: Col)
    requires var p := PhaseOf(s, t);
      && p.ReadSecond? && c !in p.put.mentions && Get(p.cols + p.more, c).Some? && !Blank((p.cols + p.more)[c])
    ensures var p := PhaseOf(s, t);
            var m := p.put.machine;
            var s' := Next(Next(s, Delete({m})), Insert(t));
            && m in s'.rows && Get(s'.rows[m].cols, c) == Get(p.cols + p.more, c)
            && LastMention(s'.hist.log, m, c) == None && (m, c) in s'.hist.undone
  {
    var p := PhaseOf(s, t);
    var m, loaded := p.put.machine, p.cols + p.more;
    var s1 := Next(s, Delete({m}));
    var s' := Next(s1, Insert(t));
    assert s'.hist.log[..|s1.hist.log|] == s1.hist.log && s1.hist.log[..|s.hist.log|] == s.hist.log;
    assert Get(Resolve(p.put, loaded), c) == NewColumn(p.put, loaded, c);
    assert s'.rows[m].cols == Resolve(p.put, loaded);
    assert s'.hist.undone == UndoneBy(s1.hist.undone, p.put, loaded, true);
  }

  // ---------------------------------------------------------------- repeated PUTs

  predicate InPut(p: Phase) {
    p.Locked? || Loading(p)
  }

  /** A step that gives the machine no reason to move: not a delete of its row, not the
      start of a PUT with an explicit address or a dhcp profile, not another subnet. */
  predicate Loyal(s: State, step: Step, m: Uuid, home: A.Net) {
    && (step.Delete? ==> m !in step.ms)
    && (step.BeginPut? && step.put.machine == m ==> step.put.fixed && step.put.addr.None?)
    && (step.ReadOwn? && InPut(PhaseOf(s, step.t)) && PhaseOf(s, step.t).put.machine == m ==> step.net == home)
  }

  predicate PhaseKeeps(p: Phase, m: Uuid, a: A.IP) {
    InPut(p) && p.put.machine == m ==>
      && p.put.fixed && p.put.addr.None? && !p.Scanning? && !p.Reserved?
      && (p.Decided? || p.ReadSecond? ==> p.addr == Some(a))
  }

  ghost predicate Resident(s: State, m: Uuid, a: A.IP) {
    && m in s.rows && s.rows[m].addr == Some(a)
    && forall t :: t in s.threads ==> PhaseKeeps(s.threads[t], m, a)
  }

  lemma StepKeepsResident(s: State, step: Step, m: Uuid, home: A.Net, a: A.IP)
    requires Resident(s, m, a) && Sticky(home, a) && Loyal(s, step, m, home)
    ensures Resident(Next(s, step), m, a)
  {
    hide FirstFit, Resolve;
    if !Writes(step) { QuietShape(s, step, Actor(step).value); }
  }

  lemma {:induction false} KeepsResident(s: State, steps: seq<Step>, m: Uuid, home: A.Net, a: A.IP)
    requires Resident(s, m, a) && Sticky(home, a)
    requires forall k :: 0 <= k < |steps| ==> Loyal(After(s, steps[..k]), steps[k], m, home)
    ensures Resident(After(s, steps), m, a)
  {
    hide Next, Resident, Loyal, Sticky;
    if steps != [] {
      var n := |steps| - 1;
      forall k | 0 <= k < n ensures steps[..n][..k] == steps[..k] {}
      KeepsResident(s, steps[..n], m, home, a);
      StepKeepsResident(After(s, steps[..n]), steps[n], m, home, a);
    }
  }

  /** An address that first fit picked in a subnet and that is stored on a machine's row
      stays there through every interleaving of PUTs, deletes and key operations, until a
      delete of the row or a PUT with an explicit address, a dhcp profile or another subnet. */
  lemma RepeatKeepsAddress(s: State, steps: seq<Step>, m: Uuid, home: A.Net, used: set<A.IP>, probe: Layer, a: A.IP)
    requires FirstFit(home, used, probe, Some(a)) && m in s.rows && s.rows[m].addr == Some(a)
    requires forall t :: t in s.threads && InPut(s.threads[t]) ==> s.threads[t].put.machine != m
    requires forall k :: 0 <= k < |steps| ==> Loyal(After(s, steps[..k]), steps[k], m, home)
    ensures m in After(s, steps).rows && After(s, steps).rows[m].addr == Some(a)
  {
    FreshIsSticky(home, used, probe, a);
    hide After, Loyal, FirstFit;
    KeepsResident(s, steps, m, home, a);
  }
}
