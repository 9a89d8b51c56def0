/** The BMC credential store (internal/bmc/store.go).  Each store call is one atomic step
    on the credential rows and the machine rows.  Identity and address texts are handled as
    the code does; the validators of the remaining fields, and the password cipher, are
    oracles. */
module Bmc {
  import opened Basics
  import opened Addresses
  import opened Placeholder

  type Uuid = string
  type Cipher = string
  type Time = int

  /** Port, username, interface and display name, validated and normalised. */
  datatype Meta = Meta(port: nat, username: string, iface: string, name: string)

  /** Everything in a bmc_credentials row but its owner. */
  datatype Cred = Cred(ip: string, meta: Meta, secret: Cipher, createdAt: Time, updatedAt: Time, updatedBy: string)

  type Creds = map<Uuid, Cred>

  datatype State = State(creds: Creds, machines: set<Uuid>)

  /** An upsert; meta is None when one of its fields is rejected. */
  datatype Put = Put(machine: string, ip: string, meta: Option<Meta>, password: Option<string>, updatedBy: string)

  datatype Outcome =
    | Done
    | Invalid | MachineUnknown | IpConflict(owner: Uuid) | PasswordRequired | PasswordRejected
    | NotFound | TargetTaken | NothingToDo

  datatype Result = Result(state: State, outcome: Outcome)

  const MAX_PASSWORD := 255

  /** The row with this canonical address, if any. */
  ghost function Owner(creds: Creds, ip: string): (o: Option<Uuid>)
    ensures o.Some? ==> o.value in creds && creds[o.value].ip == ip
    ensures o.None? ==> forall u :: u in creds ==> creds[u].ip != ip
  {
    if u :| u in creds && creds[u].ip == ip then Some(u) else None
  }

  // ---------------------------------------------------------------- the operations

  /** Upsert once the identity u and the address ip are validated and u's machine row
      exists.  `ct` is what the cipher makes of the password. */
  ghost function Store1(s: State, p: Put, u: Uuid, ip: string, m: Meta, ct: Option<Cipher>, now: Time): Result {
    var owner := Owner(s.creds, ip);
    var keep := p.password.None? || p.password.value == "";
    if owner.Some? && owner.value != u then Result(s, IpConflict(owner.value))
    else if keep && u !in s.creds then Result(s, PasswordRequired)
    else if keep then
      var was := s.creds[u];
      Result(s.(creds := s.creds[u := Cred(ip, m, was.secret, was.createdAt, now, p.updatedBy)]), Done)
    else if |p.password.value| > MAX_PASSWORD || ct.None? then Result(s, PasswordRejected)
    else
      var created := if u in s.creds then s.creds[u].createdAt else now;
      Result(s.(creds := s.creds[u := Cred(ip, m, ct.value, created, now, p.updatedBy)]), Done)
  }

  /** Upsert.  A placeholder's machine row is created before the later checks, and stays
      when they fail. */
  ghost function Upserted(v6: V6, s: State, p: Put, ct: Option<Cipher>, now: Time): Result {
    var mu, ma := ValidateMachine(v6, p.machine), ValidateIP(v6, p.ip);
    if mu.None? || ma.None? || p.meta.None? || p.updatedBy == "" then Result(s, Invalid)
    else if IsPlaceholder(mu.value) && PlaceholderUUID(v6, ma.value) != mu.value then Result(s, Invalid)
    else if mu.value !in s.machines && !IsPlaceholder(mu.value) then Result(s, MachineUnknown)
    else Store1(s.(machines := s.machines + {mu.value}), p, mu.value, ma.value, p.meta.value, ct, now)
  }

  /** Delete; `cleaned` says whether the best-effort removal of the stub worked. */
  function Deleted(v6: V6, s: State, machine: string, cleaned: bool): Result {
    match ValidateMachine(v6, machine)
    case None => Result(s, Invalid)
    case Some(u) =>
      if u !in s.creds then Result(s, NotFound)
      else Result(State(s.creds - {u}, if IsPlaceholder(u) && cleaned then s.machines - {u} else s.machines), Done)
  }

  /** The transaction both reconciles run: re-key the row, drop a placeholder's machine. */
  function Move(s: State, from: Uuid, dest: Uuid): Result
    requires from in s.creds
  {
    if dest in s.creds then Result(s, TargetTaken)
    else Result(State((s.creds - {from})[dest := s.creds[from]],
                      if IsPlaceholder(from) then s.machines - {from} else s.machines), Done)
  }

  /** ReconcileToMachine: whichever row has the address moves to the machine. */
  ghost function ToMachine(v6: V6, s: State, target: string, ip: string): Result {
    var dest, a := Lower(Trim(target)), ValidateIP(v6, ip);
    if !IsSmbios(dest) || a.None? then Result(s, Invalid)
    else
      match Owner(s.creds, a.value)
      case None => Result(s, NotFound)
      case Some(u) => if u == dest then Result(s, NothingToDo) else Move(s, u, dest)
  }

  /** ReconcilePlaceholder: the row keyed by the address's placeholder moves. */
  function FromPlaceholder(v6: V6, s: State, target: string, ip: string): Result {
    var dest, a := Lower(Trim(target)), ValidateIP(v6, ip);
    if !IsSmbios(dest) || a.None? then Result(s, Invalid)
    else
      var u := PlaceholderUUID(v6, a.value);
      if u == "" then Result(s, Invalid)
      else if u !in s.creds then Result(s, NothingToDo)
      else Move(s, u, dest)
  }

  // ---------------------------------------------------------------- invariants

  /** No two credentials share an address, every row's address is canonical, and every
      placeholder row is keyed by the placeholder of its own address. */
  ghost predicate RowsOk(creds: Creds) {
    && (forall u, w :: u in creds && w in creds && creds[u].ip == creds[w].ip ==> u == w)
    && (forall u :: u in creds ==> RowOk(u, creds[u].ip))
  }

  ghost predicate RowOk(u: Uuid, ip: string) {
    exists a: Addr :: ip == Render(a) && (IsPlaceholder(u) ==> u == Encode(a))
  }

  /** Every credential's machine row exists. */
  ghost predicate Owned(s: State) {
    forall u :: u in s.creds ==> u in s.machines
  }

  lemma ValidIp(v6: V6, text: string) returns (a: Addr)
    requires ValidateIP(v6, text).Some?
    ensures ValidateIP(v6, text) == Some(Render(a)) && PlaceholderUUID(v6, Render(a)) == Encode(a)
  {
    hide Render, Encode, PlaceholderUUID, ParseIP;
    a := ParseIP(v6, Trim(text)).value;
    PlaceholderOf(v6, a);
  }

  lemma SetRow(creds: Creds, u: Uuid, c: Cred)
    requires RowsOk(creds) && RowOk(u, c.ip)
    requires Owner(creds, c.ip).Some? ==> Owner(creds, c.ip).value == u
    ensures RowsOk(creds[u := c])
  {
    hide RowOk;
  }

  lemma UpsertKeeps(v6: V6, s: State, p: Put, ct: Option<Cipher>, now: Time)
    requires RowsOk(s.creds)
    ensures RowsOk(Upserted(v6, s, p, ct, now).state.creds)
    ensures Owned(s) ==> Owned(Upserted(v6, s, p, ct, now).state)
  {
    hide RowsOk, RowOk, Render, Encode, PlaceholderUUID, ValidateMachine, IsPlaceholder, ValidateIP;
    var r := Upserted(v6, s, p, ct, now);
    if r.outcome.Done? {
      var a := ValidIp(v6, p.ip);
      var u := ValidateMachine(v6, p.machine).value;
      assert RowOk(u, Render(a)) by { KeyFits(u, a); }
      SetRow(s.creds, u, r.state.creds[u]);
      assert r.state.creds == s.creds[u := r.state.creds[u]];
    }
  }

  lemma KeyFits(u: Uuid, a: Addr)
    requires IsPlaceholder(u) ==> u == Encode(a)
    ensures RowOk(u, Render(a))
  {
    hide Render, Encode;
  }

  lemma DeleteKeeps(v6: V6, s: State, machine: string, cleaned: bool)
    requires RowsOk(s.creds)
    ensures RowsOk(Deleted(v6, s, machine, cleaned).state.creds)
    ensures Owned(s) ==> Owned(Deleted(v6, s, machine, cleaned).state)
  {
    hide RowOk, ValidateMachine;
  }

  lemma MoveKeeps(s: State, from: Uuid, dest: Uuid)
    requires RowsOk(s.creds) && from in s.creds && !IsPlaceholder(dest)
    ensures RowsOk(Move(s, from, dest).state.creds)
  {
    assert RowOk(from, s.creds[from].ip);
    var a: Addr :| s.creds[from].ip == Render(a);
    KeyFits(dest, a);
    hide RowOk;
  }

  lemma ReconcilesKeep(v6: V6, s: State, target: string, ip: string)
    requires RowsOk(s.creds)
    ensures RowsOk(ToMachine(v6, s, target, ip).state.creds) && RowsOk(FromPlaceholder(v6, s, target, ip).state.creds)
  {
    hide RowsOk, IsSmbios, IsPlaceholder, ValidateIP, PlaceholderUUID, Move;
    var dest, a := Lower(Trim(target)), ValidateIP(v6, ip);
    if IsSmbios(dest) && a.Some? {
      SmbiosIsNotPlaceholder(dest);
      var o := Owner(s.creds, a.value);
      if o.Some? { MoveKeeps(s, o.value, dest); }
      var u := PlaceholderUUID(v6, a.value);
      if u in s.creds { MoveKeeps(s, u, dest); }
    }
  }

  // ---------------------------------------------------------------- runs

  datatype Step =
    | Upsert(p: Put, ct: Option<Cipher>, now: Time)
    | Delete(machine: string, cleaned: bool)
    | Pair(target: string, ip: string)          // ReconcileToMachine
    | Reported(target: string, ip: string)      // ReconcilePlaceholder
    | Discover(uuid: Uuid)                    // an agent's report adds its machine row

  ghost function Next(v6: V6, s: State, step: Step): State {
    match step
    case Upsert(p, ct, now) => Upserted(v6, s, p, ct, now).state
    case Delete(machine, cleaned) => Deleted(v6, s, machine, cleaned).state
    case Pair(target, ip) => ToMachine(v6, s, target, ip).state
    case Reported(target, ip) => FromPlaceholder(v6, s, target, ip).state
    case Discover(uuid) => s.(machines := s.machines + {uuid})
  }

  ghost function Run(v6: V6, steps: seq<Step>): State {
    if steps == [] then State(map[], {}) else Next(v6, Run(v6, steps[..|steps| - 1]), steps[|steps| - 1])
  }

  lemma StepKeeps(v6: V6, s: State, step: Step)
    requires RowsOk(s.creds)
    ensures RowsOk(Next(v6, s, step).creds)
  {
    hide RowsOk, Upserted, Deleted, ToMachine, FromPlaceholder;
    match step
    case Upsert(p, ct, now) => UpsertKeeps(v6, s, p, ct, now);
    case Delete(machine, cleaned) => DeleteKeeps(v6, s, machine, cleaned);
    case Pair(target, ip) => ReconcilesKeep(v6, s, target, ip);
    case Reported(target, ip) => ReconcilesKeep(v6, s, target, ip);
    case Discover(uuid) =>
  }

  /** After every run: addresses are unique and placeholder rows are keyed by their own address. */
  lemma {:induction false} RunKeepsRows(v6: V6, steps: seq<Step>)
    ensures RowsOk(Run(v6, steps).creds)
  {
    if steps != [] {
      hide RowsOk, Next;
      RunKeepsRows(v6, steps[..|steps| - 1]);
      StepKeeps(v6, Run(v6, steps[..|steps| - 1]), steps[|steps| - 1]);
    }
  }

  lemma RunFacts(v6: V6, steps: seq<Step>, u: Uuid, w: Uuid)
    requires u in Run(v6, steps).creds && w in Run(v6, steps).creds
    ensures var creds := Run(v6, steps).creds;
            && (creds[u].ip == creds[w].ip ==> u == w)
            && (IsPlaceholder(u) ==> u == PlaceholderUUID(v6, creds[u].ip))
  {
    RunKeepsRows(v6, steps);
    hide Run, Render, PlaceholderUUID, Encode;
    var creds := Run(v6, steps).creds;
    assert RowOk(u, creds[u].ip);
    var a: Addr :| creds[u].ip == Render(a) && (IsPlaceholder(u) ==> u == Encode(a));
    PlaceholderOf(v6, a);
  }

  // ---------------------------------------------------------------- machine rows

  /** A reconcile keeps every credential's machine row in existence exactly when it moves
      nothing or its target is a known machine: nothing in the schema checks the target. */
  lemma MoveOwnedIff(s: State, from: Uuid, dest: Uuid)
    requires Owned(s) && from in s.creds && dest != from
    ensures Owned(Move(s, from, dest).state) <==> dest in s.creds || dest in s.machines
  {
    hide IsPlaceholder;
    var s' := Move(s, from, dest).state;
    if dest !in s.creds { assert dest in s'.creds; }
  }

  /** Exactly when a reconcile leaves every credential with a machine row: when its input is
      refused, when there is no row to move, or when its target is a known machine.  Nothing
      in the schema in force checks the target. */
  lemma ReconcileOwnedIff(v6: V6, s: State, target: string, ip: string)
    requires Owned(s)
    ensures var dest, a := Lower(Trim(target)), ValidateIP(v6, ip);
            Owned(ToMachine(v6, s, target, ip).state) <==>
              !IsSmbios(dest) || a.None? || Owner(s.creds, a.value).None? || dest in s.machines
    ensures var dest, a := Lower(Trim(target)), ValidateIP(v6, ip);
            Owned(FromPlaceholder(v6, s, target, ip).state) <==>
              !IsSmbios(dest) || a.None? || PlaceholderUUID(v6, a.value) !in s.creds || dest in s.machines
  {
    hide IsPlaceholder, ValidateIP, PlaceholderUUID, Owned, Move, Lower, Trim;
    var dest, a := Lower(Trim(target)), ValidateIP(v6, ip);
    if IsSmbios(dest) && a.Some? {
      KnownIfHolder(s, dest);
      var o := Owner(s.creds, a.value);
      if o.Some? && o.value != dest { MoveOwnedIff(s, o.value, dest); }
      var u := PlaceholderUUID(v6, a.value);
      NeverEmpty(v6, ip);
      if u in s.creds {
        if u == dest { MoveToSelf(s, u); } else { MoveOwnedIff(s, u, dest); }
      }
    }
  }

  lemma KnownIfHolder(s: State, u: Uuid)
    requires Owned(s)
    ensures u in s.creds ==> u in s.machines
  {
  }

  lemma NeverEmpty(v6: V6, ip: string)
    requires ValidateIP(v6, ip).Some?
    ensures PlaceholderUUID(v6, ValidateIP(v6, ip).value) != ""
  {
    hide PlaceholderUUID, ValidateIP, Dashed;
    var a := ValidIp(v6, ip);
    assert Encode(a)[0] == 'p';
  }

  /** And it does happen: register any BMC as a placeholder, then pair it with any UUID no
      machine has. */
  lemma OrphanRun(v6: V6, a: Addr, m: Meta, target: string) returns (steps: seq<Step>)
    requires IsSmbios(Lower(Trim(target)))
    ensures |steps| == 2 && steps[0].Upsert? && steps[0].p.machine == Encode(a) && steps[0].p.ip == Render(a)
    ensures steps[1] == Pair(target, Render(a))
    ensures var s, dest := Run(v6, steps), Lower(Trim(target));
            dest in s.creds && s.creds[dest].ip == Render(a) && s.creds[dest].meta == m && dest !in s.machines
  {
    hide Render, Encode, PlaceholderUUID, ValidateMachine, ValidateIP, IsSmbios, IsPlaceholder, Upserted, ToMachine;
    var first := Upsert(Put(Encode(a), Render(a), Some(m), Some("secret"), "admin"), Some("sealed"), 0);
    steps := [first, Pair(target, Render(a))];
    var s := Upserted(v6, State(map[], {}), first.p, first.ct, 0).state;
    assert [first][..0] == [];
    assert Run(v6, [first]) == s;
    assert steps[..1] == [first];
    assert Run(v6, steps) == ToMachine(v6, s, target, Render(a)).state;
    Registers(v6, a, m);
    SmbiosIsNotPlaceholder(Lower(Trim(target)));
    EncodingValidates(v6, a);
    Orphans(v6, s, a, target);
  }

  /** Registering a placeholder in an empty store. */
  lemma Registers(v6: V6, a: Addr, m: Meta)
    ensures var p := Put(Encode(a), Render(a), Some(m), Some("secret"), "admin");
            Upserted(v6, State(map[], {}), p, Some("sealed"), 0).state
            == State(map[Encode(a) := Cred(Render(a), m, "sealed", 0, 0, "admin")], {Encode(a)})
  {
    hide Render, Encode, PlaceholderUUID, IsSmbios, ParseIP, ValidatePlaceholder;
    RenderPlain(a);
    PlainFixed(Render(a));
    EncodePlain(a);
    PlainFixed(Encode(a));
    ParseRender(v6, a);
    PlaceholderOf(v6, a);
    EncodingValidates(v6, a);
    if IsSmbios(Encode(a)) { SmbiosIsNotPlaceholder(Encode(a)); }
    hide IsPlaceholder, Trim, Lower;
    assert ValidateMachine(v6, Encode(a)) == Some(Encode(a));
    assert ValidateIP(v6, Render(a)) == Some(Render(a));
  }

  lemma Orphans(v6: V6, s: State, a: Addr, target: string)
    requires s.creds.Keys == {Encode(a)} && s.creds[Encode(a)].ip == Render(a) && s.machines == {Encode(a)}
    requires IsSmbios(Lower(Trim(target))) && Lower(Trim(target)) != Encode(a)
    ensures var s', dest := ToMachine(v6, s, target, Render(a)).state, Lower(Trim(target));
            dest in s'.creds && s'.creds[dest] == s.creds[Encode(a)] && dest !in s'.machines
  {
    hide Render, Encode, IsSmbios, IsPlaceholder, PlaceholderUUID, ParseIP;
    RenderPlain(a);
    PlainFixed(Render(a));
    ParseRender(v6, a);
    hide Trim, Lower;
    assert ValidateIP(v6, Render(a)) == Some(Render(a));
    var dest := Lower(Trim(target));
    assert Owner(s.creds, Render(a)) == Some(Encode(a));
    assert dest !in s.creds && dest !in s.machines;
  }

  /** A reconcile aims at a machine that exists. */
  predicate Aimed(s: State, step: Step) {
    step.Pair? || step.Reported? ==> Lower(Trim(step.target)) in s.machines
  }

  lemma StepOwned(v6: V6, s: State, step: Step)
    requires RowsOk(s.creds) && Owned(s) && Aimed(s, step)
    ensures Owned(Next(v6, s, step))
  {
    match step
    case Upsert(p, ct, now) => { hide Upserted; UpsertKeeps(v6, s, p, ct, now); }
    case Delete(machine, cleaned) => { hide Deleted; DeleteKeeps(v6, s, machine, cleaned); }
    case Pair(target, ip) => ReconcilesOwned(v6, s, target, ip);
    case Reported(target, ip) => ReconcilesOwned(v6, s, target, ip);
    case Discover(uuid) =>
  }

  lemma ReconcilesOwned(v6: V6, s: State, target: string, ip: string)
    requires Owned(s) && Lower(Trim(target)) in s.machines
    ensures Owned(ToMachine(v6, s, target, ip).state) && Owned(FromPlaceholder(v6, s, target, ip).state)
  {
    hide IsSmbios, IsPlaceholder, ValidateIP, PlaceholderUUID, Move, Owned;
    var dest, a := Lower(Trim(target)), ValidateIP(v6, ip);
    if IsSmbios(dest) && a.Some? {
      var o := Owner(s.creds, a.value);
      if o.Some? && o.value != dest { MoveOwnedIff(s, o.value, dest); }
      var u := PlaceholderUUID(v6, a.value);
      if u in s.creds {
        if u == dest { MoveToSelf(s, u); } else { MoveOwnedIff(s, u, dest); }
      }
    }
  }

  lemma MoveToSelf(s: State, u: Uuid)
    requires u in s.creds
    ensures Move(s, u, u).state == s
  {
  }

  /** In every run whose reconciles aim at existing machines, no credential is orphaned. */
  lemma {:induction false} RunOwned(v6: V6, steps: seq<Step>)
    requires forall k :: 0 <= k < |steps| ==> Aimed(Run(v6, steps[..k]), steps[k])
    ensures Owned(Run(v6, steps))
  {
    if steps != [] {
      hide RowsOk, Next, Owned, Aimed;
      var n := |steps| - 1;
      forall k | 0 <= k < n ensures steps[..n][..k] == steps[..k] {}
      RunOwned(v6, steps[..n]);
      RunKeepsRows(v6, steps[..n]);
      StepOwned(v6, Run(v6, steps[..n]), steps[n]);
    }
  }

  // ---------------------------------------------------------------- the two reconciles

  /** In every consistent state ReconcilePlaceholder does what ReconcileToMachine does when
      the address's row hangs on a placeholder, refusals included, and nothing otherwise. */
  lemma ReconcilesAgree(v6: V6, s: State, target: string, ip: string)
    requires RowsOk(s.creds) && IsSmbios(Lower(Trim(target))) && ValidateIP(v6, ip).Some?
    ensures var o := Owner(s.creds, ValidateIP(v6, ip).value);
            if o.Some? && IsPlaceholder(o.value)
            then FromPlaceholder(v6, s, target, ip) == ToMachine(v6, s, target, ip)
            else FromPlaceholder(v6, s, target, ip) == Result(s, NothingToDo)
  {
    hide IsSmbios, ValidateIP, PlaceholderUUID, Move, Encode, Render;
    var dest := Lower(Trim(target));
    SmbiosIsNotPlaceholder(dest);
    var a := ValidIp(v6, ip);
    var o := Owner(s.creds, Render(a));
    EncodingValidates(v6, a);
    if o.Some? && IsPlaceholder(o.value) {
      OwnKey(s.creds, o.value, a);
    } else if Encode(a) in s.creds {
      KeyIsOwner(s.creds, a);
    }
  }

  lemma OwnKey(creds: Creds, u: Uuid, a: Addr)
    requires RowsOk(creds) && u in creds && creds[u].ip == Render(a) && IsPlaceholder(u)
    ensures u == Encode(a)
  {
    hide Render, Encode;
    assert RowOk(u, creds[u].ip);
    var b: Addr :| creds[u].ip == Render(b) && u == Encode(b);
    ParserIsCanonical(Render(a), a);
    ParserIsCanonical(Render(a), b);
  }

  lemma KeyIsOwner(creds: Creds, a: Addr)
    requires RowsOk(creds) && Encode(a) in creds
    ensures IsPlaceholder(Encode(a)) && Owner(creds, Render(a)) == Some(Encode(a))
  {
    hide Render;
    var u := Encode(a);
    assert RowOk(u, creds[u].ip);
    var b: Addr :| creds[u].ip == Render(b) && u == Encode(b);
    EncodeInjective(a, b);
  }

  /** The rows that hold a given value. */
  function Holders(creds: Creds, c: Cred): set<Uuid> {
    set u | u in creds && creds[u] == c
  }

  /** A reconcile neither loses nor duplicates nor alters a credential: every value, all
      non-owner fields included, is held by as many rows as before. */
  lemma MoveConserves(s: State, from: Uuid, dest: Uuid, c: Cred)
    requires from in s.creds
    ensures |Holders(Move(s, from, dest).state.creds, c)| == |Holders(s.creds, c)|
  {
    var s' := Move(s, from, dest).state;
    if dest !in s.creds {
      if s.creds[from] == c {
        assert Holders(s'.creds, c) == Holders(s.creds, c) - {from} + {dest};
      } else {
        assert Holders(s'.creds, c) == Holders(s.creds, c);
      }
    }
  }

  lemma ReconcilesConserve(v6: V6, s: State, target: string, ip: string, c: Cred)
    ensures |Holders(ToMachine(v6, s, target, ip).state.creds, c)| == |Holders(s.creds, c)|
    ensures |Holders(FromPlaceholder(v6, s, target, ip).state.creds, c)| == |Holders(s.creds, c)|
  {
    hide IsSmbios, ValidateIP, PlaceholderUUID, Move, Holders;
    var a := ValidateIP(v6, ip);
    if a.Some? {
      var dest, o, u := Lower(Trim(target)), Owner(s.creds, a.value), PlaceholderUUID(v6, a.value);
      if o.Some? { MoveConserves(s, o.value, dest, c); }
      if u in s.creds { MoveConserves(s, u, dest, c); }
    }
  }

  // ---------------------------------------------------------------- the store as an object

  /** What a successful upsert leaves behind, field by field: the row of u has the given
      address and fields, the new secret if a password was given and the old one otherwise, and
      keeps its creation time; every other row is as it was. */
  ghost predicate StoredAs(before: Creds, after: Creds, u: Uuid, ip: string, p: Put, ct: Option<Cipher>, now: Time) {
    && u in after && after.Keys == before.Keys + {u}
    && (forall w :: w in before && w != u ==> after[w] == before[w])
    && after[u].ip == ip && Some(after[u].meta) == p.meta && after[u].updatedAt == now && after[u].updatedBy == p.updatedBy
    && after[u].createdAt == (if u in before then before[u].createdAt else now)
    && (p.password.Some? && p.password.value != "" ==> ct == Some(after[u].secret))
    && (p.password.None? || p.password.value == "" ==> u in before && after[u].secret == before[u].secret)
  }

  /** Why a call that did not succeed was refused, in the order of the checks. */
  ghost predicate Refusal(v6: V6, creds: Creds, machines: set<Uuid>, p: Put, ct: Option<Cipher>, out: Outcome) {
    var mu, ma := ValidateMachine(v6, p.machine), ValidateIP(v6, p.ip);
    var bad := mu.None? || ma.None? || p.meta.None? || p.updatedBy == ""
               || (IsPlaceholder(mu.value) && PlaceholderUUID(v6, ma.value) != mu.value);
    && (out.Invalid? <==> bad)
    && (!bad ==>
          var u, ip := mu.value, ma.value;
          var unknown := u !in machines && !IsPlaceholder(u);
          var taken := exists w :: w in creds && w != u && creds[w].ip == ip;
          var keep := p.password.None? || p.password.value == "";
          && (out.MachineUnknown? <==> unknown)
          && (out.IpConflict? <==> !unknown && taken)
          && (out.IpConflict? ==> out.owner in creds && out.owner != u && creds[out.owner].ip == ip)
          && (out.PasswordRequired? <==> !unknown && !taken && keep && u !in creds)
          && (out.PasswordRejected? <==> !unknown && !taken && !keep && (|p.password.value| > 255 || ct.None?))
          && (out.Done? <==> !unknown && !taken && if keep then u in creds else |p.password.value| <= 255 && ct.Some?))
  }

  /** The row of u is now the row of dest, every other row is as it was, and a placeholder's
      machine row is gone with it. */
  ghost predicate Rekeyed(a: State, b: State, u: Uuid, dest: Uuid)
    requires u in a.creds
  {
    && dest in b.creds && b.creds[dest] == a.creds[u] && u != dest && b.creds.Keys == a.creds.Keys - {u} + {dest}
    && (forall w :: w in a.creds && w != u ==> w in b.creds && b.creds[w] == a.creds[w])
    && b.machines == if IsPlaceholder(u) then a.machines - {u} else a.machines
  }

  /** The outcome of moving the row with address ip to dest. */
  ghost predicate Paired(a: State, b: State, dest: Uuid, ip: string, out: Outcome) {
    if u :| u in a.creds && a.creds[u].ip == ip then
      if u == dest then out.NothingToDo?
      else if dest in a.creds then out.TargetTaken?
      else out.Done? && Rekeyed(a, b, u, dest)
    else out.NotFound?
  }

  lemma UpsertSpelt(v6: V6, s: State, p: Put, ct: Option<Cipher>, now: Time)
    requires RowsOk(s.creds)
    ensures var r := Upserted(v6, s, p, ct, now);
            && Refusal(v6, s.creds, s.machines, p, ct, r.outcome)
            && (r.outcome.Done? ==>
                  && ValidateMachine(v6, p.machine).Some? && ValidateIP(v6, p.ip).Some? && p.meta.Some? && p.updatedBy != ""
                  && var u := ValidateMachine(v6, p.machine).value;
                     StoredAs(s.creds, r.state.creds, u, ValidateIP(v6, p.ip).value, p, ct, now) && u in r.state.machines)
            && (!r.outcome.Done? ==> r.state.creds == s.creds)
            && (r.state.machines == s.machines
                || (ValidateMachine(v6, p.machine).Some? && IsPlaceholder(ValidateMachine(v6, p.machine).value)
                    && r.state.machines == s.machines + {ValidateMachine(v6, p.machine).value}))
  {
    hide ValidateMachine, ValidateIP, PlaceholderUUID, IsPlaceholder, RowOk;
  }

  lemma ToMachineSpelt(v6: V6, s: State, target: string, text: string)
    requires RowsOk(s.creds)
    ensures var r, dest := ToMachine(v6, s, target, text), Lower(Trim(target));
            && (r.outcome.Invalid? <==> !IsSmbios(dest) || ValidateIP(v6, text).None?)
            && (!r.outcome.Invalid? ==> Paired(s, r.state, dest, ValidateIP(v6, text).value, r.outcome))
            && (!r.outcome.Done? ==> r.state == s)
  {
    hide ValidateIP, IsSmbios, IsPlaceholder, Lower, Trim, RowOk;
  }

  lemma FromPlaceholderSpelt(v6: V6, s: State, target: string, text: string)
    ensures var r, dest := FromPlaceholder(v6, s, target, text), Lower(Trim(target));
            && (r.outcome.Invalid? <==> !IsSmbios(dest) || ValidateIP(v6, text).None?)
            && (!r.outcome.Invalid? ==>
                  var u := PlaceholderUUID(v6, ValidateIP(v6, text).value);
                  && (r.outcome.NothingToDo? <==> u !in s.creds)
                  && (r.outcome.TargetTaken? <==> u in s.creds && dest in s.creds)
                  && (r.outcome.Done? <==> u in s.creds && dest !in s.creds)
                  && (r.outcome.Done? ==> Rekeyed(s, r.state, u, dest)))
            && (!r.outcome.Done? ==> r.state == s)
  {
    hide ValidateIP, IsSmbios, IsPlaceholder, Lower, Trim, PlaceholderUUID;
    if ValidateIP(v6, text).Some? { NeverEmpty(v6, text); }
  }

  class Store {
    var creds: Creds
    var machines: set<Uuid>
    const v6: V6

    ghost predicate Valid()
      reads this
    {
      RowsOk(creds)
    }

    function Now(): State
      reads this
    {
      State(creds, machines)
    }

    constructor (parser: V6)
      ensures Valid() && Now() == State(map[], {}) && v6 == parser
    {
      creds, machines, v6 := map[], {}, parser;
    }

    /** FindByIP; a text that is no IPv4 address is not found. */
    method FindByIP(text: string) returns (o: Option<Uuid>)
      requires Valid()
      ensures o == match ValidateIP(v6, text) case None => None case Some(ip) => Owner(creds, ip)
    {
      var ip := ValidateIP(v6, text);
      if ip.None? { return None; }
      if u :| u in creds && creds[u].ip == ip.value { return Some(u); }
      return None;
    }

    /** ensureMachineExists. */
    method EnsureMachineExists(u: Uuid) returns (ok: bool)
      modifies this
      ensures ok == (u in old(machines) || IsPlaceholder(u))
      ensures machines == if ok then old(machines) + {u} else old(machines)
      ensures creds == old(creds)
    {
      if u in machines { return true; }
      if !IsPlaceholder(u) { return false; }
      machines := machines + {u};
      return true;
    }

    method UpsertCredential(p: Put, ct: Option<Cipher>, now: Time) returns (out: Outcome)
      requires Valid()
      modifies this
      ensures Valid() && Result(Now(), out) == Upserted(v6, old(Now()), p, ct, now)
      ensures out.Done? ==>
        && ValidateMachine(v6, p.machine).Some? && ValidateIP(v6, p.ip).Some? && p.meta.Some? && p.updatedBy != ""
        && var u := ValidateMachine(v6, p.machine).value;
           && StoredAs(old(creds), creds, u, ValidateIP(v6, p.ip).value, p, ct, now) && u in machines
      ensures !out.Done? ==> creds == old(creds)
      ensures machines == old(machines) || (ValidateMachine(v6, p.machine).Some? && IsPlaceholder(ValidateMachine(v6, p.machine).value)
                                            && machines == old(machines) + {ValidateMachine(v6, p.machine).value})
      ensures Refusal(v6, old(creds), old(machines), p, ct, out)
    {
      hide ValidateMachine, ValidateIP, PlaceholderUUID, IsPlaceholder, RowsOk, StoredAs, Refusal;
      UpsertKeeps(v6, Now(), p, ct, now);
      UpsertSpelt(v6, Now(), p, ct, now);
      var mu, ma := ValidateMachine(v6, p.machine), ValidateIP(v6, p.ip);
      if mu.None? || ma.None? || p.meta.None? || p.updatedBy == "" { return Invalid; }
      var u, ip, m := mu.value, ma.value, p.meta.value;
      if IsPlaceholder(u) && PlaceholderUUID(v6, ip) != u { return Invalid; }
      var known := EnsureMachineExists(u);
      if !known { return MachineUnknown; }
      Revalidate(v6, p.ip);
      var owner := FindByIP(ip);
      if owner.Some? && owner.value != u { return IpConflict(owner.value); }
      var keep := p.password.None? || p.password.value == "";
      if u !in creds && keep { return PasswordRequired; }
      if keep {
        creds := creds[u := Cred(ip, m, creds[u].secret, creds[u].createdAt, now, p.updatedBy)];
        return Done;
      }
      if |p.password.value| > MAX_PASSWORD || ct.None? { return PasswordRejected; }
      var created := if u in creds then creds[u].createdAt else now;
      creds := creds[u := Cred(ip, m, ct.value, created, now, p.updatedBy)];
      return Done;
    }

    method DeleteCredential(machine: string, cleaned: bool) returns (out: Outcome)
      requires Valid()
      modifies this
      ensures Valid() && Result(Now(), out) == Deleted(v6, old(Now()), machine, cleaned)
      ensures out.Invalid? <==> ValidateMachine(v6, machine).None?
      ensures !out.Done? ==> creds == old(creds) && machines == old(machines)
      ensures out.Invalid? || (out.Done? <==> ValidateMachine(v6, machine).value in old(creds))
      ensures out.Done? ==> var u := ValidateMachine(v6, machine).value;
        && u !in creds && creds.Keys == old(creds).Keys - {u} && (forall w :: w in creds ==> creds[w] == old(creds)[w])
        && machines == if IsPlaceholder(u) && cleaned then old(machines) - {u} else old(machines)
    {
      hide ValidateMachine, IsPlaceholder, RowsOk;
      DeleteKeeps(v6, Now(), machine, cleaned);
      var u := ValidateMachine(v6, machine);
      if u.None? { return Invalid; }
      if u.value !in creds { return NotFound; }
      creds := creds - {u.value};
      if IsPlaceholder(u.value) && cleaned { machines := machines - {u.value}; }
      return Done;
    }

    method ReconcileToMachine(target: string, text: string) returns (out: Outcome)
      requires Valid()
      modifies this
      ensures Valid() && Result(Now(), out) == ToMachine(v6, old(Now()), target, text)
      ensures !out.Done? ==> creds == old(creds) && machines == old(machines)
      ensures out.Invalid? <==> !IsSmbios(Lower(Trim(target))) || ValidateIP(v6, text).None?
      ensures !out.Invalid? ==>
        var dest, ip := Lower(Trim(target)), ValidateIP(v6, text).value;
        Paired(old(Now()), Now(), dest, ip, out)
    {
      hide ValidateIP, IsPlaceholder, IsSmbios, RowsOk, Lower, Trim, Rekeyed;
      ReconcilesKeep(v6, Now(), target, text);
      ToMachineSpelt(v6, Now(), target, text);
      var dest, ip := Lower(Trim(target)), ValidateIP(v6, text);
      if !IsSmbios(dest) || ip.None? { return Invalid; }
      Revalidate(v6, text);
      var u := FindByIP(ip.value);
      if u.None? { return NotFound; }
      if u.value == dest { return NothingToDo; }
      if dest in creds { return TargetTaken; }
      creds := (creds - {u.value})[dest := creds[u.value]];
      if IsPlaceholder(u.value) { machines := machines - {u.value}; }
      return Done;
    }

    method ReconcilePlaceholder(target: string, text: string) returns (out: Outcome)
      requires Valid()
      modifies this
      ensures Valid() && Result(Now(), out) == FromPlaceholder(v6, old(Now()), target, text)
      ensures !out.Done? ==> creds == old(creds) && machines == old(machines)
      ensures out.Invalid? <==> !IsSmbios(Lower(Trim(target))) || ValidateIP(v6, text).None?
      ensures !out.Invalid? ==>
        var dest, u := Lower(Trim(target)), PlaceholderUUID(v6, ValidateIP(v6, text).value);
        && (out.NothingToDo? <==> u !in old(creds))
        && (out.TargetTaken? <==> u in old(creds) && dest in old(creds))
        && (out.Done? <==> u in old(creds) && dest !in old(creds))
        && (out.Done? ==> Rekeyed(old(Now()), Now(), u, dest))
    {
      hide ValidateIP, IsSmbios, RowsOk, Encode, Render, Lower, Trim, Rekeyed;
      ReconcilesKeep(v6, Now(), target, text);
      FromPlaceholderSpelt(v6, Now(), target, text);
      var dest, ip := Lower(Trim(target)), ValidateIP(v6, text);
      if !IsSmbios(dest) || ip.None? { return Invalid; }
      var u := PlaceholderUUID(v6, ip.value);
      NeverEmpty(v6, text);
      if u == "" { return Invalid; }
      if u !in creds { return NothingToDo; }
      if dest in creds { return TargetTaken; }
      ghost var a := ValidIp(v6, text);
      EncodingValidates(v6, a);
      creds := (creds - {u})[dest := creds[u]];
      machines := machines - {u};
      return Done;
    }
  }

  /** Validation of an address is idempotent. */
  lemma Revalidate(v6: V6, text: string)
    requires ValidateIP(v6, text).Some?
    ensures ValidateIP(v6, ValidateIP(v6, text).value) == ValidateIP(v6, text)
  {
    hide Render, ParseIP;
    var a := ParseIP(v6, Trim(text)).value;
    RenderPlain(a);
    PlainFixed(Render(a));
    ParseRender(v6, a);
  }
}
