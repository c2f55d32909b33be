/** Versions over time: when a stored record can go back to an older version. The
    store swallows a failed read, so a provision may take an existing record for an
    absent one and start it over (apps/broker/app/main.py,
    libs/common/sovereign/store.py). */
module BrokerVersions {
  import opened Prelude
  import opened BrokerRecords
  import opened BrokerRuns
  import opened Reconciler
  import opened SoloRuns

  // ---------------------------------------------------------------- one request

  /** A provision of an id whose record has been updated leaves the store alone
      exactly when it could read the record or could not write; otherwise the record
      starts over at version 1, whatever happens to the render. */
  lemma ProvisionKeepsRecordExactly(p: Platform, w: World, created: Instance, readOk: bool, f: Faults)
    requires created.version == 1 && created.id in w.store && w.store[created.id].version > 1
    ensures var store := Provisioned(p, w, created, readOk, f).store;
            && (store == w.store <==> readOk || !f.startPutOk)
            && (store != w.store ==> created.id in store && store[created.id].version == 1)
  {
    var store := Provisioned(p, w, created, readOk, f).store;
    if !readOk && f.startPutOk {
      assert created.id in store && store[created.id].version == 1;
    }
  }

  // ---------------------------------------------------------------- one step

  /** Records that are in both stores have not lost versions. Deletion is not a step back. */
  ghost predicate KeepsVersions(before: Store, after: Store) {
    forall id :: id in before && id in after ==> before[id].version <= after[id].version
  }

  /** The private copies a thread may still write. */
  function PrivateCopies(t: Thread): seq<Instance> {
    match t
    case Idle => []
    case Starting(inst, flow) => [inst] + Waiting(flow)
    case Rendering(inst, flow) => [inst] + Waiting(flow)
    case Finishing(inst, flow) => [inst] + Waiting(flow)
    case Sweeping(rest, _) => rest
    case Diffing(inst, rest) => [inst] + rest
    case Refreshing(inst, rest) => [inst] + rest
  }

  function Waiting(flow: Flow): seq<Instance> {
    match flow
    case Request => []
    case Pass(rest, _) => rest
  }

  /** No copy is behind the stored record, and copies of one record agree. */
  ghost predicate AllCurrent(store: Store, copies: seq<Instance>) {
    && (forall r :: r in copies && r.id in store ==> store[r.id].version <= r.version)
    && (forall r, q :: r in copies && q in copies && r.id == q.id ==> r.version == q.version)
  }

  ghost predicate Current(store: Store, t: Thread) {
    AllCurrent(store, PrivateCopies(t))
  }

  /** The failing branch: the read failed, so an updated record is taken for absent. */
  predicate BlindProvision(store: Store, t: Thread, a: Action) {
    t.Idle? && a.Provision? && !a.readOk && a.id in store && store[a.id].version > 1
  }

  lemma PutKeepsCurrent(store: Store, inst: Instance, rest: seq<Instance>, ok: bool)
    requires AllCurrent(store, [inst] + rest)
    ensures KeepsVersions(store, PutIf(store, inst, ok)) && AllCurrent(PutIf(store, inst, ok), [inst] + rest)
  {
    assert inst in [inst] + rest;
  }

  /** Copies with the same ids and versions, or fewer of them, are just as current. */
  lemma FewerCopies(store: Store, copies: seq<Instance>, fewer: seq<Instance>)
    requires AllCurrent(store, copies)
    requires forall r :: r in fewer ==> exists q :: q in copies && q.id == r.id && q.version == r.version
    ensures AllCurrent(store, fewer)
  {
  }

  /** A thread that writes its copy and goes on with it, or with the rest. */
  lemma SamePlace(store: Store, inst: Instance, inst': Instance, rest: seq<Instance>)
    requires AllCurrent(store, [inst] + rest) && inst'.id == inst.id && inst'.version == inst.version
    ensures AllCurrent(store, [inst'] + rest) && AllCurrent(store, rest)
  {
    assert inst in [inst] + rest;
    forall r | r in [inst'] + rest ensures exists q :: q in [inst] + rest && q.id == r.id && q.version == r.version {
      if r == inst' {
        assert inst in [inst] + rest && inst.id == r.id && inst.version == r.version;
      } else {
        assert r in [inst] + rest;
      }
    }
    FewerCopies(store, [inst] + rest, [inst'] + rest);
    forall r | r in rest ensures exists q :: q in [inst] + rest && q.id == r.id && q.version == r.version {
      assert r in [inst] + rest;
    }
    FewerCopies(store, [inst] + rest, rest);
  }

  lemma DecideCurrent(store: Store, inst: Instance, rest: seq<Instance>, refresh: bool)
    requires AllCurrent(store, [inst] + rest)
    ensures Current(store, Decide(inst, rest, refresh))
  {
    SamePlace(store, inst, BeginOperation(inst.(attempts := inst.attempts + 1), "reconcile"), rest);
  }

  lemma FromIdleCurrent(store: Store, a: Action)
    requires StoreOk(store)
    ensures KeepsVersions(store, FromIdle(store, a).0)
    ensures !Current(FromIdle(store, a).0, FromIdle(store, a).1) <==> BlindProvision(store, Idle, a)
  {
    var (store', t') := FromIdle(store, a);
    if a.StartPass? {
      CopiesOk(store, a.ids);
    } else if t'.Starting? {
      assert PrivateCopies(t') == [t'.inst];
      assert t'.inst in PrivateCopies(t');
    }
  }

  lemma StartingCurrent(store: Store, inst: Instance, flow: Flow, a: Action)
    requires Current(store, Starting(inst, flow)) && !a.Crash?
    ensures StepsCurrent(store, Starting(inst, flow), a)
  {
    var (store', t') := ThreadStep(store, Starting(inst, flow), a);
    if a.Put? {
      PutKeepsCurrent(store, inst, Waiting(flow), a.ok);
      assert store' == PutIf(store, inst, a.ok);
    }
    assert PrivateCopies(t') == [inst] + Waiting(flow) || PrivateCopies(t') == [];
  }

  lemma RenderingCurrent(store: Store, inst: Instance, flow: Flow, a: Action)
    requires Current(store, Rendering(inst, flow)) && !a.Crash?
    ensures StepsCurrent(store, Rendering(inst, flow), a)
  {
    if a.Rendered? {
      SamePlace(store, inst, Finish(inst, a.outcome), Waiting(flow));
    }
  }

  lemma FinishingCurrent(store: Store, inst: Instance, flow: Flow, a: Action)
    requires Current(store, Finishing(inst, flow)) && !a.Crash?
    ensures StepsCurrent(store, Finishing(inst, flow), a)
  {
    if a.Put? {
      PutKeepsCurrent(store, inst, Waiting(flow), a.ok);
      SamePlace(PutIf(store, inst, a.ok), inst, inst, Waiting(flow));
      assert PrivateCopies(Next(flow)) == Waiting(flow);
    }
  }

  lemma SweepingCurrent(store: Store, rest: seq<Instance>, refresh: bool, a: Action)
    requires Current(store, Sweeping(rest, refresh)) && !a.Crash?
    ensures StepsCurrent(store, Sweeping(rest, refresh), a)
  {
    var (store', t') := ThreadStep(store, Sweeping(rest, refresh), a);
    assert store' == store;
    if rest != [] {
      assert rest == [rest[0]] + rest[1..];
      DecideCurrent(store, rest[0], rest[1..], refresh);
      assert t' == Decide(rest[0], rest[1..], refresh) || PrivateCopies(t') == rest;
    } else {
      assert PrivateCopies(t') == [];
    }
  }

  lemma DiffingCurrent(store: Store, inst: Instance, rest: seq<Instance>, a: Action)
    requires Current(store, Diffing(inst, rest)) && !a.Crash?
    ensures StepsCurrent(store, Diffing(inst, rest), a)
  {
    var (store', t') := ThreadStep(store, Diffing(inst, rest), a);
    assert store' == store;
    if a.Diff? {
      SamePlace(store, inst, RefreshDrift(inst, a.answer), rest);
      DecideCurrent(store, inst, rest, true);
      assert t' == Decide(inst, rest, true) || PrivateCopies(t') == [RefreshDrift(inst, a.answer)] + rest;
    } else {
      assert t' == Diffing(inst, rest);
    }
  }

  lemma RefreshingCurrent(store: Store, inst: Instance, rest: seq<Instance>, a: Action)
    requires Current(store, Refreshing(inst, rest)) && !a.Crash?
    ensures StepsCurrent(store, Refreshing(inst, rest), a)
  {
    if a.Put? {
      PutKeepsCurrent(store, inst, rest, a.ok);
      DecideCurrent(PutIf(store, inst, a.ok), inst, rest, true);
    }
  }

  ghost predicate StepsCurrent(store: Store, t: Thread, a: Action) {
    var (store', t') := ThreadStep(store, t, a); KeepsVersions(store, store') && Current(store', t')
  }

  lemma BusyKeepsCurrent(store: Store, t: Thread, a: Action)
    requires !t.Idle? && Current(store, t)
    ensures StepsCurrent(store, t, a)
  {
    if !a.Crash? {
      match t
      case Starting(inst, flow) => StartingCurrent(store, inst, flow, a);
      case Rendering(inst, flow) => RenderingCurrent(store, inst, flow, a);
      case Finishing(inst, flow) => FinishingCurrent(store, inst, flow, a);
      case Sweeping(rest, refresh) => SweepingCurrent(store, rest, refresh, a);
      case Diffing(inst, rest) => DiffingCurrent(store, inst, rest, a);
      case Refreshing(inst, rest) => RefreshingCurrent(store, inst, rest, a);
    }
  }

  /** Of all steps of all handlers, exactly the blind provision leaves its thread with
      a copy that is behind the store; and no step of a thread whose copies are
      current takes a record back. */
  lemma OnlyBlindProvisionFallsBehind(store: Store, t: Thread, a: Action)
    requires StoreOk(store) && Current(store, t)
    ensures var (store', t') := ThreadStep(store, t, a);
            && KeepsVersions(store, store')
            && (!Current(store', t') <==> BlindProvision(store, t, a))
  {
    if t.Idle? {
      FromIdleCurrent(store, a);
    } else {
      BusyKeepsCurrent(store, t, a);
    }
  }

  // ---------------------------------------------------------------- one request at a time

  ghost predicate OneBusy(s: State) {
    forall i, j :: 0 <= i < j < |s.threads| ==> s.threads[i].Idle? || s.threads[j].Idle?
  }

  ghost predicate Serial(s: State, moves: seq<Move>)
    decreases |moves|
  {
    OneBusy(s) && (moves == [] || Serial(Step(s, moves[0]), moves[1..]))
  }

  /** A provision that has yet to write its new record. */
  predicate Creating(t: Thread) {
    t.Starting? && t.flow.Request? && t.inst.version == 1
  }

  /** The put of a new record over one that has been updated. */
  ghost predicate BlindPut(s: State, m: Move) {
    && m.thread < |s.threads| && m.action == Put(true) && Creating(s.threads[m.thread])
    && var id := s.threads[m.thread].inst.id;
       id in s.store && s.store[id].version > 1
  }

  ghost predicate NoBlindPut(s: State, moves: seq<Move>)
    decreases |moves|
  {
    moves == [] || (!BlindPut(s, moves[0]) && NoBlindPut(Step(s, moves[0]), moves[1..]))
  }

  ghost predicate NoBlindProvision(s: State, moves: seq<Move>)
    decreases |moves|
  {
    moves == [] ||
    (&& (moves[0].thread < |s.threads| ==> !BlindProvision(s.store, s.threads[moves[0].thread], moves[0].action))
     && NoBlindProvision(Step(s, moves[0]), moves[1..]))
  }

  /** At no step of the run does a stored record go back to an older version. */
  ghost predicate NeverGoesBack(s: State, moves: seq<Move>)
    decreases |moves|
  {
    moves == [] ||
    (KeepsVersions(s.store, Step(s, moves[0]).store) && NeverGoesBack(Step(s, moves[0]), moves[1..]))
  }

  ghost predicate Versioned(store: Store, t: Thread) {
    Current(store, t) || Creating(t)
  }

  ghost predicate VersionInv(s: State) {
    Inv(s) && forall i :: 0 <= i < |s.threads| ==> Versioned(s.store, s.threads[i])
  }

  lemma CreatingStep(store: Store, t: Thread, a: Action)
    requires Creating(t)
    ensures var (store', t') := ThreadStep(store, t, a);
            && Versioned(store', t')
            && (KeepsVersions(store, store')
                <==> !(a == Put(true) && t.inst.id in store && store[t.inst.id].version > 1))
  {
    var (store', t') := ThreadStep(store, t, a);
    if t'.Rendering? {
      assert PrivateCopies(t') == [t.inst];
    }
  }

  lemma VersionedStep(s: State, m: Move)
    requires Inv(s) && m.thread < |s.threads| && Versioned(s.store, s.threads[m.thread])
    ensures var (store', t') := ThreadStep(s.store, s.threads[m.thread], m.action);
            Versioned(store', t') && (KeepsVersions(s.store, store') <==> !BlindPut(s, m))
  {
    var t := s.threads[m.thread];
    if Creating(t) {
      CreatingStep(s.store, t, m.action);
    } else {
      OnlyBlindProvisionFallsBehind(s.store, t, m.action);
    }
  }

  /** The other threads of a serial run: idle, or they only see records disappear. */
  lemma OthersStayVersioned(s: State, m: Move, i: nat)
    requires OneBusy(s) && OneBusy(Step(s, m)) && i < |s.threads| && i != m.thread && m.thread < |s.threads|
    requires Versioned(s.store, s.threads[i])
    ensures Versioned(Step(s, m).store, Step(s, m).threads[i])
  {
    var s' := Step(s, m);
    assert s'.threads[i] == s.threads[i];
    if !s.threads[i].Idle? {
      assert s.threads[m.thread].Idle? && s'.threads[m.thread].Idle?;
      assert forall id :: id in s'.store ==> id in s.store && s'.store[id] == s.store[id];
    }
  }

  lemma StepVersions(s: State, m: Move)
    requires VersionInv(s) && OneBusy(s) && OneBusy(Step(s, m))
    ensures VersionInv(Step(s, m))
    ensures KeepsVersions(s.store, Step(s, m).store) <==> !BlindPut(s, m)
  {
    if m.thread < |s.threads| {
      ThreadStepOk(s.store, s.threads[m.thread], m.action);
      VersionedStep(s, m);
      var s' := Step(s, m);
      forall i | 0 <= i < |s'.threads| ensures Versioned(s'.store, s'.threads[i]) {
        if i != m.thread {
          OthersStayVersioned(s, m, i);
        }
      }
    }
  }

  lemma {:induction false} GoesBackOnlyByBlindPut(s: State, moves: seq<Move>)
    requires VersionInv(s) && Serial(s, moves)
    ensures NeverGoesBack(s, moves) <==> NoBlindPut(s, moves)
    decreases |moves|
  {
    if moves != [] {
      assert Serial(Step(s, moves[0]), moves[1..]);
      StepVersions(s, moves[0]);
      GoesBackOnlyByBlindPut(Step(s, moves[0]), moves[1..]);
    }
  }

  /** One request at a time, a stored record never goes back to an older version,
      except by deletion, exactly when no provision puts a new record over an
      updated one. */
  lemma VersionsNeverGoBackExactly(n: nat, moves: seq<Move>)
    requires Serial(Start(n), moves)
    ensures NeverGoesBack(Start(n), moves) <==> NoBlindPut(Start(n), moves)
  {
    GoesBackOnlyByBlindPut(Start(n), moves);
  }

  ghost predicate CurrentInv(s: State) {
    Inv(s) && forall i :: 0 <= i < |s.threads| ==> Current(s.store, s.threads[i])
  }

  lemma StepKeepsCurrent(s: State, m: Move)
    requires CurrentInv(s) && OneBusy(s) && OneBusy(Step(s, m))
    requires m.thread < |s.threads| ==> !BlindProvision(s.store, s.threads[m.thread], m.action)
    ensures CurrentInv(Step(s, m)) && KeepsVersions(s.store, Step(s, m).store)
  {
    if m.thread < |s.threads| {
      var s' := Step(s, m);
      ThreadStepOk(s.store, s.threads[m.thread], m.action);
      OnlyBlindProvisionFallsBehind(s.store, s.threads[m.thread], m.action);
      forall i | 0 <= i < |s'.threads| ensures Current(s'.store, s'.threads[i]) {
        if i != m.thread && !s.threads[i].Idle? {
          assert s'.threads[i] == s.threads[i];
          assert s.threads[m.thread].Idle? && s'.threads[m.thread].Idle?;
          assert forall id :: id in s'.store ==> id in s.store && s'.store[id] == s.store[id];
        }
      }
    }
  }

  lemma {:induction false} CurrentRunsKeepVersions(s: State, moves: seq<Move>)
    requires CurrentInv(s) && Serial(s, moves) && NoBlindProvision(s, moves)
    ensures NeverGoesBack(s, moves)
    decreases |moves|
  {
    if moves != [] {
      assert Serial(Step(s, moves[0]), moves[1..]);
      StepKeepsCurrent(s, moves[0]);
      CurrentRunsKeepVersions(Step(s, moves[0]), moves[1..]);
    }
  }

  /** In particular while no provision fails to read an updated record. */
  lemma VersionsNeverGoBack(n: nat, moves: seq<Move>)
    requires Serial(Start(n), moves) && NoBlindProvision(Start(n), moves)
    ensures NeverGoesBack(Start(n), moves)
  {
    CurrentRunsKeepVersions(Start(n), moves);
  }

  // ---------------------------------------------------------------- the failing runs

  /** From any state, a blind provision followed by its put sends the record back to
      version 1. */
  lemma BlindProvisionStartsOver(s: State, i: nat, a: Action)
    requires i < |s.threads| && BlindProvision(s.store, s.threads[i], a)
    ensures var store := Step(Step(s, Move(i, a)), Move(i, Put(true))).store;
            a.id in store && store[a.id].version == 1 && store[a.id].version < s.store[a.id].version
  {
    var inst := BeginOperation(NewInstance(a.id, a.serviceId, a.planId, a.organization, a.parameters), "provision");
    var s1 := Step(s, Move(i, a));
    assert ThreadStep(s.store, s.threads[i], a) == (s.store, Starting(inst, Request));
    assert s1.threads[i] == Starting(inst, Request);
  }

  /** Such a state is reached by one provision and one update, one after the other. */
  lemma BlindProvisionIsReachable() returns (moves: seq<Move>, a: Action)
    ensures var s := Run(Start(1), moves); s.threads == [Idle] && BlindProvision(s.store, Idle, a)
  {
    var store, t;
    moves, store := ProvisionPhase();
    moves, store, t := Then(moves, store, Idle, Update("i", Some("large"), None));
    moves, store, t := Then(moves, store, t, Put(true));
    moves, store, t := Then(moves, store, t, Rendered(Artifact));
    moves, store, t := Then(moves, store, t, Put(true));
    a := Provision("i", "lb", "small", None, "p", false);
  }

  /** A move of thread i, with what it leaves behind. */
  lemma TakeStep(s: State, moves: seq<Move>, i: nat, a: Action, store: Store, t: Thread) returns (moves': seq<Move>)
    requires i < |Run(s, moves).threads|
    requires ThreadStep(Run(s, moves).store, Run(s, moves).threads[i], a) == (store, t)
    ensures Run(s, moves') == State(store, Run(s, moves).threads[i := t])
  {
    moves' := moves + [Move(i, a)];
    RunSnoc(s, moves, Move(i, a));
  }

  /** Why one request at a time: of two updates that read the same record, the slower
      one writes its copy over what the faster one and its successor have stored. */
  lemma ConcurrentUpdatesGoBack(s: State, i: nat, j: nat, id: string) returns (moves: seq<Move>)
    requires i < |s.threads| && j < |s.threads| && i != j && s.threads[i].Idle? && s.threads[j].Idle?
    requires id in s.store && s.store[id].id == id
    ensures var before := Run(s, moves);
            var after := Step(before, Move(i, Put(true)));
            && id in before.store && before.store[id].version == s.store[id].version + 2
            && id in after.store && after.store[id].version == s.store[id].version + 1
  {
    var up := Update(id, None, None);
    var one := BeginOperation(ApplyUpdate(s.store[id], None, None), "update");
    var store := s.store;
    assert Run(s, []) == s;
    moves := TakeStep(s, [], i, up, store, Starting(one, Request));
    moves := TakeStep(s, moves, j, up, store, Starting(one, Request));
    store := store[id := one];
    moves := TakeStep(s, moves, j, Put(true), store, Rendering(one, Request));
    var done := MarkSucceeded(one);
    moves := TakeStep(s, moves, j, Rendered(Artifact), store, Finishing(done, Request));
    store := store[id := done];
    moves := TakeStep(s, moves, j, Put(true), store, Idle);
    var two := BeginOperation(ApplyUpdate(done, None, None), "update");
    moves := TakeStep(s, moves, j, up, store, Starting(two, Request));
    store := store[id := two];
    moves := TakeStep(s, moves, j, Put(true), store, Rendering(two, Request));
    assert Run(s, moves).threads[i] == Starting(one, Request);
  }
}
