/** The broker's handlers as a step machine: requests and reconcile passes work on
    private copies and write whole records, unconditionally; every render, put and
    diff may fail and every handler may crash between two calls
    (apps/broker/app/main.py, libs/common/sovereign/store.py). */
module BrokerRuns {
  import opened Prelude
  import opened BrokerRecords
  import opened SoloRuns

  type Store = map<string, Instance>

  /** Which handler a copy belongs to; a pass carries the copies it has yet to visit. */
  datatype Flow = Request | Pass(rest: seq<Instance>, refresh: bool)

  datatype Thread =
    | Idle
    | Starting(inst: Instance, flow: Flow)
    | Rendering(inst: Instance, flow: Flow)
    | Finishing(inst: Instance, flow: Flow)
    | Sweeping(rest: seq<Instance>, refresh: bool)
    | Diffing(inst: Instance, rest: seq<Instance>)
    | Refreshing(inst: Instance, rest: seq<Instance>)

  datatype Action =
    | Provision(id: string, serviceId: string, planId: string, organization: Option<string>, parameters: string,
                readOk: bool)
    | Update(id: string, newPlan: Option<string>, newParameters: Option<string>)
    | StartPass(ids: seq<string>, refresh: bool)
    | Deprovision(id: string)
    | Put(ok: bool)
    | Rendered(outcome: RenderOutcome)
    | Diff(answer: Option<DiffAnswer>)
    | Go
    | Crash

  function Copies(store: Store, ids: seq<string>): seq<Instance> {
    if ids == [] then []
    else (if ids[0] in store then [store[ids[0]]] else []) + Copies(store, ids[1..])
  }

  function PutIf(store: Store, inst: Instance, ok: bool): Store {
    if ok then store[inst.id := inst] else store
  }

  /** A reconcile pass decides about one copy. */
  function Decide(inst: Instance, rest: seq<Instance>, refresh: bool): Thread {
    if NeedsReconcile(inst) then
      Starting(BeginOperation(inst.(attempts := inst.attempts + 1), "reconcile"), Pass(rest, refresh))
    else Sweeping(rest, refresh)
  }

  /** The outcome of the render, marked on the copy. */
  function Finish(inst: Instance, outcome: RenderOutcome): Instance {
    match Raised(outcome)
    case None => MarkSucceeded(inst)
    case Some(failure) => MarkFailed(inst, failure)
  }

  function Next(flow: Flow): Thread {
    match flow
    case Request => Idle
    case Pass(rest, refresh) => Sweeping(rest, refresh)
  }

  function FromIdle(store: Store, a: Action): (Store, Thread) {
    match a
    case Provision(id, serviceId, planId, organization, parameters, readOk) =>
      // A failed read looks like an absent record.
      if readOk && id in store then (store, Idle)
      else
        var created := NewInstance(id, serviceId, planId, organization, parameters);
        (store, Starting(BeginOperation(created, "provision"), Request))
    case Update(id, newPlan, newParameters) =>
      if id !in store then (store, Idle)
      else (store, Starting(BeginOperation(ApplyUpdate(store[id], newPlan, newParameters), "update"), Request))
    case StartPass(ids, refresh) => (store, Sweeping(Copies(store, ids), refresh))
    case Deprovision(id) => (store - {id}, Idle)
    case _ => (store, Idle)
  }

  function ThreadStep(store: Store, t: Thread, a: Action): (Store, Thread) {
    if a.Crash? then (store, Idle)
    else
      match t
      case Idle => FromIdle(store, a)
      case Starting(inst, flow) =>
        // A request gives up when its first put fails; a pass goes on regardless.
        if !a.Put? then (store, t)
        else (PutIf(store, inst, a.ok), if a.ok || flow.Pass? then Rendering(inst, flow) else Idle)
      case Rendering(inst, flow) =>
        if !a.Rendered? then (store, t) else (store, Finishing(Finish(inst, a.outcome), flow))
      case Finishing(inst, flow) =>
        if !a.Put? then (store, t) else (PutIf(store, inst, a.ok), Next(flow))
      case Sweeping(rest, refresh) =>
        if rest == [] then (store, Idle)
        else if refresh && rest[0].status == Succeeded then (store, Diffing(rest[0], rest[1..]))
        else (store, Decide(rest[0], rest[1..], refresh))
      case Diffing(inst, rest) =>
        if !a.Diff? then (store, t)
        else if !Confirmed(a.answer) then (store, Decide(inst, rest, true))
        else (store, Refreshing(RefreshDrift(inst, a.answer), rest))
      case Refreshing(inst, rest) =>
        if !a.Put? then (store, t) else (PutIf(store, inst, a.ok), Decide(inst, rest, true))
  }

  datatype State = State(store: Store, threads: seq<Thread>)

  type Move = ThreadMove<Action>

  function Step(s: State, m: Move): State {
    if m.thread >= |s.threads| then s
    else
      var (store, t) := ThreadStep(s.store, s.threads[m.thread], m.action);
      State(store, s.threads[m.thread := t])
  }

  function Run(s: State, moves: seq<Move>): State
    decreases |moves|
  {
    if moves == [] then s else Run(Step(s, moves[0]), moves[1..])
  }

  function Start(n: nat): State {
    State(map[], seq(n, i => Idle))
  }

  // ---------------------------------------------------------------- every record, always

  ghost predicate StoreOk(store: Store) {
    forall id :: id in store ==> store[id].id == id && RecordOk(store[id])
  }

  ghost predicate AllOk(rest: seq<Instance>) {
    forall r :: r in rest ==> RecordOk(r)
  }

  ghost predicate FlowOk(flow: Flow) {
    flow.Pass? ==> AllOk(flow.rest)
  }

  /** A copy between begin and finish. */
  ghost predicate Begun(r: Instance) {
    RecordOk(r) && r.operation == Some(InProgress) && r.drift == Reconciling
  }

  ghost predicate ThreadOk(t: Thread) {
    match t
    case Idle => true
    case Starting(inst, flow) => Begun(inst) && FlowOk(flow)
    case Rendering(inst, flow) => Begun(inst) && FlowOk(flow)
    case Finishing(inst, flow) => RecordOk(inst) && Tight(inst) && FlowOk(flow)
    case Sweeping(rest, _) => AllOk(rest)
    case Diffing(inst, rest) => RecordOk(inst) && inst.status == Succeeded && AllOk(rest)
    case Refreshing(inst, rest) => RecordOk(inst) && inst.status == Succeeded && AllOk(rest)
  }

  lemma {:induction false} CopiesOk(store: Store, ids: seq<string>)
    requires StoreOk(store)
    ensures AllOk(Copies(store, ids))
    ensures forall r :: r in Copies(store, ids) ==> r.id in store && r == store[r.id]
  {
    if ids != [] {
      CopiesOk(store, ids[1..]);
    }
  }

  /** A pass works on a copy of every listed record that is stored, in listing order. */
  lemma {:induction false} CopiesAreComplete(store: Store, ids: seq<string>)
    requires forall id :: id in ids ==> id in store
    ensures |Copies(store, ids)| == |ids| && forall i :: 0 <= i < |ids| ==> Copies(store, ids)[i] == store[ids[i]]
    decreases |ids|
  {
    if ids != [] {
      assert ids[0] in ids;
      CopiesAreComplete(store, ids[1..]);
      assert forall i :: 1 <= i < |ids| ==> ids[i] == ids[1..][i - 1];
    }
  }

  /** Deprovisioning deletes its record and touches no other. */
  lemma DeprovisionDeletes(s: State, i: nat, id: string)
    requires i < |s.threads| && s.threads[i].Idle?
    ensures var s' := Step(s, Move(i, Deprovision(id)));
            && id !in s'.store && s'.threads == s.threads
            && forall k :: k != id ==>
                 (k in s'.store <==> k in s.store) && (k in s.store ==> s'.store[k] == s.store[k])
  {
    assert s.threads[i := Idle] == s.threads;
  }

  /** Beginning any operation on a consistent or brand-new record. */
  lemma BeginOk(r: Instance, operation: string)
    requires r.status != Deprovisioning
    requires r.appliedVersion.Some? ==> r.appliedVersion.value <= r.version
    ensures Begun(BeginOperation(r, operation))
  {
  }

  lemma DecideOk(inst: Instance, rest: seq<Instance>, refresh: bool)
    requires RecordOk(inst) && AllOk(rest)
    ensures ThreadOk(Decide(inst, rest, refresh))
  {
    BeginOk(inst.(attempts := inst.attempts + 1), "reconcile");
  }

  /** What every step of every handler keeps. */
  lemma ThreadStepOk(store: Store, t: Thread, a: Action)
    requires StoreOk(store) && ThreadOk(t)
    ensures var (store', t') := ThreadStep(store, t, a); StoreOk(store') && ThreadOk(t')
  {
    if !a.Crash? {
      match t
      case Idle => FromIdleOk(store, a);
      case Sweeping(rest, refresh) =>
        if rest != [] {
          assert rest[0] in rest;
          DecideOk(rest[0], rest[1..], refresh);
        }
      case Diffing(inst, rest) => DecideOk(inst, rest, true);
      case Refreshing(inst, rest) => DecideOk(inst, rest, true);
      case _ =>
    }
  }

  lemma FromIdleOk(store: Store, a: Action)
    requires StoreOk(store)
    ensures var (store', t') := FromIdle(store, a); StoreOk(store') && ThreadOk(t')
  {
    if a.StartPass? {
      CopiesOk(store, a.ids);
    }
  }

  ghost predicate Inv(s: State) {
    StoreOk(s.store) && forall i :: 0 <= i < |s.threads| ==> ThreadOk(s.threads[i])
  }

  lemma {:induction false} RunKeepsInv(s: State, moves: seq<Move>)
    requires Inv(s)
    ensures Inv(Run(s, moves))
    decreases |moves|
  {
    if moves != [] {
      if moves[0].thread < |s.threads| {
        ThreadStepOk(s.store, s.threads[moves[0].thread], moves[0].action);
      }
      RunKeepsInv(Step(s, moves[0]), moves[1..]);
    }
  }

  /** In every interleaving of handlers, failed renders, failed puts and crashes,
      every stored record is consistent: nothing is applied beyond its version; a
      succeeded operation has status succeeded, the current version applied and no
      reason; a failed one has status failed and is marked drifted; and the failed
      step kind is never filled in. */
  lemma EveryStoredRecordIsConsistent(n: nat, moves: seq<Move>, id: string)
    requires id in Run(Start(n), moves).store
    ensures var r := Run(Start(n), moves).store[id];
            && r.id == id
            && (r.appliedVersion.Some? ==> r.appliedVersion.value <= r.version)
            && (r.operation == Some(OpSucceeded) ==>
                  && r.status == Succeeded && r.appliedVersion == Some(r.version)
                  && r.reason == "" && r.failedStep == None)
            && (r.operation == Some(OpFailed) ==> r.status == Failed && r.drift == Drifted)
            && r.operation.Some? && r.failedStep == None
  {
    RunKeepsInv(Start(n), moves);
  }

  // ---------------------------------------------------------------- without drift refreshes

  predicate NoRefresh(moves: seq<Move>) {
    forall m :: m in moves && m.action.StartPass? ==> !m.action.refresh
  }

  ghost predicate TightStore(store: Store) {
    forall id :: id in store ==> Tight(store[id])
  }

  ghost predicate Unrefreshed(t: Thread) {
    match t
    case Starting(_, flow) => flow.Pass? ==> !flow.refresh
    case Rendering(_, flow) => flow.Pass? ==> !flow.refresh
    case Finishing(_, flow) => flow.Pass? ==> !flow.refresh
    case Sweeping(_, refresh) => !refresh
    case Diffing(_, _) => false
    case Refreshing(_, _) => false
    case Idle => true
  }

  ghost predicate TightInv(s: State) {
    Inv(s) && TightStore(s.store) && forall i :: 0 <= i < |s.threads| ==> Unrefreshed(s.threads[i])
  }

  lemma StepKeepsTight(s: State, m: Move)
    requires TightInv(s) && (m.action.StartPass? ==> !m.action.refresh)
    ensures TightInv(Step(s, m))
  {
    if m.thread < |s.threads| {
      ThreadStepOk(s.store, s.threads[m.thread], m.action);
      assert Unrefreshed(s.threads[m.thread]);
    }
  }

  lemma {:induction false} RunKeepsTight(s: State, moves: seq<Move>)
    requires TightInv(s) && NoRefresh(moves)
    ensures TightInv(Run(s, moves))
    decreases |moves|
  {
    if moves != [] {
      assert moves[0] in moves;
      StepKeepsTight(s, moves[0]);
      RunKeepsTight(Step(s, moves[0]), moves[1..]);
    }
  }

  /** Without periodic drift refreshes no crash and no lost put ever leaves an
      unfinished instance unselected, and no finished one is selected. */
  lemma UnfinishedIsAlwaysSelected(n: nat, moves: seq<Move>, id: string)
    requires NoRefresh(moves) && id in Run(Start(n), moves).store
    ensures var r := Run(Start(n), moves).store[id];
            NeedsReconcile(r) <==> r.operation != Some(OpSucceeded)
  {
    RunKeepsTight(Start(n), moves);
    SelectedIffUnfinished(Run(Start(n), moves).store[id]);
  }

  // ---------------------------------------------------------------- with drift refreshes

  /** An unfinished record that no pass selects. */
  predicate Stranded(r: Instance) {
    r.operation != Some(OpSucceeded) && !NeedsReconcile(r)
  }

  lemma StrandedShape(r: Instance)
    requires RecordOk(r)
    ensures Stranded(r) <==>
            && r.operation == Some(InProgress) && r.status == Succeeded
            && r.appliedVersion == Some(r.version) && r.drift == InSync
  {
    match r.operation.value
    case InProgress =>
    case OpSucceeded =>
    case OpFailed =>
  }

  /** A diff that confirms in sync a copy whose version is applied and whose
      operation is still in progress. */
  predicate StrandingDiff(t: Thread, a: Action) {
    && t.Diffing? && a.Diff? && Confirmed(a.answer) && !a.answer.value.drifted
    && t.inst.operation == Some(InProgress) && t.inst.appliedVersion == Some(t.inst.version)
  }

  /** The copy a refresh is about to write is stranded exactly when such a diff made
      it: no other step brings a thread there. */
  lemma DiffStrandsExactly(store: Store, t: Thread, a: Action)
    requires StoreOk(store) && ThreadOk(t) && !t.Refreshing?
    ensures var t' := ThreadStep(store, t, a).1;
            t'.Refreshing? && Stranded(t'.inst) <==> StrandingDiff(t, a)
  {
    if t.Diffing? && a.Diff? {
      StrandedShape(RefreshDrift(t.inst, a.answer));
    }
  }

  /** The put of a refresh goes through on a copy that such a diff has marked. */
  ghost predicate StrandingPut(s: State, m: Move) {
    && m.thread < |s.threads| && s.threads[m.thread].Refreshing? && m.action == Put(true)
    && var r := s.threads[m.thread].inst;
       r.operation == Some(InProgress) && r.appliedVersion == Some(r.version) && r.drift == InSync
  }

  ghost predicate NoneStranded(store: Store) {
    forall id :: id in store ==> !Stranded(store[id])
  }

  /** At every point of the run every unfinished record is selected. */
  ghost predicate AlwaysSelected(s: State, moves: seq<Move>)
    decreases |moves|
  {
    NoneStranded(s.store) && (moves != [] ==> AlwaysSelected(Step(s, moves[0]), moves[1..]))
  }

  ghost predicate NoStrandingPut(s: State, moves: seq<Move>)
    decreases |moves|
  {
    moves == [] || (!StrandingPut(s, moves[0]) && NoStrandingPut(Step(s, moves[0]), moves[1..]))
  }

  lemma StrandedOnlyByPut(s: State, m: Move)
    requires Inv(s) && NoneStranded(s.store)
    ensures NoneStranded(Step(s, m).store) <==> !StrandingPut(s, m)
  {
    if m.thread < |s.threads| {
      var t := s.threads[m.thread];
      var (store', _) := ThreadStep(s.store, t, m.action);
      if t.Refreshing? {
        StrandedShape(t.inst);
        assert m.action == Put(true) ==> t.inst.id in store' && store'[t.inst.id] == t.inst;
      } else if t.Finishing? {
        SelectedIffUnfinished(t.inst);
      }
    }
  }

  lemma {:induction false} SelectedUnlessPut(s: State, moves: seq<Move>)
    requires Inv(s) && NoneStranded(s.store)
    ensures AlwaysSelected(s, moves) <==> NoStrandingPut(s, moves)
    decreases |moves|
  {
    if moves != [] {
      StrandedOnlyByPut(s, moves[0]);
      if !StrandingPut(s, moves[0]) {
        if moves[0].thread < |s.threads| {
          ThreadStepOk(s.store, s.threads[moves[0].thread], moves[0].action);
        }
        SelectedUnlessPut(Step(s, moves[0]), moves[1..]);
      }
    }
  }

  /** Refreshes included, a run keeps every unfinished record selected throughout
      exactly when it has no stranding put. */
  lemma SelectionHoldsExactly(n: nat, moves: seq<Move>)
    ensures AlwaysSelected(Start(n), moves) <==> NoStrandingPut(Start(n), moves)
  {
    SelectedUnlessPut(Start(n), moves);
  }

  ghost predicate NoStrandingDiff(s: State, moves: seq<Move>)
    decreases |moves|
  {
    moves == [] ||
    (&& (moves[0].thread < |s.threads| ==> !StrandingDiff(s.threads[moves[0].thread], moves[0].action))
     && NoStrandingDiff(Step(s, moves[0]), moves[1..]))
  }

  ghost predicate NoneAboutToStrand(s: State) {
    forall i :: 0 <= i < |s.threads| && s.threads[i].Refreshing? ==> !Stranded(s.threads[i].inst)
  }

  lemma {:induction false} NoDiffNoPut(s: State, moves: seq<Move>)
    requires Inv(s) && NoneAboutToStrand(s) && NoStrandingDiff(s, moves)
    ensures NoStrandingPut(s, moves)
    decreases |moves|
  {
    if moves != [] {
      var m := moves[0];
      if m.thread < |s.threads| {
        ThreadStepOk(s.store, s.threads[m.thread], m.action);
        if s.threads[m.thread].Refreshing? {
          assert !Stranded(s.threads[m.thread].inst);
        } else {
          DiffStrandsExactly(s.store, s.threads[m.thread], m.action);
        }
      }
      NoDiffNoPut(Step(s, m), moves[1..]);
    }
  }

  /** Without such a diff no crash and no lost put ever leaves an unfinished
      instance unselected, whatever else is refreshed. */
  lemma NoStrandingDiffKeepsSelection(n: nat, moves: seq<Move>)
    requires NoStrandingDiff(Start(n), moves)
    ensures AlwaysSelected(Start(n), moves)
  {
    NoDiffNoPut(Start(n), moves);
    SelectionHoldsExactly(n, moves);
  }

  /** Such a diff, followed by its put, leaves the record unselected although its
      operation is in progress. */
  lemma StrandingDiffStrands(s: State, i: nat, answer: Option<DiffAnswer>)
    requires Inv(s) && i < |s.threads| && StrandingDiff(s.threads[i], Diff(answer))
    ensures var id := s.threads[i].inst.id;
            var store := Step(Step(s, Move(i, Diff(answer))), Move(i, Put(true))).store;
            id in store && store[id].operation == Some(InProgress) && !NeedsReconcile(store[id])
  {
    var inst := s.threads[i].inst;
    var s1 := Step(s, Move(i, Diff(answer)));
    assert ThreadStep(s.store, s.threads[i], Diff(answer)).1 ==
           Refreshing(RefreshDrift(inst, answer), s.threads[i].rest);
    assert s1.threads[i] == Refreshing(RefreshDrift(inst, answer), s.threads[i].rest);
  }

  lemma {:induction false} RunSnoc(s: State, moves: seq<Move>, m: Move)
    ensures Run(s, moves + [m]) == Step(Run(s, moves), m)
    decreases |moves|
  {
    if moves == [] {
      assert moves + [m] == [m];
    } else {
      assert (moves + [m])[1..] == moves[1..] + [m];
      RunSnoc(Step(s, moves[0]), moves[1..], m);
    }
  }

  /** One more action of the only thread. */
  lemma Then(moves: seq<Move>, store: Store, t: Thread, a: Action)
    returns (moves': seq<Move>, store': Store, t': Thread)
    requires Run(Start(1), moves) == State(store, [t])
    ensures (store', t') == ThreadStep(store, t, a)
    ensures Run(Start(1), moves') == State(store', [t'])
  {
    moves' := moves + [Move(0, a)];
    RunSnoc(Start(1), moves, Move(0, a));
    var r := ThreadStep(store, t, a);
    store', t' := r.0, r.1;
    assert [t][0 := t'] == [t'];
  }

  lemma ProvisionPhase() returns (moves: seq<Move>, store: Store)
    ensures Run(Start(1), moves) == State(store, [Idle])
    ensures "i" in store && store["i"].id == "i" && store["i"].status == Succeeded &&
            store["i"].version == 1 && store["i"].appliedVersion == Some(1)
  {
    var t;
    assert Start(1).threads == [Idle];
    moves, store, t := Then([], map[], Idle, Provision("i", "lb", "small", None, "p", true));
    moves, store, t := Then(moves, store, t, Put(true));
    moves, store, t := Then(moves, store, t, Rendered(Artifact));
    moves, store, t := Then(moves, store, t, Put(true));
  }

  lemma PassPhase(moves: seq<Move>, store: Store, answer: DiffAnswer) returns (moves': seq<Move>, t': Thread)
    requires Run(Start(1), moves) == State(store, [Idle]) && "i" in store && store["i"].id == "i" &&
             store["i"].status == Succeeded
    requires !answer.unknown
    ensures var r := RefreshDrift(store["i"], Some(answer));
            Run(Start(1), moves') == State(store["i" := r], [t']) && t' == Decide(r, [], true)
  {
    var store1, t;
    assert Copies(store, ["i"]) == [store["i"]];
    moves', store1, t := Then(moves, store, Idle, StartPass(["i"], true));
    moves', store1, t := Then(moves', store1, t, Go);
    moves', store1, t := Then(moves', store1, t, Diff(Some(answer)));
    moves', store1, t' := Then(moves', store1, t, Put(true));
  }

  lemma LostPutPhase(moves: seq<Move>, store: Store, t: Thread) returns (moves': seq<Move>)
    requires Run(Start(1), moves) == State(store, [t]) && t.Starting? && t.flow == Pass([], true)
    ensures Run(Start(1), moves') == State(store[t.inst.id := t.inst], [Idle])
  {
    var store1, t1;
    moves', store1, t1 := Then(moves, store, t, Put(true));
    moves', store1, t1 := Then(moves', store1, t1, Rendered(Artifact));
    moves', store1, t1 := Then(moves', store1, t1, Put(false));
    moves', store1, t1 := Then(moves', store1, t1, Go);
  }

  /** A run of one request or pass at a time, with a single lost put, after which
      an instance reports an operation in progress and is not selected. It stays so
      until an update comes or a later diff finds drift. */
  lemma LostFinalPutStrands() returns (moves: seq<Move>)
    ensures var store := Run(Start(1), moves).store;
            "i" in store && store["i"].operation == Some(InProgress) && !NeedsReconcile(store["i"])
  {
    var store, t;
    moves, store := ProvisionPhase();
    moves, t := PassPhase(moves, store, DiffAnswer(true, false));
    store := store["i" := RefreshDrift(store["i"], Some(DiffAnswer(true, false)))];
    moves := LostPutPhase(moves, store, t);
    store := store["i" := t.inst];
    moves, t := PassPhase(moves, store, DiffAnswer(false, false));
  }
}
