/** Served one at a time, the broker's handlers are runs of the step machine, so
    what holds of all runs holds of the records they write. */
module BrokerHandlers {
  import opened Prelude
  import opened BrokerRecords
  import opened BrokerRuns
  import opened Reconciler
  import opened SoloRuns

  lemma {:induction false} SoloIsRun(store: Store, t: Thread, actions: seq<Action>)
    ensures var (store', t') := RunSolo(ThreadStep, store, t, actions);
            Run(State(store, [t]), Solo(actions)) == State(store', [t'])
    decreases |actions|
  {
    if actions != [] {
      var (store', t') := ThreadStep(store, t, actions[0]);
      SoloIsRun(store', t', actions[1..]);
      assert Solo(actions)[1..] == Solo(actions[1..]);
      assert [t][0 := t'] == [t'];
    }
  }

  lemma FinalizeSolo(p: Platform, w: World, inst: Instance, f: Faults, flow: Flow) returns (actions: seq<Action>)
    ensures RunSolo(ThreadStep, w.store, Rendering(inst, flow), actions) == (Finalized(p, w, inst, f).store, Next(flow))
  {
    var render := Rendered(RenderCall(p, w.backend, inst, f).0);
    actions := [render] + [Put(f.finalPutOk)];
    SoloOne(ThreadStep, w.store, Rendering(inst, flow), render);
    SoloConcat(ThreadStep, w.store, Rendering(inst, flow), [render], [Put(f.finalPutOk)]);
  }

  lemma StartedSolo(p: Platform, w: World, inst: Instance, f: Faults) returns (actions: seq<Action>)
    ensures RunSolo(ThreadStep, w.store, Starting(inst, Request), actions) == (Started(p, w, inst, f).store, Idle)
  {
    SoloOne(ThreadStep, w.store, Starting(inst, Request), Put(f.startPutOk));
    actions := [Put(f.startPutOk)];
    if f.startPutOk {
      var rest := FinalizeSolo(p, World(w.store[inst.id := inst], w.backend), inst, f, Request);
      SoloConcat(ThreadStep, w.store, Starting(inst, Request), actions, rest);
      actions := actions + rest;
    }
  }

  /** Provision is a run of the step machine. */
  lemma ProvisionIsARun(p: Platform, w: World, id: string, serviceId: string, planId: string,
                        organization: Option<string>, parameters: string, readOk: bool, f: Faults)
    returns (moves: seq<Move>)
    ensures var created := NewInstance(id, serviceId, planId, organization, parameters);
            Run(State(w.store, [Idle]), moves) == State(Provisioned(p, w, created, readOk, f).store, [Idle])
  {
    var begin := Provision(id, serviceId, planId, organization, parameters, readOk);
    var inst := BeginOperation(NewInstance(id, serviceId, planId, organization, parameters), "provision");
    SoloOne(ThreadStep, w.store, Idle, begin);
    var actions := [begin];
    if !(readOk && id in w.store) {
      var rest := StartedSolo(p, w, inst, f);
      SoloConcat(ThreadStep, w.store, Idle, [begin], rest);
      actions := [begin] + rest;
    }
    SoloIsRun(w.store, Idle, actions);
    moves := Solo(actions);
  }

  /** Update is a run of the step machine. */
  lemma UpdateIsARun(p: Platform, w: World, id: string, planId: Option<string>, parameters: Option<string>, f: Faults)
    returns (moves: seq<Move>)
    ensures Run(State(w.store, [Idle]), moves) == State(Updated(p, w, id, planId, parameters, f).store, [Idle])
  {
    SoloOne(ThreadStep, w.store, Idle, Update(id, planId, parameters));
    var actions := [Update(id, planId, parameters)];
    if id in w.store {
      var inst := BeginOperation(ApplyUpdate(w.store[id], planId, parameters), "update");
      var rest := StartedSolo(p, w, inst, f);
      SoloConcat(ThreadStep, w.store, Idle, [Update(id, planId, parameters)], rest);
      actions := [Update(id, planId, parameters)] + rest;
    }
    SoloIsRun(w.store, Idle, actions);
    moves := Solo(actions);
  }

  lemma DecideSolo(p: Platform, w: World, store: Store, inst: Instance, rest: seq<Instance>, refresh: bool, f: Faults)
    returns (actions: seq<Action>)
    ensures var w' := if !NeedsReconcile(inst) then World(store, w.backend)
                      else
                        var begun := BeginOperation(inst.(attempts := inst.attempts + 1), "reconcile");
                        Finalized(p, World(PutIf(store, begun, f.startPutOk), w.backend), begun, f);
            RunSolo(ThreadStep, store, Decide(inst, rest, refresh), actions) == (w'.store, Sweeping(rest, refresh))
  {
    actions := [];
    if NeedsReconcile(inst) {
      var begun := BeginOperation(inst.(attempts := inst.attempts + 1), "reconcile");
      var flow := Pass(rest, refresh);
      SoloOne(ThreadStep, store, Starting(begun, flow), Put(f.startPutOk));
      var finish := FinalizeSolo(p, World(PutIf(store, begun, f.startPutOk), w.backend), begun, f, flow);
      SoloConcat(ThreadStep, store, Starting(begun, flow), [Put(f.startPutOk)], finish);
      actions := [Put(f.startPutOk)] + finish;
    }
  }

  lemma RefreshSolo(p: Platform, w: World, inst: Instance, rest: seq<Instance>, refresh: bool, f: Faults)
    returns (actions: seq<Action>)
    ensures var (store, inst1) := Refreshed(p, w, inst, refresh, f);
            RunSolo(ThreadStep, w.store, Sweeping([inst] + rest, refresh), actions) ==
              (store, Decide(inst1, rest, refresh))
  {
    var t := Sweeping([inst] + rest, refresh);
    assert ([inst] + rest)[1..] == rest;
    SoloOne(ThreadStep, w.store, t, Go);
    actions := [Go];
    if refresh && inst.status == Succeeded {
      var answer := DiffCall(p, w.backend, inst, f);
      SoloOne(ThreadStep, w.store, Diffing(inst, rest), Diff(answer));
      SoloConcat(ThreadStep, w.store, t, [Go], [Diff(answer)]);
      actions := [Go] + [Diff(answer)];
      if Confirmed(answer) {
        var inst1 := RefreshDrift(inst, answer);
        SoloOne(ThreadStep, w.store, Refreshing(inst1, rest), Put(f.refreshPutOk));
        SoloConcat(ThreadStep, w.store, t, actions, [Put(f.refreshPutOk)]);
        actions := actions + [Put(f.refreshPutOk)];
      }
    }
  }

  lemma ReconcileSolo(p: Platform, w: World, inst: Instance, rest: seq<Instance>, refresh: bool, f: Faults)
    returns (actions: seq<Action>)
    ensures RunSolo(ThreadStep, w.store, Sweeping([inst] + rest, refresh), actions)
            == (Reconciled(p, w, inst, refresh, f).0.store, Sweeping(rest, refresh))
  {
    var (store, inst1) := Refreshed(p, w, inst, refresh, f);
    var front := RefreshSolo(p, w, inst, rest, refresh, f);
    var decide := DecideSolo(p, w, store, inst1, rest, refresh, f);
    SoloConcat(ThreadStep, w.store, Sweeping([inst] + rest, refresh), front, decide);
    actions := front + decide;
  }

  lemma {:induction false} SweepSolo(p: Platform, w: World, listed: seq<Instance>, refresh: bool, faults: nat -> Faults,
                                     i: nat)
    returns (actions: seq<Action>)
    requires i <= |listed|
    ensures RunSolo(ThreadStep, w.store, Sweeping(listed[i..], refresh), actions) ==
            (Swept(p, w, listed, refresh, faults, i).0.store, Idle)
    decreases |listed| - i
  {
    if i == |listed| {
      actions := [Go];
    } else {
      assert listed[i..] == [listed[i]] + listed[i + 1..];
      var first := ReconcileSolo(p, w, listed[i], listed[i + 1..], refresh, faults(i));
      var rest := SweepSolo(p, Reconciled(p, w, listed[i], refresh, faults(i)).0, listed, refresh, faults, i + 1);
      SoloConcat(ThreadStep, w.store, Sweeping(listed[i..], refresh), first, rest);
      actions := first + rest;
    }
  }

  /** A reconcile pass is a run of the step machine. */
  lemma PassIsARun(p: Platform, w: World, ids: seq<string>, refresh: bool, faults: nat -> Faults)
    returns (moves: seq<Move>)
    ensures Run(State(w.store, [Idle]), moves) ==
            State(Swept(p, w, Copies(w.store, ids), refresh, faults, 0).0.store, [Idle])
  {
    var listed := Copies(w.store, ids);
    SoloOne(ThreadStep, w.store, Idle, StartPass(ids, refresh));
    var sweep := SweepSolo(p, w, listed, refresh, faults, 0);
    assert listed[0..] == listed;
    SoloConcat(ThreadStep, w.store, Idle, [StartPass(ids, refresh)], sweep);
    SoloIsRun(w.store, Idle, [StartPass(ids, refresh)] + sweep);
    moves := Solo([StartPass(ids, refresh)] + sweep);
  }
}
