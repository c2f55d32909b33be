/** The drift reconciler end to end: one pass refreshes drift from a real diff,
    selects, re-renders through the manifest dispatcher and writes the records
    back (apps/broker/app/main.py, libs/common/sovereign/executors/dispatch.py). */
module Reconciler {
  import opened Prelude
  import opened Dispatch
  import opened BrokerRecords
  import opened BrokerRuns

  /** The renderers (a manifest per desired state) and the executor registry. */
  datatype Platform = Platform(manifestOf: DesiredState -> Manifest, reg: Registry) {
    function ManifestOf(inst: Instance): Manifest {
      manifestOf(inst.Desired())
    }
  }

  /** How the calls made for one instance end. */
  datatype Faults = Faults(
    diffReached: bool,
    refreshPutOk: bool,
    startPutOk: bool,
    renderReached: bool,
    outcomes: nat -> ExecOutcome,
    error: string,
    body: string,
    finalPutOk: bool)

  datatype World = World(store: Store, backend: Backend)

  // ---------------------------------------------------------------- one pass, as a function

  predicate AnyDrifted(p: Platform, backend: Backend, inst: Instance) {
    var manifest := p.ManifestOf(inst);
    exists i :: 0 <= i < |manifest| && StepDrifted(p.reg, backend, manifest[i])
  }

  predicate AnyUnknown(p: Platform, inst: Instance) {
    var manifest := p.ManifestOf(inst);
    exists i :: 0 <= i < |manifest| && !Checkable(p.reg, manifest[i])
  }

  function DiffCall(p: Platform, backend: Backend, inst: Instance, f: Faults): Option<DiffAnswer> {
    if f.diffReached then Some(DiffAnswer(AnyDrifted(p, backend, inst), AnyUnknown(p, inst))) else None
  }

  /** The render call: a failed apply is answered with a detail object that names
      the failed step's kind. */
  function RenderCall(p: Platform, backend: Backend, inst: Instance, f: Faults): (RenderOutcome, Backend) {
    if !f.renderReached then (Unreachable(f.error), backend)
    else
      var (result, backend') := Applied(p.reg, p.ManifestOf(inst), f.outcomes, backend);
      (if result.ok then Artifact else StatusError(f.error, Object(f.body, FailedKind(result))), backend')
  }

  function FailedKind(result: ApplyResult): Option<string> {
    if result.failed.Some? then Some(result.failed.value.kind) else Some("")
  }

  function Refreshed(p: Platform, w: World, inst: Instance, refresh: bool, f: Faults): (Store, Instance) {
    if !refresh || inst.status != Succeeded then (w.store, inst)
    else
      var answer := DiffCall(p, w.backend, inst, f);
      if !Confirmed(answer) then (w.store, inst)
      else
        var inst' := RefreshDrift(inst, answer);
        (PutIf(w.store, inst', f.refreshPutOk), inst')
  }

  function Finalized(p: Platform, w: World, inst: Instance, f: Faults): World {
    var (outcome, backend) := RenderCall(p, w.backend, inst, f);
    var inst' := Finish(inst, outcome);
    World(PutIf(w.store, inst', f.finalPutOk), backend)
  }

  /** The new world and whether the instance was reconciled (or failed to be). */
  function Reconciled(p: Platform, w: World, inst: Instance, refresh: bool, f: Faults): (World, bool) {
    var (store, inst1) := Refreshed(p, w, inst, refresh, f);
    if !NeedsReconcile(inst1) then (World(store, w.backend), false)
    else
      var inst2 := BeginOperation(inst1.(attempts := inst1.attempts + 1), "reconcile");
      (Finalized(p, World(PutIf(store, inst2, f.startPutOk), w.backend), inst2, f), true)
  }

  function Swept(p: Platform, w: World, listed: seq<Instance>, refresh: bool,
                 faults: nat -> Faults, i: nat): (World, nat)
    requires i <= |listed|
    decreases |listed| - i
  {
    if i == |listed| then (w, 0)
    else
      var (w', changed) := Reconciled(p, w, listed[i], refresh, faults(i));
      var (w'', n) := Swept(p, w', listed, refresh, faults, i + 1);
      (w'', n + if changed then 1 else 0)
  }

  // ---------------------------------------------------------------- requests, as functions

  /** A request that has begun its operation: it gives up if the first put fails. */
  function Started(p: Platform, w: World, inst: Instance, f: Faults): World {
    if !f.startPutOk then w else Finalized(p, World(w.store[inst.id := inst], w.backend), inst, f)
  }

  function Provisioned(p: Platform, w: World, created: Instance, readOk: bool, f: Faults): World {
    if readOk && created.id in w.store then w else Started(p, w, BeginOperation(created, "provision"), f)
  }

  function Updated(p: Platform, w: World, id: string, planId: Option<string>, parameters: Option<string>,
                   f: Faults): World {
    if id !in w.store then w
    else Started(p, w, BeginOperation(ApplyUpdate(w.store[id], planId, parameters), "update"), f)
  }

  // ---------------------------------------------------------------- the same handlers, in place

  class Broker {
    const platform: Platform
    var store: Store
    var backend: Backend

    constructor (platform: Platform, store: Store, backend: Backend)
      ensures this.platform == platform && this.store == store && this.backend == backend
    {
      this.platform, this.store, this.backend := platform, store, backend;
    }

    ghost function View(): World
      reads this
    {
      World(store, backend)
    }

    method PutInstance(inst: Instance, ok: bool)
      modifies this`store
      ensures store == PutIf(old(store), inst, ok)
    {
      if ok {
        store := store[inst.id := inst];
      }
    }

    method RefreshDrift(inst: Instance, f: Faults) returns (inst': Instance)
      requires inst.status == Succeeded
      modifies this`store
      ensures (store, inst') == Refreshed(platform, old(View()), inst, true, f)
    {
      inst' := inst;
      if !f.diffReached {
        return;
      }
      var diff := DiffManifest(platform.reg, platform.ManifestOf(inst), backend);
      if diff.unknown {
        return;
      }
      inst' := inst.(drift := if diff.drifted then Drifted else InSync);
      PutInstance(inst', f.refreshPutOk);
    }

    method Render(inst: Instance, f: Faults) returns (failure: Option<Failure>)
      modifies this`backend
      ensures failure == Raised(RenderCall(platform, old(backend), inst, f).0)
      ensures backend == RenderCall(platform, old(backend), inst, f).1
      ensures failure.Some? ==> FailureDetail(failure.value).1 == None
    {
      if !f.renderReached {
        return Some(HttpException(Text(UNAVAILABLE + f.error)));
      }
      var result;
      result, backend := ApplyManifest(platform.reg, platform.ManifestOf(inst), f.outcomes, backend);
      if !result.ok {
        return Some(HttpException(Text(UNAVAILABLE + f.error)));
      }
      return None;
    }

    method FinalizeProvision(inst: Instance, f: Faults)
      requires inst.operation.Some?
      modifies this
      ensures View() == Finalized(platform, old(View()), inst, f)
    {
      var failure := Render(inst, f);
      var inst' := if failure.None? then MarkSucceeded(inst) else MarkFailed(inst, failure.value);
      PutInstance(inst', f.finalPutOk);
    }

    /** PUT: create the record, render it, write the outcome. */
    method Provision(id: string, serviceId: string, planId: string, organization: Option<string>, parameters: string,
                     readOk: bool, f: Faults)
      modifies this
      ensures View() == Provisioned(platform, old(View()), NewInstance(id, serviceId, planId, organization, parameters),
                                    readOk, f)
    {
      if readOk && id in store {
        return;
      }
      var inst := NewInstance(id, serviceId, planId, organization, parameters);
      inst := BeginOperation(inst, "provision");
      PutInstance(inst, f.startPutOk);
      if f.startPutOk {
        FinalizeProvision(inst, f);
      }
    }

    /** PATCH: bump the version, render, write the outcome. */
    method Update(id: string, planId: Option<string>, parameters: Option<string>, f: Faults)
      modifies this
      ensures View() == Updated(platform, old(View()), id, planId, parameters, f)
    {
      if id !in store {
        return;
      }
      var inst := store[id];
      if Truthy(planId) {
        inst := inst.(planId := planId.value);
      }
      if parameters.Some? {
        inst := inst.(parameters := parameters.value);
      }
      inst := inst.(version := inst.version + 1);
      inst := BeginOperation(inst, "update");
      PutInstance(inst, f.startPutOk);
      if f.startPutOk {
        FinalizeProvision(inst, f);
      }
    }

    method ReconcileInstance(listed: Instance, refresh: bool, f: Faults) returns (changed: bool)
      modifies this
      ensures (View(), changed) == Reconciled(platform, old(View()), listed, refresh, f)
    {
      var inst := listed;
      if refresh && inst.status == Succeeded {
        inst := RefreshDrift(inst, f);
      }
      if !NeedsReconcile(inst) {
        return false;
      }
      inst := inst.(attempts := inst.attempts + 1);
      inst := BeginOperation(inst, "reconcile");
      PutInstance(inst, f.startPutOk);
      FinalizeProvision(inst, f);
      return true;
    }

    /** One sweep over the listed records. */
    method ReconcilePass(listed: seq<Instance>, refresh: bool, faults: nat -> Faults) returns (changed: nat)
      modifies this
      ensures (View(), changed) == Swept(platform, old(View()), listed, refresh, faults, 0)
    {
      changed := 0;
      for i := 0 to |listed|
        invariant Swept(platform, old(View()), listed, refresh, faults, 0)
                  == var (w, n) := Swept(platform, View(), listed, refresh, faults, i); (w, n + changed)
      {
        var acted := ReconcileInstance(listed[i], refresh, faults(i));
        if acted {
          changed := changed + 1;
        }
      }
    }
  }

  // ---------------------------------------------------------------- fail-safe drift handling

  /** A succeeded, up-to-date record that is not marked drifted is re-applied by a
      refreshing pass exactly when the diff call answered, every manifest step
      could be checked, and at least one step differed. */
  lemma DriftHandlingIsFailSafe(p: Platform, w: World, inst: Instance, f: Faults)
    requires inst.status == Succeeded && inst.drift in {Unknown, InSync} && inst.appliedVersion == Some(inst.version)
    ensures var manifest := p.manifestOf(DesiredState(inst.id, inst.serviceId, inst.planId, inst.organization,
                                                      inst.parameters, inst.version));
            Reconciled(p, w, inst, true, f).1 <==>
            && f.diffReached
            && (forall i :: 0 <= i < |manifest| ==>
                  && manifest[i].kind in p.reg.kinds
                  && (manifest[i].kind in p.reg.comparing ==>
                        (manifest[i].kind, manifest[i].target) in p.reg.reachable))
            && (exists i :: 0 <= i < |manifest| &&
                  var k := (manifest[i].kind, manifest[i].target);
                  manifest[i].kind in p.reg.comparing && (k !in w.backend || w.backend[k] != manifest[i].payload))
  {
    var manifest := p.ManifestOf(inst);
    assert AnyUnknown(p, inst) <==> exists i :: 0 <= i < |manifest| && !Checkable(p.reg, manifest[i]);
    if !AnyUnknown(p, inst) {
      forall i | 0 <= i < |manifest| ensures Checkable(p.reg, manifest[i]) {
      }
      assert AnyDrifted(p, w.backend, inst) <==>
             exists i :: 0 <= i < |manifest| && manifest[i].kind in p.reg.comparing &&
               !Matches(w.backend, manifest[i]) by {
        if i :| 0 <= i < |manifest| && manifest[i].kind in p.reg.comparing && !Matches(w.backend, manifest[i]) {
          assert StepDrifted(p.reg, w.backend, manifest[i]);
        }
      }
    }
  }

  /** One manifest step without a registered executor is enough to keep every
      drift of that instance from ever being acted on. */
  lemma OneUncheckableStepSilencesDrift(p: Platform, w: World, inst: Instance, f: Faults, i: nat)
    requires inst.status == Succeeded && inst.drift in {Unknown, InSync} && inst.appliedVersion == Some(inst.version)
    requires i < |p.ManifestOf(inst)| && p.ManifestOf(inst)[i].kind !in p.reg.kinds
    ensures Reconciled(p, w, inst, true, f) == (w, false)
  {
    assert !Checkable(p.reg, p.ManifestOf(inst)[i]);
    assert AnyUnknown(p, inst);
  }

  // ---------------------------------------------------------------- convergence

  /** What listing returns: distinct records, as they are in the store. */
  ghost predicate Listed(store: Store, listed: seq<Instance>) {
    && (forall i :: 0 <= i < |listed| ==> listed[i].id in store && store[listed[i].id] == listed[i])
    && (forall i, j :: 0 <= i < j < |listed| ==> listed[i].id != listed[j].id)
  }

  /** The calls made for one record end well: the put of a refresh, if there is one,
      and, if the record is reconciled, its render, its applies and the final put. A
      record that is skipped need not be renderable, the diff may fail, and so may
      the put that only announces the reconcile. */
  ghost predicate Healthy(p: Platform, w: World, inst: Instance, refresh: bool, f: Faults) {
    && (refresh && inst.status == Succeeded && Confirmed(DiffCall(p, w.backend, inst, f)) ==> f.refreshPutOk)
    && (Reconciled(p, w, inst, refresh, f).1 ==>
          && f.renderReached && f.finalPutOk
          && forall j :: 0 <= j < |p.ManifestOf(inst)| ==> StepSucceeds(p.reg, p.ManifestOf(inst)[j], f.outcomes(j)))
  }

  /** Healthy for each record in turn, in the world the pass meets it in. */
  ghost predicate HealthySweep(p: Platform, w: World, listed: seq<Instance>, refresh: bool,
                               faults: nat -> Faults, i: nat)
    requires i <= |listed|
    decreases |listed| - i
  {
    i < |listed| ==>
      && Healthy(p, w, listed[i], refresh, faults(i))
      && HealthySweep(p, Reconciled(p, w, listed[i], refresh, faults(i)).0, listed, refresh, faults, i + 1)
  }

  /** Steps on the same resource want the same payload. Manifests over disjoint
      resources are the special case. */
  ghost predicate Consistent(a: Manifest, b: Manifest) {
    forall i, j :: 0 <= i < |a| && 0 <= j < |b| && a[i].Key() == b[j].Key() ==> a[i].payload == b[j].payload
  }

  ghost predicate AllConsistent(p: Platform, listed: seq<Instance>) {
    forall i, j :: 0 <= i < |listed| && 0 <= j < |listed| ==>
      Consistent(p.ManifestOf(listed[i]), p.ManifestOf(listed[j]))
  }

  /** A refreshing pass has nothing left to find out about this record. */
  ghost predicate Settled(p: Platform, backend: Backend, r: Instance) {
    r.status == Succeeded && !AnyUnknown(p, r) ==> r.drift == InSync && !AnyDrifted(p, backend, r)
  }

  /** Only its own record changes, and not what it asks for. */
  ghost predicate OnlyRecord(store: Store, store': Store, inst: Instance) {
    && inst.id in store' && store'[inst.id].Desired() == inst.Desired()
    && forall id :: id != inst.id ==>
         (id in store' <==> id in store) && (id in store ==> store'[id] == store[id])
  }

  /** The effect of a healthy reconcile on one record: it is not selected any more. */
  lemma HealthyReconcile(p: Platform, w: World, inst: Instance, refresh: bool, f: Faults)
    requires inst.id in w.store && w.store[inst.id] == inst && Healthy(p, w, inst, refresh, f)
    ensures var (w', _) := Reconciled(p, w, inst, refresh, f);
            && OnlyRecord(w.store, w'.store, inst)
            && !NeedsReconcile(w'.store[inst.id])
            && (w'.backend == w.backend || w'.backend == w.backend + Desired(p.ManifestOf(inst)))
  {
    var (store, inst1) := Refreshed(p, w, inst, refresh, f);
    assert store == w.store[inst.id := inst1];
    if NeedsReconcile(inst1) {
      var inst2 := BeginOperation(inst1.(attempts := inst1.attempts + 1), "reconcile");
      assert inst2.Desired() == inst.Desired();
      CompleteRun(p.reg, p.ManifestOf(inst), f.outcomes, w.backend);
    }
  }

  /** When the diff answers too, a refreshing reconcile leaves the record settled,
      provided its own steps do not contend for a target. */
  lemma HealthyReconcileSettles(p: Platform, w: World, inst: Instance, f: Faults)
    requires inst.id in w.store && w.store[inst.id] == inst && Healthy(p, w, inst, true, f)
    requires inst.status == Succeeded ==> f.diffReached
    requires Consistent(p.ManifestOf(inst), p.ManifestOf(inst))
    ensures var (w', _) := Reconciled(p, w, inst, true, f);
            inst.id in w'.store && Settled(p, w'.backend, w'.store[inst.id])
  {
    var (store, inst1) := Refreshed(p, w, inst, true, f);
    assert store == w.store[inst.id := inst1];
    if NeedsReconcile(inst1) {
      var inst2 := BeginOperation(inst1.(attempts := inst1.attempts + 1), "reconcile");
      assert inst2.Desired() == inst.Desired();
      CompleteRun(p.reg, p.ManifestOf(inst), f.outcomes, w.backend);
      var backend' := w.backend + Desired(p.ManifestOf(inst));
      assert Reconciled(p, w, inst, true, f).0.backend == backend';
      AppliedMatches(p.ManifestOf(inst), p.ManifestOf(inst), w.backend);
      assert !AnyDrifted(p, backend', MarkSucceeded(inst2));
    } else if inst.status == Succeeded {
      assert AnyDrifted(p, w.backend, inst1) == AnyDrifted(p, w.backend, inst);
      assert AnyUnknown(p, inst1) == AnyUnknown(p, inst);
    }
  }

  /** Applying b leaves every step of a that already matched, or that b also asks
      for, matching. */
  lemma AppliedMatches(a: Manifest, b: Manifest, backend: Backend)
    requires Consistent(a, b)
    ensures forall i :: 0 <= i < |a| && (Matches(backend, a[i]) || a == b) ==> Matches(backend + Desired(b), a[i])
  {
    DesiredKeys(b);
    forall i | 0 <= i < |a| && (Matches(backend, a[i]) || a == b)
      ensures Matches(backend + Desired(b), a[i])
    {
      var k := a[i].Key();
      if k in Desired(b) {
        var j :| 0 <= j < |b| && b[j].Key() == k && b[j].payload == Desired(b)[k];
        assert a[i].payload == b[j].payload;
      }
    }
  }

  lemma SettledStays(p: Platform, backend: Backend, r: Instance, other: Manifest)
    requires Settled(p, backend, r) && Consistent(p.ManifestOf(r), other)
    ensures Settled(p, backend + Desired(other), r)
  {
    AppliedMatches(p.ManifestOf(r), other, backend);
    if r.status == Succeeded && !AnyUnknown(p, r) {
      forall i | 0 <= i < |p.ManifestOf(r)|
        ensures !StepDrifted(p.reg, backend + Desired(other), p.ManifestOf(r)[i])
      {
        assert !StepDrifted(p.reg, backend, p.ManifestOf(r)[i]);
      }
    }
  }

  /** Why contending manifests are excluded there: whatever the backend holds, two
      records that want different payloads at one compared target are never both
      settled, so every refreshing pass finds drift again. */
  lemma ContendersNeverSettle(p: Platform, backend: Backend, r: Instance, q: Instance, i: nat, j: nat)
    requires r.status == Succeeded && q.status == Succeeded && !AnyUnknown(p, r) && !AnyUnknown(p, q)
    requires i < |p.ManifestOf(r)| && j < |p.ManifestOf(q)|
    requires var a, b := p.ManifestOf(r)[i], p.ManifestOf(q)[j];
             a.Key() == b.Key() && a.payload != b.payload && a.kind in p.reg.comparing
    ensures !(Settled(p, backend, r) && Settled(p, backend, q))
  {
    assert Checkable(p.reg, p.ManifestOf(r)[i]) && Checkable(p.reg, p.ManifestOf(q)[j]);
    assert StepDrifted(p.reg, backend, p.ManifestOf(r)[i]) || StepDrifted(p.reg, backend, p.ManifestOf(q)[j]);
  }

  /** What it takes for a pass to settle its records besides being healthy: it asks
      for diffs, they answer, and no two manifests contend for a target. */
  ghost predicate Settling(p: Platform, listed: seq<Instance>, refresh: bool, faults: nat -> Faults) {
    && refresh && AllConsistent(p, listed)
    && forall k :: 0 <= k < |listed| && listed[k].status == Succeeded ==> faults(k).diffReached
  }

  /** Record k has been dealt with: not selected, and settled if that is asked. */
  ghost predicate DoneWith(p: Platform, w: World, inst: Instance, settle: bool) {
    && inst.id in w.store
    && w.store[inst.id].Desired() == inst.Desired()
    && !NeedsReconcile(w.store[inst.id])
    && (settle ==> Settled(p, w.backend, w.store[inst.id]))
  }

  ghost predicate DoneUpTo(p: Platform, w: World, listed: seq<Instance>, settle: bool, i: nat)
    requires i <= |listed|
  {
    forall k :: 0 <= k < i ==> DoneWith(p, w, listed[k], settle)
  }

  ghost predicate PendingFrom(w: World, listed: seq<Instance>, i: nat) {
    forall k :: i <= k < |listed| ==> listed[k].id in w.store && w.store[listed[k].id] == listed[k]
  }

  /** A healthy reconcile of one record does not undo what was done for another. */
  lemma OthersStayDone(p: Platform, w: World, done: Instance, inst: Instance, refresh: bool, f: Faults, settle: bool)
    requires DoneWith(p, w, done, settle) && done.id != inst.id
    requires inst.id in w.store && w.store[inst.id] == inst && Healthy(p, w, inst, refresh, f)
    requires settle ==> Consistent(p.ManifestOf(done), p.ManifestOf(inst))
    ensures DoneWith(p, Reconciled(p, w, inst, refresh, f).0, done, settle)
  {
    HealthyReconcile(p, w, inst, refresh, f);
    var r := w.store[done.id];
    assert p.ManifestOf(r) == p.ManifestOf(done);
    if settle && Reconciled(p, w, inst, refresh, f).0.backend != w.backend {
      SettledStays(p, w.backend, r, p.ManifestOf(inst));
    }
  }

  lemma SweepOne(p: Platform, w: World, listed: seq<Instance>, refresh: bool, faults: nat -> Faults, settle: bool,
                 i: nat)
    requires i < |listed| && DoneUpTo(p, w, listed, settle, i) && PendingFrom(w, listed, i)
    requires forall a, b :: 0 <= a < b < |listed| ==> listed[a].id != listed[b].id
    requires Healthy(p, w, listed[i], refresh, faults(i)) && (settle ==> Settling(p, listed, refresh, faults))
    ensures var (w', _) := Reconciled(p, w, listed[i], refresh, faults(i));
            DoneUpTo(p, w', listed, settle, i + 1) && PendingFrom(w', listed, i + 1)
  {
    var inst := listed[i];
    HealthyReconcile(p, w, inst, refresh, faults(i));
    if settle {
      assert Consistent(p.ManifestOf(inst), p.ManifestOf(inst));
      HealthyReconcileSettles(p, w, inst, faults(i));
    }
    var (w', _) := Reconciled(p, w, inst, refresh, faults(i));
    forall k | 0 <= k < i ensures DoneWith(p, w', listed[k], settle) {
      assert settle ==> Consistent(p.ManifestOf(listed[k]), p.ManifestOf(inst));
      OthersStayDone(p, w, listed[k], inst, refresh, faults(i), settle);
    }
    assert DoneWith(p, w', inst, settle);
  }

  lemma {:induction false} SweepAll(p: Platform, w: World, listed: seq<Instance>, refresh: bool, faults: nat -> Faults,
                                    settle: bool, i: nat)
    requires i <= |listed| && DoneUpTo(p, w, listed, settle, i) && PendingFrom(w, listed, i)
    requires forall a, b :: 0 <= a < b < |listed| ==> listed[a].id != listed[b].id
    requires HealthySweep(p, w, listed, refresh, faults, i) && (settle ==> Settling(p, listed, refresh, faults))
    ensures DoneUpTo(p, Swept(p, w, listed, refresh, faults, i).0, listed, settle, |listed|)
    decreases |listed| - i
  {
    if i < |listed| {
      SweepOne(p, w, listed, refresh, faults, settle, i);
      SweepAll(p, Reconciled(p, w, listed[i], refresh, faults(i)).0, listed, refresh, faults, settle, i + 1);
    }
  }

  /** After one pass in which the renders, applies and puts it makes succeed no listed record is
      selected any more, whatever the diffs said and however manifests overlap. */
  lemma OnePassConverges(p: Platform, w: World, listed: seq<Instance>, refresh: bool, faults: nat -> Faults)
    requires Listed(w.store, listed) && HealthySweep(p, w, listed, refresh, faults, 0)
    ensures var w' := Swept(p, w, listed, refresh, faults, 0).0;
            forall k :: 0 <= k < |listed| ==>
              && listed[k].id in w'.store && w'.store[listed[k].id].Desired() == listed[k].Desired()
              && !NeedsReconcile(w'.store[listed[k].id])
  {
    SweepAll(p, w, listed, refresh, faults, false, 0);
    var w' := Swept(p, w, listed, refresh, faults, 0).0;
    forall k | 0 <= k < |listed| ensures DoneWith(p, w', listed[k], false) {
    }
  }

  /** If it also asks for diffs that answer, and no manifests contend, no listed
      record has drift left that a diff could find. */
  lemma OnePassSettles(p: Platform, w: World, listed: seq<Instance>, refresh: bool, faults: nat -> Faults)
    requires Listed(w.store, listed) && HealthySweep(p, w, listed, refresh, faults, 0) &&
             Settling(p, listed, refresh, faults)
    ensures var w' := Swept(p, w, listed, refresh, faults, 0).0;
            forall k :: 0 <= k < |listed| ==>
              listed[k].id in w'.store && Settled(p, w'.backend, w'.store[listed[k].id])
  {
    SweepAll(p, w, listed, refresh, faults, true, 0);
    var w' := Swept(p, w, listed, refresh, faults, 0).0;
    forall k | 0 <= k < |listed| ensures DoneWith(p, w', listed[k], true) {
    }
  }

  // ---------------------------------------------------------------- the second pass

  /** Whatever fails around it, a settled record is skipped and nothing changes. */
  lemma SettledIsSkipped(p: Platform, w: World, r: Instance, refresh: bool, f: Faults)
    requires r.id in w.store && w.store[r.id] == r && !NeedsReconcile(r)
    requires refresh ==> Settled(p, w.backend, r)
    ensures Reconciled(p, w, r, refresh, f) == (w, false)
  {
    if refresh && r.status == Succeeded && Confirmed(DiffCall(p, w.backend, r, f)) {
      assert RefreshDrift(r, DiffCall(p, w.backend, r, f)) == r;
      assert w.store[r.id := r] == w.store;
    }
  }

  lemma {:induction false} SecondSweep(p: Platform, w: World, listed: seq<Instance>, refresh: bool,
                                       faults: nat -> Faults, i: nat)
    requires i <= |listed|
    requires forall k :: 0 <= k < |listed| ==>
               && listed[k].id in w.store && w.store[listed[k].id] == listed[k]
               && !NeedsReconcile(listed[k]) && (refresh ==> Settled(p, w.backend, listed[k]))
    ensures Swept(p, w, listed, refresh, faults, i) == (w, 0)
    decreases |listed| - i
  {
    if i < |listed| {
      SettledIsSkipped(p, w, listed[i], refresh, faults(i));
      SecondSweep(p, w, listed, refresh, faults, i + 1);
    }
  }

  /** An immediate second pass over the same instances, on an unchanged backend,
      renders nothing, reports no change, and leaves store and backend alone,
      whichever of its calls fail. Only a second pass that refreshes needs the first
      one to have settled its records. */
  lemma SecondPassIsIdle(p: Platform, w: World, listed: seq<Instance>, refresh: bool, faults: nat -> Faults,
                         relisted: seq<Instance>, refresh': bool, faults': nat -> Faults)
    requires Listed(w.store, listed) && HealthySweep(p, w, listed, refresh, faults, 0)
    requires refresh' ==> Settling(p, listed, refresh, faults)
    requires Listed(Swept(p, w, listed, refresh, faults, 0).0.store, relisted)
    requires forall k :: 0 <= k < |relisted| ==> exists j :: 0 <= j < |listed| && listed[j].id == relisted[k].id
    ensures var (w', _) := Swept(p, w, listed, refresh, faults, 0);
            Swept(p, w', relisted, refresh', faults', 0) == (w', 0)
  {
    OnePassConverges(p, w, listed, refresh, faults);
    if refresh' {
      OnePassSettles(p, w, listed, refresh, faults);
    }
    var (w', _) := Swept(p, w, listed, refresh, faults, 0);
    SecondSweep(p, w', relisted, refresh', faults', 0);
  }
}
