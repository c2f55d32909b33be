/** What the broker's requests store and render, field by field
    (apps/broker/app/main.py). */
module BrokerRequests {
  import opened Prelude
  import opened Dispatch
  import opened BrokerRecords
  import opened BrokerRuns
  import opened Reconciler

  /** The control plane was reached and every step of the manifest went through. */
  ghost predicate RenderGoesWell(p: Platform, want: DesiredState, f: Faults) {
    && f.renderReached
    && forall i :: 0 <= i < |p.manifestOf(want)| ==> StepSucceeds(p.reg, p.manifestOf(want)[i], f.outcomes(i))
  }

  /** The record says what is wanted. */
  ghost predicate Asks(r: Instance, want: DesiredState) {
    && r.id == want.id && r.serviceId == want.serviceId && r.planId == want.planId
    && r.organization == want.organization && r.parameters == want.parameters && r.version == want.version
  }

  /** The stored record and the backend after an operation on a record that had this
      status and applied version: unfinished if the final put was lost, else as the
      render went. */
  ghost predicate Ended(p: Platform, backend: Backend, backend': Backend, r: Instance, want: DesiredState,
                        operation: string, status: Status, applied: Option<int>, f: Faults) {
    && Asks(r, want)
    && r.operationId == Some(OperationId(want.id, want.version, operation)) && r.failedStep == None
    && (RenderGoesWell(p, want, f) ==> backend' == backend + Desired(p.manifestOf(want)))
    && (!f.renderReached ==> backend' == backend)
    && (if !f.finalPutOk then
          && r.operation == Some(InProgress) && r.status == status && r.appliedVersion == applied
          && r.reason == "" && r.drift == Reconciling
        else if RenderGoesWell(p, want, f) then
          && r.operation == Some(OpSucceeded) && r.status == Succeeded && r.appliedVersion == Some(want.version)
          && r.reason == "" && r.drift == InSync
        else
          && r.operation == Some(OpFailed) && r.status == Failed && r.appliedVersion == applied
          && r.reason == "control plane unavailable: " + f.error && r.drift == Drifted)
  }

  /** No other record changes. */
  ghost predicate OthersKept(store: Store, store': Store, id: string) {
    forall k :: k != id ==> (k in store' <==> k in store) && (k in store ==> store'[k] == store[k])
  }

  lemma FinalizedEnds(p: Platform, w: World, inst: Instance, want: DesiredState, operation: string, f: Faults)
    requires Asks(inst, want) && inst.operation == Some(InProgress) && inst.reason == "" && inst.failedStep == None
    requires inst.operationId == Some(OperationId(want.id, want.version, operation)) && inst.drift == Reconciling
    requires inst.id in w.store && w.store[inst.id] == inst
    ensures var w' := Finalized(p, w, inst, f);
            && OthersKept(w.store, w'.store, inst.id)
            && inst.id in w'.store && w'.store[inst.id].attempts == inst.attempts
            && Ended(p, w.backend, w'.backend, w'.store[inst.id], want, operation, inst.status, inst.appliedVersion, f)
  {
    assert inst.Desired() == want;
    ApplyShape(p.reg, p.manifestOf(want), f.outcomes, w.backend);
  }

  /** An update whose first put goes through stores the requested plan if one was given,
      the requested parameters if any were, one version more, and everything else as it
      was; it renders exactly that. Without the first put nothing happens. */
  lemma UpdateStoresTheRequest(p: Platform, w: World, id: string, planId: Option<string>, parameters: Option<string>,
                               f: Faults)
    requires id in w.store && w.store[id].id == id
    ensures var w' := Updated(p, w, id, planId, parameters, f);
            var was := w.store[id];
            var want := DesiredState(id, was.serviceId,
                                     if planId.Some? && planId.value != "" then planId.value else was.planId,
                                     was.organization,
                                     if parameters.Some? then parameters.value else was.parameters,
                                     was.version + 1);
            if !f.startPutOk then w' == w
            else
              && OthersKept(w.store, w'.store, id)
              && id in w'.store && w'.store[id].attempts == was.attempts
              && Ended(p, w.backend, w'.backend, w'.store[id], want, "update", was.status, was.appliedVersion, f)
  {
    if f.startPutOk {
      var inst := BeginOperation(ApplyUpdate(w.store[id], planId, parameters), "update");
      FinalizedEnds(p, World(w.store[id := inst], w.backend), inst, inst.Desired(), "update", f);
    }
  }

  /** A provision that finds no record stores the request as version 1 and renders it. */
  lemma ProvisionStoresTheRequest(p: Platform, w: World, id: string, serviceId: string, planId: string,
                                  organization: Option<string>, parameters: string, readOk: bool, f: Faults)
    requires !readOk || id !in w.store
    ensures var w' := Provisioned(p, w, NewInstance(id, serviceId, planId, organization, parameters), readOk, f);
            var want := DesiredState(id, serviceId, planId, organization, parameters, 1);
            if !f.startPutOk then w' == w
            else
              && OthersKept(w.store, w'.store, id)
              && id in w'.store && w'.store[id].attempts == 0
              && Ended(p, w.backend, w'.backend, w'.store[id], want, "provision", Provisioning, None, f)
  {
    if f.startPutOk {
      var inst := BeginOperation(NewInstance(id, serviceId, planId, organization, parameters), "provision");
      FinalizedEnds(p, World(w.store[id := inst], w.backend), inst, inst.Desired(), "provision", f);
    }
  }

  /** A reconcile that acts keeps what the record asks for, counts one attempt and
      renders exactly that. */
  lemma ReconcileKeepsTheRequest(p: Platform, w: World, inst: Instance, refresh: bool, f: Faults)
    requires inst.id in w.store && w.store[inst.id] == inst && f.startPutOk && Reconciled(p, w, inst, refresh, f).1
    ensures var w' := Reconciled(p, w, inst, refresh, f).0;
            var want := DesiredState(inst.id, inst.serviceId, inst.planId, inst.organization, inst.parameters,
                                     inst.version);
            && OthersKept(w.store, w'.store, inst.id)
            && inst.id in w'.store && w'.store[inst.id].attempts == inst.attempts + 1
            && Ended(p, w.backend, w'.backend, w'.store[inst.id], want, "reconcile", inst.status, inst.appliedVersion,
                     f)
  {
    var (store, inst1) := Refreshed(p, w, inst, refresh, f);
    assert inst1 == inst.(drift := inst1.drift) && OthersKept(w.store, store, inst.id);
    var inst2 := BeginOperation(inst1.(attempts := inst1.attempts + 1), "reconcile");
    var begun := World(store[inst.id := inst2], w.backend);
    assert Reconciled(p, w, inst, refresh, f).0 == Finalized(p, begun, inst2, f);
    ReconcileEnds(p, begun, inst, inst2, f);
  }

  lemma ReconcileEnds(p: Platform, w: World, inst: Instance, begun: Instance, f: Faults)
    requires begun == BeginOperation(inst.(attempts := inst.attempts + 1), "reconcile")
    requires begun.id in w.store && w.store[begun.id] == begun
    ensures var w' := Finalized(p, w, begun, f);
            && OthersKept(w.store, w'.store, inst.id)
            && inst.id in w'.store && w'.store[inst.id].attempts == inst.attempts + 1
            && Ended(p, w.backend, w'.backend, w'.store[inst.id],
                     DesiredState(inst.id, inst.serviceId, inst.planId, inst.organization, inst.parameters,
                                  inst.version),
                     "reconcile", inst.status, inst.appliedVersion, f)
  {
    FinalizedEnds(p, w, begun, begun.Desired(), "reconcile", f);
  }

  /** A failed apply is answered with the kind of the first step that failed. */
  lemma FailedStepIsNamed(p: Platform, backend: Backend, inst: Instance, f: Faults, i: nat)
    requires f.renderReached && i < |p.ManifestOf(inst)|
    requires !StepSucceeds(p.reg, p.ManifestOf(inst)[i], f.outcomes(i))
    requires forall j :: 0 <= j < i ==> StepSucceeds(p.reg, p.ManifestOf(inst)[j], f.outcomes(j))
    ensures RenderCall(p, backend, inst, f).0 == StatusError(f.error, Object(f.body, Some(p.ManifestOf(inst)[i].kind)))
  {
    var manifest := p.ManifestOf(inst);
    ApplyShape(p.reg, manifest, f.outcomes, backend);
    FirstFailureStops(p.reg, manifest, f.outcomes, backend, 0);
    StopsAtFirst(p.reg, manifest, f.outcomes, backend, 0, i);
  }

  lemma {:induction false} StopsAtFirst(reg: Registry, manifest: Manifest, outcomes: nat -> ExecOutcome,
                                        backend: Backend, from: nat, i: nat)
    requires from <= i < |manifest| && !StepSucceeds(reg, manifest[i], outcomes(i))
    requires forall j :: from <= j < i ==> StepSucceeds(reg, manifest[j], outcomes(j))
    ensures AppliedFrom(reg, manifest, outcomes, backend, from).0
            == ApplyResult(false, manifest[..i], Some(manifest[i]))
    decreases i - from
  {
    if from < i {
      StopsAtFirst(reg, manifest, outcomes, Execute(backend, manifest[from], outcomes(from)), from + 1, i);
    }
  }

  // ---------------------------------------------------------------- the count of a pass

  /** The listed records, by position, that a pass reconciles or tries to, each judged
      in the world the pass meets it in. */
  ghost function ActedOn(p: Platform, w: World, listed: seq<Instance>, refresh: bool, faults: nat -> Faults, i: nat)
    : set<nat>
    requires i <= |listed|
    decreases |listed| - i
  {
    if i == |listed| then {}
    else
      var (w', acted) := Reconciled(p, w, listed[i], refresh, faults(i));
      ActedOn(p, w', listed, refresh, faults, i + 1) + if acted then {i} else {}
  }

  lemma {:induction false} ActedOnLater(p: Platform, w: World, listed: seq<Instance>, refresh: bool,
                                        faults: nat -> Faults, i: nat)
    requires i <= |listed|
    ensures forall k :: k in ActedOn(p, w, listed, refresh, faults, i) ==> i <= k < |listed|
    decreases |listed| - i
  {
    if i < |listed| {
      ActedOnLater(p, Reconciled(p, w, listed[i], refresh, faults(i)).0, listed, refresh, faults, i + 1);
    }
  }

  /** The reported count is the number of listed records the pass acted on. */
  lemma {:induction false} ChangedCountsActions(p: Platform, w: World, listed: seq<Instance>, refresh: bool,
                                                faults: nat -> Faults, i: nat)
    requires i <= |listed|
    ensures Swept(p, w, listed, refresh, faults, i).1 == |ActedOn(p, w, listed, refresh, faults, i)|
    decreases |listed| - i
  {
    if i < |listed| {
      var w' := Reconciled(p, w, listed[i], refresh, faults(i)).0;
      ChangedCountsActions(p, w', listed, refresh, faults, i + 1);
      ActedOnLater(p, w', listed, refresh, faults, i + 1);
    }
  }
}
