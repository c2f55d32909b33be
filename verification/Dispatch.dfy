/** Walking a deployment manifest through the executor registry
    (libs/common/sovereign/executors/dispatch.py, base.py). */
module Dispatch {
  import opened Prelude

  datatype DeploymentStep = DeploymentStep(kind: string, target: string, payload: string) {
    function Key(): (string, string) {
      (kind, target)
    }
  }

  type Manifest = seq<DeploymentStep>

  /** Live state: what each executor kind holds at each target. */
  type Backend = map<(string, string), string>

  /** How one execute call ends. A failed call may leave anything at its target. */
  datatype ExecOutcome = ExecOk | ExecFailed(residue: Option<string>)

  datatype ApplyResult = ApplyResult(ok: bool, applied: seq<DeploymentStep>, failed: Option<DeploymentStep>)

  /** One executor's answer about one step. */
  datatype DiffResult = DiffResult(checked: bool, drifted: bool)

  datatype ManifestDiff = ManifestDiff(drifted: bool, unknown: bool, checkedSteps: nat)

  /** The registered kinds, those of them that compare live state (the others
      keep the default diff, always in sync), and the keys that can be queried. */
  datatype Registry = Registry(kinds: set<string>, comparing: set<string>, reachable: set<(string, string)>)

  // ---------------------------------------------------------------- executors

  /** Executors set their target to the desired payload. */
  function Execute(backend: Backend, step: DeploymentStep, outcome: ExecOutcome): Backend {
    match outcome
    case ExecOk => backend[step.Key() := step.payload]
    case ExecFailed(None) => backend
    case ExecFailed(Some(residue)) => backend[step.Key() := residue]
  }

  /** Executors compare their target with the desired payload. */
  function Compare(reg: Registry, backend: Backend, step: DeploymentStep): DiffResult {
    if step.kind !in reg.comparing then DiffResult(true, false)
    else if step.Key() !in reg.reachable then DiffResult(false, false)
    else DiffResult(true, step.Key() !in backend || backend[step.Key()] != step.payload)
  }

  predicate Matches(backend: Backend, step: DeploymentStep) {
    step.Key() in backend && backend[step.Key()] == step.payload
  }

  predicate Checkable(reg: Registry, step: DeploymentStep) {
    step.kind in reg.kinds && (step.kind in reg.comparing ==> step.Key() in reg.reachable)
  }

  // ---------------------------------------------------------------- apply

  /** The state the manifest asks for: the last step on a key wins. */
  function Desired(manifest: Manifest): Backend {
    if manifest == [] then map[]
    else
      var n := |manifest| - 1;
      Desired(manifest[..n])[manifest[n].Key() := manifest[n].payload]
  }

  predicate StepSucceeds(reg: Registry, step: DeploymentStep, outcome: ExecOutcome) {
    step.kind in reg.kinds && outcome.ExecOk?
  }

  /** Runs the steps in order and stops at the first one that fails. On success
      every step ran and the backend is the old one overlaid with the desired
      state; on failure the applied steps followed by the failed one are a prefix
      of the manifest, and only the keys of that prefix were touched. */
  method ApplyManifest(reg: Registry, manifest: Manifest, outcomes: nat -> ExecOutcome, backend: Backend)
    returns (result: ApplyResult, backend': Backend)
    ensures (result, backend') == Applied(reg, manifest, outcomes, backend)
    ensures result.ok <==> forall i :: 0 <= i < |manifest| ==> StepSucceeds(reg, manifest[i], outcomes(i))
    ensures result.ok ==> result.applied == manifest && result.failed == None && backend' == backend + Desired(manifest)
    ensures !result.ok ==>
              && |result.applied| < |manifest|
              && result.applied == manifest[..|result.applied|]
              && result.failed == Some(manifest[|result.applied|])
              && !StepSucceeds(reg, manifest[|result.applied|], outcomes(|result.applied|))
    ensures OnlyTouches(backend, backend', manifest)
  {
    ApplyShape(reg, manifest, outcomes, backend);
    backend' := backend;
    var applied: seq<DeploymentStep> := [];
    for i := 0 to |manifest|
      invariant applied == manifest[..i]
      invariant Applied(reg, manifest, outcomes, backend) == AppliedFrom(reg, manifest, outcomes, backend', i)
    {
      var step := manifest[i];
      if step.kind !in reg.kinds {
        return ApplyResult(false, applied, Some(step)), backend';
      }
      var outcome := outcomes(i);
      backend' := Execute(backend', step, outcome);
      if !outcome.ExecOk? {
        return ApplyResult(false, applied, Some(step)), backend';
      }
      applied := applied + [step];
    }
    assert manifest[..|manifest|] == manifest;
    result := ApplyResult(true, applied, None);
  }

  function Applied(reg: Registry, manifest: Manifest, outcomes: nat -> ExecOutcome,
                   backend: Backend): (ApplyResult, Backend)
  {
    AppliedFrom(reg, manifest, outcomes, backend, 0)
  }

  function AppliedFrom(reg: Registry, manifest: Manifest, outcomes: nat -> ExecOutcome, backend: Backend,
                       i: nat): (ApplyResult, Backend)
    requires i <= |manifest|
    decreases |manifest| - i
  {
    if i == |manifest| then (ApplyResult(true, manifest, None), backend)
    else
      var step := manifest[i];
      if step.kind !in reg.kinds then (ApplyResult(false, manifest[..i], Some(step)), backend)
      else
        var backend' := Execute(backend, step, outcomes(i));
        if !outcomes(i).ExecOk? then (ApplyResult(false, manifest[..i], Some(step)), backend')
        else AppliedFrom(reg, manifest, outcomes, backend', i + 1)
  }

  /** Keys outside the manifest keep their value, present or absent. */
  ghost predicate OnlyTouches(before: Backend, after: Backend, manifest: Manifest) {
    forall k :: k !in Desired(manifest) ==> (k in before <==> k in after) && (k in before ==> before[k] == after[k])
  }

  lemma {:induction false} DesiredKeys(manifest: Manifest)
    ensures forall i :: 0 <= i < |manifest| ==> manifest[i].Key() in Desired(manifest)
    ensures forall k :: k in Desired(manifest) ==>
              exists i :: 0 <= i < |manifest| && manifest[i].Key() == k && manifest[i].payload == Desired(manifest)[k]
  {
    if manifest != [] {
      var n := |manifest| - 1;
      DesiredKeys(manifest[..n]);
      forall k | k in Desired(manifest)
        ensures exists i :: 0 <= i < |manifest| && manifest[i].Key() == k && manifest[i].payload == Desired(manifest)[k]
      {
        if k == manifest[n].Key() {
          assert manifest[n].payload == Desired(manifest)[k];
        } else {
          var i :| 0 <= i < n && manifest[..n][i].Key() == k && manifest[..n][i].payload == Desired(manifest[..n])[k];
          assert manifest[i].Key() == k;
        }
      }
    }
  }

  // ---------------------------------------------------------------- retries

  /** Attempts one after the other, each free to fail anywhere. */
  function Attempts(reg: Registry, manifest: Manifest, tries: seq<nat -> ExecOutcome>, backend: Backend): Backend
    decreases |tries|
  {
    if tries == [] then backend
    else Attempts(reg, manifest, tries[1..], Applied(reg, manifest, tries[0], backend).1)
  }

  lemma {:induction false} AppliedFromShape(reg: Registry, manifest: Manifest, outcomes: nat -> ExecOutcome,
                                            base: Backend, backend: Backend, i: nat)
    requires i <= |manifest| && OnlyTouches(base, backend, manifest)
    ensures OnlyTouches(base, AppliedFrom(reg, manifest, outcomes, backend, i).1, manifest)
    decreases |manifest| - i
  {
    DesiredKeys(manifest);
    if i < |manifest| && manifest[i].kind in reg.kinds && outcomes(i).ExecOk? {
      AppliedFromShape(reg, manifest, outcomes, base, Execute(backend, manifest[i], outcomes(i)), i + 1);
    }
  }

  lemma {:induction false} AttemptsOnlyTouch(reg: Registry, manifest: Manifest, tries: seq<nat -> ExecOutcome>,
                                             base: Backend, backend: Backend)
    requires OnlyTouches(base, backend, manifest)
    ensures OnlyTouches(base, Attempts(reg, manifest, tries, backend), manifest)
    decreases |tries|
  {
    if tries != [] {
      AppliedFromShape(reg, manifest, tries[0], base, backend, 0);
      AttemptsOnlyTouch(reg, manifest, tries[1..], base, Applied(reg, manifest, tries[0], backend).1);
    }
  }

  lemma {:induction false} AppliedFromSucceeds(reg: Registry, manifest: Manifest, outcomes: nat -> ExecOutcome,
                                               base: Backend, i: nat)
    requires i <= |manifest|
    requires forall j :: i <= j < |manifest| ==> StepSucceeds(reg, manifest[j], outcomes(j))
    ensures AppliedFrom(reg, manifest, outcomes, base + Desired(manifest[..i]), i)
            == (ApplyResult(true, manifest, None), base + Desired(manifest))
    decreases |manifest| - i
  {
    if i == |manifest| {
      assert manifest[..i] == manifest;
    } else {
      assert StepSucceeds(reg, manifest[i], outcomes(i));
      assert manifest[..i + 1][..i] == manifest[..i];
      assert Execute(base + Desired(manifest[..i]), manifest[i], ExecOk) == base + Desired(manifest[..i + 1]);
      AppliedFromSucceeds(reg, manifest, outcomes, base, i + 1);
    }
  }

  lemma CompleteRun(reg: Registry, manifest: Manifest, outcomes: nat -> ExecOutcome, base: Backend)
    requires forall j :: 0 <= j < |manifest| ==> StepSucceeds(reg, manifest[j], outcomes(j))
    ensures Applied(reg, manifest, outcomes, base) == (ApplyResult(true, manifest, None), base + Desired(manifest))
  {
    AppliedFromSucceeds(reg, manifest, outcomes, base, 0);
    assert base + Desired(manifest[..0]) == base;
  }

  lemma {:induction false} FirstFailureStops(reg: Registry, manifest: Manifest, outcomes: nat -> ExecOutcome,
                                             backend: Backend, i: nat)
    requires i <= |manifest|
    requires exists j :: i <= j < |manifest| && !StepSucceeds(reg, manifest[j], outcomes(j))
    ensures var r := AppliedFrom(reg, manifest, outcomes, backend, i).0;
            && !r.ok
            && |r.applied| < |manifest|
            && r.applied == manifest[..|r.applied|]
            && r.failed == Some(manifest[|r.applied|])
            && !StepSucceeds(reg, manifest[|r.applied|], outcomes(|r.applied|))
    decreases |manifest| - i
  {
    if StepSucceeds(reg, manifest[i], outcomes(i)) {
      FirstFailureStops(reg, manifest, outcomes, Execute(backend, manifest[i], outcomes(i)), i + 1);
    }
  }

  lemma {:induction false} DesiredLast(manifest: Manifest, i: nat)
    requires i < |manifest|
    requires forall j :: i < j < |manifest| ==>
               manifest[j].kind != manifest[i].kind || manifest[j].target != manifest[i].target
    ensures var k := (manifest[i].kind, manifest[i].target);
            k in Desired(manifest) && Desired(manifest)[k] == manifest[i].payload
    decreases |manifest|
  {
    var n := |manifest| - 1;
    if i < n {
      DesiredLast(manifest[..n], i);
    }
  }

  lemma {:induction false} DesiredOnly(manifest: Manifest, kind: string, target: string)
    requires forall j :: 0 <= j < |manifest| ==> manifest[j].kind != kind || manifest[j].target != target
    ensures (kind, target) !in Desired(manifest)
    decreases |manifest|
  {
    if manifest != [] {
      DesiredOnly(manifest[..|manifest| - 1], kind, target);
    }
  }

  /** What a complete run leaves at each target of each kind: the payload of the last
      step that names both, and where no step does, what was there before. */
  lemma AppliedByTarget(reg: Registry, manifest: Manifest, outcomes: nat -> ExecOutcome, base: Backend, i: nat,
                        kind: string, target: string)
    requires forall j :: 0 <= j < |manifest| ==> StepSucceeds(reg, manifest[j], outcomes(j))
    ensures var backend := Applied(reg, manifest, outcomes, base).1;
            && (i < |manifest| && manifest[i].kind == kind && manifest[i].target == target
                && (forall j :: i < j < |manifest| ==> manifest[j].kind != kind || manifest[j].target != target) ==>
                  (kind, target) in backend && backend[(kind, target)] == manifest[i].payload)
            && ((forall j :: 0 <= j < |manifest| ==> manifest[j].kind != kind || manifest[j].target != target) ==>
                  && ((kind, target) in backend <==> (kind, target) in base)
                  && ((kind, target) in base ==> backend[(kind, target)] == base[(kind, target)]))
  {
    CompleteRun(reg, manifest, outcomes, base);
    if i < |manifest| && manifest[i].kind == kind && manifest[i].target == target
       && forall j :: i < j < |manifest| ==> manifest[j].kind != kind || manifest[j].target != target {
      DesiredLast(manifest, i);
    }
    if forall j :: 0 <= j < |manifest| ==> manifest[j].kind != kind || manifest[j].target != target {
      DesiredOnly(manifest, kind, target);
    }
  }

  /** Both ways an apply can end. */
  lemma ApplyShape(reg: Registry, manifest: Manifest, outcomes: nat -> ExecOutcome, backend: Backend)
    ensures var (r, backend') := Applied(reg, manifest, outcomes, backend);
            && (r.ok <==> forall i :: 0 <= i < |manifest| ==> StepSucceeds(reg, manifest[i], outcomes(i)))
            && (r.ok ==> r.applied == manifest && r.failed == None && backend' == backend + Desired(manifest))
            && (!r.ok ==>
                  && |r.applied| < |manifest|
                  && r.applied == manifest[..|r.applied|]
                  && r.failed == Some(manifest[|r.applied|])
                  && !StepSucceeds(reg, manifest[|r.applied|], outcomes(|r.applied|)))
            && OnlyTouches(backend, backend', manifest)
  {
    AppliedFromShape(reg, manifest, outcomes, backend, backend, 0);
    if forall i :: 0 <= i < |manifest| ==> StepSucceeds(reg, manifest[i], outcomes(i)) {
      CompleteRun(reg, manifest, outcomes, backend);
    } else {
      FirstFailureStops(reg, manifest, outcomes, backend, 0);
    }
  }

  /** Any number of runs aborted anywhere, whatever the failing steps leave at
      their targets, followed by one complete run leave the backend that a single
      clean run leaves, also when steps repeat a target. */
  lemma AbortedRunsAreAbsorbed(reg: Registry, manifest: Manifest, tries: seq<nat -> ExecOutcome>,
                               last: nat -> ExecOutcome, backend: Backend)
    requires forall j :: 0 <= j < |manifest| ==> StepSucceeds(reg, manifest[j], last(j))
    ensures Applied(reg, manifest, last, Attempts(reg, manifest, tries, backend)) ==
            Applied(reg, manifest, last, backend)
  {
    AttemptsOnlyTouch(reg, manifest, tries, backend, backend);
    var dirty := Attempts(reg, manifest, tries, backend);
    CompleteRun(reg, manifest, last, dirty);
    CompleteRun(reg, manifest, last, backend);
    assert dirty + Desired(manifest) == backend + Desired(manifest);
  }

  // ---------------------------------------------------------------- diff

  predicate StepDrifted(reg: Registry, backend: Backend, step: DeploymentStep) {
    Checkable(reg, step) && step.kind in reg.comparing && !Matches(backend, step)
  }

  /** Checks every step, never stopping early: drift is reported exactly when some
      step could be checked and differs, unknown exactly when some step could not
      be checked. */
  method DiffManifest(reg: Registry, manifest: Manifest, backend: Backend) returns (diff: ManifestDiff)
    ensures diff.drifted <==> exists i :: 0 <= i < |manifest| && StepDrifted(reg, backend, manifest[i])
    ensures diff.unknown <==> exists i :: 0 <= i < |manifest| && !Checkable(reg, manifest[i])
    ensures diff.checkedSteps == |manifest|
  {
    var drifted, unknown := false, false;
    var details := 0;
    for i := 0 to |manifest|
      invariant details == i
      invariant drifted <==> exists j :: 0 <= j < i && StepDrifted(reg, backend, manifest[j])
      invariant unknown <==> exists j :: 0 <= j < i && !Checkable(reg, manifest[j])
    {
      var step := manifest[i];
      details := details + 1;
      if step.kind !in reg.kinds {
        unknown := true;
        continue;
      }
      var d := Compare(reg, backend, step);
      if !d.checked {
        unknown := true;
      } else if d.drifted {
        drifted := true;
      }
    }
    diff := ManifestDiff(drifted, unknown, details);
  }
}
