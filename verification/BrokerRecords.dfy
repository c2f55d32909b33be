/** The service-instance record and the transitions the broker's handlers make on
    a private copy of it (apps/broker/app/main.py, libs/common/sovereign/models.py). */
module BrokerRecords {
  import opened Prelude

  datatype Status = Provisioning | Succeeded | Failed | Deprovisioning
  datatype Drift = Unknown | InSync | Drifted | Reconciling
  datatype OperationState = InProgress | OpSucceeded | OpFailed

  datatype OperationId = OperationId(instanceId: string, version: int, operation: string)

  /** The part of a record that a renderer turns into a manifest. */
  datatype DesiredState = DesiredState(id: string, serviceId: string, planId: string, organization: Option<string>,
                                       parameters: string, version: int)

  datatype Instance = Instance(
    id: string,
    serviceId: string,
    planId: string,
    organization: Option<string>,
    parameters: string,
    status: Status,
    version: int,
    appliedVersion: Option<int>,
    operationId: Option<OperationId>,
    operation: Option<OperationState>,
    reason: string,
    failedStep: Option<string>,
    drift: Drift,
    attempts: nat)
  {
    function Desired(): DesiredState {
      DesiredState(id, serviceId, planId, organization, parameters, version)
    }
  }

  function NewInstance(id: string, serviceId: string, planId: string, organization: Option<string>,
                       parameters: string): Instance {
    Instance(id, serviceId, planId, organization, parameters, Provisioning, 1, None, None, None, "", None, Unknown, 0)
  }

  // ---------------------------------------------------------------- failure detail

  /** The detail of an HTTP error: an object, which may name the failed step, a
      text, or anything else. */
  datatype Detail =
    | Object(json: string, step: Option<string>)
    | Text(text: string)
    | Neither(shown: string)

  /** The exceptions that the failure handler tells apart. */
  datatype Failure =
    | HttpException(detail: Detail)
    | StatusFailure(shown: string, detail: Detail)
    | Other(shown: string)

  const MARKER := "apply failed at step "

  /** Where pat first occurs in s. */
  function Find(s: string, pat: string): Option<nat>
    decreases |s|
  {
    if pat <= s then Some(0)
    else if s == [] then None
    else
      match Find(s[1..], pat)
      case None => None
      case Some(i) => Some(i + 1)
  }

  function UpToColon(s: string): string {
    if s == [] || s[0] == ':' then [] else [s[0]] + UpToColon(s[1..])
  }

  /** The step named in a text detail. */
  function StepInText(text: string): Option<string> {
    match Find(text, MARKER)
    case None => None
    case Some(i) => if i + |MARKER| <= |text| then Some(UpToColon(text[i + |MARKER|..])) else None
  }

  /** The reason and the failed step that are recorded. */
  function FailureDetail(f: Failure): (string, Option<string>) {
    match f
    case HttpException(Object(json, step)) => (json, step)
    case HttpException(Text(text)) => (text, None)
    case HttpException(Neither(shown)) => (shown, None)
    case StatusFailure(_, Object(json, step)) => (json, step)
    case StatusFailure(_, Text(text)) => (text, StepInText(text))
    case StatusFailure(shown, Neither(_)) => (shown, None)
    case Other(shown) => (shown, None)
  }

  /** How the control plane's render call ends for the HTTP client. */
  datatype RenderOutcome =
    | Artifact
    | Unreachable(shown: string)
    | StatusError(shown: string, detail: Detail)
    | BadJson(shown: string)

  const UNAVAILABLE := "control plane unavailable: "

  /** What the broker's render raises: transport and status errors alike become a new
      exception with a text; a body that is not JSON passes through. */
  function Raised(o: RenderOutcome): Option<Failure> {
    match o
    case Artifact => None
    case Unreachable(shown) => Some(HttpException(Text(UNAVAILABLE + shown)))
    case StatusError(shown, _) => Some(HttpException(Text(UNAVAILABLE + shown)))
    case BadJson(shown) => Some(Other(shown))
  }

  lemma {:induction false} FindFirst(before: string, pat: string, rest: string)
    requires forall i :: 0 <= i < |before| ==> !(pat <= (before + pat + rest)[i..])
    ensures Find(before + pat + rest, pat) == Some(|before|)
    decreases |before|
  {
    var s := before + pat + rest;
    if before == [] {
      assert s == pat + rest && pat <= s;
    } else {
      assert s[0..] == s && !(pat <= s);
      assert s[1..] == before[1..] + pat + rest;
      forall i | 0 <= i < |before[1..]| ensures !(pat <= (before[1..] + pat + rest)[i..]) {
        assert (before[1..] + pat + rest)[i..] == s[i + 1..];
      }
      FindFirst(before[1..], pat, rest);
    }
  }

  lemma {:induction false} UpToColonStops(kind: string, rest: string)
    requires ':' !in kind
    ensures UpToColon(kind + ":" + rest) == kind
    decreases |kind|
  {
    var s := kind + ":" + rest;
    if kind == [] {
      assert s[0] == ':';
    } else {
      assert s[1..] == kind[1..] + ":" + rest;
      UpToColonStops(kind[1..], rest);
    }
  }

  /** The handler finds the step in a text that names it. */
  lemma StepIsFoundInText(before: string, kind: string, rest: string)
    requires ':' !in kind
    requires forall i :: 0 <= i < |before| ==> !(MARKER <= (before + MARKER + (kind + ":" + rest))[i..])
    ensures StepInText(before + MARKER + (kind + ":" + rest)) == Some(kind)
  {
    FindFirst(before, MARKER, kind + ":" + rest);
    UpToColonStops(kind, rest);
    assert (before + MARKER + (kind + ":" + rest))[|before| + |MARKER|..] == kind + ":" + rest;
  }

  /** Whatever the control plane answers, the step it names is gone once render has
      raised, although the handler would have found it in the answer itself. */
  lemma RenderHidesTheStep(o: RenderOutcome)
    ensures o != Artifact <==> Raised(o).Some?
    ensures Raised(o).Some? ==>
              FailureDetail(Raised(o).value)
              == (if o.BadJson? then o.shown else "control plane unavailable: " + o.shown, None)
    ensures o.StatusError? && o.detail.Object? ==>
              FailureDetail(StatusFailure(o.shown, o.detail)) == (o.detail.json, o.detail.step)
  {
  }

  // ---------------------------------------------------------------- transitions

  function BeginOperation(inst: Instance, operation: string): Instance {
    inst.(operationId := Some(OperationId(inst.id, inst.version, operation)),
          operation := Some(InProgress), reason := "", failedStep := None, drift := Reconciling)
  }

  /** The artifact carries the version it was rendered for. */
  function MarkSucceeded(inst: Instance): Instance {
    inst.(status := Succeeded,
          appliedVersion := Some(inst.version),
          operation := Some(OpSucceeded), reason := "", failedStep := None, drift := InSync)
  }

  function MarkFailed(inst: Instance, f: Failure): Instance {
    var (reason, step) := FailureDetail(f);
    inst.(status := Failed, operation := Some(OpFailed), reason := reason, failedStep := step, drift := Drifted)
  }

  function ApplyUpdate(inst: Instance, planId: Option<string>, parameters: Option<string>): Instance {
    inst.(planId := if Truthy(planId) then planId.value else inst.planId,
          parameters := if parameters.Some? then parameters.value else inst.parameters,
          version := inst.version + 1)
  }

  /** The diff call's answer; None when the control plane could not be reached. */
  datatype DiffAnswer = DiffAnswer(drifted: bool, unknown: bool)

  predicate Confirmed(answer: Option<DiffAnswer>) {
    answer.Some? && !answer.value.unknown
  }

  function RefreshDrift(inst: Instance, answer: Option<DiffAnswer>): Instance {
    if !Confirmed(answer) then inst
    else inst.(drift := if answer.value.drifted then Drifted else InSync)
  }

  predicate NeedsReconcile(inst: Instance) {
    || inst.status in {Provisioning, Failed}
    || inst.drift in {Drifted, Reconciling}
    || inst.appliedVersion != Some(inst.version)
  }

  // ---------------------------------------------------------------- what a stored record promises

  ghost predicate RecordOk(r: Instance) {
    && (r.appliedVersion.Some? ==> r.appliedVersion.value <= r.version)
    && r.operation.Some? && r.drift != Unknown && r.status != Deprovisioning
    && r.operationId.Some? && r.operationId.value.instanceId == r.id && r.operationId.value.version == r.version
    && r.failedStep == None
    && (r.operation == Some(OpSucceeded) ==>
        r.status == Succeeded && r.appliedVersion == Some(r.version) && r.reason == "")
    && (r.operation == Some(OpFailed) ==> r.status == Failed && r.drift == Drifted)
    && (r.operation == Some(InProgress) ==> r.reason == "")
  }

  /** The drift mark follows the operation as long as no drift refresh runs. */
  ghost predicate Tight(r: Instance) {
    && (r.operation == Some(OpSucceeded) ==> r.drift == InSync)
    && (r.operation == Some(InProgress) ==> r.drift == Reconciling)
  }

  /** Without drift refreshes the reconciler selects exactly the records whose
      operation has not succeeded. */
  lemma SelectedIffUnfinished(r: Instance)
    requires RecordOk(r) && Tight(r)
    ensures NeedsReconcile(r) <==> r.operation != Some(OpSucceeded)
  {
    match r.operation.value
    case InProgress =>
    case OpSucceeded =>
    case OpFailed =>
  }
}
