# Sovereign Platform: verified model of its state machines and algorithms

A Dafny 4.11 model of the parts of Sovereign Platform that carry real state or
real arithmetic, with proofs about every input, every run or every reachable
state. `dafny verify dfyconfig.toml` checks the whole project.

| component | modules | form |
|---|---|---|
| audit pipeline: hash chain, capped buffer, disk spool, flush with requeue | `Deque`, `AuditEvents`, `AuditPipeline`, `AuditRuns`, `AuditService`, `AuditRecovery`, `AuditRace` | the service is a class; the concurrent behaviour is a step machine over any number of threads, with every store, spool and file operation able to fail |
| broker instance lifecycle and drift reconciler | `BrokerRecords`, `BrokerRuns`, `BrokerVersions`, `Reconciler`, `BrokerHandlers`, `BrokerRequests`, `SoloRuns` | a step machine over handlers that may crash between calls, and a class whose methods are proved to be runs of it |
| manifest dispatcher | `Dispatch` | loops over a manifest against a backend map |
| tenant tree and role inheritance | `TenantTree`, `Authz` | while loops over parent pointers that may dangle or form cycles |
| rate limiter | `TokenBuckets`, `RateLimiter` | classes; buckets are objects updated in place inside an ordered map |
| rotating secrets cache | `Secrets` | a class, and a step machine of check, fetch and store |
| XFCC header parser | `Xfcc` | character loops, and the printer they invert |
| usage index, quota gate, chargeback | `Lex`, `UsageIndex`, `QuotaGate`, `QuotaUsage`, `QuotaRace`, `Sorting`, `Partitions`, `Chargeback` | a table class, counting and grouping loops |

In the step machines a run is a sequence of moves, each naming a thread and how
its next call ends; a theorem about runs quantifies over all of them, so it
covers every interleaving and every pattern of failures. The class methods are
tied to functions of the old state, and `RequestIsARun`, `ProvisionIsARun`,
`UpdateIsARun`, `PassIsARun` and `GetIsARun` show that those functions are runs of the
machine, so the theorems about runs hold of the methods too.

## Where the code does not do what it says

Each of these is kept as the code has it. The lemmas named show it, with the exact
condition where the property has one.

- The requeue log line says the oldest event is dropped. The loop works from the
  last row to the first, and on a full buffer it removes the front, which is the
  row it put back just before: the oldest row is kept and the rows right behind it
  go (`Deque.RequeueClosedForm`). That takes two threads, and then it happens
  (`AuditRace.FullBufferLosesAtRequeue`, `AuditRace.PoppedRowsAreReachable`).
- With signing required and no key, an event moves the chain head before it is
  refused, so the accepted log has gaps (`AuditRuns.ChainHoldsExactlyWithKey`). A
  managed environment refuses to start without key material
  (libs/common/sovereign/settings.py:339-345), so this state needs an unmanaged
  environment or a key that is blank.
- A drained spool file that cannot be removed is read again: its events are stored
  twice (`AuditRecovery.UnremovedSpoolIsStoredTwice`, reachable by
  `StoringTwiceIsReachable`; exactly then, by `AuditRuns.OnePlaceExactly`).
- Draining a spool that does not fit beside what is still buffered loses the
  difference, even a single spooled event after a failed flush of a full buffer
  (`AuditRuns.SerialRunsLoseNothingExactly`, `AuditRecovery.RequestLossIsExact`).
- A drift refresh after a lost final put can leave an operation in progress on a
  record that is not selected until an update or newly found drift brings it back
  (`BrokerRuns.LostFinalPutStrands`; exactly when, by `DiffStrandsExactly` and
  `SelectionHoldsExactly`).
- One step without an executor silences drift detection for its whole manifest
  (`Reconciler.OneUncheckableStepSilencesDrift`).
- `failed_step_kind` is never filled in: the broker's `render` turns every status
  error into plain text before the step name is looked for
  (`BrokerRecords.RenderHidesTheStep`, and for every stored record the last clause
  of `BrokerRuns.EveryStoredRecordIsConsistent`).
- `get_instance` swallows a failed read, so a provision may take an existing record
  for absent and start it over at version 1
  (`BrokerVersions.BlindProvisionStartsOver`, `BrokerVersions.BlindProvisionIsReachable`;
  exactly then, by `ProvisionKeepsRecordExactly`, `OnlyBlindProvisionFallsBehind` and
  `VersionsNeverGoBackExactly`).
- `visible_tenants`, asked about an id that has no row, lists its orphans although
  the caller cannot read them (`Authz.VisibleIsReadableExactly`).
- A catalog lookup that fails at the gate and works at the meter lets a pack grow
  past its cap, and beyond 1000 records the gate undercounts so that a service can
  (`QuotaGate.UnaskedPackBreaksTheCap`, `QuotaGate.HiddenRecordsBreakTheCap`; exactly
  when, by `PackCapHoldsExactly` and `ServiceCapHoldsExactly`).
- `force_expire` is described as an instant cut-over. A get that has fetched and
  not yet stored brings the old value back (`Secrets.ForcedExpiryCutsOverExactly`).

## Model

| member | source | states |
|---|---|---|
| `Deque.AppendAllClosedForm` | apps/audit-service/app/main.py:65-66 | appending any items one by one to the capped deque leaves the last 1000 of buffer plus items, and drops exactly the rest, in order |
| `Deque.RequeueClosedForm` | apps/audit-service/app/main.py:274-280 | requeueing from last to first gives items followed by buffer if that fits; otherwise the first item stays and the items right behind it are the ones dropped |
| `Deque.RequeueCounts` | apps/audit-service/app/main.py:274-280 | a requeue keeps the cap and conserves the number of occurrences of every event between kept and dropped |
| `Deque.RequeueLoop` | apps/audit-service/app/main.py:274-280 | the reversed loop computes the requeue that the two lemmas above describe |
| `AuditEvents.PreparingIsStable` | apps/audit-service/app/main.py:110-117 | a prepared event, prepared again under any later chain head, comes back unchanged and leaves the head alone: nothing is ever re-chained or re-signed |
| `AuditEvents.PreparingKeepsTheFacts` | libs/common/sovereign/audit_signing.py:39-54 | every recorded fact survives preparing; an event without a hash is linked to the head and becomes it; a signature is added exactly when there is none and a key is configured, under that key's id and over the chained event; only a missing key refuses, and only an unsigned event |
| `AuditEvents.RowRoundTrip` | apps/audit-service/app/main.py:228-297 | event to row and back is the identity if and only if the event carries a hash |
| `AuditEvents.RowHoldsTheEvent` | apps/audit-service/app/main.py:228-256 | each column holds the field it is named after |
| `AuditEvents.RowsRoundTrip` | apps/audit-service/app/main.py:259-297 | a failed flush turns its rows back into exactly the events that were popped |
| `AuditEvents.LinearExtend` | apps/audit-service/app/main.py:99-107 | chaining onto the head of a linear chain gives a linear chain |
| `AuditEvents.LinearLinks` | apps/audit-service/app/main.py:90-107 | in a linear chain link i names its predecessor's hash (the first names none) and its own hash covers time, tenant, actor, action, resource, decision, metadata and that link; every prefix is linear |
| `AuditEvents.EqualHashesEqualFacts` | apps/audit-service/app/main.py:90-107 | with an injective hash, two chained events with one hash agree on the head and on every fact |
| `AuditEvents.LastHashFixesHistory` | apps/audit-service/app/main.py:90-107 | tamper evidence: two chains with the same last hash have the same length and agree throughout on time, tenant, actor, action, resource, decision, metadata and links, if the hash is injective |
| `AuditEvents.HashesDistinct` | apps/audit-service/app/main.py:90-107 | no two events of one chain share a hash |
| `AuditPipeline.PrepareRowsStable` | apps/audit-service/app/main.py:259-268 | preparing the buffered events at a flush moves no chain head and changes no event |
| `AuditPipeline.PopIsLossless` | apps/audit-service/app/main.py:259-268 | popping the whole buffer yields rows that decode to exactly the buffer |
| `AuditPipeline.SpillDecodes` | libs/common/sovereign/audit_spool.py:46-91 | a spilled event is what a drain reads back, after those already spooled |
| `AuditPipeline.BadLineIsSkipped` | libs/common/sovereign/audit_spool.py:79-91 | a line that does not parse, wherever it stands, costs no other event |
| `AuditPipeline.ThreadStepOk` | apps/audit-service/app/main.py:140-350 | every step of every thread keeps the cap, the chain and the preparedness of everything buffered, spooled or in flight |
| `AuditPipeline.ThreadStepBalances` | apps/audit-service/app/main.py:140-350 | no step creates, copies or forgets any event without the history of accepted, lost and duplicated events saying so |
| `AuditRuns.RunKeepsInv` | apps/audit-service/app/main.py:140-350 | the invariant holds after every run of any number of threads |
| `AuditRuns.RunConserves` | apps/audit-service/app/main.py:140-350 | conservation is kept by every run from every invariant state |
| `AuditRuns.EveryAcceptedEventIsAccountedFor` | apps/audit-service/app/main.py:140-350 | under every interleaving and every fault the buffer holds at most 1000, and stored + buffered + spooled + in flight + lost = accepted + duplicated, for each event |
| `AuditRuns.AcceptedLogIsLinear` | apps/audit-service/app/main.py:99-117 | over every run the chained log is one linear hash chain ending at the head; so is the accepted log when events arrive without a hash and the signing key is not missing |
| `AuditRuns.MissingKeyBreaksTheChain` | libs/common/sovereign/audit_signing.py:39-54 | with signing required and no key there is a run whose accepted log is not linear |
| `AuditRuns.ChainHoldsExactlyWithKey` | libs/common/sovereign/audit_signing.py:39-54 | all runs keep the accepted log linear if and only if the key is not missing |
| `AuditRuns.DuplicatesExactly` | libs/common/sovereign/audit_spool.py:63-91 | from any state, a run duplicates nothing if and only if no step of it reads events from a spool file that it then cannot remove |
| `AuditRuns.OnePlaceExactly` | apps/audit-service/app/main.py:140-350 | each accepted event is in exactly one of stored, buffer, spool, in flight, lost, as the record that was accepted, if and only if no step reads events from a spool file that it then cannot remove |
| `AuditRuns.LossIsExact` | apps/audit-service/app/main.py:140-281 | events are lost only at a full-buffer append (one each) and at a requeue that does not fit (exactly the excess) |
| `AuditRuns.SerialRunsNeverLoseAtRequeue` | apps/audit-service/app/main.py:259-281 | with one request at a time no requeue ever loses an event |
| `AuditRuns.SerialRunsThatFitLoseNothing` | apps/audit-service/app/main.py:140-350 | one request at a time, finished or not: nothing is lost while every drain of the spool fits beside what is buffered and every event that finds the buffer full can be spooled |
| `AuditRuns.SerialRunsLoseNothingExactly` | apps/audit-service/app/main.py:140-350 | from any state between requests to any other, serially: nothing is lost if and only if every drain fits and every needed spool append succeeds |
| `AuditService.Service.constructor` | apps/audit-service/app/main.py:65-77 | a fresh process: empty buffer, no chain head |
| `AuditService.Service.PrepareEvent` | apps/audit-service/app/main.py:110-117 | the new state and answer are the machine's accept step, and an accepted event is prepared |
| `AuditService.Service.Append` | apps/audit-service/app/main.py:65-66 | one append on the capped deque; nothing else changes |
| `AuditService.Service.BufferOrSpool` | apps/audit-service/app/main.py:140-154 | buffer if there is room, else spool, else force into the buffer; nothing else changes |
| `AuditService.Service.PopAll` | apps/audit-service/app/main.py:259-268 | empties the buffer, moves no head, and the rows decode to what was buffered |
| `AuditService.Service.RequeueAll` | apps/audit-service/app/main.py:274-280 | the rows go back as their events; kept and lost are the requeue's two parts |
| `AuditService.Service.FlushBuffer` | apps/audit-service/app/main.py:259-281 | everything stored and counted on success, everything requeued and zero reported on failure |
| `AuditService.Service.DrainSpool` | libs/common/sovereign/audit_spool.py:63-91 | returns the decodable lines, empties the file unless reading or removing it failed, and every returned event is prepared |
| `AuditService.Service.Refill` | apps/audit-service/app/main.py:339-342 | drained events enter the capped buffer in order |
| `AuditService.Service.IngestEvent` | apps/audit-service/app/main.py:316-350 | the whole request, with each of its calls able to fail, as one function of the old state |
| `AuditService.RequestIsARun` | apps/audit-service/app/main.py:316-350 | that function is a run of the step machine, so every theorem about runs applies to the request |
| `AuditRecovery.FlushIsAllOrNothing` | apps/audit-service/app/main.py:259-281 | a flush on its own moves the whole buffer into the store or leaves everything as it was |
| `AuditRecovery.RequestLossIsExact` | apps/audit-service/app/main.py:316-350 | whatever fails, an accepted request loses exactly the excess over 1000 of what it leaves buffered plus what it drains, or one event if it can neither buffer nor spool its own |
| `AuditRecovery.ResponseIsTruthful` | apps/audit-service/app/main.py:316-350 | refused exactly for an unsigned event under a missing key, and then nothing is stored or buffered; persisted exactly when the store was up and took the row, and then it is stored; otherwise the event is in the buffer or the spool |
| `AuditRecovery.RecoveryStoresAllButOldSpool` | apps/audit-service/app/main.py:316-350 | the first request after an outage stores old rows, buffer, itself and the newest 1000 spooled events in that order, and loses exactly the older spooled ones, whether or not the file can be removed |
| `AuditRecovery.UnremovedSpoolIsStoredTwice` | libs/common/sovereign/audit_spool.py:63-91 | from any state between requests, two requests of which the first cannot remove the spool file store each of its events twice |
| `AuditRecovery.StoringTwiceIsReachable` | libs/common/sovereign/audit_spool.py:63-91 | a run from process start stores one event twice |
| `AuditRace.FullBufferLosesAtRequeue` | apps/audit-service/app/main.py:259-281 | from any state in which a thread holds popped rows and another is idle: if the other fills the buffer and the insert then fails, the requeue loses as many events as it puts back |
| `AuditRace.PoppedRowsAreReachable` | apps/audit-service/app/main.py:259-268 | such a state is reached from process start |
| `Dispatch.ApplyManifest` | libs/common/sovereign/executors/dispatch.py:37-63 | succeeds if and only if every step has an executor that succeeds; then all are applied and the backend is overlaid with the desired state; otherwise applied steps followed by the failed one are a prefix, and no key outside the manifest is touched |
| `Dispatch.ApplyShape` | libs/common/sovereign/executors/dispatch.py:37-63 | the same of the function other proofs use |
| `Dispatch.CompleteRun` | libs/common/sovereign/executors/dispatch.py:37-63 | a run without failures leaves the backend overlaid with the last payload per key, even when steps repeat a target |
| `Dispatch.AppliedByTarget` | libs/common/sovereign/executors/dispatch.py:37-63 | a complete run leaves at each target of each kind the payload of the last step that names both, and elsewhere what was there |
| `Dispatch.FirstFailureStops` | libs/common/sovereign/executors/dispatch.py:37-63 | if any remaining step fails, the run stops at a failing step with everything before it applied |
| `Dispatch.AbortedRunsAreAbsorbed` | libs/common/sovereign/executors/base.py:42-56 | any number of aborted runs, failing steps leaving their target in any state, followed by a complete run give the backend and result of one clean run |
| `Dispatch.DiffManifest` | libs/common/sovereign/executors/dispatch.py:66-90 | drifted if and only if some step was compared and differs, unknown if and only if some step could not be checked, and all steps are visited |
| `BrokerRecords.RenderHidesTheStep` | apps/broker/app/main.py:689-740 | whatever way the render call ends, the failure that render raises yields the error as text and no failed step, although the status error itself would have yielded the one its detail object names |
| `BrokerRecords.StepIsFoundInText` | apps/broker/app/main.py:708-711 | in a text detail the name between the marker and the next colon is found, wherever the marker first occurs |
| `BrokerRecords.SelectedIffUnfinished` | apps/broker/app/main.py:927-932 | on records whose drift mark follows the operation, selection means exactly that the operation has not succeeded |
| `BrokerRuns.ThreadStepOk` | apps/broker/app/main.py:656-860 | every step of every handler keeps every stored record and every private copy consistent |
| `BrokerRuns.EveryStoredRecordIsConsistent` | apps/broker/app/main.py:656-721 | in every run: applied version at most version; succeeded means status succeeded, version applied, no reason, no failed step; failed means status failed and drifted; a failed step is never recorded |
| `BrokerRuns.DeprovisionDeletes` | apps/broker/app/main.py:1172-1188 | deprovisioning deletes its record and no other |
| `BrokerRuns.CopiesAreComplete` | apps/broker/app/main.py:1002-1015 | a pass works on every listed record, in listing order |
| `BrokerRuns.UnfinishedIsAlwaysSelected` | apps/broker/app/main.py:927-999 | in every run without drift refresh a stored record is selected if and only if its operation has not succeeded |
| `BrokerRuns.DiffStrandsExactly` | apps/broker/app/main.py:765-781 | a thread comes to hold an unfinished, unselected copy to write if and only if its diff confirmed in sync a copy in progress whose version is applied |
| `BrokerRuns.SelectionHoldsExactly` | apps/broker/app/main.py:765-781 | over every run, refreshes included, every unfinished record is selected at every moment if and only if no refresh puts such a copy |
| `BrokerRuns.NoStrandingDiffKeepsSelection` | apps/broker/app/main.py:927-999 | runs without such a diff keep every unfinished record selected throughout |
| `BrokerRuns.StrandingDiffStrands` | apps/broker/app/main.py:765-781 | from any reachable state such a diff followed by its put leaves the record in progress and unselected |
| `BrokerRuns.LostFinalPutStrands` | apps/broker/app/main.py:947-999 | such a record is reachable |
| `BrokerVersions.ProvisionKeepsRecordExactly` | libs/common/sovereign/store.py:61-71 | a provision of an id whose record has been updated leaves the store alone if and only if it could read the record or could not write; otherwise the record is at version 1 |
| `BrokerVersions.OnlyBlindProvisionFallsBehind` | apps/broker/app/main.py:1051-1110 | of all steps of all handlers exactly a provision that failed to read an updated record leaves its thread with a copy behind the store, and no step of a thread with current copies takes a record back |
| `BrokerVersions.VersionsNeverGoBackExactly` | apps/broker/app/main.py:1051-1155 | one request at a time, over every run: no stored record goes back to an older version, deletion aside, if and only if no provision puts a new record over an updated one |
| `BrokerVersions.VersionsNeverGoBack` | apps/broker/app/main.py:1051-1155 | in particular in runs in which no provision fails to read an updated record |
| `BrokerVersions.BlindProvisionStartsOver` | apps/broker/app/main.py:1063-1092 | from any state such a provision followed by its put sends the record back to version 1 |
| `BrokerVersions.BlindProvisionIsReachable` | libs/common/sovereign/store.py:61-71 | one provision and one update lead to such a state |
| `BrokerVersions.ConcurrentUpdatesGoBack` | libs/common/sovereign/store.py:73-78 | with two requests at once an update that read early overwrites two later versions, because puts are unconditional |
| `Reconciler.Broker.constructor` | apps/broker/app/main.py:1002-1010 | a broker over a given store and backend |
| `Reconciler.Broker.PutInstance` | libs/common/sovereign/store.py:73-78 | an unconditional whole-record put, or no change when it fails |
| `Reconciler.Broker.RefreshDrift` | apps/broker/app/main.py:743-781 | record and copy change only on a confirmed diff; the put may be lost while the copy keeps its new mark |
| `Reconciler.Broker.Render` | apps/broker/app/main.py:724-740 | the backend and outcome of dispatching the record's manifest, or nothing when the control plane is unreachable |
| `Reconciler.Broker.FinalizeProvision` | apps/broker/app/main.py:784-860 | render, mark, put: the new store and backend in every failure case |
| `Reconciler.Broker.Provision` | apps/broker/app/main.py:1051-1110 | an existing readable record is left alone; otherwise the record is begun, put, rendered and finished, and a failed first put stops it |
| `Reconciler.Broker.Update` | apps/broker/app/main.py:1114-1155 | an absent record changes nothing; otherwise the next version is begun, put, rendered and finished |
| `Reconciler.Broker.ReconcileInstance` | apps/broker/app/main.py:947-999 | refresh, select, begin, put and finish one listed record, and whether it counted as changed |
| `Reconciler.Broker.ReconcilePass` | apps/broker/app/main.py:1002-1019 | the sweep over the listed records and its changed count |
| `BrokerRequests.UpdateStoresTheRequest` | apps/broker/app/main.py:1114-1155 | an update whose first put goes through stores the requested plan if non-empty and the requested parameters if given, one version more and all else as before, and renders exactly that; the record ends succeeded, failed with the error text, or in progress, as render and final put went |
| `BrokerRequests.ProvisionStoresTheRequest` | apps/broker/app/main.py:1086-1110 | a provision that finds no record stores the request as version 1 and renders it, with the same three endings |
| `BrokerRequests.ReconcileKeepsTheRequest` | apps/broker/app/main.py:947-999 | a reconcile that acts keeps what the record asks for, counts one attempt, and renders exactly that |
| `BrokerRequests.FailedStepIsNamed` | apps/control-plane/app/main.py:142-152 | a failed apply is answered with the kind of the first step that failed |
| `BrokerRequests.ChangedCountsActions` | apps/broker/app/main.py:1002-1019 | the reported count is the number of listed records the pass acted on |
| `Reconciler.DriftHandlingIsFailSafe` | apps/broker/app/main.py:743-781 | a succeeded, not drifted, fully applied record is re-applied by a refreshing pass if and only if the diff answered, every step was checkable, and some step differs from the backend |
| `Reconciler.OneUncheckableStepSilencesDrift` | libs/common/sovereign/executors/dispatch.py:66-90 | one step of an unknown kind makes a refreshing pass leave such a record, the store and the backend untouched |
| `Reconciler.HealthyReconcile` | apps/broker/app/main.py:947-999 | a reconcile whose own calls succeed, as far as it makes them, leaves its record unselected with the same desired state, and every other record as it was; a skipped record need not be renderable |
| `Reconciler.HealthyReconcileSettles` | apps/broker/app/main.py:743-781 | if the diff answered too and its own steps do not contend, no drift is left that a diff could find |
| `Reconciler.SettledStays` | libs/common/sovereign/executors/dispatch.py:37-90 | applying another consistent manifest does not unsettle a settled record |
| `Reconciler.OnePassConverges` | apps/broker/app/main.py:1002-1019 | after one pass in which the renders, applies and puts it makes succeed no listed record is selected and all keep their desired state, whatever the diffs did, however manifests overlap, and whatever steps the skipped records have |
| `Reconciler.OnePassSettles` | apps/broker/app/main.py:1002-1019 | if it refreshed, the diffs it asked for answered and no manifests contend, no listed record has drift left to find |
| `Reconciler.ContendersNeverSettle` | libs/common/sovereign/executors/dispatch.py:66-90 | two records that want different payloads at one compared target are never both free of drift, whatever the backend holds |
| `Reconciler.SecondPassIsIdle` | apps/broker/app/main.py:1002-1019 | an immediate second pass, whatever fails in it, changes neither store nor backend and reports zero changes; only if it refreshes must the first pass have settled its records |
| `BrokerHandlers.ProvisionIsARun` | apps/broker/app/main.py:1051-1110 | the provision method's effect on the store is a run of the step machine |
| `BrokerHandlers.UpdateIsARun` | apps/broker/app/main.py:1114-1155 | so is the update method's |
| `BrokerHandlers.PassIsARun` | apps/broker/app/main.py:1002-1019 | so is a whole reconcile pass |
| `TenantTree.GetAncestors` | libs/common/sovereign/tenancy/tenant_store.py:82-96 | on any table, cyclic or orphaned: exactly the existing rows reached by one or more parent links, nearest first, none twice |
| `TenantTree.ParentColumn` | libs/common/sovereign/tenancy/tenant_store.py:82-96 | a row whose parent is absent or empty is below nothing; any other row is below the id its parent column names |
| `TenantTree.GroupByParent` | libs/common/sovereign/tenancy/tenant_store.py:100-104 | every parent id is mapped to its children in table order |
| `TenantTree.Visit` | libs/common/sovereign/tenancy/tenant_store.py:105-115 | the stack walk ends with distinct rows below the start, closed under children |
| `TenantTree.GetDescendants` | libs/common/sovereign/tenancy/tenant_store.py:98-115 | exactly the rows from which the id is reached by one or more parent links, none twice |
| `TenantTree.IsAncestorOf` | libs/common/sovereign/tenancy/tenant_store.py:117-119 | true if and only if the ancestor exists and the other id lies below it |
| `TenantTree.Path` | libs/common/sovereign/tenancy/tenant_store.py:121-128 | empty if and only if there is no such row; otherwise a chain of parent links ending at it that holds all its ancestors |
| `TenantTree.WalksAreConverse` | libs/common/sovereign/tenancy/tenant_store.py:82-119 | of the rows returned by the two walks: one id is above the other if and only if that one is below it, except exactly where the upper id has no row |
| `TenantTree.ClosedUpward` | libs/common/sovereign/tenancy/tenant_store.py:82-96 | a set closed under parents holds every existing row above the start, at any distance |
| `TenantTree.ClosedDownward` | libs/common/sovereign/tenancy/tenant_store.py:98-115 | a set closed under children holds everything below the start, at any depth |
| `TenantTree.BelowTransitive` | libs/common/sovereign/tenancy/tenant_store.py:82-119 | being below is transitive, cycles included |
| `Authz.InheritFromAncestors` | libs/common/sovereign/tenancy/authz.py:61-70 | the ancestors with bindings, each with exactly its roles |
| `Authz.InheritPlatformAdmin` | libs/common/sovereign/tenancy/authz.py:72-77 | platform-admin bindings elsewhere are added and nothing else changes |
| `Authz.UnionAll` | libs/common/sovereign/tenancy/authz.py:79-81 | a role is effective if and only if it is direct or inherited from somewhere |
| `Authz.EffectiveRolesAt` | libs/common/sovereign/tenancy/authz.py:57-88 | exactly the roles of bindings at the tenant, at an existing ancestor, or platform-admin anywhere, each attributed to where it comes from |
| `Authz.RolesComeFrom` | libs/common/sovereign/tenancy/authz.py:57-88 | a role is held if and only if some binding gives it at the tenant, at an existing tenant above it, or, for a platform admin, anywhere |
| `Authz.Can` | libs/common/sovereign/tenancy/authz.py:90-91 | true if and only if some effective role grants the action |
| `Authz.WhoMayDoWhat` | libs/common/sovereign/tenancy/models.py:72-117 | the role table read by action: for each of the nine actions exactly which roles grant it |
| `Authz.WhoSeesBelow` | libs/common/sovereign/tenancy/authz.py:93-113 | every role but the program team's sees what lies below its tenant |
| `Authz.VisibleTenants` | libs/common/sovereign/tenancy/authz.py:93-113 | exactly the tenant and what lies below it, when the caller can read there; the tenant first, nothing twice, except the tenant itself if and only if it lies on a cycle and the caller sees below |
| `Authz.RolesAreInherited` | libs/common/sovereign/tenancy/authz.py:57-88 | every role held at an existing tenant is held at each of its descendants |
| `Authz.BindingsAreLocal` | libs/common/sovereign/tenancy/authz.py:57-88 | a binding that is not platform-admin changes nothing at tenants that are neither its own nor below it |
| `Authz.VisibleIsReadableExactly` | libs/common/sovereign/tenancy/authz.py:93-113 | for all bindings every visible id is readable, if and only if the tenant has a row or nothing lies below it |
| `Authz.OrphanIsVisibleNotReadable` | libs/common/sovereign/tenancy/authz.py:93-113 | the failing family: any orphan below an id without a row |
| `TokenBuckets.TokenBucket.constructor` | libs/common/sovereign/ratelimit.py:47-51 | a bucket starts full at the given time |
| `TokenBuckets.TokenBucket.Allow` | libs/common/sovereign/ratelimit.py:53-61 | the new tokens, clock and answer as a function of the old ones |
| `TokenBuckets.AdmittedExactly` | libs/common/sovereign/ratelimit.py:53-61 | for arbitrary timestamps a call is admitted if and only if its cost, with all cost admitted since any earlier call, fits the capacity plus the earnings since that call, and since the start what the bucket held plus its earnings |
| `TokenBuckets.GainedIsForwardTime` | libs/common/sovereign/ratelimit.py:53-56 | those earnings are the rate times the sum of positive time steps |
| `TokenBuckets.GainedOnMonotoneClock` | libs/common/sovereign/ratelimit.py:53-56 | on a monotone clock they are the rate times the time gone by |
| `TokenBuckets.RefusalsCostNothing` | libs/common/sovereign/ratelimit.py:56-61 | on a monotone clock a refused call leaves the next one with the same bucket and answer as if it had not been made |
| `TokenBuckets.WindowBound` | libs/common/sovereign/ratelimit.py:42-61 | with arbitrary timestamps any window of calls is admitted at most capacity + rate * (sum of positive time steps), whatever came before |
| `TokenBuckets.MonotoneWindowBound` | libs/common/sovereign/ratelimit.py:42-61 | on a monotone clock at most capacity + rate * (last - first) |
| `TokenBuckets.BurstIsAdmitted` | libs/common/sovereign/ratelimit.py:42-61 | the bound is met: as many calls at one instant as there are whole tokens are all admitted |
| `TokenBuckets.PacedCallerIsNeverRefused` | libs/common/sovereign/ratelimit.py:42-61 | a caller spaced at least 1/rate apart, capacity at least 1, is never refused |
| `RateLimiter.Limiter.constructor` | libs/common/sovereign/ratelimit.py:67-71 | no buckets |
| `RateLimiter.Limiter.Fetch` | libs/common/sovereign/ratelimit.py:82-87 | the key's bucket, full if new, becomes the most recently used; all others are untouched |
| `RateLimiter.Limiter.Spend` | libs/common/sovereign/ratelimit.py:88-88 | only that key's bucket changes, although buckets are shared objects |
| `RateLimiter.Limiter.Draw` | libs/common/sovereign/ratelimit.py:82-88 | fetching and spending together |
| `RateLimiter.Limiter.Evict` | libs/common/sovereign/ratelimit.py:89-90 | the least recently used key goes when there is one too many |
| `RateLimiter.Limiter.Allow` | libs/common/sovereign/ratelimit.py:77-91 | answer, order and buckets of one call as a function of the old ones; everything is admitted when the limiter is disabled |
| `RateLimiter.OrderIsRecency` | libs/common/sovereign/ratelimit.py:64-91 | after any history the map holds exactly the 10000 most recently used keys, in order of last use |
| `RateLimiter.ResidentExactly` | libs/common/sovereign/ratelimit.py:64-91 | a key is resident if and only if it was used and fewer than 10000 other keys have been used since; never more than 10000 buckets |
| `RateLimiter.AgreesWithPrivateBucket` | libs/common/sovereign/ratelimit.py:64-91 | while fewer than 10000 other keys come between uses of a key, it is answered exactly as by a bucket of its own that started full at its first call and saw its calls, each of cost one, and nothing else |
| `RateLimiter.DisabledAdmitsAll` | libs/common/sovereign/ratelimit.py:73-79 | without a positive rate every call is admitted and no bucket is kept |
| `RateLimiter.JustUsedIsResident` | libs/common/sovereign/ratelimit.py:77-91 | after every call the caller's own bucket is kept and the cap holds |
| `Secrets.RotatingSecretsProvider.constructor` | libs/common/sovereign/secrets.py:221-232 | an empty cache |
| `Secrets.RotatingSecretsProvider.Get` | libs/common/sovereign/secrets.py:234-243 | a hit younger than the TTL answers from the cache; otherwise the backend answers and a found value is cached at the clock read |
| `Secrets.RotatingSecretsProvider.ForceExpire` | libs/common/sovereign/secrets.py:245-247 | the cache is empty |
| `Secrets.GetIsARun` | libs/common/sovereign/secrets.py:234-243 | an undisturbed get is a run of the step machine with the same answer and cache, so the theorems about runs apply to the method |
| `Secrets.EveryAnswerIsFresh` | libs/common/sovereign/secrets.py:234-247 | under every interleaving of gets, rotations, removals and expiries each answer was the backend's value at some instant less than one TTL before the get's clock read, or later |
| `Secrets.RotationIsPickedUpWithinTtl` | libs/common/sovereign/secrets.py:212-243 | a get that reads the clock one TTL or more after the last rotation returns the new value |
| `Secrets.ForcedExpiryCutsOverExactly` | libs/common/sovereign/secrets.py:245-247 | after a cleared cache all continuations answer the current value, if and only if no get holds an older value, fetched within a TTL, that it has yet to store |
| `Secrets.StaleValueReturns` | libs/common/sovereign/secrets.py:234-247 | if one does, some continuation answers the old value |
| `Secrets.ForcedExpiryIsNotInstant` | libs/common/sovereign/secrets.py:234-247 | that situation is reachable right after a forced expiry |
| `Xfcc.SplitUnquoted` | libs/common/sovereign/mtls.py:30-58 | the loop computes the split that the next two lemmas show to be inverse to joining |
| `Xfcc.SplitAtFirstCut` | libs/common/sovereign/mtls.py:30-58 | the first part ends at the first separator that is not behind an odd run of backslashes nor behind an odd number of unescaped quotes, and the rest is split anew; without one the text is the only part |
| `Xfcc.JoinUndoesSplit` | libs/common/sovereign/mtls.py:30-58 | for every string and separator, joining the parts gives the string back |
| `Xfcc.SplitUndoesJoin` | libs/common/sovereign/mtls.py:30-58 | splitting undoes joining any parts that close their quotes and hold the separator only inside them |
| `Xfcc.UnescapeLoop` | libs/common/sovereign/mtls.py:61-77 | the loop computes the unescaping that undoes escaping |
| `Xfcc.UnescapeUndoesEscape` | libs/common/sovereign/mtls.py:61-77 | for every text |
| `Xfcc.UnescapeDropsBackslashes` | libs/common/sovereign/mtls.py:61-77 | for every text exactly the backslashes that are not themselves escaped are dropped |
| `Xfcc.Unquote` | libs/common/sovereign/mtls.py:61-77 | strips, and unescapes if quoted on both ends |
| `Xfcc.StripMeans` | libs/common/sovereign/mtls.py:61-64 | stripping leaves the text from its first to its last character that is no blank |
| `Xfcc.SpacesAre` | libs/common/sovereign/mtls.py:63-63 | the blanks, one by one |
| `Xfcc.UnquoteUndoesPrint` | libs/common/sovereign/mtls.py:61-77 | a printed value, quoted or bare, is read back as what it means |
| `Xfcc.ParseXfccIdentity` | libs/common/sovereign/mtls.py:80-97 | the parser, absent and blank headers included, computes the identity that the next lemma describes |
| `Xfcc.KeyTestIsExact` | libs/common/sovereign/mtls.py:94-94 | a key passes if and only if it spells uri in any case with nothing but blanks around it |
| `Xfcc.ParseUndoesPrint` | libs/common/sovereign/mtls.py:80-97 | parsing any printed header gives the value of the first pair of the first element whose key spells uri, none if there is none or it is empty, whatever separators and quotes the values contain |
| `UsageIndex.IsoLayout` | libs/common/sovereign/usage_store.py:30-34 | year, month and day are printed at positions 0-3, 5-6 and 8-9, then T, clock, fraction and offset |
| `Lex.DigitsReadBack` | libs/common/sovereign/usage_store.py:30-34 | zero-padded numbers are decimal digits that read back as the number |
| `UsageIndex.KeyOrder` | libs/common/sovereign/usage_store.py:30-34 | printed timestamps, with or without a fraction and whatever follows them, sort by year, month, day, hour, minute, second and microsecond, and then by what follows |
| `UsageIndex.KeysCollideOnlyIfSame` | libs/common/sovereign/usage_store.py:30-34 | with suffixes of one length two records share a key if and only if time, resource and suffix agree |
| `UsageIndex.Clamp` | libs/common/sovereign/usage_store.py:94-94 | a limit below one counts as one, above a thousand as a thousand, and in between as it is |
| `UsageIndex.RangeIsWindow` | libs/common/sovereign/usage_store.py:79-120 | the key range, inclusive upper bound and all, selects a record if and only if since <= ts < until |
| `UsageIndex.Scan` | libs/common/sovereign/usage_store.py:79-125 | the largest keys in descending order, as many as fit the limit |
| `UsageIndex.FilterPage` | libs/common/sovereign/usage_store.py:120-137 | exactly the page's records that match the resource filters, in page order |
| `UsageIndex.SmallerKeyIsNotNewer` | libs/common/sovereign/usage_store.py:30-34 | of two records of a tenant the one under the smaller key is not newer |
| `UsageIndex.UsageStore.constructor` | libs/common/sovereign/usage_store.py:37-48 | an empty table |
| `UsageIndex.UsageStore.Record` | libs/common/sovereign/usage_store.py:67-77 | adds the record under its event id and nothing else |
| `UsageIndex.UsageStore.Query` | libs/common/sovereign/usage_store.py:79-137 | distinct records of the tenant with since <= ts < until and the asked resource id and type, newest first, from the newest page of the window; all such records if the window fits the limit |
| `QuotaGate.ComputeUsage` | libs/common/sovereign/quotas/enforcer.py:111-155 | the loop's counts are those of the counting functions the cap theorems speak about, with and without a configured quota |
| `QuotaGate.CountIsExact` | libs/common/sovereign/quotas/enforcer.py:125-135 | what is counted are exactly the instance records with that service type and that pack |
| `QuotaGate.ComputeAdds` | libs/common/sovereign/quotas/enforcer.py:125-136 | compute units add up over the records |
| `QuotaGate.ComputeOfOne` | libs/common/sovereign/quotas/enforcer.py:128-136 | each counted record brings its quantity, any other nothing |
| `QuotaGate.EntryCarriesQuota` | libs/common/sovereign/quotas/enforcer.py:148-155 | an entry carries its scope's caps and period, or none and the default |
| `QuotaGate.CheckProvision` | libs/common/sovereign/quotas/enforcer.py:46-84 | verdict and breakdown of the gate |
| `QuotaGate.GateAllowsExactly` | libs/common/sovereign/quotas/enforcer.py:46-84 | allowed if and only if the service scope, and the pack scope if a pack is known, each have no cap or are below it |
| `QuotaGate.BreakdownExplainsVerdict` | libs/common/sovereign/quotas/enforcer.py:46-84 | the breakdown has the service's entry and, if a pack is known, the pack's; allowed if and only if none of them has reached its cap |
| `QuotaGate.ObservedScopes` | libs/common/sovereign/quotas/enforcer.py:157-172 | exactly the service and pack scopes that occur in the newest page |
| `QuotaGate.UsageSummary` | libs/common/sovereign/quotas/enforcer.py:86-107 | one entry per configured or observed scope, sorted, none twice |
| `QuotaGate.SummaryListsWhatCounts` | libs/common/sovereign/quotas/enforcer.py:86-107 | no scope in which anything counts, and none with a quota, is left out |
| `QuotaGate.SummaryAgreesWithGate` | libs/common/sovereign/quotas/enforcer.py:46-107 | for every service and pack scope the summary's entry is the gate's own |
| `QuotaGate.ServiceCapHoldsExactly` | apps/broker/app/main.py:250-280 | over every sequence of provisions a capped service stays at most the larger of its start and its cap, if and only if none comes at that bound that proceeds, is metered, has its pack under cap, and finds less than the cap on the newest 1000 records |
| `QuotaGate.ServiceCapHolds` | apps/broker/app/main.py:250-280 | in particular while the tenant has at most 1000 records |
| `QuotaGate.HiddenRecordsBreakTheCap` | libs/common/sovereign/quotas/enforcer.py:111-155 | a cap's worth of one service behind 1000 records of another: the next provision passes the cap |
| `QuotaGate.PackCapHoldsExactly` | apps/broker/app/main.py:240-280 | a capped pack stays at most the larger of its start and its cap, if and only if no provision metered to it comes at that bound with its other scopes under cap and the gate either not asked about the pack or finding less than the cap on its page |
| `QuotaGate.PackCapHolds` | apps/broker/app/main.py:240-280 | in particular with at most 1000 records and a gate that is asked about the pack whenever the meter is told it |
| `QuotaGate.UnaskedPackBreaksTheCap` | apps/broker/app/main.py:480-497 | a catalog that fails for the gate and answers the meter lets a full pack grow past its cap |
| `QuotaGate.GateCountsExactly` | libs/common/sovereign/quotas/enforcer.py:111-155 | the gate misses exactly the matching records beyond the newest 1000, and its count is right if and only if there are none |
| `QuotaUsage.ArrivesNext` | libs/common/sovereign/usage_store.py:67-77 | recording a later usage keeps the tenant's keys in time order |
| `QuotaUsage.QueryIsNewestPage` | libs/common/sovereign/quotas/enforcer.py:123-123 | an unbounded page of 1000 holds the keys of the newest 1000 records, newest first |
| `QuotaUsage.GateRecords` | libs/common/sovereign/quotas/enforcer.py:123-123 | the records the gate reads through the usage store are the newest 1000 of those that arrived, backwards |
| `QuotaUsage.SameCounts` | libs/common/sovereign/quotas/enforcer.py:125-136 | so for every scope its count is the count over the newest page |
| `QuotaUsage.EmittedIsMetered` | apps/broker/app/main.py:480-497 | the usage a provision emits is read by the gate as an instance of its service and pack with quantity one |
| `QuotaRace.RaceOvershootsByInFlight` | apps/broker/app/main.py:250-280 | with n provisions in flight, whatever the interleaving, a capped service stays at most the larger of its start and cap + n - 1 |
| `QuotaRace.RaceMeetsTheBound` | apps/broker/app/main.py:1073-1109 | one below the cap, n provisions that ask before any is metered all go through: the bound is met |
| `Chargeback.PricePrefersExact` | packs/finops/sovereign_finops/models.py:41-49 | the first rate for the service wins, then the first wildcard for the unit, then zero |
| `Chargeback.Group` | packs/finops/sovereign_finops/models.py:92-95 | a key occurs if and only if some record has it, with the sum of exactly those records |
| `Chargeback.PriceLine` | packs/finops/sovereign_finops/models.py:99-107 | the line of a key is priced and rounded from that sum |
| `Chargeback.Lines` | packs/finops/sovereign_finops/models.py:97-107 | one line per sorted key, and a running total that is the sum of the lines |
| `Chargeback.ChargebackReport` | packs/finops/sovereign_finops/models.py:79-113 | one line per (service, unit) that occurs, in key order, totalling exactly the sum of its lines: the final rounding changes nothing |
| `Chargeback.LineIsExact` | packs/finops/sovereign_finops/models.py:92-107 | a line's quantity is that of exactly the records whose metadata, or else resource type, names its service, in its unit; its price is the one for that service and unit |
| `Chargeback.LinesAreSorted` | packs/finops/sovereign_finops/models.py:99-99 | lines are sorted by service and then unit |
| `Chargeback.EveryRecordHasALine` | packs/finops/sovereign_finops/models.py:92-107 | every usage record has its line |
| `Chargeback.TiesGoToEven` | packs/finops/sovereign_finops/models.py:101-101 | halfway between two millionths the even one is taken |
| `Chargeback.ReportIgnoresUsageOrder` | packs/finops/sovereign_finops/models.py:79-113 | permuted usage gives an equal report |
| `Chargeback.QuantityIsConserved` | packs/finops/sovereign_finops/models.py:79-113 | the line quantities add up to the recorded quantity |
| `Chargeback.RawCostIsConserved` | packs/finops/sovereign_finops/models.py:79-113 | before rounding, pricing by line and pricing record by record cost the same |
| `Chargeback.RoundingErrorIsBounded` | packs/finops/sovereign_finops/models.py:79-113 | the total differs from the unrounded cost by at most half a millionth per line |
| `Chargeback.SumService` | packs/finops/sovereign_finops/models.py:127-129 | the cost of exactly the lines of that service |
| `Chargeback.BudgetStatus` | packs/finops/sovereign_finops/models.py:116-141 | one status per budget of this tenant with a known scope, in budget order |
| `Chargeback.BudgetsChargeTheirScope` | packs/finops/sovereign_finops/models.py:122-131 | a tenant budget is charged the total, a service budget the cost of that service's lines, any other scope and any other tenant nothing |
| `Chargeback.StatusesInOrder` | packs/finops/sovereign_finops/models.py:121-141 | statuses come one per budget, in the order of the budgets |
| `Chargeback.BudgetAmountsAreExact` | packs/finops/sovereign_finops/models.py:116-141 | a reported amount is the exact amount, so it is above the limit if and only if the budget is breached |
| `Chargeback.ServiceBudgetsAddUp` | packs/finops/sovereign_finops/models.py:116-141 | the service-scoped amounts over all distinct services add up to the tenant-scoped amount |

## Left out

What the model takes as given:

- SHA-256, JSON canonicalisation and Ed25519 are functions with the properties the proofs name: digests and signatures are non-empty, metadata and spool lines decode to what was encoded, and, where stated, the hash is injective.
- ClickHouse, DynamoDB, S3 and the control plane are sequences and maps whose calls may fail; an insert and a spool append are all or nothing, and one process lifetime is modelled (the chain head is not restored after a restart).
- `/render` answers with the version it was sent (apps/control-plane/app/main.py:172-178), and executors set and compare whole payloads per (kind, target).
- Floating point is exact real arithmetic; rounding to six digits is modelled, binary representation error is not.
- All usage timestamps of one table share a UTC offset, as the code's clock provides.
- Rows of the tenant table have distinct ids, which is its primary key.

What the repository does and the model does not:

- HTTP routing, authentication, middleware, settings and health endpoints: one-branch plumbing.
- SIEM export and audit queries: best-effort calls and SQL text.
- The spool's size limit and `count`: the limit is one of the ways an append may fail.
- RBAC and policy gates before a provision: a refused request takes no step.
- Teardown of the backend on deprovision: the record's deletion alone is modelled.
- `last_reconciled_at`, `created_at`, `apply_outputs` and the text of reasons and diff details.
- `list_instances` never pages past its limit: convergence is about the records it lists.
- The asynchronous provision path is the same steps with the render deferred; its polling endpoint is not modelled.
- The Envoy renderer's own apply, other pack renderers, CLI executors, connectors and webhooks: only the executor contract is kept.
- Header keys match `URI` if each letter's upper case does, which includes the dotless i; no other case folding is needed or modelled.
- DynamoDB refuses a key range whose lower bound is above its upper one; the model answers it with the empty window.
- Currencies of rates and budgets are labels only.
- Portal, migrations, metrics, tracing, backup and scripts.

Stated for less than every input:

- RateLimiter.AgreesWithPrivateBucket: is for an enabled limiter (positive rate), because a disabled one admits every call and keeps no buckets (`DisabledAdmitsAll`).
- Reconciler.SecondPassIsIdle: for a refreshing second pass needs a first pass whose diffs answered and manifests that agree on any target they share, because unseen drift is found later and contending manifests never settle (`ContendersNeverSettle`).
- QuotaGate.ServiceCapHoldsExactly: is for one provision at a time, because the gate reserves nothing between its check and the metering record; `QuotaRace` bounds what concurrent provisions can do.
- QuotaUsage.GateRecords: is for records with increasing timestamps, because equal ones are ordered by resource id and a random suffix.
- BrokerVersions.VersionsNeverGoBackExactly: is for one request at a time, because concurrent requests overwrite each other (`ConcurrentUpdatesGoBack`).
- AuditRuns.OnePlaceExactly: needs an injective hash, because equal events chained at different places differ only by their hashes.
