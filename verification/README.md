# Drift detection, verified

A Dafny model of the drift-detection manager: the tracking manager that maps resources to the
ResourceSummaries interested in them, the evaluator that compares tracked resources with their
baselines and reports drift, the recovery that rebuilds the manager after a restart, and the
reconciler whose forward maps drive registration.

`dafny verify dfyconfig.toml` checks the whole project.

## How the model is organised

| file | content |
|---|---|
| `Types.dfy` | references, statuses, hex text, enumerations of sets |
| `Tracking.dfy` | the manager's maps as a value; register, unregister, watchers; the relation and the index invariant |
| `Machine.dfy` | every interleaving of registrations, unregistrations, notifications and the evaluator, one step per critical section or API call |
| `SortedKeys.dfy`, `Fingerprint.dfy` | the pre-digest string of a resource |
| `Evaluation.dfy`, `Passes.dfy` | one evaluation with its report; whole passes |
| `Refinement.dfy` | an uninterrupted evaluation of the machine is the evaluation of `Evaluation.dfy` |
| `Strays.dfy` | rows that no forward map remembers, also after reconciles that fail part-way |
| `Recovery.dfy`, `Restart.dfy` | rebuilding the manager from statuses, and what a restart leaves behind |
| `Reconciling.dfy`, `Idempotence.dfy` | forward maps, histories of reconciles, what a reconcile writes |
| `Interleaving.dfy` | histories of reconciles interleaved with the evaluator and with notifications |
| `Initialization.dfy` | creating, publishing and resetting the manager instance |
| `Manager.dfy`, `Reconciler.dfy` | the two objects, with fields updated in place; each method is proved equal to the functions above |

The API server is a store plus an answer per call. An answer that the code cannot predict is a
parameter: the outcome of a fetch, the error of a watcher start, the order in which a set is
enumerated, and how many calls of a loop succeed before the first failure. `Items()` is any
duplicate-free enumeration. Rendering, patching and digesting are function values of a
`Platform`, so every statement holds for all of them; where a statement needs a property of
them, it is a `requires` clause: digests of a fixed length, prefix-free rendering, and
`Passes.StatusUnread`. The last one is asked only of the resource a statement is about, and it
excludes a single kind of input: that resource is itself a ResourceSummary, and a patch carried by
some ResourceSummary reads or moves the status of such objects. For that input settling does fail
(`Passes.ShownStatusUnsettles`). A reference carries its GVK as a field.

## Where the code is narrower than its comments

- The comment on `unstructuredHash` lists labels and content; the code also renders annotations,
  except for ConfigMaps. The model follows the code. Top-level key names are not rendered at all,
  so a value that moves to a key of the same rank goes unnoticed, as from `data` to `binaryData`
  (`Fingerprint.KeyNamesAreNotFingerprinted`, `Fingerprint.BinaryDataGoesUnnoticed`).
- `react` does not consult kustomize rows, so the drift of a resource tracked only through
  kustomize is never queued (`Machine.KustomizeChangesAreNeverQueued`).
- Recovery reads plain hashes back as helm resources and helm hashes as plain ones; rows of the
  wrong type then outlive their summary, exactly until one of its reconciles lists the resource
  under that type (`Strays.StraysOverHistory`, `Restart.PlainResourceOutlivesItsSummary`).
- A reconcile that fails part-way leaves rows that its forward map does not know; they too outlive
  the summary unless a later reconcile brings that type up to date with the resource still listed
  (`Strays.StraysExactly`, `Strays.DeletionLeavesExactly`).
- Recovery compares bytes with a string, so every recovered resource is queued, although the
  comment speaks only of resources whose hash differs. A registration records hex text, which no
  digest equals, so such a resource is reported after a restart even if it has not changed
  (`Recovery.HexRecordIsAlwaysReported`).
- A recorded resource that recovery does not find is baselined without being indexed. Later
  registrations find the baseline and return early, so nothing indexes it or starts a watcher for
  it while it stays baselined (`Restart.NotFoundStaysUnindexed`).
- The baseline is updated before the report, so a failed report of a modification is not
  repeated, while that of an absence is (`Passes.FailedReportIsRepeatedExactly`).
- A baseline can be written for a resource that was unregistered meanwhile
  (`Machine.BaselineLeaksExactly`, `Machine.LateWriteBlindsTheNextRegistration`).
- A drift of a later type is also reported to summaries of an earlier type
  (`Evaluation.ReportIsExact` says to which).
- `InitializeManager` can return nil while another thread's recovery is still to fail
  (`Initialization.InitialiseCanReturnNilWithoutManager`); a nil return of the unlocked look is
  good exactly when no recovery is under way (`Initialization.NilReturnIsGoodExactly`).
- A watcher start that fails is never tried again while its GVK stays indexed, so the resources
  of that GVK are tracked without a watcher (`Machine.FailedStartIsNotRepeated`).
- `registerResources` takes every not-found error for a missing resource, also one from a watcher
  start. The manager then holds a digest that the status does not, until the next reconcile
  (`Idempotence.StatusAgrees`, `Idempotence.SwallowedStartIsWrittenLate`).
- `evaluateResource` compares an error with a fresh `&meta.NoKindMatchError{}` through `errors.Is`,
  which compares pointers unless that library type defines `Is`. The answer `KindMissing` stands
  for an error that the comparison recognises; one that it does not recognise is the answer
  `Broken`. Both are among the answers an evaluation can meet.

## Model

| member | source | states |
|---|---|---|
| Tracking.InsertRelation | pkg/drift-detection/manager.go:270-291 | the three reverse maps stand for one relation, and tracking adds exactly one triple to it, leaving every other row alone |
| Tracking.EraseRelation | pkg/drift-detection/manager.go:234-259 | unregistering removes exactly one triple and never leaves an empty set behind |
| Tracking.TrackedByRelation | pkg/drift-detection/manager.go:293-306 | a resource is still tracked exactly when some summary tracks it under some type |
| Tracking.RelationDeterminesRows | pkg/drift-detection/manager.go:96-103 | without empty sets the relation determines the three maps |
| Tracking.RegisterKeepsIndex | pkg/drift-detection/manager.go:183-218 | registering keeps the index invariant whatever the API server and the watcher start answer |
| Tracking.UnregisterKeepsIndex | pkg/drift-detection/manager.go:220-324 | unregistering keeps the index invariant, the balance of informers included |
| Tracking.UpdateGvkKeepsWatchers | pkg/drift-detection/manager.go:326-339 | starting a watcher keeps watched GVKs non-empty and informer starts and cancels balanced, also when the start fails |
| Tracking.StopTrackingKeepsWatchers | pkg/drift-detection/manager.go:308-324 | stopping keeps watched GVKs non-empty and informers balanced |
| Tracking.UnregisterUndoesRegister | pkg/drift-detection/manager.go:183-339 | in any manager with the index invariant, unregistering undoes the first registration of a resource whatever the API server and the watcher start answered, except that an informer may have come and gone and that an empty set left by an earlier failed start is removed |
| Tracking.FirstRegistration | pkg/drift-detection/manager.go:207-217 | the first registration of a found resource baselines it; with a known GVK it joins the members and the watcher start does not matter, with a new one it is alone and watched, and an error of the watcher start is returned and leaves the baseline and an empty set |
| Machine.IndexHoldsOverRuns | pkg/drift-detection/watcher.go:109-139 | over every interleaving and failure: index members are baselined, tracked and of their GVK, indexed GVKs have a tracked resource, watched GVKs have members, informers balance, and a watcher is never started where one is present |
| Machine.NothingQueuedIsLost | pkg/drift-detection/drift_evaluation.go:41-91 | over every interleaving: what was queued and not successfully evaluated since is queued, in the batch, failed or about to be queued again; a finished pass leaves exactly what failed plus what others queued meanwhile |
| Machine.ReportsAreComplete | pkg/drift-detection/drift_evaluation.go:203-244 | over every interleaving: when an evaluation that found drift returns nil, each summary that tracked the resource under a type without a break since it began was flagged for that type or did not exist |
| Machine.ReportsReachOnlyTrackers | pkg/drift-detection/drift_evaluation.go:203-244 | over every interleaving: a report asks a summary about a type only if it found the resource under that type and the summary in the map of that type or of an earlier one |
| Machine.StepKeepsReach | pkg/drift-detection/drift_evaluation.go:211-231 | whom a report reads from a map tracks the resource under that type at that moment |
| Machine.DriftIsReportedAtLeastOnce | pkg/drift-detection/drift_evaluation.go:64-142 | over every interleaving and schedule of failures, a baselined resource that is pending stays pending until a complete report of it returns nil or an evaluation of it compares equal |
| Machine.MissingIsReportedAtLeastOnce | pkg/drift-detection/drift_evaluation.go:64-121 | over every interleaving and schedule of failures, a missing baselined resource that is pending stays pending until a complete report of it returns nil |
| Machine.PublishedManagersAreSafe | pkg/drift-detection/manager.go:115-160 | the index invariant, the conservation of queued resources, and the completeness and the reach of reports hold over every run of a manager published with the index invariant |
| Machine.PassesEnd | pkg/drift-detection/drift_evaluation.go:55-84 | every step of the evaluator after the snapshot lowers a rank that no step of others touches, so a pass cannot go on for ever |
| Machine.EvaluatorCanStep | pkg/drift-detection/drift_evaluation.go:41-91 | whatever others have done, the evaluator has a step to take |
| Machine.BaselineLeaksExactly | pkg/drift-detection/drift_evaluation.go:196-201 | a step leaves an untracked resource baselined exactly when it writes the baseline of a resource that lost its last tracker |
| Machine.AtomicNeverLate | pkg/drift-detection/drift_evaluation.go:95-142 | evaluations that no registration or unregistration interrupts never write such a baseline |
| Machine.Drains | pkg/drift-detection/manager.go:220-324 | a run without such writes that ends with nothing tracked ends with empty hash, GVK and watcher maps and all informers cancelled, even if watcher starts failed |
| Machine.LateWriteBlindsTheNextRegistration | pkg/drift-detection/manager.go:199-202 | a run of an empty manager (register, notify, evaluate, unregister meanwhile) in which a late write makes the next registration return early with no watcher |
| Machine.WatchesCover | pkg/drift-detection/manager.go:199-217 | with uninterrupted evaluations and no failed watcher start, the baselined resources are exactly the union of the GVK sets, and watched and indexed GVKs are the same |
| Machine.IndexedGvkKeepsItsWatcher | pkg/drift-detection/manager.go:326-339 | over every run in which a GVK stays indexed, it stays watched or unwatched, and no informer of it is started or cancelled |
| Machine.FailedStartIsNotRepeated | pkg/drift-detection/manager.go:331-335 | after a failed watcher start the GVK stays unwatched for as long as it stays indexed |
| Machine.BaselinedKeepsMembership | pkg/drift-detection/manager.go:199-217 | over every run in which a resource stays baselined, it stays indexed or not indexed |
| Machine.KustomizeChangesAreNeverQueued | pkg/drift-detection/watcher.go:41-107 | over every run, a resource tracked only as a kustomize resource is never queued |
| SortedKeys.GetSortedKeys | pkg/drift-detection/manager.go:359-367 | the result is the ascending enumeration of the keys, whatever order the map is walked in |
| SortedKeys.SortedEnumerationUnique | pkg/drift-detection/manager.go:359-367 | a set has only one ascending enumeration |
| SortedKeys.LexLeExactly | pkg/drift-detection/manager.go:364 | the order is that of Go strings: a prefix comes first, otherwise the smaller character at the first difference |
| Fingerprint.UnstructuredHash | pkg/drift-detection/manager.go:369-413 | the loops return the digest of labels, annotations (not of ConfigMaps) and the patched content outside metadata and status, by ascending key, or the patcher's error |
| Fingerprint.FingerprintFaithful | pkg/drift-detection/manager.go:373-413 | with prefix-free renderings, pre-digest strings are equal exactly when the rendered parts are |
| Fingerprint.FingerprintDecides | pkg/drift-detection/manager.go:373-413 | with equal top-level keys and equal presence of labels and annotations, pre-digest strings are equal exactly when labels, annotations and visible content are |
| Fingerprint.OtherKeysAreSeen | pkg/drift-detection/manager.go:405-409 | contents with the same keys that differ at a key other than `metadata` and `status` have different pre-digest strings |
| Fingerprint.MetadataAndStatusAreHidden | pkg/drift-detection/manager.go:405-409 | contents that differ at most at `metadata` and `status` have the same pre-digest string if labels and annotations are the same |
| Fingerprint.LabelsAndAnnotations | pkg/drift-detection/manager.go:377-389 | the labels are the strings of `metadata.labels`; the annotations are those of `metadata.annotations`, unless the kind is ConfigMap |
| Fingerprint.LabelChangesAreSeen | pkg/drift-detection/manager.go:377-389 | a change of labels changes the digest, and a change of annotations does exactly if the object is not a ConfigMap, provided that the digest separates the strings |
| Fingerprint.PreDigestString | pkg/drift-detection/manager.go:373-413 | for an object with the usual five keys, the digest is that of labels, annotations, `apiVersion`, `kind` and `spec`, in this order, with the content after the patches |
| Fingerprint.KeyNamesAreNotFingerprinted | pkg/drift-detection/manager.go:403-409 | for any object, moving a value between two visible keys of the same rank among the other visible keys leaves the rendered parts equal |
| Fingerprint.BinaryDataGoesUnnoticed | pkg/drift-detection/manager.go:403-409 | a ConfigMap whose data moves from `data` to `binaryData` keeps its baseline |
| Fingerprint.FingerprintInvariant | pkg/drift-detection/manager.go:373-413 | the baseline does not depend on status, other metadata, ConfigMap annotations or anything the patches remove from both objects |
| Fingerprint.StatusWriteInvisible | pkg/drift-detection/manager.go:405-409 | writing the status of a ResourceSummary does not change its baseline, if no patch in use reads that status |
| Evaluation.WorkMembers | pkg/drift-detection/drift_evaluation.go:206-240 | a report asks for exactly the (summary, type) pairs where the resource is a key of the type's map and the summary is in that type's or an earlier type's set |
| Evaluation.OverwriteFirst | pkg/drift-detection/drift_evaluation.go:304-317 | only the first matching status entry changes |
| Evaluation.RegistrationHashes | pkg/drift-detection/manager.go:204-217 | a first registration hashes the object it fetched with the given patches, and that digest is the baseline and the result; a missing object is not found, any other fetch or patch error is another error |
| Evaluation.CollectAppend | pkg/drift-detection/drift_evaluation.go:174-191 | each tracker contributes its patches if it exists, one after the other |
| Evaluation.CollectMembers | pkg/drift-detection/drift_evaluation.go:174-191 | a patch is collected exactly if some tracker that exists carries it |
| Evaluation.SummariesTrack | pkg/drift-detection/drift_evaluation.go:144-167 | the summaries asked for patches are those that track the resource under some type |
| Evaluation.EvaluationDecides | pkg/drift-detection/drift_evaluation.go:95-142 | an evaluation finds drift exactly if the resource is baselined and is absent or has another digest; it then leaves the empty baseline or that digest, and fails exactly if the report does; otherwise it changes nothing, and fails exactly if fetch, patches or hashing do |
| Evaluation.TwoTrackersDecide | pkg/drift-detection/drift_evaluation.go:123-138 | with two trackers the baseline is compared with the digest under the patches of both |
| Evaluation.ReportCarriesBaseline | pkg/drift-detection/drift_evaluation.go:277-317 | when an evaluation that found drift returns nil, every reached section of an existing summary has its flag set and the new baseline, raw, in the first entry of the resource, other entries unchanged; every other section is as it was |
| Evaluation.ReportIsExact | pkg/drift-detection/drift_evaluation.go:203-302 | when an evaluation that found drift returns nil, exactly the reached sections of existing summaries are flagged and given the new baseline, every tracker has the flag of its type, and no flag is cleared |
| Evaluation.ReportNeverOverreaches | pkg/drift-detection/drift_evaluation.go:95-302 | however an evaluation ends, a section is unchanged, or it is reached and flagged |
| Evaluation.OneTypeIsReportedExactly | pkg/drift-detection/drift_evaluation.go:203-244 | a resource tracked under one type only is reported exactly to its trackers |
| Passes.PassRequeuesFailures | pkg/drift-detection/drift_evaluation.go:55-84 | without other insertions a pass leaves queued exactly what failed, and changes neither rows nor index nor the set of baselined resources |
| Passes.FailedExactly | pkg/drift-detection/drift_evaluation.go:64-73 | a pass fails exactly the resources whose evaluation returned an error on its turn |
| Passes.SecondEvaluationIsQuiet | pkg/drift-detection/drift_evaluation.go:95-142 | after a pass, evaluating again any resource that was present and whose evaluation returned nil, with patches collected in the same order, changes neither manager nor store, whatever became of the rest of the batch |
| Passes.EvaluateInvisible | pkg/drift-detection/drift_evaluation.go:246-302 | the status writes of an evaluation do not change the digest of any resource under the patches in the store, not even of a tracked ResourceSummary, if none of these patches reads its status |
| Passes.ShownStatusUnsettles | pkg/drift-detection/drift_evaluation.go:123-138 | on any platform with prefix-free rendering, if a summary lists itself, its patches show its status in a visible key and the digest separates the two strings, then the report of its drift makes the next evaluation find drift again |
| Passes.FailedReportIsRepeatedExactly | pkg/drift-detection/drift_evaluation.go:108-138 | after a failed report, evaluating again finds drift exactly if the resource is absent, and writes nothing otherwise |
| Passes.FreshBaselineDrift | pkg/drift-detection/drift_evaluation.go:123-138 | a baseline that comes from the patches of one summary drifts exactly when the patches of all trackers lead to another digest |
| Passes.QuietWithOneTracker | pkg/drift-detection/drift_evaluation.go:123-194 | in any state in which one summary alone tracks a resource, under one or several types, and the baseline comes from its patches, the evaluation writes nothing |
| Passes.QuietAfterRegistration | pkg/drift-detection/manager.go:183-218 | so it is after that summary has registered the resource with its own patches any number of times, under any types, and the object was found at least once |
| Refinement.UninterruptedEvaluation | pkg/drift-detection/drift_evaluation.go:93-244 | run without interruption, the steps of an evaluation leave the manager, its failure and the flags written as the sequential evaluation does |
| Refinement.AttemptedIsApplied | pkg/drift-detection/drift_evaluation.go:231-240 | the updates compared there are those applied to the store |
| Recovery.RecoveryIsExactFold | pkg/drift-detection/manager.go:434-505 | when recovery returns nil, relation, queue and baselines are exactly the recorded ones (last text wins), and with stable answers the indexed resources are exactly the recorded ones found |
| Recovery.RecoverySucceedsExactly | pkg/drift-detection/manager.go:475-505 | recovery returns nil exactly if no record meets an error other than not-found, neither when its resource is first asked for nor when it starts the watcher of a new GVK |
| Recovery.RefusedFetchEndsRecovery | pkg/drift-detection/manager.go:487-494 | recovery fails if the first fetch for a recorded resource fails with another error, or its object cannot be patched |
| Recovery.RecordsAreLiveEntries | pkg/drift-detection/manager.go:441-473 | what recovery reads is exactly the status entries of the summaries that are not being deleted, each under the type its list is read back as |
| Recovery.RecoveredFromStore | pkg/drift-detection/manager.go:434-505 | after a recovery that returns nil, the tracked relation is exactly these entries |
| Recovery.RecoveredTypes | pkg/drift-detection/manager.go:457-470 | plain hashes are tracked as helm resources, helm hashes as plain ones, kustomize hashes as such |
| Recovery.RecoveredDriftExactly | pkg/drift-detection/manager.go:483-501 | after recovery a resource is drifting exactly when it is absent or its last record is not the current digest |
| Recovery.HexRecordIsAlwaysReported | controllers/resourcesummary_controller.go:507-510 | after recovery, a resource whose last record was written by a registration is found to drift, changed or not |
| Recovery.PassFlags | pkg/drift-detection/drift_evaluation.go:64-84 | a pass flags every tracker of a resource that is absent or differs from its baseline, if the evaluation of that resource does not fail |
| Recovery.NoDriftMissedAcrossRestart | pkg/drift-detection/manager.go:420-505 | if the records of a resource agree on a digest, written raw or as hex, then after recovery and one pass that does not fail this resource every live summary recording it has a changed flag if it is absent or has another digest |
| Restart.RecoveryPublishesInitial | pkg/drift-detection/manager.go:145-152 | what recovery builds meets the premises of the run properties, with every baselined resource tracked and every recorded resource queued |
| Restart.NotFoundStaysUnindexed | pkg/drift-detection/manager.go:483-495 | a recorded resource that recovery did not find is baselined and not indexed, and stays unindexed over every run in which it stays baselined |
| Strays.StraysExactly | controllers/resourcesummary_controller.go:361-477 | over any history, whatever fails in it, a row is not remembered at the end exactly if it was not at the start, or a failed reconcile left it so, and no later reconcile brought its type up to date with a list that contains the resource |
| Strays.DeletionLeavesExactly | controllers/resourcesummary_controller.go:361-397 | a deletion after any such history leaves exactly these rows of the summary |
| Strays.StraysOverHistory | controllers/resourcesummary_controller.go:361-477 | if registrations fail only with not-found, such a row stays exactly until a reconcile of its summary lists the resource under that type, and none comes into being |
| Restart.RestartLeavesExactly | controllers/resourcesummary_controller.go:361-477 | after a restart and any history whose registrations fail only with not-found, a deleted summary stays registered for exactly the recorded resources that none of its reconciles listed under the type they were read back as |
| Restart.PlainResourceOutlivesItsSummary | pkg/drift-detection/manager.go:457-470 | a plain resource stays tracked as a helm resource after its summary is gone, whatever the history, exactly if no reconcile of the summary listed it as a helm resource |
| Reconciling.RegisterAllRelation | controllers/resourcesummary_controller.go:479-514 | a registration loop adds exactly the resources it attempts, which are all non-ignored entries if it ends, and it ends if calls fail only with not-found |
| Idempotence.RegistrationSucceedsExactly | controllers/resourcesummary_controller.go:489-506 | a registration loop ends without error exactly if no entry meets an error other than not-found, neither when it is asked about nor when it starts the watcher of a new GVK |
| Idempotence.RefusedFetchEndsReconcile | controllers/resourcesummary_controller.go:499-505 | a fetch that fails with another error, or an object that cannot be patched, ends the reconcile with an error |
| Reconciling.UnregisterAllRelation | controllers/resourcesummary_controller.go:342-357 | an unregistration loop removes exactly the listed triples |
| Reconciling.UpdateTypeRelation | controllers/resourcesummary_controller.go:399-438 | after one type, the summary tracks the non-ignored entries and whatever it tracked that was not both remembered and dropped; all other rows are untouched |
| Reconciling.FailedTypeLeaksExactly | controllers/resourcesummary_controller.go:404-407 | a type that fails part-way keeps its forward entry, and that still covers the rows exactly when nothing attempted is new to it |
| Reconciling.ReconcileStopsBetweenTypes | controllers/resourcesummary_controller.go:399-477 | however a reconcile ends, some number of types in order have memory, rows and status list brought up to date; memory and status list of the others, and the rows of those after the failing one, are unchanged |
| Reconciling.ReconcileKeepsListed | controllers/resourcesummary_controller.go:442-477 | the rows of each type after a reconcile are exactly the non-ignored entries and the earlier rows still listed |
| Reconciling.DeletionIsCompleteExactly | controllers/resourcesummary_controller.go:361-397 | a deletion leaves nothing of the summary exactly when the forward maps cover its rows |
| Reconciling.HistoryIndependent | controllers/resourcesummary_controller.go:361-477 | after any history of reconciles and deletions whose registrations fail only with not-found and in which no tracked entry becomes ignored, relation and forward maps are those of the latest specs of the live summaries |
| Reconciling.SameSpecsSameMaps | controllers/resourcesummary_controller.go:361-477 | two such histories with the same final specs end with the same reverse and forward maps |
| Reconciling.NothingOutlivesItsSummary | controllers/resourcesummary_controller.go:361-477 | even if tracked entries become ignored, a deletion after any such history leaves nothing of the summary |
| Interleaving.RowsOfRun | pkg/drift-detection/drift_evaluation.go:41-91 | whatever the evaluator and the notifications do in between, the rows of a run depend only on its registrations and unregistrations |
| Interleaving.RunFollowsHistory | controllers/resourcesummary_controller.go:361-477 | a run whose registrations and unregistrations are those of a history ends with the rows of that history |
| Interleaving.RunsAreHistoryIndependent | controllers/resourcesummary_controller.go:361-477 | history independence under every interleaving with the evaluator and with notifications |
| Idempotence.StatusAgrees | controllers/resourcesummary_controller.go:399-514 | if the cluster answers steadily, after a successful reconcile a status list has one entry per non-ignored resource in spec order, with the hex of the manager's baseline or nothing if there is none, exactly if no first baseline of a new GVK had its watcher start answered not-found on that type's turn |
| Idempotence.SecondReconcileChangesNothing | controllers/resourcesummary_controller.go:399-514 | reconciling again with spec and cluster unchanged changes no map, changes no status list exactly if the first reconcile met no such watcher start, and reconciling a third time changes nothing |
| Idempotence.SwallowedStartIsWrittenLate | controllers/resourcesummary_controller.go:500-506 | with one resource whose watcher start is answered not-found, the first reconcile writes an empty hash and the second the digest |
| Initialization.OnlyRecoveredManagersAreHandedOut | pkg/drift-detection/manager.go:115-177 | under every interleaving of initialise, get and reset, a manager handed out has completed recovery, and one whose recovery failed is not published |
| Initialization.NilReturnIsGoodExactly | pkg/drift-detection/manager.go:116-160 | over every run, a nil return leaves a manager published, and that manager has recovered exactly if the return is not that of the unlocked look during a recovery |
| Initialization.PublishedUntilReset | pkg/drift-detection/manager.go:162-177 | over every run, `GetManager` returns whatever is published, which has recovered; `Reset` unpublishes it; nothing else takes a recovered manager back |
| Initialization.NothingAfterReset | pkg/drift-detection/manager.go:162-177 | after a reset `GetManager` finds nothing until a manager is created again |
| Initialization.InitialiseCanReturnNilWithoutManager | pkg/drift-detection/manager.go:120-123 | a run in which initialising returns nil although no manager ever recovers |
| Types.HexInjective | controllers/resourcesummary_controller.go:507-510 | different baselines are written as different texts |
| Types.HexDigits | controllers/resourcesummary_controller.go:507-510 | every byte is written as its high and its low digit, in lower case |
| Manager.Manager.constructor | pkg/drift-detection/manager.go:125-143 | a new manager is empty |
| Manager.Manager.TrackResource | pkg/drift-detection/manager.go:270-291 | inserts the summary into the row of that type and changes nothing else |
| Manager.Manager.StillTrackingResource | pkg/drift-detection/manager.go:293-306 | true exactly when some row of the resource exists |
| Manager.Manager.StopWatcher | pkg/drift-detection/watcher.go:109-115 | cancels the informer of a watched GVK |
| Manager.Manager.StartWatcher | pkg/drift-detection/watcher.go:117-139 | starts one informer unless the GVK is watched or the start fails |
| Manager.Manager.StopTrackingResource | pkg/drift-detection/manager.go:308-324 | forgets the baseline and, with the last member, the GVK and its watcher |
| Manager.Manager.UpdateGvkMapAndStartWatcher | pkg/drift-detection/manager.go:326-339 | indexes the resource; a failed start leaves an empty set |
| Manager.Manager.RegisterResource | pkg/drift-detection/manager.go:183-218 | new maps and returned hash or error are those of `Tracking.Register`; a known baseline is returned, a found object is hashed with the patches of the summary, and errors are those of `Evaluation.RegistrationHashes` |
| Manager.Manager.UnRegisterResource | pkg/drift-detection/manager.go:220-268 | new maps are those of `Tracking.Unregister` |
| Manager.Manager.React | pkg/drift-detection/watcher.go:41-107 | queues the resource if a plain or helm row exists |
| Manager.Manager.GetResourceSummaries | pkg/drift-detection/drift_evaluation.go:144-166 | the union of the three rows |
| Manager.Manager.GetPatches | pkg/drift-detection/drift_evaluation.go:168-194 | the patches of the existing summaries in enumeration order, or the first error |
| Manager.Manager.UpdateResourceSummaryWithHash | pkg/drift-detection/drift_evaluation.go:304-317 | overwrites the first matching entry |
| Manager.Manager.RequestReconciliationForResourceSummary | pkg/drift-detection/drift_evaluation.go:255-302 | marks one section of one summary, if the summary exists; an error of the fetch, the conversion or the update changes nothing and is returned |
| Manager.Manager.RequestReconciliations | pkg/drift-detection/drift_evaluation.go:203-244 | the nested loops perform exactly the report's updates up to the first failure |
| Manager.Manager.EvaluateResource | pkg/drift-detection/drift_evaluation.go:95-142 | manager, store and error are those of `Evaluation.Evaluate` |
| Manager.Manager.EvaluateConfigurationDrift | pkg/drift-detection/drift_evaluation.go:53-84 | one iteration is `Passes.RunPass` and leaves exactly the failed set queued |
| Manager.Manager.ProcessResourceHashes | pkg/drift-detection/manager.go:475-505 | the loop is `Recovery.Recover` over the entries of one list |
| Manager.Manager.ReadResourceSummary | pkg/drift-detection/manager.go:454-473 | the three lists, with their exchanged types, in order |
| Manager.Manager.ReadResourceSummaries | pkg/drift-detection/manager.go:434-452 | the fold over all summaries that are not being deleted; a failing list call reads nothing; it fails if a first fetch is refused |
| Reconciler.ResourceSummaryReconciler.GetMapValue | controllers/resourcesummary_controller.go:548-564 | the remembered set, if any |
| Reconciler.ResourceSummaryReconciler.SetMapValue | controllers/resourcesummary_controller.go:566-579 | replaces the remembered set of one summary and type |
| Reconciler.ResourceSummaryReconciler.RemoveMapEntry | controllers/resourcesummary_controller.go:533-546 | forgets one summary under one type |
| Reconciler.ResourceSummaryReconciler.RegisterResources | controllers/resourcesummary_controller.go:479-514 | manager and hash list are those of `Reconciling.RegisterAll`; without a manager an error |
| Reconciler.ResourceSummaryReconciler.UnregisterResources | controllers/resourcesummary_controller.go:342-357 | the manager is that of `Reconciling.UnregisterAll`; without a manager an error |
| Reconciler.ResourceSummaryReconciler.UpdateMapsForResourceType | controllers/resourcesummary_controller.go:399-438 | forward map, manager and hash list are those of `Reconciling.UpdateType` |
| Reconciler.ResourceSummaryReconciler.UpdateMapsAndResourceSummaryStatus | controllers/resourcesummary_controller.go:442-477 | forward maps, manager, error and status, replaced lists of earlier types included, are those of `Reconciling.Reconcile`; without a manager nothing changes |
| Reconciler.ResourceSummaryReconciler.CleanMaps | controllers/resourcesummary_controller.go:361-397 | forward maps and manager are those of `Reconciling.Clean`; without a manager nothing changes |

## Left out

- Start-up, flags, REST configuration, token expiry, health checks, the version record and the wait group: process plumbing.
- REST mapping, discovery, dynamic informers and event delivery: a fetch or a watcher start is an answer, a delivered event is a call of `React`.
- SHA-256, rendering, patching and conversion to typed objects: foreign code, kept as arbitrary functions.
- The encoding of status text on its way to and from the API server: text is kept byte for byte, so raw hashes that are not valid UTF-8 come back as written.
- Scope, finalizers, fetching the ResourceSummary, and namespace defaulting of chart resources: reconcile takes the normalised lists, and an error in building them ends it before it changes anything.
- The loss of a concurrent status write: a status update replaces the section it read, and conflicts count as failed calls.
- Reading a row and enumerating it, when a drift is reported, are one step of the machine, and so are collecting patches and hashing; recovery is one sequential phase before publication.
- Scheduling: a pass ends and the evaluator is never stuck, but that it is given the processor again is not part of the model.
- Object identity of the sets held in the maps: a map value is a set value, so two maps never share one.
