# A verified model of karydia's controllers and admission plugin

karydia keeps a Kubernetes cluster secure by default. Three parts of it change or transform state, and
this project models all three and proves what they keep, what they reach and what they leave alone.

* **Network policies.** A controller copies policy templates into namespaces, repairs them and deletes
  those that are no longer wanted. `NetworkPolicies` says on values what a handler run does, with API
  calls that fail at any position and caches of any age. `NetworkPolicyReconciler` is the controller
  itself, updating its template buffer and the cluster in place, proved against those values.
  `NetworkPolicyLaws` holds what is true whatever fails, `NetworkPolicyConvergence` what one run reaches
  when nothing fails, `NetworkPolicyRuns` that the controller never feeds itself forever, and
  `NetworkPolicyHealing` where whole runs end while others change policies and calls fail.
  `NetworkPolicyRepair`, `NetworkPolicyFailures`, `NetworkPolicyOutcomes` and `NetworkPolicyExclusion` say
  exactly which changes are mended, which failures are made up for, when all runs end the same, and
  what the exclusion list is worth.
* **The configuration.** `ConfigProtocol` is a state machine of an API server, a watch stream that lags
  behind it, a cache, a deduplicating queue with retries, the copy in memory and the controllers it is
  handed on to. Users act at any time, any number of workers is under way, and a cache read and the act
  that follows it are separate steps. `ConfigReconciler` is the program's side of it, updated in place, and
  `ConfigDraining` proves that fair runs come to rest in agreement, `ConfigPropagation` what that leaves
  controllers that fail with.
* **Admission.** `PodMutation` and `ServiceAccounts` build JSON Patch operations (section 4.1 of RFC
  6902) addressed by JSON Pointers (sections 3 and 4 of RFC 6901). `JsonPatch` evaluates such patches on
  JSON values, failing when one operation fails (section 5 of RFC 6902). `PodPatching` and
  `PodDefaulting` prove what a pod's patch means. `PodStatus` is the status computation, `Admission` the
  decision, `AdmissionOutcomes` what it comes to for each object, `PodDocuments` the documents behind the
  typed view, `Webhook` the combination of plugins.

Where the code does less than one would expect of it, the exact condition is proved:

* A pod's patch does not always apply. A pod whose JSON has no `metadata` object decodes, but an
  annotation cannot be added to it (`PodPatching.PatchMayNotApply`). `PodPatching.PodPatchMeaning` says
  exactly when a patch applies.
* Only the slash of an annotation key is escaped. `Text.EscapeRoundTrip` shows that this is right exactly
  for keys without a tilde.
* Handling two namespaces in different orders can end differently (`NetworkPolicyConvergence.OrderCanMatter`).
  `NetworkPolicyConvergence.HandlersCommuteExactly` says exactly when.
* From start-up the controller need not converge, because a template that is loaded for one namespace
  makes equally named policies of namespaces handled before deletable, and nothing queues those again.
  `NetworkPolicyHealing.ConvergenceCanFail` is such a start, and `NetworkPolicyHealing.ConvergesExactly` says
  exactly when it always converges.
  Whether all its runs end the same is decided by the same condition (`NetworkPolicyOutcomes.OutcomeIsUniqueExactly`).
* One expected name without a template keeps the policy handler from repairing any expected policy of the
  namespace (`NetworkPolicyConvergence.MissingTemplateBlocksRepair`, and from rest
  `NetworkPolicyRepair.RepairCanFail`). `NetworkPolicyRepair.MendsExactly` says exactly which outside
  changes are mended.
* A failure that a handler logs and forgets can be lost for good (`NetworkPolicyFailures.FailureCanBeLost`).
  `NetworkPolicyFailures.NamespaceRunConvergesExactly`, `NetworkPolicyFailures.PolicyRunMendsExactly` and
  `NetworkPolicyFailures.PolicyRunRemovesExactly` say exactly which failures a run makes up for.
* An excluded namespace (docs/features.md:26) is not safe from the controller: the list is consulted when a
  namespace is handled, but not when a policy of it is (`NetworkPolicyExclusion.ExclusionCanFail`).
  `NetworkPolicyExclusion.ExcludedStaysAsItIs` and `NetworkPolicyExclusion.PolicyRunTouchesExactly` say when it
  stays as it is.
* Service accounts of `kube-system` are not exempt from defaulting (docs/features.md:88 says they are);
  `Admission.KubeSystemExemptExactly` says exactly when they are left alone.
* A controller that fails during an update of the configuration is not told again by the retry
  (`ConfigProtocol.RetryDoesNotPropagate`, and over a whole run `ConfigPropagation.PropagationCanFail`).
  `ConfigProtocol.PropagationExactly` says exactly when all are told, and `ConfigPropagation.StaysBehind` that
  nothing but a new spec helps one that was not.

Where documentation and code disagree, the model follows the code.

## Model

| member | source | states |
|---|---|---|
| NetworkPolicyRuns.StepDecreases | pkg/controller/networkpolicy_reconciler.go:98-121 | With settings fixed and no API errors, every handler step strictly decreases (templates to load, deviating live policies over all namespaces, queued keys), although its own updates and deletes queue new keys. |
| NetworkPolicyRuns.StepQueuesExactly | pkg/controller/networkpolicy_reconciler.go:98-108 | A handler step queues exactly the keys of the policies it updated or deleted, and none for what it created. |
| NetworkPolicyRuns.NeverFeedsItselfForever | pkg/controller/networkpolicy_reconciler.go:150-157 | No infinite sequence of states consists of handler steps only. |
| NetworkPolicyHealing.ConvergesExactly | pkg/controller/networkpolicy_reconciler.go:298-340 | From start-up, with or without enforcement, wherever runs come to rest every handled namespace is converged, if and only if no live policy bears an unloaded template's name that its own namespace does not expect and another handled one does. |
| NetworkPolicyHealing.SelfHealing | pkg/controller/networkpolicy_reconciler.go:98-121 | However others make mendable updates and deletes, and whatever failures handler runs meet that requeue their key or are made up for, while templates are still being loaded: once that stops, the controller comes to rest with every handled namespace converged and its loadable names loaded. |
| NetworkPolicyHealing.EveryRunConverges | pkg/controller/networkpolicy_reconciler.go:150-228 | Left alone in a ready state, every run that keeps handling queued keys becomes idle with all handled namespaces converged, also when its steps load templates. |
| NetworkPolicyHealing.StepKeepsReady | pkg/controller/networkpolicy_reconciler.go:230-332 | No step of either handler, loading or not, loses sight of a name that is not converged in any namespace, and none makes a policy a stray. |
| NetworkPolicyHealing.FailureKeepsReady | pkg/controller/networkpolicy_reconciler.go:247-254 | Neither does a handler run with any failures and any old lister that ends with an error, since its key is requeued, or whose own work is done all the same. |
| NetworkPolicyHealing.TamperingKeepsReady | pkg/controller/networkpolicy_reconciler.go:98-108 | Neither does a mendable outside update or delete, since its event queues the policy's key. |
| NetworkPolicyHealing.StartsReady | pkg/controller/networkpolicy_reconciler.go:110-118 | At start-up the controller is ready if and only if there are no strays; with enforcement there are none, and every outside change is mendable once the configured names resolve. |
| NetworkPolicyHealing.StrayRemains | pkg/controller/networkpolicy_reconciler.go:452-468 | With a stray, some run from start-up comes to rest with the stray still live although by then its name is buffered. |
| NetworkPolicyHealing.ConvergenceCanFail | pkg/controller/networkpolicy_reconciler.go:452-468 | A concrete start with two namespaces and one template from which some run ends unconverged. |
| NetworkPolicyOutcomes.OutcomeIsUniqueExactly | pkg/controller/networkpolicy_reconciler.go:298-340 | From start-up all runs that come to rest end in the same state, whatever the order of the handler runs, if and only if there are no strays. |
| NetworkPolicyOutcomes.EveryRunEndsTheSame | pkg/controller/networkpolicy_reconciler.go:230-364 | Without strays that state is given outright: the buffer with all wanted names, every policy that is decided about as reconciling the start makes it, and all others untouched. |
| NetworkPolicyRepair.MendsExactly | pkg/controller/networkpolicy_reconciler.go:230-296 | From rest, after any outside update or delete of one policy in any namespace, every run converges again if and only if the change is mendable: a spoilt expected policy's names all resolve, and a visit to an excluded namespace loads no stray's name. |
| NetworkPolicyRepair.RepairCanFail | pkg/controller/networkpolicy_reconciler.go:263-270 | A namespace at rest with a policy whose deletion some run does not make up for. |
| NetworkPolicyFailures.NamespaceRunConvergesExactly | pkg/controller/networkpolicy_reconciler.go:316-329 | With the lister in sync and any failing calls, a namespace run without an error ends converged if and only if every name that can be had has an occurrence whose load and write do not fail, and no lookup of a live surplus policy does. |
| NetworkPolicyFailures.NamespaceRunMendsExactly | pkg/controller/networkpolicy_reconciler.go:316-329 | That is exactly when such a run is one of those SelfHealing allows. |
| NetworkPolicyFailures.PolicyRunMendsExactly | pkg/controller/networkpolicy_reconciler.go:241-249 | A policy run without an error leaves its expected policy as it should be if and only if it was so before, or neither the namespace's lookup nor a needed load nor the write fails and all names resolve. |
| NetworkPolicyFailures.PolicyRunRemovesExactly | pkg/controller/networkpolicy_reconciler.go:452-468 | A policy run without an error has removed its unexpected buffered policy if and only if it was not live, or neither the namespace's lookup nor its own failed. |
| NetworkPolicyFailures.LoopDecides | pkg/controller/networkpolicy_reconciler.go:320-324 | After the loop over the names, an expected policy is right if and only if one occurrence of its name was handled without a failure, duplicates included. |
| NetworkPolicyFailures.FailureCanBeLost | pkg/controller/networkpolicy_reconciler.go:320-324 | A start without strays from which one failing creation leaves a namespace unconverged with nothing queued and no error. |
| NetworkPolicyExclusion.ExcludedStaysAsItIs | pkg/controller/networkpolicy_reconciler.go:309-314 | Over every run of handler steps an excluded namespace none of whose policies is queued keeps all its policies, and none gets queued. |
| NetworkPolicyExclusion.RunLeavesExcluded | pkg/controller/networkpolicy_reconciler.go:309-314 | The same for one run with any failures and any old lister. |
| NetworkPolicyExclusion.PolicyRunTouchesExactly | pkg/controller/networkpolicy_reconciler.go:230-258 | A run on a policy of an excluded namespace leaves all policies there as they are if and only if its policy, where it gets to reconcile it, is as it should be, and no live policy there is surplus. |
| NetworkPolicyExclusion.ExclusionCanFail | pkg/controller/networkpolicy_reconciler.go:230-258 | An excluded namespace at rest in which a deleted policy is created by one handler step. |
| NetworkPolicyRuns.NeverStuck | pkg/controller/networkpolicy_reconciler.go:159-228 | While any key is queued, a handler step is possible, so runs that handle keys until none is left exist. |
| NetworkPolicyRuns.BufferIsForever | pkg/controller/networkpolicy_reconciler.go:408-441 | Over any run of configuration updates, outside changes and handler runs with any failures and any caches, buffer entries are never removed or changed, and each has its key as name, no namespace and no annotations. |
| NetworkPolicyRuns.BufferComesFromTemplates | pkg/controller/networkpolicy_reconciler.go:419-433 | An entry that such a run loaded has, for good, the spec that its resource had at some moment before. |
| NetworkPolicyRuns.EnforcementFixesPolicies | pkg/controller/networkpolicy_reconciler.go:366-376 | All namespaces want the same policies, whatever their annotations, if and only if enforcement is on. |
| NetworkPolicyConvergence.NamespaceHandlerReconciles | pkg/controller/networkpolicy_reconciler.go:298-364 | The exact effect of a run without API errors and with the lister in sync, for any list of names with duplicates or unloadable ones: the new buffer, every live policy and the events raised. |
| NetworkPolicyConvergence.NamespaceHandlerConverges | pkg/controller/networkpolicy_reconciler.go:298-364 | Every expected name that is buffered or loadable is live with the buffered spec in its marshalled form, no other buffered name is live there, and all else, in this namespace and others, is as before. |
| NetworkPolicyConvergence.NamespaceHandlerMakesPolicies | pkg/controller/networkpolicy_reconciler.go:298-450 | The same on the fields of the objects: the annotation or the configured names govern, a newly loaded template has its resource's spec, and an expected policy is left as it is if its marshalled spec is the template's, else overwritten bare, and created with the annotation source/name if it was not there. |
| NetworkPolicyConvergence.NamespaceHandlerIsIdempotent | pkg/controller/networkpolicy_reconciler.go:298-332 | A second run with the lister caught up creates, updates, deletes and loads nothing: it raises no event, changes no policy and no template, and has no error. |
| NetworkPolicyConvergence.ReconcileConverged | pkg/controller/networkpolicy_reconciler.go:334-364 | A converged namespace is a fixed point of reconciliation. |
| NetworkPolicyConvergence.HandlersCommuteExactly | pkg/controller/networkpolicy_reconciler.go:334-340 | Handling two namespaces gives the same live policies in either order if and only if neither has a live policy that the other one's run alone makes deletable. |
| NetworkPolicyConvergence.BufferedHandlersCommute | pkg/controller/networkpolicy_reconciler.go:419-433 | Once every loadable name of both settings is buffered, the order makes no difference. |
| NetworkPolicyConvergence.OrderCanMatter | pkg/controller/networkpolicy_reconciler.go:452-468 | Two namespaces, a template and a store for which all four handler runs exist and the two orders end with different live policies. |
| NetworkPolicyConvergence.PolicyHandlerReconciles | pkg/controller/networkpolicy_reconciler.go:230-296 | The exact effect of a policy handler run without API errors: the templates before the first unresolvable name are loaded, the policy is reconciled only if every expected name resolves, and surplus policies of the namespace are deleted either way. |
| NetworkPolicyConvergence.PolicyHandlerRepairs | pkg/controller/networkpolicy_reconciler.go:230-296 | From a converged namespace with its names buffered, any outside update or delete of one policy is undone for a managed policy, which ends with the template's marshalled spec, and left alone for any other. |
| NetworkPolicyConvergence.MissingTemplateBlocksRepair | pkg/controller/networkpolicy_reconciler.go:263-270 | One expected name that cannot be resolved keeps the handler from repairing any expected policy of the namespace. |
| NetworkPolicyConvergence.LoadAllCloses | pkg/controller/networkpolicy_reconciler.go:260-270 | Without API errors, loading succeeds exactly when every expected name is buffered or has a template, and loads exactly the names before the first one that is neither. |
| NetworkPolicyLaws.NamespaceHandlerIsSafe | pkg/controller/networkpolicy_reconciler.go:298-332 | Whatever calls fail and however old the caches are, a run writes only expected buffered policies of its namespace from their templates, removes only buffered unexpected ones, loads only expected templates, raises events only there, and does nothing for excluded or missing namespaces. |
| NetworkPolicyLaws.PolicyHandlerIsSafe | pkg/controller/networkpolicy_reconciler.go:230-258 | The same for a run on a policy's key; a malformed key, a missing namespace or a failing lookup of it changes nothing. |
| NetworkPolicyLaws.NameGuardIsAlwaysTrue | pkg/controller/networkpolicy_reconciler.go:272 | The comparison with the template's own name never decides for an expected name that is reached. |
| NetworkPolicyLaws.DeletionOrderIrrelevant | pkg/controller/networkpolicy_reconciler.go:452-468 | Without API errors the map's iteration order does not matter, and no expected name is removed. |
| NetworkPolicyLaws.DeletesEffect | pkg/controller/networkpolicy_reconciler.go:452-468 | Whatever the order and the failures: only unexpected policies go, each with an event, an error is a failing last deletion, and without one at most as many unexpected policies remain as lookups failed. |
| NetworkPolicyReconciler.NetworkpolicyReconciler.SyncNamespaceHandler | pkg/controller/networkpolicy_reconciler.go:298-332 | The method changes buffer and cluster in place as the value-level handler does for some order of the deletions, call by call, for every failure pattern. |
| NetworkPolicyReconciler.NetworkpolicyReconciler.SyncNetworkPolicyHandler | pkg/controller/networkpolicy_reconciler.go:230-258 | The same for the handler of a policy's key. |
| NetworkPolicyReconciler.NetworkpolicyReconciler.SyncNetworkPolicy | pkg/controller/networkpolicy_reconciler.go:260-296 | Loads all expected names, gives up silently at the first that fails, and otherwise creates or updates the one policy. |
| NetworkPolicyReconciler.NetworkpolicyReconciler.SyncNamespace | pkg/controller/networkpolicy_reconciler.go:334-364 | Loads one name or skips it, then creates, updates or keeps its policy as the lister has it. |
| NetworkPolicyReconciler.NetworkpolicyReconciler.DeleteMultipleDefaultNetworkPolicies | pkg/controller/networkpolicy_reconciler.go:452-468 | The loop is one lookup and deletion after the other over all buffered unexpected names, each once, in some order, ending early only with the error of a failing deletion. |
| NetworkPolicyReconciler.NetworkpolicyReconciler.CreateDefaultNetworkPolicy | pkg/controller/networkpolicy_reconciler.go:435-450 | Creates, with the template's name and spec, a policy of the namespace annotated with source/name, or nothing, and raises no event. |
| NetworkPolicyReconciler.NetworkpolicyReconciler.UpdateDefaultNetworkPolicy | pkg/controller/networkpolicy_reconciler.go:408-417 | Writes the template's name, annotations and spec over a policy that still exists, and raises an event. |
| NetworkPolicyReconciler.NetworkpolicyReconciler.UpdateBuffer | pkg/controller/networkpolicy_reconciler.go:419-433 | Puts a policy of the name with the resource's spec, no namespace and no annotations under its name, or reports an error and changes nothing. |
| NetworkPolicyReconciler.NetworkpolicyReconciler.ReconcileIsNeeded | pkg/controller/networkpolicy_reconciler.go:397-406 | An update is due exactly when the marshalled specs differ, whatever else does. |
| NetworkPolicyReconciler.NetworkpolicyReconciler.UpdateConfig | pkg/controller/networkpolicy_reconciler.go:69-73 | Takes over enforcement and names, keeps the exclusion list and never fails. |
| ConfigProtocol.DrainedMeansAgreed | pkg/controller/config_reconciler.go:72-84 | In every state of every run, with a lagging watch, user actions and transient failures: when the key is not pending and no update or delete of it is undelivered, the API server holds the configuration with the spec in memory. The name in memory never changes. |
| ConfigProtocol.NextKeepsInv | pkg/controller/config_reconciler.go:127-227 | Every single step of users, watch, workers and retries keeps the invariant behind it. |
| ConfigProtocol.CanAlwaysDrain | pkg/controller/config_reconciler.go:127-227 | From every reachable state deliveries, worker steps and retries without new failures can reach a drained, agreeing state: no reachable state is stuck. |
| ConfigDraining.FairRunsDrain | pkg/controller/config_reconciler.go:127-227 | Whatever users did and whatever failed before: once that stops, every continuation that does not put watch events off forever comes to rest with nothing queued, and the API server then holds the spec in memory. |
| ConfigDraining.StepProgresses | pkg/controller/config_reconciler.go:159-163 | Every such step keeps or lowers the number of events still to come, and with none coming lowers the work that is left, retries after an old read included. |
| ConfigProtocol.ControllerNeverOverwrites | pkg/controller/config_reconciler.go:184-227 | No step of the controller changes or removes a configuration that is in the API server. |
| ConfigProtocol.ControllersAgree | pkg/controller/config_reconciler.go:251-258 | With controllers that never fail, as the repository's two, in every reachable state each still holds what it held in kind: the whole configuration in memory, or its enforcement flag and network-policy names. |
| ConfigProtocol.PropagationExactly | pkg/controller/config_reconciler.go:251-266 | After an adoption all controllers agree if and only if those from the failing one on held the values before, and a failure puts the key up for a retry. |
| ConfigProtocol.RetryDoesNotPropagate | pkg/controller/config_reconciler.go:242-258 | The retry after a failed propagation finds equal specs and tells no controller. |
| ConfigPropagation.StaysBehind | pkg/controller/config_reconciler.go:242-258 | Over any stretch of any run in which no new spec is adopted, no controller's holding changes. |
| ConfigPropagation.PropagationCanFail | pkg/controller/config_reconciler.go:251-258 | A run from start-up, with one failure, that ends at rest and in agreement with a controller that holds the old configuration. |
| ConfigProtocol.ReplaySnoc | pkg/controller/config_reconciler.go:72-84 | Replaying the undelivered events onto the cache follows every write to the API server. |
| ConfigProtocol.QuietIsCurrent | pkg/controller/config_reconciler.go:203 | What the lister holds is current as long as no update or delete of it is undelivered. |
| ConfigProtocol.DeliveryQueuesExactly | pkg/controller/config_reconciler.go:72-84 | A delivered event queues its key exactly for a deletion and for a known object with another version, and updates the cache. |
| ConfigProtocol.ResyncQueuesNothing | pkg/controller/config_reconciler.go:76-80 | A resync, which hands over objects as they are in the cache, queues nothing and changes nothing. |
| ConfigReconciler.ConfigReconciler.UpdateConfig | pkg/controller/config_reconciler.go:251-266 | Memory takes the new configuration, the controllers before the first failing one are told and the others untouched; an error exactly when one fails. |
| ConfigReconciler.ConfigReconciler.CreateConfig | pkg/controller/config_reconciler.go:269-277 | Recreates the configuration from memory under a fresh version exactly when the name is free and the call succeeds; memory stays. |
| ConfigReconciler.ConfigReconciler.SyncConfigHandler | pkg/controller/config_reconciler.go:184-227 | Does exactly the protocol's act for what the lister holds, and reports an error exactly when the protocol has one. |
| ConfigReconciler.ConfigReconciler.ProcessNextConfigWorkItem | pkg/controller/config_reconciler.go:127-181 | One turn of a worker changes the whole state, queue included, as the protocol's four steps do. |
| ConfigReconciler.TurnIsARun | pkg/controller/config_reconciler.go:127-181 | Such a turn is a run of the protocol, so what holds over every run holds for the program's worker. |
| ConfigReconciler.Controller.UpdateConfig | pkg/controller/networkpolicy_reconciler.go:69-73 | A controller takes over its part of the configuration, in the form it had, or fails and keeps what it had. |
| PodPatching.PodPatchMeaning | pkg/admission/karydia/admission_pod.go:31-43 | For every pod document and pair of settings the patch applies if and only if the document has the objects it writes into, and then gives exactly the directly defined defaulted document. |
| PodPatching.PatchMayNotApply | pkg/admission/karydia/admission_pod.go:177-194 | A concrete pod, without metadata, that decodes but whose patch does not apply. |
| PodPatching.SeccompMeaning | pkg/admission/karydia/admission_pod.go:106-113 | The seccomp stage merges exactly its two annotations into the document, and the flag says whether an annotations object exists by then. |
| PodPatching.IdentityMeaning | pkg/admission/karydia/admission_pod.go:115-142 | User and group are set, in a new security context or beside what the present one holds. |
| PodPatching.ContainersMeaning | pkg/admission/karydia/admission_pod.go:143-164 | After n containers exactly the first n elements are defaulted, whatever n; indices are addressed in decimal. |
| PodDefaulting.PatchedPodDecodes | pkg/admission/karydia/admission_pod.go:168-175 | The patched document decodes to exactly the defaulted pod. |
| PodDocuments.PodRoundTrip | pkg/admission/karydia/admission_pod.go:168-175 | Every pod of the typed view has a document that decodes to it, so each field is read from its own member. |
| PodDocuments.AccountRoundTrip | pkg/admission/karydia/admission_service_account.go:94-101 | The same for service accounts. |
| PodDocuments.NullIsAbsent | pkg/admission/karydia/admission_pod.go:168-175 | A null member of a document decodes like an absent one. |
| PodDocuments.AnnotationValues | pkg/admission/karydia/admission_pod.go:168-175 | A null annotation decodes to the empty string, one that is no string fails. |
| PodDefaulting.PatchFrame | pkg/admission/karydia/admission_pod.go:106-165 | Every JSON location apart from those of the defaults is the same after the patch. |
| PodDefaulting.MutationIsIdempotent | pkg/admission/karydia/admission_pod.go:106-165 | Mutating the defaulted pod under the same settings emits nothing. |
| PodDefaulting.ExplicitValuesKept | pkg/admission/karydia/admission_pod.go:106-165 | A stated profile, user or group, escalation flag or annotation other than the two internal ones is never overwritten. |
| PodDefaulting.StagedPatch | pkg/admission/karydia/admission_pod.go:31-43 | The patch built in one pass from the original pod equals, operation for operation, the seccomp patch followed by the security patch of the pod with the first patch applied. |
| PodDefaulting.SeccompFlag | pkg/admission/karydia/admission_pod.go:177-194 | The flag is set exactly when the first stage made the annotations object of a pod without annotations. |
| PodDefaulting.ValidationCharacterisesMutation | pkg/admission/karydia/admission_pod.go:45-58 | A pod fails validation if and only if its patch has an operation outside the containers. |
| PodMutation.AnnotatePod | pkg/admission/karydia/admission_pod.go:177-194 | Appends the creation of the annotations object once, and single annotations from then on. |
| PodPatching.AnnotationLands | pkg/admission/karydia/admission_pod.go:177-194 | Wherever an annotation operation applies, the annotation is found under its unescaped key afterwards and everything beside it is as before. |
| PodMutation.MutatePodSeccompProfile | pkg/admission/karydia/admission_pod.go:106-113 | Appends the two annotations exactly when the pod names no profile. |
| PodMutation.MutatePodSecurityContext | pkg/admission/karydia/admission_pod.go:115-166 | The loop over the containers fills the patch in place as the stage's specification says. |
| PodMutation.MutatePod | pkg/admission/karydia/admission_pod.go:31-43 | The operations are the specified patch, whose meaning the lemmas of PodPatching give. |
| PodMutation.ValidatePodSecurityContext | pkg/admission/karydia/admission_pod.go:93-104 | Appends one error exactly for a pod without user and group under the setting nobody. |
| PodMutation.ValidatePod | pkg/admission/karydia/admission_pod.go:45-58 | The errors of both validators in order, each skipped for an empty setting. |
| ServiceAccounts.AccountPatchMeaning | pkg/admission/karydia/admission_service_account.go:74-87 | A service account's patch applies if and only if the metadata it needs is an object, and gives exactly the defaulted document. |
| ServiceAccounts.PatchedAccountDecodes | pkg/admission/karydia/admission_service_account.go:94-101 | The patched document decodes to exactly the defaulted account. |
| ServiceAccounts.AccountMutationIsIdempotent | pkg/admission/karydia/admission_service_account.go:74-92 | A patched account is not patched again, and an explicit token mount is never changed. |
| ServiceAccounts.AccountValidationCharacterisesMutation | pkg/admission/karydia/admission_service_account.go:61-87 | An account fails validation if and only if its patch is non-empty. |
| ServiceAccounts.AccountPatchFrame | pkg/admission/karydia/admission_service_account.go:103-119 | Every JSON location but the token mount and the one annotation is the same after the patch. |
| ServiceAccounts.MutateServiceAccountTokenMount | pkg/admission/karydia/admission_service_account.go:74-87 | Appends the two operations exactly for an account the setting covers that leaves the mount undefined. |
| ServiceAccounts.ValidateServiceAccountTokenMount | pkg/admission/karydia/admission_service_account.go:61-72 | Appends one error exactly for such an account. |
| PodStatus.GetPodStatus | pkg/admission/karydia/admission.go:166-227 | The two loops compute the declarative status: deletion first, then the first outstanding init container, then the lowest-indexed container that sets a status, else the phase, with Completed raised to Running. |
| PodStatus.StatusIsUnique | pkg/admission/karydia/admission.go:166-227 | The declarative status exists and is unique for every pod, so it determines the loops' result. |
| PodStatus.TerminatingCharacterised | pkg/admission/karydia/admission.go:222-224 | The status is Terminating if and only if a deletion timestamp is set, or no init container is outstanding and the derived reason is that word. |
| PodStatus.MainReasonIsLowest | pkg/admission/karydia/admission.go:196-213 | The downward loop's reason is that of the lowest-indexed container that sets one. |
| PodStatus.FailedInitShows | pkg/admission/karydia/admission.go:166-193 | A failed init container shows its reason, else its signal, else its exit code. |
| PodStatus.ContainersShow | pkg/admission/karydia/admission.go:195-219 | With init containers done, the lowest-indexed container with a waiting reason or a termination shows, else the phase, with Completed raised to Running by a ready running container. |
| Admission.MutatedIsAdmitted | pkg/admission/karydia/admission.go:77-125 | For every review: what the mutating pass admits and patches, the validating pass admits, and mutating again changes nothing. |
| Admission.PatchKeepsStatus | pkg/admission/karydia/admission.go:87-89 | A pod's patch never changes what its status is computed from. |
| AdmissionOutcomes.MutatedPodIsConfigured | pkg/admission/karydia/admission_pod.go:31-165 | A live pod admitted with mutation is, after its patch, field by field what the governing profile and context make of it: the profile and both internal annotations with value and source, user and group 65534, the flag false where it was not set, all else as stated. |
| AdmissionOutcomes.PodIsRefusedExactly | pkg/admission/karydia/admission_pod.go:45-104 | The validating pass refuses a live pod if and only if the mutating pass would do more than default containers, that is, if it lacks a governing profile or identity, and the message names what. |
| AdmissionOutcomes.MutatedAccountIsConfigured | pkg/admission/karydia/admission_service_account.go:29-87 | A service account admitted with mutation ends with its token mount off and annotated with value and source if the governing value covers it, and otherwise as it was. |
| AdmissionOutcomes.AccountIsRefusedExactly | pkg/admission/karydia/admission_service_account.go:40-72 | The validating pass refuses a service account if and only if its patch is non-empty, that is, if the governing value covers it, and the message says which way. |
| AdmissionOutcomes.OtherReviewsAreAnswered | pkg/admission/karydia/admission.go:77-164 | Operations other than CREATE and UPDATE, other kinds and terminating pods are admitted without a patch; what does not decode or has no known namespace is refused. |
| Admission.EnforcementIgnoresAnnotations | pkg/admission/karydia/admission_pod.go:60-82 | With enforcement on, annotations of namespaces other than kube-system influence no response to any review. |
| Admission.AnnotationsCountWithoutEnforcement | pkg/admission/karydia/admission_pod.go:60-70 | Without enforcement some annotation of the namespace changes the setting. |
| Admission.KubeSystemExemptExactly | pkg/admission/karydia/admission_service_account.go:51-59 | No service account of kube-system is patched if and only if the setting that applies there is neither change-all nor change-default. |
| Admission.KarydiaAdmission.Admit | pkg/admission/karydia/admission.go:77-125 | The branches of the decision: ignored operations, decoding errors, terminating pods, missing namespaces, mutation and validation. |
| Admission.KarydiaAdmission.UpdateConfig | pkg/admission/karydia/admission.go:41-44 | Replaces the held configuration and never fails. |
| Webhook.Webhook.Admit | pkg/webhook/webhook.go:62-81 | Allows if and only if every plugin allows and at most one patches, then answers with that patch; a refusal is that of the first plugin that gives a reason. |
| Webhook.ResponseIsUnique | pkg/webhook/webhook.go:62-81 | The conditions of an answer and of a refusal each fit one response only. |
| Webhook.Webhook.RegisterAdmissionPlugin | pkg/webhook/webhook.go:58-60 | Appends the plugin and keeps the order of the others. |
| Webhook.TwoMutatorsConflict | pkg/k8sutil/admission.go:51-63 | For every review that is not ignored, two copies of the plugin refuse a live pod, since even an empty mutation counts as a patch. |
| JsonPatch.PatchConcat | pkg/admission/karydia/admission_pod.go:115-166 | Appending operations composes patches, and a failing operation fails the whole. |
| Text.EscapeRoundTrip | pkg/admission/karydia/admission_pod.go:190 | Escaping only the slash is undone by reading the pointer if and only if the key has no tilde. |
| Text.IndexRoundTrip | pkg/admission/karydia/admission_pod.go:148 | The decimal token of an index is the only token read as that index. |
| Text.FormatIntRoundTrip | pkg/admission/karydia/admission.go:178 | A formatted signal or exit code, negative ones included, reads back as itself. |
| Text.SplitJoin | pkg/controller/networkpolicy_reconciler.go:317 | Joining names without the delimiter and splitting gives the names back. |
| Text.JoinSplit | pkg/controller/networkpolicy_reconciler.go:317 | Splitting loses nothing, and no part holds the delimiter. |
| ObjectKeys.KeyRoundTrip | vendor/k8s.io/client-go/tools/cache/store.go:95-109 | The queue key of a namespaced object is read back as its namespace and name. |
| ObjectKeys.ClusterKeyRoundTrip | vendor/k8s.io/client-go/tools/cache/store.go:95-109 | The queue key of a cluster-scoped object is its name and is read back as it. |

## Left out

- HTTP serving, TLS, body limits, logging, command-line flags, Helm charts: no logic of their own.
- Generated client code and deep copies: clients are operations on maps, and templates are values, so a write through an alias of a buffered template is not expressible.
- Informer, rate-limiting and back-off internals: the watch stream is perfect and ordered, differing versions of an object differ in their resource version, and no key is with two workers at once.
- Data races between workers on fields without a lock: a network-policy handler run is atomic, with the lister a snapshot taken when it starts; in the configuration protocol the cache read and the act are separate steps.
- Server-side checks of resource versions: a create succeeds when the name is free and the call does not fail.
- Convergence after others create policies, or after configuration or templates change without an event: the code does not watch creations and queues no namespaces then.
- A missing configuration in the service-account resolver for a namespace without the annotation, and errors of the namespace lister other than not-found: the code would dereference a nil pointer, so they are preconditions.
- Decoding of members the admission code does not read, integer widths and timestamp syntax; a decoding error carries one fixed message, and a failed namespace lookup names no cause.
- The meaning of network policies and seccomp profiles: a spec is its marshalled form plus whatever that form does not show.
- Items of the queues that are not strings: the queues are typed.
- NetworkPolicyHealing.SelfHealing: covers outside updates and deletes that are mendable and failures that are requeued or made up for, each with its exact condition and a start from which others are lost; creations by others are not covered, because the code does not watch them.
- ConfigReconciler.ConfigReconciler.ProcessNextConfigWorkItem: is one turn with nothing in between; turns of several workers that interleave are covered by ConfigProtocol.
- Webhook.Webhook.Admit: plugins are functions of the review, so side effects of plugins are not modelled.
- PodMutation.MutatePodSecurityContext: the patch is filled through a reference, where the source passes the struct by value and returns it.
