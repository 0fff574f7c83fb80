# Verification of the Crossplane service provider

The service provider installs Crossplane, with providers and functions, into a control plane and
removes it again. This project models its reconciler and proves what the reconciler guarantees, for
every run and every input.

| file | what it holds |
|---|---|
| `Types.dfy` | the spec, the ProviderConfig allow-list, results and error kinds |
| `Resolver.dfy` | the version resolver and its tolerant variant |
| `SecretRefs.dfy` | removal of duplicate secrets, by name and by target |
| `Naming.dfy` | CamelCase component names, their inverse, and which names share one |
| `Components.dfy` | components, their identity, orphan conversion, the writing of package objects |
| `Planner.dfy`, `PlanLaws.dfy` | `buildComponents` and what its plans guarantee; the secret watch |
| `Lifecycle.dfy` | one pass as a machine whose steps are single API calls, interleaved with users, other controllers, cluster changes and crashes |
| `LifecycleSafety.dfy`, `LifecycleRuns.dfy` | the invariant of the machine and the safety theorems over all runs |
| `LifecycleProgress.dfy`, `LifecycleLiveness.dfy` | what one call of a deletion achieves; termination of deletion, and exactly when |
| `LifecycleInstall.dfy` | an admitted spec becomes Ready |
| `Conditions.dfy` | conditions, the Reconciled verdict, phase, requeue |
| `Controller.dfy` | the reconciler as objects changed in place; a ghost log ties every pass to a run of the machine |

`dafny verify dfyconfig.toml` checks everything.

## How the lifecycle is modelled

The persisted object and the copy a pass works on are separate. `AddFinalizer` and
`RemoveFinalizer` change the copy first; the Update that follows is a compare-and-swap on the resource
version that may fail for any reason, and the copy keeps the change either way. Between any two calls
users may edit, delete and re-create the object, other controllers may change their own finalizers,
managed objects may vanish, revisions and foreign packages may come and go, and the controller may
crash. One worker handles an object at a time, and reads return the current state.

Libraries the repository only calls appear as contracts:

- the juggler reports StatusDisabled for a disabled component only when the object is absent; it
  registers every managed object that is not configured as an orphan, except the Helm release; it
  calls an enabled component ready only when the object exists, and never disabled or uninstalled;
- the PreUninstall hook keeps the release as long as a Provider, a Function or a revision of one exists;
- the cluster access library grants only when the access request exists, and reports a deletion as done
  only when it is gone;
- the status updater replaces or adds conditions by type and keeps the others;
- a component's condition type is its name followed by `Ready`, as the tests of the repository show;
- name shortening is an arbitrary function that may refuse a name;
- the text library may or may not capitalize the first letter behind leading digits
  (`Naming.TITLES_BEHIND_DIGITS`); the theorems about names hold either way;
- the API server may or may not refuse new finalizers on an object in deletion (`Setting.strict`;
  Kubernetes refuses). The safety theorems hold either way.

## What the proofs found

- An object installed under the legacy finalizer alone can leak its components: it is migrated to the
  access finalizer before the components finalizer is added, and a delete in between skips the
  component deletion. `LifecycleRuns.LeakFreeExactly` gives the exact condition on the start.
- A deletion does not always end. In a fair run nobody interferes with, it ends exactly when there is a
  ProviderConfig, no ignore annotation, a teardown that can be planned if the components finalizer is
  there, and the access finalizer if the API server refuses new finalizers in deletion
  (`LifecycleLiveness.DeletionTerminatesExactly`); failing calls do not matter as long as each call
  succeeds again and again. Whoever interferes, a run that is blocked throughout for one of these reasons
  never ends (`LifecycleRuns.BlockedNeverReleases`), and from which starts an end can be reached at all
  is `LifecycleLiveness.ReleasableExactly`: the pod namespace decides too, because without it no teardown
  can be planned.
- The comments in `internal/controller/crossplane_controller.go` at lines 412-414 and 439 say that
  secrets and runtime configs go in phase 2. In phase 1 only packages are configured, so with the
  orphan contract everything else that is managed, except the release, is an orphan and goes in
  phase 1 already; `LifecycleRuns.CrossplaneGoesLast` states it.
- Reconciled stays True after a failed finalizer update and after a finished component deletion
  (`Conditions.ReconciledTrueExactly`).
- A condition that is not True and whose component vanished unreported blocks Ready through all
  passes that do not report its type again (`Conditions.StaleConditionBlocksReady`).
- The secret watch also fires for the chart secret of an entry hidden behind an earlier entry of the
  same version (`PlanLaws.ShadowedSecretIsWatchedInVain`).
- Component names keep only the hyphens that capitalize a letter: `provider-1` and `provider1` share one
  name, so do `a--b` and `a-b`, and, if letters behind digits are capitalized, `a-1b` and `a1-b`.
  `Naming.CollideExactly` says exactly which names are shared.
- Condition types are shared across kinds too: a provider `secret-x` and the secret `x`, a provider and
  a function of one name (`Components.NamesCollideExactly`).

## Model

| member | source | states |
|---|---|---|
| LifecycleRuns.FreshRunsAreGuarded | internal/controller/crossplane_controller.go:239-394 | in every state reachable from a fresh object, under any interleaving, an access request implies the persisted access finalizer and a managed object implies the persisted components and access finalizers; an object that is gone left nothing behind |
| LifecycleRuns.LeakFreeExactly | internal/controller/crossplane_controller.go:178-183 | from an arbitrary start, no run leaks if and only if existing access is covered by some controller finalizer and existing components by the components finalizer, or the object can never leave deletion |
| LifecycleRuns.LegacyCanLeak | internal/controller/crossplane_controller.go:356-366 | managed objects without the components finalizer, those of a legacy object for example: unless the object is stuck, some interleaving of a migrating pass, a delete and a cleanup pass loses them |
| LifecycleRuns.StuckRunsStayStuck | internal/controller/crossplane_controller.go:359-362 | when the server refuses new finalizers in deletion, an object deleted with some controller finalizer but without the access finalizer stays so in every run and is never released |
| LifecycleRuns.UnplannableRuns | internal/controller/crossplane_controller.go:605-608 | without a pod namespace the components finalizer, once persisted, stays in every run |
| LifecycleRuns.BlockedNeverReleases | internal/controller/crossplane_controller.go:130-212 | a run without a ProviderConfig throughout, or under the ignore annotation throughout, or with the components finalizer and no spec that can be planned with any ProviderConfig it ever meets, or stuck, never gives up the last finalizer, whatever users, clusters and controller do |
| LifecycleRuns.FinalizersGoInOrder | internal/controller/crossplane_controller.go:317-339 | from any start, the controller's finalizers become empty only by removing the access finalizer as the last one, in deletion, after the access request was reported gone |
| LifecycleRuns.CrossplaneGoesLast | internal/controller/crossplane_controller.go:406-437 | in every run, when a deletion hands Crossplane to the juggler and its spec lists a provider or a function, then in the same pass phase 1 ran and reported every package it lists as StatusDisabled, each was absent at some time, both revision lists were read and empty, and nothing managed but the release is left |
| LifecycleRuns.NoPackageOutlivesCrossplane | pkg/component/crossplane_component.go:202-212 | the controller uninstalls the release only in phase 2 of a deletion, and at that time no Provider, no Function and no revision exists, managed or not |
| LifecycleRuns.StepKeepsGuarded | internal/controller/crossplane_controller.go:1119-1133 | no single step, failed compare-and-swap included, takes the guarding finalizer away from something that exists |
| LifecycleSafety.StepKeepsCore | internal/controller/crossplane_controller.go:185-237 | the invariant of all runs: inside a pass the copy carries exactly the controller finalizers that are persisted, whatever happened since it was read |
| LifecycleSafety.OrphansAreTheUnmatched | pkg/component/crossplaneprovider_component.go:70-85 | the orphans of a pass are the managed objects that, converted back, no configured component of their kind is the same as |
| LifecycleLiveness.DeletionTerminates | internal/controller/crossplane_controller.go:284-339 | in every fair run that comes to cooperate the last finalizer is given up: calls may fail and passes may crash for ever, as long as each call that could succeed for ever does so for ever; a lexicographic measure over finalizers, managed objects and blockers cannot stand still |
| LifecycleLiveness.DeletionTerminatesExactly | internal/controller/crossplane_controller.go:178-212 | for an object in deletion and a fair run nobody interferes with, the finalizers are given up if and only if nothing of a checkable list holds the deletion up at the start |
| LifecycleLiveness.FairRunExists | internal/controller/crossplane_controller.go:284-339 | from every state of a cooperating deletion there is a fair run, so termination is not about an empty set of runs |
| LifecycleLiveness.ReleasableExactly | internal/controller/crossplane_controller.go:178-183 | exactly from which starts some run makes the controller give up its finalizers, and the object disappear: no controller finalizer at all, or neither stuck without the access finalizer nor without a pod namespace under the components finalizer |
| LifecycleProgress.SomeCallSucceeds | internal/controller/crossplane_controller.go:284-339 | a cooperating deletion is never at a dead end: some call can succeed while loose blockers go |
| LifecycleProgress.LastCallRemoves | internal/controller/crossplane_controller.go:334-338 | the releasing call, among calls that may all fail, removes the object exactly when no other controller holds a finalizer on it |
| LifecycleProgress.LenientKeeps | internal/controller/crossplane_controller.go:284-339 | no call of a cooperating deletion, failing or not, and no crash raises the measure or ends the cooperation before the release |
| LifecycleInstall.InstallBecomesReady | internal/controller/crossplane_controller.go:256-282 | in every run in which passes succeed again and again, an admitted spec comes to a pass that reports each planned component as True and nothing else, and the phase becomes Ready unless a condition of something unplanned is in the way |
| LifecycleInstall.InstallRunExists | internal/controller/crossplane_controller.go:256-282 | from every start with an admitted spec there is such a run |
| Controller.Reconciler.Reconcile | internal/controller/crossplane_controller.go:111-154 | every pass is a run of the machine; it emits one Reconciled condition, merges it into the status, is Ready only with a True verdict, Terminating exactly when the copy it worked on is in deletion, and asks for another pass unless ignored; a version the user asked for in vain is no error and asks for a Reset; Ready after an install means that every component of the plan existed at some time in this pass |
| Controller.Reconciler.DoReconcile | internal/controller/crossplane_controller.go:185-237 | the reported outcome fits the call the pass ended with, an error outcome comes exactly from a call that returned one, and conditions, requeue and error are those of that outcome |
| Controller.Reconciler.DoReconcileComponents | internal/controller/crossplane_controller.go:239-282 | an object not in deletion ends in a finalizer failure, a build failure or an install verdict, one in deletion in none of these |
| Controller.Reconciler.InstallComponents | internal/controller/crossplane_controller.go:256-282 | an install verdict covers every component of the plan, and each component called ready existed in this pass; the user is blamed exactly for a version the allow-list does not have |
| Controller.Reconciler.RunJuggler | internal/controller/crossplane_controller.go:553-557 | every registered component is reported once, in any order, and ready only when it existed |
| Controller.Reconciler.DoDeleteComponents | internal/controller/crossplane_controller.go:284-315 | components count as deleted only when nothing was reported as remaining, nothing managed exists and the persisted object gave up the components finalizer; without that finalizer nothing is deleted; a deletion waits without a remaining component only for revisions that exist; a finished deletion reports every component of the teardown plan, a waiting one every component of the phase it has got to |
| Controller.Reconciler.DeleteControlPlaneComponents | internal/controller/crossplane_controller.go:406-452 | wherever the log enters phase 2 and the spec lists a provider or a function, every one of them was reported absent before and both revision lists were read and empty; success means that nothing managed remains and that the whole teardown plan was reported |
| Controller.Reconciler.DoCleanupClusterAccess | internal/controller/crossplane_controller.go:317-339 | a pending or failed revocation leaves the copy as it is, pending means that the request still exists; the access finalizer is taken off only when the request is gone, and off the persisted object when the outcome says so |
| Controller.Reconciler.SetupClusterAccess | internal/controller/crossplane_controller.go:356-394 | whenever access is requested, granted or not, the copy and the persisted object have the access finalizer and lack the legacy one |
| Controller.Reconciler.EnsureFinalizer | internal/controller/crossplane_controller.go:1119-1125 | the copy has the finalizer afterwards in any case; on success the persisted object has it and all controller finalizers of the copy; no call, no failure when the copy had it |
| Controller.Reconciler.RemoveFinalizer | internal/controller/crossplane_controller.go:1127-1133 | the copy lacks the finalizer afterwards in any case, the persisted object when the call succeeds; a failed write ends the pass |
| Controller.Reconciler.HandleOperationAnnotation | internal/controller/crossplane_controller.go:156-172 | the ignore annotation skips the pass and changes nothing; a pass that goes on has no annotation left, and after removing it a copy equal to the persisted object |
| Controller.ReconcileResult.OverrideCondition | internal/controller/status.go:61-76 | the list is changed in place at the first condition of the type, or extended |
| PlanLaws.PlanIsClosed | internal/controller/crossplane_controller.go:602-768 | every plan is closed: one Secret per pull secret named anywhere, the PlatformSecret of the chart secret in the tenant namespace, a runtime config per package, the CA config map exactly when Crossplane and the runtime configs refer to it |
| PlanLaws.PackagesCarry | internal/controller/crossplane_controller.go:512-546 | in every plan and in phase 1 each provider carries the provider pull secrets, and each function its own or, when there are none, those of the providers |
| PlanLaws.PackagesPlanned | internal/controller/crossplane_controller.go:650-702 | the packages of a plan are those of the spec, none is left out |
| PlanLaws.CrossplaneCarries | internal/controller/crossplane_controller.go:602-648 | every plan starts with the one Crossplane, with the prefixed chart secret of the first entry of its version and exactly the non-empty image secrets of all entries of that version, each once |
| PlanLaws.CopiesCarry | internal/controller/crossplane_controller.go:706-757 | every copied object comes from the pod namespace under its configured name; pull secrets go to the Crossplane namespace, the chart secret to the tenant namespace under its prefixed name, the CA bundle to a fixed name |
| PlanLaws.SecretsFollowCrossplane | internal/controller/crossplane_controller.go:717-738 | behind Crossplane stand the pull secrets, those of its images first, then those of providers and functions, each non-empty name once |
| PlanLaws.PlanFollowsSpec | internal/controller/crossplane_controller.go:644-702 | a plan ends with the default runtime config, the providers and the functions in the order of the spec, each behind a runtime config of its name |
| PlanLaws.BuildErrorsExactly | internal/controller/crossplane_controller.go:602-680 | exactly which of the five errors a build gives, by what is missing |
| PlanLaws.WritePlannedPackage | pkg/component/crossplaneprovider_component.go:37-60 | the object written for a planned package refers to a runtime config and to pull secrets that are planned too; writing fails exactly for an install the allow-list does not admit |
| Components.PackageObject.Reconcile | pkg/component/crossplaneprovider_component.go:43-60 | a package object refers to the runtime config of its own name and the resolved image, or is left untouched |
| PlanLaws.TeardownPlanAgrees | internal/controller/crossplane_controller.go:602-704 | what can be installed can be torn down: the same components in the same order, disabled |
| PlanLaws.Phase1IsPackagesOfPlan | internal/controller/crossplane_controller.go:512-536 | phase 1 hands over exactly the providers and functions of the teardown plan |
| PlanLaws.TeardownBuildFailsExactly | internal/controller/crossplane_controller.go:602-704 | a teardown build fails exactly for an empty pod namespace, a refused secret name, or a non-nil list against an empty allow-list |
| PlanLaws.OnlyAnUnknownVersionSeparatesThem | internal/controller/crossplane_controller.go:610-613 | an install build succeeds exactly when the teardown build does and the version is allowed |
| PlanLaws.UserErrorExactly | internal/controller/crossplane_controller.go:610-613 | an install build is the user's mistake exactly when the pod namespace is known and no entry has the version |
| PlanLaws.NilAndEmptyProvidersDiffer | internal/controller/crossplane_controller.go:650-653 | for every spec: an empty provider list builds exactly when a nil one does and some provider is allowed; then both give the same plan behind Crossplane, and always the same phase 1 |
| PlanLaws.NilAndEmptyFunctionsDiffer | internal/controller/crossplane_controller.go:677-680 | the same for the function list |
| PlanLaws.TeardownIsAlwaysInstallable | internal/controller/crossplane_controller.go:1105-1117 | no allow-list can stop a component from being torn down, while an install is stopped exactly for what the allow-list does not admit |
| PlanLaws.ChartAndCredentialsAgree | internal/controller/crossplane_controller.go:869-890 | chart URL and chart credentials come from the same first entry, whose image secret is among the discovered ones |
| PlanLaws.WatchIsSound | internal/controller/crossplane_controller.go:981-1001 | every secret any plan reads or names as a source is watched |
| PlanLaws.WatchIsExact | internal/controller/crossplane_controller.go:981-1001 | for every ProviderConfig, exactly which secrets some install reads: what the packages pull with and what entries name, shadowed chart secrets excepted, as far as a version can be installed; sources of disabled components are not fetched and do not count |
| PlanLaws.PlanSources | pkg/component/secret_component.go:99-108 | the sources of a plan by their origin; an install fetches all of them, a teardown none |
| PlanLaws.WatchIsExactWhenDistinct | internal/controller/crossplane_controller.go:981-1001 | with pairwise distinct versions the watch fires for what some install reads and for secrets that no version which can be installed needs, for nothing else |
| PlanLaws.ShadowedSecretIsWatchedInVain | internal/controller/crossplane_controller.go:869-874 | with a repeated version it need not |
| Planner.BuildComponents | internal/controller/crossplane_controller.go:602-704 | the loops build the plan that PackagesCarry, CrossplaneCarries, CopiesCarry and PlanIsClosed are about, with the errors of BuildErrorsExactly |
| Planner.BuildPhase1Components | internal/controller/crossplane_controller.go:512-536 | the loops build the phase-1 list that PackagesCarry and Phase1IsPackagesOfPlan are about |
| Planner.DiscoverImageSecrets | internal/controller/crossplane_controller.go:882-890 | the loop collects the image secrets of every entry of the version, without duplicates |
| Planner.ImageSecretsConcat | internal/controller/crossplane_controller.go:882-890 | image secrets are found entry by entry, in the order of the list |
| Planner.IsSecretReferencedInProviderConfig | internal/controller/crossplane_controller.go:981-1001 | the search decides membership among all references |
| SecretRefs.ThreeAppendsDeduplicate | internal/controller/crossplane_controller.go:717-721 | three appends by target give the secrets of the once deduplicated names |
| SecretRefs.DedupContents | internal/controller/crossplane_controller.go:851-867 | nothing lost, nothing empty, nothing twice |
| SecretRefs.DedupOrder | internal/controller/crossplane_controller.go:851-867 | the survivors stand in the order of their first occurrences |
| SecretRefs.AppendDistinct | internal/controller/crossplane_controller.go:770-785 | the nested loop appends what is new by target |
| SecretRefs.KeyIsTarget | internal/controller/crossplane_controller.go:787-797 | two secrets are the same to the append exactly when they have the same target; a namespace has no slash |
| SecretRefs.DeduplicateSecretRefs | internal/controller/crossplane_controller.go:851-867 | the loop with its map of seen names deduplicates |
| Resolver.ResolveByLoops | internal/controller/crossplane_controller.go:1038-1101 | the loops of the resolver compute the function the laws are about |
| Resolver.ResolveRefinesSpec | internal/controller/crossplane_controller.go:1038-1101 | the declarative reading: exact first match for Crossplane with its chart and its image, else the lexicographically first provider, functions only behind provider names without versions, anything else an error; a package is answered with the repository and the version as the allow-list spells them; and the answer is unique |
| Resolver.ResolvedIsAllowed | internal/controller/crossplane_controller.go:1038-1101 | a package resolves to `package:version` of an entry of its name, in the spelling of the entry, with a version equal to the requested one up to one leading v; Crossplane to the chart and the image of its first entry |
| Resolver.SameUpToV | internal/controller/crossplane_controller.go:1028-1031 | two versions are the same to the resolver exactly when they are equal or one is the other, without a leading v of its own, behind a v |
| Resolver.ResolveFixedPoint | internal/controller/crossplane_controller.go:1064-1095 | resolving with the returned version changes nothing |
| Resolver.ResolveIgnoresV | internal/controller/crossplane_controller.go:1028-1031 | for packages a leading v is immaterial |
| Resolver.CrossplaneVersionsAreExact | internal/controller/crossplane_controller.go:1041-1043 | for Crossplane a version resolves exactly when it is listed as it stands, and a leading v is immaterial exactly when neither spelling is listed |
| Resolver.TolerantIsTotalExtension | internal/controller/crossplane_controller.go:1105-1117 | the tolerant resolver always answers and agrees with the strict one wherever that does |
| Conditions.ReconciledTrueExactly | internal/controller/crossplane_controller.go:239-282 | when Reconciled is True, for every way a pass can end |
| Conditions.ExactlyOneReconciled | internal/controller/crossplane_controller.go:130-237 | one Reconciled condition on every path |
| Conditions.ReadyExactly | internal/controller/status.go:31-44 | Ready exactly when every emitted and every stale condition is True; it implies the verdict |
| Conditions.ReadyAfterExactly | internal/controller/status.go:31-44 | the phase after any sequence of passes is Ready exactly when the last report of every type is True and every condition never reported again was True |
| Conditions.StaleConditionBlocksReady | internal/controller/status.go:38-42 | through any sequence of passes, Ready comes back only after a pass reports the stale type again |
| Conditions.StaleConditionBlocksInstalls | internal/controller/status.go:38-42 | through installs alone, Ready comes back only after a component of that name shows up again |
| Conditions.OverridesAreMapUpdates | internal/controller/status.go:61-76 | any sequence of overrides is last-writer-wins on the map of types, keeps types unique and keeps the order |
| Conditions.OrphanReplacesStaleCondition | internal/controller/crossplane_controller.go:559-573 | a component dropped from the spec reports its removal under its old name and turns the stale condition True |
| Conditions.DistinctKindsExactly | pkg/component/secret_component.go:65-67 | the condition types of a list of components are pairwise distinct exactly when no two of them share a name |
| Conditions.CollectConditions | internal/controller/crossplane_controller.go:559-573 | the loop skips silent components and reports removed ones as True |
| Conditions.CollectDeleted | internal/controller/crossplane_controller.go:461-477 | anything but StatusDisabled remains |
| Conditions.ComputePhase | internal/controller/status.go:31-44 | Terminating exactly in deletion, Ready exactly when there is a condition and all are True, Progressing otherwise |
| Conditions.SmartRequeueConditional | internal/controller/status.go:46-59 | the action set by the pass is kept; without an object there is none; else Reset exactly when some condition is not True, and Backoff otherwise |
| Conditions.UserErrorIsRetried | internal/controller/crossplane_controller.go:256-261 | whatever the status shows, a pass that ends in a user error returns no error and asks for a Reset |
| Conditions.ErrorExactly | internal/controller/crossplane_controller.go:130-339 | a pass returns an error exactly when something it called failed, a user error excepted |
| Conditions.RequeueExactly | internal/controller/crossplane_controller.go:130-339 | which passes set Reset, Backoff or no requeue at all, and which leave the choice to the conditions |
| Conditions.ReasonsExactly | internal/controller/status.go:13-29 | every reason of the verdict belongs to one way a pass can end; an error before the components and a failed component deletion put their reason into the verdict, a failed finalizer update does not |
| Conditions.OnlyTheVerdict | internal/controller/crossplane_controller.go:130-254 | a pass that does not get to the juggler reports its verdict and nothing else |
| Conditions.DeletionReportsAll | internal/controller/crossplane_controller.go:461-477 | a deletion reports every result in order, under the name of the component with `Ready` behind it |
| Conditions.InstallReportsExactly | internal/controller/crossplane_controller.go:559-573 | an install reports exactly the results of components that are enabled or not yet gone, an uninstalled one as True |
| Components.OrphanRoundTrip | pkg/component/crossplaneprovider_component.go:70-85 | the object a component builds, found as an orphan, is equated with exactly the same identity, is disabled and keeps its condition name; for all kinds but Crossplane |
| Components.ConvertItems | pkg/component/secret_component.go:49-55 | the conversion loop keeps order and identity and enables nothing |
| Components.NamesCollideExactly | pkg/component/deploymentruntimeconfig_component.go:99-102 | which components share a name, across all kinds: their full names merge to the same; runtime configs only with themselves, or unhyphenated with others |
| Components.NameOf | pkg/component/secret_component.go:127-134 | the loops that format names compute the names the laws are about |
| Naming.FormatName | pkg/component/crossplaneprovider_component.go:142-148 | overwriting the parts in place gives the CamelCase name |
| Naming.CamelCaseRoundTrip | pkg/component/crossplaneprovider_component.go:142-148 | splitting before capitals recovers a well-formed name |
| Naming.CamelCaseInjective | pkg/component/crossplanefunction_component.go:140-146 | distinct well-formed names never share a component name |
| Naming.CollideExactly | pkg/component/crossplaneprovider_component.go:142-148 | two names share a component name exactly when they are equal once every hyphen is moved to the letter it capitalizes or dropped when there is none |
| Naming.HyphenIsLostExactly | pkg/component/crossplaneprovider_component.go:142-148 | leaving out one hyphen keeps the component name exactly when the part behind it has no letter to capitalize, or the letter is capitalized without it as well |
| Naming.LetterlessPartsCollide | pkg/component/crossplaneprovider_component.go:142-148 | an empty part or one made of digits loses its hyphen, in the middle or at the end of any name |

## Left out

- Naming.Title: models title casing on lower-case ASCII letters and digits; Unicode is not part of this model.
- Naming.CollideExactly: is about names of lower-case letters, digits and hyphens; where the text library sees a word end at a dot is not part of this model. The same holds for Naming.HyphenIsLostExactly, Components.NamesCollideExactly and Conditions.DistinctKindsExactly.
- LifecycleLiveness.DeletionTerminatesExactly: is about runs in which nobody edits the object, its finalizers or the ProviderConfig any more; what holds without that is LifecycleRuns.BlockedNeverReleases and LifecycleLiveness.ReleasableExactly.
- LifecycleInstall.InstallBecomesReady: assumes passes that succeed as a whole again and again, and wanted objects that are left alone and become healthy.
- The order of finalizers in the list, and resource versions beyond being fresh with every write.
- Contents of secrets, config maps and Helm values, the CA deployment template, image parsing, labels and pull policies beyond what a package object refers to.
- Whether a list of pull secrets is nil or empty in a package object.
- KeepOnUninstall: no component of the repository implements it, so the loop in deleteComponents skips nothing.
- Dependencies between components inside the juggler: any order is allowed, so every theorem holds for the order it chooses.
- Reads from a stale cache, and more than one worker on the same object.
- Error texts, log lines, recorded events and requeue intervals.
- The mapping from a watched secret to the list of all instances, the ProviderConfig controller, command line, schemes, CRDs and metrics.
