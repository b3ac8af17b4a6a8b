# Verified model of the integreatly-operator control logic

integreatly-operator is a Kubernetes operator that installs and removes Red Hat OpenShift API
Management. Most of it builds objects and calls clients; this project models the parts that decide
something and proves what they guarantee over every run:

- the install and uninstall walk of the RHMI controller over a custom resource (CR) whose writes may be
  lost, with product reconcilers as arbitrary oracles and Go's map order as an arbitrary order;
- the tenant controller, which must never give a user two active tenants;
- the finalizer list and the in-place slice algorithms under it;
- the approval of install plans behind backups, and the subscription reconcile around it;
- Keycloak user synchronisation, teardown and the merge of environment variables;
- rate limit comparison, alert arithmetic, version parsing and password generation.

Code that changes state is a class (or a method on an array) whose methods are proved equal to a
specification function or relation of the old state; the theorems are about those functions, over
single steps and over whole runs. Every read, write or clock is a parameter, so each statement is for
all answers the cluster can give. `dafny verify dfyconfig.toml` checks everything.

| file | models |
|---|---|
| `Tenants.dfy`, `TenantOutcomes.dfy`, `TenantRuns.dfy`, `TenantAnnotations.dfy` | `internal/controller/tenant/apimanagementtenant_controller.go` |
| `Slices.dfy`, `Finalizers.dfy`, `FinalizerRuns.dfy`, `FinalizerPanics.dfy` | `pkg/resources/finalizers.go`, `ReconcileFinalizer`, the controller's own finalizer |
| `Uninstall.dfy`, `UninstallRuns.dfy`, `UninstallPanics.dfy` | `handleUninstall` and the uninstall stage tables |
| `Install.dfy`, `InstallRuns.dfy` | the stage loop, version promotion, quota adoption |
| `Backups.dfy`, `Subscriptions.dfy` | `pkg/resources/backup`, `upgradeApproval`, `ReconcileSubscription` |
| `KeycloakUsers.dfy`, `KeycloakSync.dfy`, `KeycloakTeardown.dfy`, `EnvVars.dfy` | `pkg/products/rhsso`, `pkg/products/rhssocommon` |
| `RateLimits.dfy`, `AlertUsage.dfy` | `pkg/products/marin3r` |
| `Versions.dfy`, `Numerals.dfy`, `Passwords.dfy` | `pkg/resources/version.go`, `pkg/resources/password.go` |
| `Text.dfy`, `Phases.dfy`, `Options.dfy`, `Multisets.dfy` | string helpers, stages and status phases, optional values, multisets |

## Where the code does less than it seems to promise

Where a member is named, it proves the statement; those ending in `Iff` give a necessary and sufficient
condition.

- One tenant per user holds over every run exactly for users whose name does not end in `-stage`: the
  namespace `x-stage-dev` trims to user `x` (`TenantRuns.OneTenantPerUserIff`).
- A tenant that is refused at first and accepted later, for instance because it was created before its
  user, is activated without its user ever being annotated: such a run exists for every tenant in a
  `-dev` or `-stage` namespace and for no other (`TenantAnnotations.UnannotatedReachableIff`), and a
  refusal is the only way to it (`TenantAnnotations.UnannotatedWasRefused`).
- `getAPIManagementTenant` wraps the error with `%v`, so "not found" is never recognised and a deleted
  tenant ends in an error; the model follows the code.
- `Remove` panics when the string is last and also occurs earlier, and leaves every second of adjacent
  copies; it is the filter exactly otherwise (`Slices.RemoveRightIff`).
- A cleanup that reports "completed" together with an error lets the next uninstall stage start while its
  finalizer is still held (`UninstallRuns.GateHoldsIff`: no other outcome can break the gate).
- With duplicate finalizers an uninstall may panic, depending on the order of its products
  (`UninstallPanics.OrderMattersWithDuplicates`). No order and no outcomes make a stage, a pass or a run
  of passes panic if and only if every repeated finalizer that it may remove is followed by something it
  does not (`UninstallPanics.StageNeverPanicsIff`, `UninstallPanics.PassNeverPanicsIff`,
  `UninstallPanics.RunNeverPanicsIff`); duplicate-free lists qualify and stay so
  (`UninstallRuns.PassesKeepNoDuplicates`). The same condition, up to the two spellings of a finalizer,
  decides over all runs of finalizer reconciles (`FinalizerPanics.NoRunPanicsIff`).
- The uninstall table calls its last stage differently from the name `handleUninstall` tests for, so the
  bootstrap branch is never taken by either table (`UninstallRuns.WalkOfTable`).
- The version mismatch flag is reset by every product stage, so it speaks for the last one only
  (`InstallRuns.FlagCoversLastStage`); both shipped tables have one product stage.
- A pending quota left over from a change that was taken back survives complete reconciles
  (`InstallRuns.StaleQuotaReachable` is such a run; the exact condition is in
  `InstallRuns.CompleteReconcileAdoptsQuota`).
- A plan that names no CSV is never approved and yet reported completed
  (`Subscriptions.Subscription.ReconcileSubscription`).
- Merging environment variables means "override" exactly when the existing names are unique
  (`EnvVars.MergeOverridesIffUnique`).
- Comparing sorted limits is exact except when both generated limits have the same value; with the
  default per-tenant limit that is 200 requests per unit and nothing else (`RateLimits.DefaultExactIff`).
- An hour count whose minutes exceed 64 bits may be accepted as a short interval
  (`AlertUsage.IntervalHonestIff`), periods above 71,582,788 minutes wrap in 32 bits
  (`AlertUsage.AllowanceExactIff`), and a minimum percentage too large for an int is a nil dereference
  (`AlertUsage.LargeMinimumPanics`, exactly when in `AlertUsage.RangeSafeIff`).
- Mapping the alert configuration panics in some order of its entries if and only if an entry is null, or
  is a usage alert with a readable period and either no threshold or such a range
  (`AlertUsage.NeverPanicsIff`, `AlertUsage.EntryPanicsIff`); in a given order the first unacceptable
  entry decides between an error and a panic (`AlertUsage.FirstBadEntryDecides`).

## Model

| member | source | states |
|---|---|---|
| TenantRuns.OneTenantPerUserIff | internal/controller/tenant/apimanagementtenant_controller.go:141-183 | in every store persisted by any run of creations, deletions and reconciles with any lost writes a user has at most one active tenant over both namespaces, if and only if the user name does not end in "-stage" |
| TenantRuns.EveryRunSafe | internal/controller/tenant/apimanagementtenant_controller.go:57-117 | every persisted store of every run keeps one active tenant per user and a known URL for ready tenants, and every change between consecutive stores is a legal climb |
| TenantRuns.StatusClimbsOverRun | internal/controller/tenant/apimanagementtenant_controller.go:185-324 | while a tenant exists an active status only climbs, a set status is never unset, ready is absorbing and its URL frozen |
| TenantRuns.ReconciledSafe | internal/controller/tenant/apimanagementtenant_controller.go:57-117 | one reconcile from a sound store persists only sound stores, even when a later error update carries an earlier lost status change |
| TenantRuns.VerifiedIsExclusive | internal/controller/tenant/apimanagementtenant_controller.go:142-183 | a tenant that passes verification has no active sibling in its user's namespaces |
| TenantRuns.UrlSafe | internal/controller/tenant/apimanagementtenant_controller.go:215-295 | the URL step keeps the in-memory tenant safe to push at any moment: ready only with a host that contains the user's name |
| TenantRuns.NamespaceNamesUser | internal/controller/tenant/apimanagementtenant_controller.go:326-330 | both namespaces of a user not ending in "-stage" trim back to that user |
| TenantRuns.NamespacesDisjoint | internal/controller/tenant/apimanagementtenant_controller.go:160-163 | no two users share a namespace |
| TenantRuns.TwoActiveTenants | internal/controller/tenant/apimanagementtenant_controller.go:326-330 | for every user ending in "-stage" some run ends with two active tenants |
| TenantAnnotations.UnannotatedWasRefused | internal/controller/tenant/apimanagementtenant_controller.go:57-213 | in every store of every run an active tenant whose user is not annotated was refused in an earlier store and has existed ever since |
| TenantAnnotations.UnannotatedReachableIff | internal/controller/tenant/apimanagementtenant_controller.go:142-213 | some run leaves a tenant active with its user never annotated, if and only if its namespace ends in -dev or -stage |
| TenantAnnotations.RefusedThenActivated | internal/controller/tenant/apimanagementtenant_controller.go:152-213 | a run of three events, refused for want of a user and accepted later, that activates the tenant and annotates nobody |
| TenantAnnotations.EveryRunJustified | internal/controller/tenant/apimanagementtenant_controller.go:57-213 | from store to store a tenant becomes active only in a user namespace and only with its user annotated or after a refusal |
| TenantRuns.AnnotatedOnActivationIff | internal/controller/tenant/apimanagementtenant_controller.go:185-213 | a reconcile that activates a tenant annotates the user exactly when the status was still unset |
| TenantRuns.QuietOnlyWhenSettled | internal/controller/tenant/apimanagementtenant_controller.go:77-117 | a reconcile that neither fails nor requeues leaves the persisted tenant ready without an error, or refused with a reason |
| TenantRuns.OneReconcileMakesReady | internal/controller/tenant/apimanagementtenant_controller.go:90-117 | with all calls answered, a route and SSO ready, one reconcile makes any verified tenant ready |
| TenantOutcomes.VerdictIff | internal/controller/tenant/apimanagementtenant_controller.go:142-183 | exactly which tenants are refused and why, left undecided by a failed call, or accepted |
| TenantOutcomes.RefusedIff | internal/controller/tenant/apimanagementtenant_controller.go:77-88 | a tenant never judged before is persisted as refused if and only if it was read, the first write persisted, and its namespace is no user's, its user is missing, or an active tenant is met before a listing fails |
| TenantOutcomes.RefusalOutcome | internal/controller/tenant/apimanagementtenant_controller.go:77-88 | every store, annotation and result of a refusal with any lost writes |
| TenantOutcomes.UndecidedOutcome | internal/controller/tenant/apimanagementtenant_controller.go:69-76 | a failed lookup or listing changes nothing but the last error and always returns an error |
| TenantOutcomes.UnreadableOutcome | internal/controller/tenant/apimanagementtenant_controller.go:60-67 | a tenant that cannot be read is left alone and reported as an error |
| TenantOutcomes.AcceptedOutcome | internal/controller/tenant/apimanagementtenant_controller.go:90-117 | an accepted tenant goes through the status updates its status and the cluster call for, one by one up to the first lost write, which is then pushed again with its error unless it was the last word; the result and the annotation follow |
| TenantOutcomes.MatchingHostsFirst | internal/controller/tenant/apimanagementtenant_controller.go:244-250 | the host taken is the first that contains the user's name, and there is one if any does |
| TenantRuns.ActiveIffRanked | internal/controller/tenant/apimanagementtenant_controller.go:143-144 | the active statuses are the three above a refusal |
| Tenants.TenantReconciler.Reconcile | internal/controller/tenant/apimanagementtenant_controller.go:57-117 | the whole history of persisted stores, the annotations and the result are those of the specification |
| Tenants.TenantReconciler.DispatchTenant | internal/controller/tenant/apimanagementtenant_controller.go:69-96 | the branch taken on each verification outcome |
| Tenants.TenantReconciler.RefuseTenant | internal/controller/tenant/apimanagementtenant_controller.go:77-88 | the refused status is pushed first, the reason only after that write persisted |
| Tenants.TenantReconciler.ProvisionTenant | internal/controller/tenant/apimanagementtenant_controller.go:90-116 | annotation, URL and final error reset, each gated on the previous one, with the error pushed on failure |
| Tenants.TenantReconciler.VerifyTenant | internal/controller/tenant/apimanagementtenant_controller.go:142-183 | the verdict, from the persisted store, in the order the checks are made |
| Tenants.TenantReconciler.AnyActiveIn | internal/controller/tenant/apimanagementtenant_controller.go:173-178 | true exactly when some tenant of the namespace is active, whatever order the list comes in |
| Tenants.TenantReconciler.AddAnnotationToUser | internal/controller/tenant/apimanagementtenant_controller.go:185-213 | only an unset tenant annotates its user, and the status follows the annotation |
| Tenants.TenantReconciler.FindRoute | internal/controller/tenant/apimanagementtenant_controller.go:244-250 | the first route whose host contains the user's name |
| Tenants.TenantReconciler.ReconcileTenantUrl | internal/controller/tenant/apimanagementtenant_controller.go:215-295 | every write of the URL step and whether it is done, waiting or failed |
| Tenants.TenantReconciler.WaitFor | internal/controller/tenant/apimanagementtenant_controller.go:251-281 | a waiting tenant is marked requested, then told what it waits for |
| Tenants.TenantReconciler.UpdateLastError | internal/controller/tenant/apimanagementtenant_controller.go:297-304 | the in-memory tenant, with all earlier changes, is persisted or lost as a whole |
| Tenants.TenantReconciler.UpdateProvisioningStatus | internal/controller/tenant/apimanagementtenant_controller.go:306-314 | likewise for the provisioning status |
| Tenants.TenantReconciler.UpdateTenantUrl | internal/controller/tenant/apimanagementtenant_controller.go:316-324 | likewise for the URL |
| Slices.Remove | pkg/resources/finalizers.go:122-130 | the in-place range-and-shift loop: out of range exactly when the string is last and occurs earlier, otherwise the live slice is the skipping scan of the old one |
| Slices.RemoveRightIff | pkg/resources/finalizers.go:122-130 | Remove neither panics nor differs from the order-preserving filter, if and only if the string never occurs twice in a row and is not a repeated last element |
| Slices.RemoveFromDuplicateFree | pkg/resources/finalizers.go:122-130 | on duplicate-free lists Remove is the filter and never out of range |
| Slices.RemoveOutcome | pkg/resources/finalizers.go:122-130 | what the loop over the fixed range and the shrinking live slice comes to, for every list |
| Slices.RangeAndShift | pkg/resources/finalizers.go:122-130 | the array after each deletion is the loop's state, including the stale tail |
| Slices.SkipScanEmbeds | pkg/resources/finalizers.go:122-130 | whatever the duplicates, one removal leaves a subsequence and drops nothing but copies of its string |
| Slices.SkipScanCounts | pkg/resources/finalizers.go:122-130 | whatever the duplicates, one removal keeps every other string and drops at least one copy |
| Slices.Contains | pkg/resources/finalizers.go:112-119 | membership |
| Slices.Replace | pkg/resources/finalizers.go:132-139 | every occurrence replaced in place, everything else untouched |
| Slices.ReplaceNoDuplicatesIff | pkg/resources/finalizers.go:132-139 | replacing keeps a duplicate-free list so exactly when not both strings occur |
| Finalizers.EveryRunClean | pkg/resources/reconciler.go:162-196 | from a clean CR (no duplicates, no product with both spellings) no run of finalizer reconciles, set-ups, reloads and lost writes panics, and memory and store stay clean |
| Finalizers.ReconciledClean | pkg/resources/reconciler.go:162-196 | one call keeps both lists clean, and an uninstall removes exactly the finalizer of a product whose cleanup completed without an error |
| Finalizers.MigratedClean | pkg/resources/finalizers.go:34-46 | migrating a legacy finalizer keeps the list clean and leaves no legacy spelling |
| Finalizers.AddedClean | pkg/resources/finalizers.go:21-31 | adding a product's finalizer keeps the list clean |
| Finalizers.SetUpClean | internal/controller/rhmi/rhmi_controller.go:349-358 | taking over or appending the controller's own finalizer keeps the list clean |
| Finalizers.SpellingsDistinct | pkg/resources/reconciler.go:163-163 | no current, legacy or controller finalizer ever coincides with another kind |
| Finalizers.BothSpellingsPanic | pkg/resources/finalizers.go:34-46 | with both spellings and the legacy one last, an install followed by an uninstall panics |
| FinalizerRuns.InstallOutcome | pkg/resources/reconciler.go:181-196 | on any CR not being deleted an install completes if and only if what it has to write is written; the product then holds its finalizer in the current spelling only, all others keep their order, and what changed is persisted |
| FinalizerRuns.InstallWhileDeleting | pkg/resources/finalizers.go:22-37 | while the CR is being deleted an install changes nothing |
| FinalizerRuns.UninstallOutcome | pkg/resources/reconciler.go:167-179 | on any CR an uninstall reports what the cleanup reports, drops a copy of the finalizer exactly when that completed without an error, touches no other finalizer and writes nothing; it panics exactly when the removal does |
| FinalizerRuns.HoldsUntilCleanup | pkg/resources/reconciler.go:162-196 | over every run a product that holds its finalizer keeps it, in memory and in the store, until its own cleanup completes |
| FinalizerRuns.InstalledHoldsUntilCleanup | pkg/resources/reconciler.go:162-196 | in particular after a completed install |
| FinalizerRuns.SetUpOutcome | internal/controller/rhmi/rhmi_controller.go:349-358 | the controller's finalizer is there after every set-up, in place of the old spelling with a write or at the end without one, and nothing else moves |
| FinalizerPanics.NoRunPanicsIff | pkg/resources/reconciler.go:162-196 | for any CR no run of finalizer reconciles of any products, set-ups, deletion requests, reloads and lost writes panics, if and only if in neither list a product's finalizer occurs twice, in either spelling, with only product finalizers after it |
| FinalizerPanics.BrittlePanics | pkg/resources/finalizers.go:34-46 | from such a list a run of installs and uninstalls that panics is constructed |
| FinalizerPanics.AfterSturdy | pkg/resources/reconciler.go:162-196 | every step from a CR without such a list succeeds and leaves one |
| Finalizers.Installation.ReconcileFinalizer | pkg/resources/reconciler.go:162-196 | the CR in memory, its persisted list, phase and error, or a panic, as specified |
| Finalizers.Installation.AddFinalizer | pkg/resources/finalizers.go:21-31 | appended and written only when absent and not being deleted |
| Finalizers.Installation.UpdateFinalizer | pkg/resources/finalizers.go:34-46 | legacy replaced and written only when present and not being deleted |
| Finalizers.Installation.SetUpFinalizer | internal/controller/rhmi/rhmi_controller.go:349-358 | old spelling taken over with a write, otherwise appended in memory only |
| UninstallRuns.FinalizerLeavesAfterCleanup | internal/controller/rhmi/rhmi_controller.go:581-665 | a pass adds no finalizer, and a product's finalizer leaves only after that product's cleanup completed without an error |
| UninstallRuns.NoFinalizerLostOverRun | internal/controller/rhmi/rhmi_controller.go:524-665 | the same over any number of passes with any list, order, outcomes, lost writes and panics |
| UninstallRuns.CloudResourcesLast | internal/controller/rhmi/rhmi_controller.go:584-612 | on any list, duplicates included, no cloud-resources cleanup runs while a first-stage product holds its finalizer, Grafana in prow excepted |
| UninstallRuns.GateHoldsIff | internal/controller/rhmi/rhmi_controller.go:690-696 | whatever outcomes cleanups may report, the gate between the stages holds in every pass if and only if "completed with an error" is not among them |
| UninstallRuns.LyingCleanupBreaksGate | internal/controller/rhmi/rhmi_controller.go:690-696 | a cleanup reporting completion with an error lets cloud-resources cleanup run while its finalizer is held |
| UninstallRuns.StageOrderIrrelevant | internal/controller/rhmi/rhmi_controller.go:589-594 | on a duplicate-free list the remaining finalizers and the pending flag of a stage do not depend on the order of its products |
| UninstallRuns.StageClosedForm | internal/controller/rhmi/rhmi_controller.go:589-594 | a stage drops exactly the finalizers of products whose own fate is removal and is pending exactly when one product is |
| UninstallRuns.HandledIsFate | internal/controller/rhmi/rhmi_controller.go:667-700 | what becomes of a product depends only on whether it holds its finalizer, although finalizers are matched by substring |
| UninstallRuns.SettledMeansGone | internal/controller/rhmi/rhmi_controller.go:667-700 | a settled product has lost every copy of its finalizer, duplicates included, unless cleanups report completion with an error |
| UninstallRuns.SettledStageHoldsNothing | internal/controller/rhmi/rhmi_controller.go:589-594 | a settled stage has shed the finalizers of all its products, duplicates included |
| UninstallRuns.PassKeepsNoDuplicates | internal/controller/rhmi/rhmi_controller.go:581-665 | a pass over a duplicate-free list neither panics nor creates a duplicate |
| UninstallRuns.PassesKeepNoDuplicates | internal/controller/rhmi/rhmi_controller.go:524-665 | the same over every run of passes |
| UninstallRuns.RunCompletes | internal/controller/rhmi/rhmi_controller.go:524-665 | from a duplicate-free list of the controller's finalizer and current finalizers of the table, any failing passes followed by one in which all goes well leave nothing |
| UninstallPanics.StageNeverPanicsIff | internal/controller/rhmi/rhmi_controller.go:589-594 | a stage panics in no order and under no outcomes, if and only if every repeated finalizer of its products is followed by something that is none |
| UninstallPanics.PassNeverPanicsIff | internal/controller/rhmi/rhmi_controller.go:584-612 | the same for a pass over a table, a repeated cloud-resources finalizer being judged against the products of both stages |
| UninstallPanics.RunNeverPanicsIff | internal/controller/rhmi/rhmi_controller.go:524-665 | no run of passes panics whatever cleanups report, if and only if every repeated finalizer of the table is followed by something not in it |
| UninstallPanics.SoundRunNeverPanicsIff | internal/controller/rhmi/rhmi_controller.go:524-665 | if no cleanup completes with an error, no run panics if and only if no first pass can |
| UninstallPanics.StageSheds | internal/controller/rhmi/rhmi_controller.go:589-594 | when every cleanup completes a stage panics or settles, and then leaves the list without the finalizers of its products, duplicates included |
| UninstallPanics.ScanKeepsSturdy | pkg/resources/finalizers.go:122-130 | removing a removable finalizer makes no list fragile that was not |
| UninstallPanics.OrderMattersWithDuplicates | internal/controller/rhmi/rhmi_controller.go:589-594 | for any two products there is a list with a duplicate on which one order settles and the other panics |
| UninstallRuns.PassOutcome | internal/controller/rhmi/rhmi_controller.go:596-665 | list and events of every pass after its walk: the controller's finalizer goes exactly when it is the last and both config maps are gone or absent, the list is written once, the operator goes only after that |
| UninstallRuns.BootstrapPendingIff | internal/controller/rhmi/rhmi_controller.go:702-732 | pending if and only if one of the calls, one per finalizer that mentions observability, does not complete |
| UninstallRuns.BootstrapStageWalk | internal/controller/rhmi/rhmi_controller.go:584-588 | a stage that does carry the bootstrap name touches no finalizer and waits for those calls |
| UninstallRuns.OperatorGoesLast | internal/controller/rhmi/rhmi_controller.go:614-656 | the operator is removed only after both config maps are gone and the empty list was persisted, in that order and at the end |
| UninstallRuns.OnePassSufficesIff | internal/controller/rhmi/rhmi_controller.go:581-656 | when all cleanups and writes succeed one pass empties the CR and removes the operator, if and only if the list was the controller's finalizer plus current finalizers of the table's products |
| UninstallRuns.WalkOfTable | internal/controller/rhmi/types.go:33-91 | for both shipped tables the walk is the product stage, then cloud resources if nothing is pending; the third stage does nothing |
| Uninstall.Uninstaller.HandleUninstall | internal/controller/rhmi/rhmi_controller.go:581-665 | list, event log and persisted list after one pass over any list, and exactly when it panics |
| Uninstall.Uninstaller.WalkStages | internal/controller/rhmi/rhmi_controller.go:584-612 | stages in order, stopped by a pending one |
| Uninstall.Uninstaller.HandleStage | internal/controller/rhmi/rhmi_controller.go:589-594 | every product of a stage is handled, pending or not, unless one panics |
| Uninstall.Uninstaller.HandleUninstallProduct | internal/controller/rhmi/rhmi_controller.go:667-700 | one call per finalizer of the snapshot that contains the product's name, given up at the first unfinished phase or panic |
| Uninstall.Uninstaller.HandleUninstallBootstrap | internal/controller/rhmi/rhmi_controller.go:702-732 | pending exactly when a bootstrap call for an "observability" finalizer did not complete |
| Uninstall.Uninstaller.TidyUp | internal/controller/rhmi/rhmi_controller.go:614-656 | config maps, own finalizer, write and operator removal, each only after the previous succeeded |
| InstallRuns.EveryRunVersions | internal/controller/rhmi/rhmi_controller.go:385-461 | over every run with operator replacements between upgrades, ToVersion is empty or the running version and never equals Version, and Version is never cleared |
| InstallRuns.VersionChangesIff | internal/controller/rhmi/rhmi_controller.go:415-461 | Version changes, to the operator's version and with ToVersion cleared, if and only if the reconcile is complete and persisted, that version is under way and not installed, and every product had the expected versions on record |
| InstallRuns.TwoReconcilesPromoteIff | internal/controller/rhmi/rhmi_controller.go:415-461 | after a persisted reconcile that got past bootstrap and through the products, completed or not, a complete persisted one installs the operator's version if and only if it was installed already or every product but Grafana had reported, for itself and its operator, what is now expected |
| InstallRuns.FirstReconcileDoesNotPromote | internal/controller/rhmi/rhmi_controller.go:1047-1049 | a new installation is not promoted by its first reconcile while a product expects a version |
| InstallRuns.ReconcileVersions | internal/controller/rhmi/rhmi_controller.go:385-461 | Version and ToVersion after any reconcile, with any lost writes |
| InstallRuns.ReconcileQuotas | internal/controller/rhmi/rhmi_controller.go:452-482 | Quota and ToQuota after any persisted reconcile: pending as soon as resolved, adopted only by completion |
| InstallRuns.ReconcileRecords | internal/controller/rhmi/rhmi_controller.go:423-436 | whether it completes or not, a persisted reconcile records the shared table of the installation stage, with what the products it got through reported, as soon as bootstrap is done |
| InstallRuns.TableReports | internal/controller/rhmi/rhmi_controller.go:1037-1100 | a stage adds to its shared table exactly the reports of the products it gets through |
| InstallRuns.StageReports | internal/controller/rhmi/rhmi_controller.go:1029-1107 | the phase of a stage and its mismatch flag, also when a product ends it early |
| InstallRuns.BootstrapReports | internal/controller/rhmi/rhmi_controller.go:1006-1027 | the phase of the bootstrap stage |
| InstallRuns.CompleteReconcileVersions | internal/controller/rhmi/rhmi_controller.go:385-461 | what a complete persisted reconcile makes of the version under way |
| InstallRuns.CompleteIff | internal/controller/rhmi/rhmi_controller.go:415-450 | a reconcile is complete if and only if it is not cut short, bootstrap resolves the quota and completes, and every product completes with its watches in place |
| InstallRuns.StageCompletesIff | internal/controller/rhmi/rhmi_controller.go:1029-1107 | a product stage completes if and only if every product does |
| InstallRuns.QuotaChangesOnlyWhenComplete | internal/controller/rhmi/rhmi_controller.go:452-482 | Quota changes only in a complete reconcile, to the name resolved in its bootstrap, with ToQuota cleared in the same step |
| InstallRuns.CompleteReconcileAdoptsQuota | internal/controller/rhmi/rhmi_controller.go:452-482 | after a complete persisted reconcile Quota is the resolved name; ToQuota is empty if and only if it was, the name changed or the version was promoted |
| InstallRuns.StaleQuotaReachable | internal/controller/rhmi/rhmi_controller.go:452-482 | for any two quotas a run of three reconciles from a new CR ends complete and persisted with the first adopted and the second still pending |
| InstallRuns.FlagCoversLastStage | internal/controller/rhmi/rhmi_controller.go:1029-1049 | the mismatch flag after any completed list of stages tells about the last product stage alone |
| InstallRuns.CompletedStage | internal/controller/rhmi/rhmi_controller.go:1029-1107 | the flag of a completed product stage is set exactly when some recorded version differs from the expected one |
| InstallRuns.StagesKeepDecisions | internal/controller/rhmi/rhmi_controller.go:415-450 | no stage changes Version, ToVersion or Quota |
| InstallRuns.BootstrapCompletes | internal/controller/rhmi/bootstrapReconciler.go:648-683 | a completed bootstrap resolved the quota and leaves product versions as recorded |
| Install.Controller.Reconcile | internal/controller/rhmi/rhmi_controller.go:385-488 | the persisted status, the global flag and the shared stage tables after one reconcile |
| Install.Controller.RunStages | internal/controller/rhmi/rhmi_controller.go:415-450 | the stage loop stops at the first unfinished stage |
| Install.Controller.RunStage | internal/controller/rhmi/rhmi_controller.go:423-436 | a stage records the shared product table in the status whether it completed or not |
| Install.Controller.ProcessStage | internal/controller/rhmi/rhmi_controller.go:1029-1107 | flag reset, product loop and early failures as specified |
| Install.Controller.ProcessQuota | internal/controller/rhmi/bootstrapReconciler.go:648-683 | when ToQuota and the updated flag are set |
| Install.Controller.Conclude | internal/controller/rhmi/rhmi_controller.go:452-482 | promotion of the version and adoption of the quota |
| Backups.InstallPlan.UpgradeApproval | pkg/resources/installPlan.go:15-38 | the approval is persisted exactly when it was due, the plan is of generation 1 or every leaf of the executor tree succeeded, and the update went through |
| Backups.PerformBackup | pkg/resources/backup/backup_executor.go:44-64 | succeeds if and only if the nested tree of executors does, and terminates |
| Backups.SucceedsIffLeavesDo | pkg/resources/backup/backup_executor.go:44-64 | however nested, a tree succeeds exactly when every leaf does |
| Backups.SnapshotBackup | pkg/resources/backup/aws.go:47-138 | succeeds if and only if a poll saw completion before any failure, query error or timeout; terminates on an advancing clock |
| Backups.JobBackup | pkg/resources/backup/cronjob.go:32-85 | the same for jobs, completion taking precedence over a failed condition |
| Backups.JobError | pkg/resources/backup/cronjob.go:87-95 | an error exactly when some condition says failed and true |
| Subscriptions.Subscription.ReconcileSubscription | pkg/resources/reconciler.go:207-274 | every outcome with its deletions: nothing is deleted without a readable, approvable plan; a failed plan deletes the installed CSV and then the subscription, an error stopping it; otherwise the first CSV that is not readable, there and valid decides; completed if and only if the approval is stored, the plan complete and every CSV sound |
| Subscriptions.CheckedAt | pkg/resources/reconciler.go:252-271 | the first unsound CSV in the plan's order decides between failure, waiting and reinstalling |
| Subscriptions.Subscription.CheckCsvs | pkg/resources/reconciler.go:252-273 | the CSV loop and the deletions it makes |
| Subscriptions.Subscription.RetryInstallation | pkg/resources/reconciler.go:293-306 | the subscription goes only after the CSV's deletion did not fail |
| Subscriptions.CheckedCompleted | pkg/resources/reconciler.go:252-291 | completed if and only if every named CSV is readable, there and valid; anything deleted was invalid |
| KeycloakSync.SynchronisedIsSpecification | pkg/products/rhsso/reconciler.go:632-696 | as multisets, duplicates included, the result is the users that stay (listed or unnamed) plus one new user per unknown, not excluded OpenShift user, all with the same roles |
| KeycloakSync.DeletionLeavesKept | pkg/products/rhssocommon/reconciler.go:504-539 | removal by swapping in the last element leaves exactly the users that stay |
| KeycloakSync.SynchronisedKnows | pkg/products/rhsso/reconciler.go:616-696 | a name is known afterwards if and only if it was and is listed or empty, or it is listed, new and not excluded |
| KeycloakSync.SynchronisedIsStable | pkg/products/rhsso/reconciler.go:616-696 | synchronising the result again adds nobody and deletes nobody with a name |
| KeycloakSync.RemovedAllNames | pkg/products/rhssocommon/reconciler.go:504-539 | each deletion takes one occurrence of its name |
| KeycloakSync.DeletedNames | pkg/products/rhsso/reconciler.go:623-627 | every occurrence of an unlisted name is up for deletion and no listed one |
| KeycloakUsers.GetUserDiff | pkg/products/rhsso/reconciler.go:616-630 | the two differences, in order |
| KeycloakUsers.KcContainsOsUser | pkg/products/rhsso/reconciler.go:698-706 | true exactly when some Keycloak user has the name |
| KeycloakUsers.OsUserInKc | pkg/products/rhssocommon/reconciler.go:541-549 | true exactly when some OpenShift user has the name |
| KeycloakUsers.RemoveNamed | pkg/products/rhssocommon/reconciler.go:512-520 | the first user of a name is overwritten by the last of the live slice, which shrinks by one |
| KeycloakUsers.DeleteKeycloakUsers | pkg/products/rhssocommon/reconciler.go:504-539 | the slice after one removal per named deleted user; success exactly when every name and deletion succeeds |
| KeycloakUsers.AppendNewUsers | pkg/products/rhsso/reconciler.go:660-686 | one new user per added OpenShift user after those kept, with its name, address and identity, exactly when every address can be made |
| KeycloakUsers.SetRoles | pkg/products/rhsso/reconciler.go:691-693 | every user gets the roles, nothing else changes |
| KeycloakUsers.SynchronizeWithOpenshiftUsers | pkg/products/rhsso/reconciler.go:632-696 | the synchronised list, and exactly when there is one |
| KeycloakTeardown.Namespace.CleanupKeycloakResources | pkg/products/rhssocommon/reconciler.go:98-210 | with objects vanishing at any moment no realm is touched while a user or client exists and completion means all are gone; an undisturbed call asks for the deletion of every user and client and waits, and one that finds them gone completes; an unanswered call fails it |
| KeycloakTeardown.Namespace.CleanUpTwice | pkg/products/rhssocommon/reconciler.go:98-210 | after an undisturbed call, a second one that finds those users and clients gone completes with nothing left |
| KeycloakTeardown.Namespace.RequestDeletions | pkg/products/rhssocommon/reconciler.go:121-146 | success leaves every user and client on its way out; undisturbed it succeeds and does nothing else |
| KeycloakTeardown.Namespace.Recount | pkg/products/rhssocommon/reconciler.go:148-167 | goes on exactly when both lists are answered and empty |
| KeycloakTeardown.Namespace.RemoveRealms | pkg/products/rhssocommon/reconciler.go:169-197 | realms are deleted and then stripped; only the first listing fails without an error |
| KeycloakTeardown.Namespace.CleanupRealms | pkg/products/rhssocommon/reconciler.go:169-210 | realms are deleted, stripped and recounted, in that order |
| KeycloakTeardown.Namespace.DeleteUsers | pkg/products/rhssocommon/reconciler.go:127-133 | success leaves every listed user on its way out; undisturbed it succeeds; one already gone is an error |
| KeycloakTeardown.Namespace.DeleteClients | pkg/products/rhssocommon/reconciler.go:140-146 | the same for clients |
| KeycloakTeardown.Namespace.DeleteRealm | pkg/products/rhssocommon/reconciler.go:176-180 | a realm without finalizers goes, another is marked, one already gone is an error |
| KeycloakTeardown.Namespace.DeleteRealms | pkg/products/rhssocommon/reconciler.go:175-181 | when nothing interferes a realm without finalizers is gone at once and every other is marked as deleting |
| KeycloakTeardown.Namespace.StripRealms | pkg/products/rhssocommon/reconciler.go:188-197 | a deleting realm without finalizers goes; one already gone is no error |
| KeycloakTeardown.Namespace.CleanUpUntilDone | pkg/products/rhssocommon/reconciler.go:98-210 | over any number of calls no realm is touched early, and done means everything is gone |
| EnvVars.Csv.ReconcileCSVEnvVars | pkg/products/rhssocommon/reconciler.go:703-730 | the first operator deployment's first container is merged, everything else untouched, updated exactly when the CSV changed, panic exactly without containers |
| EnvVars.MergeIsIdempotent | pkg/products/rhssocommon/reconciler.go:703-730 | a second merge of the same request changes nothing |
| EnvVars.MergeOverridesIffUnique | pkg/products/rhssocommon/reconciler.go:703-730 | for every request the process sees the old environment overridden by the request, if and only if existing names are unique |
| EnvVars.Override | pkg/products/rhssocommon/reconciler.go:710-718 | first entries of requested names overwritten in place, the request consumed, updated exactly on change |
| EnvVars.AppendRest | pkg/products/rhssocommon/reconciler.go:720-724 | the remaining names appended once each, in any map order |
| RateLimits.DifferentLimitSettings | pkg/products/marin3r/rateLimitService.go:552-561 | not different implies equal multisets, and if keys determine entries the converse |
| RateLimits.ComparisonExactIff | pkg/products/marin3r/rateLimitService.go:552-570 | for every sort the comparison finds no difference between any two arrangements of a list, if and only if no two different entries share a key |
| RateLimits.SortedIsUnique | pkg/products/marin3r/rateLimitService.go:563-570 | two sorted permutations are equal when keys determine entries |
| RateLimits.BelowIff | pkg/products/marin3r/rateLimitService.go:563-570 | namespaces are ordered as words |
| RateLimits.SortedGoesUp | pkg/products/marin3r/rateLimitService.go:563-570 | a sorted list goes up by namespace and then by maximum value |
| RateLimits.ShareOfLimit | pkg/products/marin3r/rateLimitService.go:452-460 | a tenant's limit is its share of the rate rounded down, never below 200 |
| RateLimits.MultitenantLimits | pkg/products/marin3r/rateLimitService.go:499-533 | one limit for all tenants and one for each, in one domain and window |
| RateLimits.MultitenantExactIff | pkg/products/marin3r/rateLimitService.go:499-533 | the comparison is exact on multitenant settings if and only if the two limits differ |
| RateLimits.DefaultExactIff | pkg/products/marin3r/rateLimitService.go:452-460 | with the default per-tenant limit that is every rate except 200 |
| AlertUsage.FindFrom | pkg/products/marin3r/apiUsagePrometheusRules.go:176-177 | the leftmost match of digits and a final character at a line end, if there is one |
| AlertUsage.IntervalAcceptedIff | pkg/products/marin3r/apiUsagePrometheusRules.go:175-205 | exactly which intervals are accepted and as how many minutes |
| AlertUsage.IntervalHonestIff | pkg/products/marin3r/apiUsagePrometheusRules.go:200-204 | an interval is read as spelled or rejected as too large, if and only if its product stays below 2^64 or does not wrap to a small number |
| AlertUsage.IntervalRoundTrip | pkg/products/marin3r/apiUsagePrometheusRules.go:175-205 | a printed number and unit are read back as the minutes they stand for |
| AlertUsage.PlainMinutes | pkg/products/marin3r/apiUsagePrometheusRules.go:187-189 | a number with m or M is that many minutes |
| AlertUsage.PlainHours | pkg/products/marin3r/apiUsagePrometheusRules.go:190-191 | a number with h or H is sixty times as many |
| AlertUsage.PlainOther | pkg/products/marin3r/apiUsagePrometheusRules.go:192-194 | no other letter is accepted |
| AlertUsage.FindWhole | pkg/products/marin3r/apiUsagePrometheusRules.go:176-184 | digits and a letter or percent sign at the end of the first line are what is read, whatever other lines say |
| AlertUsage.HoursWrapAround | pkg/products/marin3r/apiUsagePrometheusRules.go:200-204 | some interval beyond 2^64 minutes is accepted |
| AlertUsage.AllowanceExactIff | pkg/products/marin3r/apiUsagePrometheusRules.go:71-71 | for every unit the allowance is the limitador limit scaled from window to period, if and only if the period is at most 71,582,788 minutes or the limit zero |
| AlertUsage.SameUnits | pkg/products/marin3r/apiUsagePrometheusRules.go:156-170 | alerts and limitador accept the same units, and rate times window is the limit |
| AlertUsage.RangeAcceptedIff | pkg/products/marin3r/apiUsagePrometheusRules.go:209-251 | exactly which percentage ranges are accepted and as what |
| AlertUsage.RangeSafeIff | pkg/products/marin3r/apiUsagePrometheusRules.go:235-251 | nil dereference if and only if the minimum overflows and the maximum is absent, overflows or spells at most 100; otherwise min <= max <= 100 |
| AlertUsage.LargeMinimumPanics | pkg/products/marin3r/apiUsagePrometheusRules.go:221-250 | every number beyond int, printed as the minimum percentage, ends in a nil dereference |
| AlertUsage.ShareOfHundred | pkg/products/marin3r/apiUsagePrometheusRules.go:148-151 | a hundred times an edge is the percentage of the allowance |
| AlertUsage.UsageBand | pkg/products/marin3r/apiUsagePrometheusRules.go:65-90 | a usage alert's edges are the stated percentages of the scaled limit, lower never above upper |
| AlertUsage.MapAlertsConfiguration | pkg/products/marin3r/apiUsagePrometheusRules.go:45-108 | the alerts in iteration order, or the first failure or panic, null entries and null thresholds included |
| AlertUsage.AlertsMappedIff | pkg/products/marin3r/apiUsagePrometheusRules.go:45-108 | alerts are created if and only if every entry is there and every threshold entry has a readable period, a threshold and an acceptable range |
| AlertUsage.EntryPanicsIff | pkg/products/marin3r/apiUsagePrometheusRules.go:54-79 | an entry panics if and only if it is null, or a threshold entry with a readable period and no threshold or an overflowing minimum beside an acceptable maximum |
| AlertUsage.FirstBadEntryDecides | pkg/products/marin3r/apiUsagePrometheusRules.go:48-106 | the first unacceptable entry in iteration order decides between an error and a panic |
| AlertUsage.NeverPanicsIff | pkg/products/marin3r/apiUsagePrometheusRules.go:48-106 | the mapping panics in no order if and only if no entry does |
| AlertUsage.OneAlertPerEntry | pkg/products/marin3r/apiUsagePrometheusRules.go:48-106 | there is exactly one alert for every spike or threshold entry, that entry's own, in order |
| AlertUsage.AlertOrderIrrelevant | pkg/products/marin3r/apiUsagePrometheusRules.go:48-106 | the same entries in another order give the same multiset of alerts |
| Versions.SplitIffMatches | pkg/resources/version.go:19-27 | the left-to-right parser finds exactly the submatches of the regular expression |
| Versions.NewVersionIff | pkg/resources/version.go:18-47 | a matching string is accepted exactly when its numbers fit an int, and the version holds them |
| Versions.NewVersionNeedsMatch | pkg/resources/version.go:24-27 | nothing else is accepted |
| Versions.ParseOfPrint | pkg/resources/version.go:57-59 | parsing a printed version gives it back |
| Versions.PrintOfParseNormalises | pkg/resources/version.go:18-59 | printing a parsed string keeps its meaning and is idempotent |
| Versions.NewerIffHeavier | pkg/resources/version.go:49-55 | read as numbers in any large enough base, the newer of two versions is the larger and equal ones are equal |
| Versions.NewerIsStrictTotalOrder | pkg/resources/version.go:49-55 | IsNewerThan with Equals is a strict total order |
| Passwords.GenerateRandomPassword | pkg/resources/password.go:42-93 | empty when the source fails; otherwise of the demanded length, over the allowed characters, and with the required special, numeric and uppercase characters after the shuffle |
| Passwords.Draw | pkg/resources/password.go:45-83 | fails exactly when one of the draws does, otherwise meets length and minima |
| Passwords.Append | pkg/resources/password.go:46-53 | the n characters that the draws pick from the set are appended in order, or nothing exactly when one of the draws fails |
| Passwords.Shuffle | pkg/resources/password.go:84-92 | the in-place exchanges give the shuffled sequence |
| Passwords.CountOfPermutation | pkg/resources/password.go:89-91 | rearranging keeps the count of every character class |
| Passwords.EveryArrangementReachable | pkg/resources/password.go:89-91 | every arrangement of the characters is the outcome of some picks |

## Left out

- Kubernetes client details: caching, resource versions and a response overwriting the object in memory; each write persists or is lost, each read is of the modelled store.
- Tenants.TenantReconciler.Reconcile: creations and deletions do not interleave with one reconcile; a tenant created meanwhile has an unset status and counts for nothing. Problems stand for the error texts.
- Uninstall.Uninstaller.HandleUninstall: the messages collected on the way, the deletion of PrometheusRules before the walk and a product reconciler that cannot be built (the code then calls a nil reconciler) are not modelled.
- UninstallRuns.OnePassSufficesIff: stated for duplicate-free lists, which `Finalizers.EveryRunClean` and `UninstallRuns.PassesKeepNoDuplicates` keep; says nothing about legacy finalizers during deletion beyond that they stay; the code removes them nowhere.
- Install.Controller.Reconcile: preflight checks, metrics, pod rebalancing, webhooks, informers and error texts are not modelled; a nil and an empty slice count as equal in the final comparison.
- InstallRuns.EveryRunVersions: assumes that the operator is replaced only while ToVersion is empty; progress after a replacement in mid-upgrade is not established by the code.
- Backups.PerformBackup: the goroutines of a concurrent executor run to completion in any case, so the model runs them one after another; clocks advance between polls.
- Subscriptions.Subscription.ReconcileSubscription: the creation of the subscription and the catalog source belong to the marketplace package and are answers here.
- KeycloakUsers.SynchronizeWithOpenshiftUsers: exclusion groups, e-mail addresses and generated CR names come from packages outside the model and are parameters.
- KeycloakTeardown.Namespace.CleanupKeycloakResources: assumes that no Keycloak object is created during teardown.
- RateLimits.DifferentLimitSettings: `sort.Slice` is any function returning a sorted permutation; the limit read from the config map is a parameter.
- AlertUsage.AllowanceExactIff: rates are exact reals, not IEEE doubles; alert names, labels and expression texts are not built.
- Versions.ParseOfPrint: negative components, which parsing cannot produce, are left out.
- Passwords.GenerateRandomPassword: the distribution of the random source is not modelled, only its possible outcomes.
- YAML and JSON codecs, dashboards, Prometheus rules other than API usage, Envoy filters, deployments, secrets and generated code: constant data and plumbing without a decision to specify.
- The quota, marketplace, configuration and product packages behind the oracles are not part of this model.
