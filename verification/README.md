# Crypt controller: a verified model

The crypt controller watches `Crypt` resources. Each names secrets to build from a key-value store and patterns of
namespaces to put them in. Informers keep caches and raise events, event handlers put keys on a work queue, and a few
workers take keys and bring the API's secrets in line. This project models that machinery in Dafny and proves what it
promises: that no work is lost, that the controller comes to rest with all of it done, that interleaved workers end
where serial ones would, that written data has a provenance and never goes backwards, and that the supporting pieces
(keys, listers, deep copies, the informer factory, the vault conversion) do what the rest relies on.

## How it is organised

| file | what it holds |
|---|---|
| `Common.dfy` | options, results, maps read pointwise, listings in no particular order |
| `Resources.dfy` | crypts, secret definitions and secrets as values; owner references |
| `QueueKeys.dfy` | printing and splitting queue keys, the lister's index key |
| `Stores.dfy` | store objects, lookups, the vault conversion |
| `WorkQueues.dfy` | the rate-limited queue as pure functions, and the class that refines them |
| `Reconcile.dfy` | one sync as a fold over (definition, namespace) tasks, and its declarative meaning |
| `Handlers.dfy` | what the namespace and delete handlers enqueue |
| `Listers.dfy` | the crypt lister over one index, the namespace lister |
| `Controllers.dfy` | the controller object: every handler and the worker loop, imperative, one call at a time |
| `Machine.dfy` | the interleaved system as a step machine |
| `Discipline.dfy` | queue discipline in every run |
| `WakeUp.dfy` | no lost wake-up, repair of the delete race, and what becomes of deletions and failures |
| `Ownership.dfy`, `GlobalRules.dfy` | rules for the surroundings that imply the promises of the wake-up theorem |
| `Rest.dfy` | the controller never stalls; left alone it takes every noticed key and comes to rest |
| `Counterexamples.dfy` | concrete runs and inputs in which a promise does not hold |
| `QueueOrder.dfy` | in which order and how often keys are taken |
| `Provenance.dfy` | where written secrets come from; freshness of the store |
| `Convergence.dfy` | quiet runs converge, equal every serial order, and stay |
| `Together.dfy` | what the theorems come to together; runs that exist, an ordinary one among them |
| `DeepCopy.dfy` | the generated deep copies over maps and slices on the heap |
| `InformerFactory.dfy` | the shared informer factory and the crypt informer |

The step machine has one step for each atomic action: a cache change, an event being handled, a delay running out, a
worker taking a key, reading the crypt, matching one pattern, looking up the store, Create, Update, and releasing the
key. Everything left to chance (which worker moves, the order of a listing, whether a call fails) is an argument of the
step, so a statement about every sequence of steps is a statement about every interleaving and every failure. The
handlers and the sync fold in the machine are the same functions the controller object's methods are proved against.

Assumptions about the environment are explicit. Patterns are matched by an arbitrary predicate (an invalid pattern
matches nothing); crypts have slash-free names and live inside a namespace, as their resource definition says
(artifacts/crd.yaml:12), without which the lister would never find their keys (`ListerRebuildsKey`); the informer files
each crypt under its own key and updates its cache before the handler sees the event; events may be handled in any
order. A secret may be refused by the API server for good (`denies`), and in the step machine any call may also fail at
any time.

## Findings

Each comes with the exact condition under which the code does meet the expectation, and a concrete input for which it
does not. Where the input is a state of the running system, it is reached by a run from an initial state
(`Machine.Reachable`), and a wake-up is lost there by the one step in question.

- A namespace addition enqueues at most one crypt per home namespace (`break Out`, controller/controller.go:282-291) and
  looks only into home namespaces that are cached already, while the repository's README.md:58 says that crypts will be
  checked. Nobody is passed over exactly when every crypt that selects the namespace has a cached home and is alone
  there in selecting it (`NobodyIsPassedOverIff`); `BreakPassesOver` and `UncachedHomeIsPassedOver` are the two ways to
  fail. The passed-over crypts wait for their next resync (`ResyncIsTaken`).
- The owner of a deleted secret is found by name, in the first listed namespace that has such a crypt
  (controller/controller.go:317-335, `DeletedSecretWakes`). `NamesakeTakesTheWakeUp` is a secret whose only crypt is not
  told of the deletion, because a crypt of the same name that wants nothing is listed first.
- When two crypts target one secret, its deletion does not wake the one that did not write it last
  (controller/controller.go:311-343, `SharedTargetLosesWakeUp`). `HandledDeletionIsNoticedIff` is the exact condition
  for both cases: somebody knew of the gap before, or the crypt bears the controller's name and is the first of that
  name to be listed. `Ownership.dfy` excludes shared targets and `GlobalRules.dfy` namesakes as well, and then no
  deletion goes unnoticed (`RulesLoseNoWakeUp`).
- Failed lookups and writes are only logged and never put back on the queue (controller/controller.go:238-262).
  `FailureIsForgottenUnless` says exactly when somebody still knows of the gap, and `FailedLookupIsForgotten` is a case
  where nobody does.
- A crypt with two definitions of one name converges to the later one, but every sync passes through the earlier one
  (controller/controller.go:236-242). `SettledDuringSync` says that this is visible exactly when the two render
  different secrets, and `EarlierDefinitionShowsThrough` is such a crypt.

## Model

| member | source | states |
|---|---|---|
| QueueKeys.KeyRoundTrip | controller/controller.go:203-216 | the key printed at enqueue is the namespace, a slash and the name, and splits back into the two |
| QueueKeys.KeysAreUnique | controller/controller.go:203-213 | two crypts share a queue key exactly when they are the same namespace and name |
| QueueKeys.ListerRebuildsKey | pkg/client/listers/crypt/v1alpha1/crypt.go:85-94 | the lister's index key is the queued key exactly when the crypt has a namespace |
| QueueKeys.LookupFindsEnqueued | controller/controller.go:215-228 | a sync finds exactly the cached crypt that was enqueued |
| QueueKeys.LookupIsCached | controller/controller.go:215-228 | for any key at all, a sync finds something exactly when that key is in the index, and then what is filed there |
| Resources.ControllerOf | controller/controller.go:311-315 | the controller of a secret is its first owner reference marked as one, none if there is none |
| Resources.NewSecretIsControlled | controller/controller.go:361-376 | a built secret has one owner, its crypt by kind, API version, name and uid, as its controller; no other name controls it |
| Stores.DataToObject | pkg/store/vault/vault.go:46-58 | succeeds exactly when every value is a byte string, then with exactly the input's pairs; otherwise InvalidData and no object |
| WorkQueues.AddKeepsWellFormed | controller/controller.go:203-213 | adding keeps the waiting items the dirty, unheld ones, each once |
| WorkQueues.TakeKeepsWellFormed | controller/controller.go:166-170 | the item handed out was held by nobody, and the books stay right |
| WorkQueues.DoneKeepsWellFormed | controller/controller.go:172-173 | an item added during its own processing waits again when released, and only then |
| QueueOrder.FirstInFirstOut | controller/controller.go:166-173 | a worker takes the key that waited longest; every other step leaves the line or adds one key to its end |
| QueueOrder.DelayedIffEnqueued | controller/controller.go:203-213 | a key is delayed exactly when it was and its delay has not run out, or a handler enqueues it on an open queue |
| QueueOrder.NoSyncWithoutAddition | controller/controller.go:161-213 | in every run each key is taken at most as often as a handler enqueued it |
| WorkQueues.WorkQueue.Get | controller/controller.go:166-170 | the queue object hands out the oldest waiting item, or reports shutdown when closed and empty |
| WorkQueues.WorkQueue.Release | controller/controller.go:172-173 | Done puts an item that was added meanwhile at the end of the line, and only such an item |
| WorkQueues.WorkQueue.AddLater | controller/controller.go:203-213 | a rate-limited addition only delays the item, and a closed queue ignores it |
| Reconcile.LastGoodIsLast | controller/controller.go:236-242 | the chosen definition is the last of its name whose lookup and write succeed; none means there is none |
| Reconcile.RunTasksAt | controller/controller.go:236-263 | running the task list leaves at each identity its last effective task's secret, and everything else as it was |
| Reconcile.SyncMeaning | controller/controller.go:230-242 | a sync leaves at each wanted identity the last good definition's secret and touches nothing else, whatever fails |
| Reconcile.GatherSelects | controller/controller.go:230-233 | the gathered namespaces are the cached ones some pattern matches, in whatever order and multiplicity |
| Reconcile.SyncIsOrderBlind | controller/controller.go:230-242 | listing order, pattern order and repeated matches do not change the result of a sync |
| Reconcile.SyncIsIdempotent | controller/controller.go:215-246 | syncing twice is syncing once |
| Reconcile.SettledDuringSync | controller/controller.go:236-242 | a settled secret holds still throughout a new sync exactly when its definitions agree |
| Handlers.FirstMatchIsFirst | controller/controller.go:282-291 | the crypt enqueued from a list is the first with a matching pattern, none if none matches |
| Handlers.NamespaceAddCoverage | controller/controller.go:265-293 | of the crypts with a cached home that select the namespace, only such are enqueued, some if any are, all exactly when no two share a home |
| Handlers.NobodyIsPassedOverIff | controller/controller.go:265-293 | all cached crypts that select the namespace are enqueued exactly when each has a cached home and is alone there in selecting it |
| Handlers.EnqueueAllKeys | controller/controller.go:276-292 | enqueuing a list of crypts delays exactly their keys, or nothing on a closed queue |
| Handlers.OwnerScanIsFirst | controller/controller.go:317-335 | the owner found is the crypt of that name in the first listed namespace that has one, none if none has |
| Handlers.DeletedSecretWakes | controller/controller.go:311-343 | a deletion wakes a given cached crypt exactly when it bears the controller's name and no earlier listed namespace has a crypt of that name |
| Handlers.ParentIsWoken | controller/controller.go:311-343 | with unique names and a complete listing, a deleted secret wakes the crypt it was built for |
| Listers.ListShown | pkg/client/listers/crypt/v1alpha1/crypt.go:76-82 | a listing shows each selected crypt of the namespace exactly once, of all namespaces for the empty one |
| Listers.CryptLister.List | pkg/client/listers/crypt/v1alpha1/crypt.go:47-53 | lists every indexed crypt that the selector selects exactly once |
| Listers.CryptNamespaceLister.List | pkg/client/listers/crypt/v1alpha1/crypt.go:76-82 | lists the namespace's crypts that the selector selects exactly once each |
| Listers.CryptNamespaceLister.Get | pkg/client/listers/crypt/v1alpha1/crypt.go:84-94 | finds the crypt of that namespace and name, and fails only when no such crypt is indexed |
| Listers.NamespaceLister.List | controller/controller.go:350-351 | lists every cached namespace exactly once |
| Controllers.SecretClient.Create | controller/controller.go:258-259 | creates an absent secret as given, refuses an existing one with AlreadyExists |
| Controllers.SecretClient.Update | controller/controller.go:259-261 | replaces an existing secret whole, fails on an absent one |
| Controllers.Controller.FindNamespaceMatches | controller/controller.go:347-359 | returns exactly the cached namespaces the pattern matches |
| Controllers.Controller.CreateSecret | controller/controller.go:248-263 | one task of the fold, and an error exactly when the lookup or the write failed |
| Controllers.Controller.GatherNamespaces | controller/controller.go:230-233 | collects exactly the selected namespaces |
| Controllers.Controller.CreateSecrets | controller/controller.go:235-242 | the two loops are the fold over all tasks, going on after failures |
| Controllers.Controller.SyncHandler | controller/controller.go:215-246 | each identity then holds what the crypt cached under the key wants there; else, and for a malformed or unknown key, what it held |
| Controllers.Controller.ProcessNextWorkItem | controller/controller.go:166-201 | one key is taken, its crypt's wants are met at every identity, and it is released on every path; the loop goes on unless the queue is closed and empty |
| Controllers.Controller.RunWorker | controller/controller.go:161-164 | on a closed queue the last waiting key whose crypt wants an identity decides what it holds; without one it is left alone; nothing stays held |
| Controllers.Controller.ShutDownAndDrain | controller/controller.go:127-164 | after a shutdown a worker syncs every key that was waiting, in order, and is done |
| Controllers.Controller.CryptAdded | controller/controller.go:103-110 | an added or updated crypt is filed, then enqueued, and looking its key up gives this very crypt |
| Controllers.Controller.EnqueueCrypt | controller/controller.go:203-213 | the crypt's own key is added with a delay |
| Controllers.Controller.EnqueueFirstMatch | controller/controller.go:282-291 | the labelled break stops at the first matching crypt |
| Controllers.Controller.EnqueueFromHome | controller/controller.go:276-291 | one home's crypts are listed completely and the first matching one is enqueued |
| Controllers.Controller.HandleNamespaceAdd | controller/controller.go:265-293 | enqueues the first match of each listed home namespace, for listings that show the caches |
| Controllers.Controller.FindOwner | controller/controller.go:317-335 | the loop with the visited set finds what a plain scan of all listed namespaces finds |
| Controllers.Controller.HandleSecretDelete | controller/controller.go:295-345 | enqueues the owner's key for a crypt-controlled secret or its tombstone, and nothing otherwise |
| Controllers.SyncIsReconciled | controller/controller.go:230-242 | the fold's result as one map: wanted secrets where something is wanted, the rest as before |
| Controllers.SyncKeyAt | controller/controller.go:215-242 | a sync of a key, read at one identity: the cached crypt's desire, or what was there |
| Controllers.SyncKeysLeave | controller/controller.go:161-182 | syncs of keys whose crypts want nothing at an identity leave it alone |
| Controllers.LastKeyDecides | controller/controller.go:161-182 | of several keys synced in order the last whose crypt wants an identity decides |
| Machine.CallsChangeOneSecret | controller/controller.go:258-261 | Create makes an absent secret, Update replaces a present one, and no step of a worker changes any other |
| Machine.EnvironmentChangesOneThing | controller/controller.go:79-122 | a cache change, a store change, a foreign write or deletion changes the one entry it names and nothing else |
| Discipline.DisciplineStep | controller/controller.go:149-151 | no step, failing or not, lets two workers hold one key or the queue's books go wrong |
| Discipline.DisciplineRun | controller/controller.go:149-151 | in every state of every run no key is held by two workers |
| Discipline.HeldUntilReleased | controller/controller.go:172-193 | a taken key is held through every step but its worker's release, which frees it and requeues it if dirty |
| Discipline.ExitedMeansShutdown | controller/controller.go:161-170 | in every run a worker has left its loop exactly if it once found nothing waiting after a step that closed the queue |
| Discipline.NoticedUntilTaken | controller/controller.go:203-213 | a delayed, waiting or dirty key stays so until a worker takes it |
| Discipline.WorkerStepsDescend | controller/controller.go:166-263 | every step of a busy worker brings its release nearer, whatever fails |
| Discipline.WorkerReachesRelease | controller/controller.go:172-201 | from every state a busy worker can run on to exactly one release of its key |
| WakeUp.WakeUpStep | controller/controller.go:103-122 | one clean step keeps every missing wanted secret on somebody's list |
| WakeUp.NoWakeUpIsEverLost | controller/controller.go:103-345 | in every state of every clean run a missing wanted secret is awaited: key queued, worker to write it, or event pending |
| WakeUp.DrainedIsComplete | controller/controller.go:215-263 | when no event, key or worker is under way every wanted secret exists |
| WakeUp.EventLeadsToTake | controller/controller.go:103-122 | an event that concerns a crypt is pending, or its key queued, until a worker takes the key |
| WakeUp.DeletionIsRepaired | controller/controller.go:258-343 | after a deletion, in whatever stage a worker was, the owner's key is taken again and at rest the secret exists again |
| WakeUp.ResyncLeadsToTake | controller/controller.go:107-109 | after a resync, in every run on an open queue, the event is pending or the crypt's key queued until a worker takes the key |
| WakeUp.HandledDeletionIsNoticedIff | controller/controller.go:311-343 | once a deletion is handled, the gap is awaited exactly when it was before, or the crypt bears the controller's name and is the first of that name listed |
| WakeUp.FailureIsForgottenUnless | controller/controller.go:238-262 | a call that fails, for a missing store key or a vanished secret too, leaves its gap awaited exactly when something else was pending for it |
| Ownership.OwnedStep | controller/controller.go:248-263 | with every identity left to one crypt, by namespace and name, every step keeps each target secret under a controller of that crypt's name |
| Ownership.OwnedRun | controller/controller.go:248-263 | the same over every run |
| Ownership.TargetsAreUnshared | controller/controller.go:248-263 | then two cached crypts never target one identity, namesakes included |
| Ownership.OwnedDeletionIsClean | controller/controller.go:311-343 | then a secret that disappears is controlled, by name, by every cached crypt that wants it |
| Ownership.DrainedIsControlled | controller/controller.go:248-263 | and at rest every wanted secret exists and is controlled by a crypt of the wanting crypt's name |
| GlobalRules.RuledIsClean | controller/controller.go:265-343 | unique names, unshared targets, cached homes with one selecting crypt, complete listings, a total store and no faults make a step keep every promise |
| GlobalRules.OrderlyStep | controller/controller.go:215-263 | every step under the rules keeps the order they rest on |
| GlobalRules.RulesLoseNoWakeUp | controller/controller.go:103-345 | every run under the rules is clean, and in each of its states every missing wanted secret is awaited |
| Rest.InternalStepDescends | controller/controller.go:161-345 | every step of a handler, a delay or a worker leaves less to do, whatever fails |
| Rest.NeverStalls | controller/controller.go:161-201 | in no state of any run, shut down or not, are a controller's workers stuck or gone with keys waiting: unless at rest it can take a step |
| Rest.ComesToRest | controller/controller.go:161-345 | left alone, the controller comes to rest in every interleaving and with any failures |
| Rest.ScheduledIsTaken | controller/controller.go:161-201 | left alone, a noticed key is taken by a worker in the end, on a closed queue too unless it was only delayed |
| Rest.ResyncIsTaken | controller/controller.go:107-109 | a resync ends with a worker taking the crypt's key, so a passed-over crypt is synced after all |
| Rest.ComesToCompletion | controller/controller.go:103-345 | left alone without failures and losses it comes to rest with every wanted secret in place |
| Rest.DeletionIsUndone | controller/controller.go:258-343 | a deletion, in whatever stage the workers are, ends with a worker taking the owner's key and the secret in place again |
| Together.CanBeLeftAlone | controller/controller.go:161-201 | every state of a controller with workers has a future in which it is left alone, so the theorems on such futures are never empty |
| Together.RulesLeaveFree | controller/controller.go:103-345 | the rules bind only the environment: they forbid the controller no undisturbed step |
| Together.RuledRunCanFinish | controller/controller.go:103-345 | whatever happened in a run under the rules, it can go on to rest with every wanted secret in place |
| Together.ConvergesInTheEnd | controller/controller.go:161-263 | left alone in a quiet environment, it comes to rest with every secret a scheduled crypt wants exactly as wanted |
| Together.OwnedIsDisjoint | controller/controller.go:248-263 | where each target has one owner, no two crypts want one identity |
| Together.OrdinaryRun | controller/controller.go:215-263 | a concrete run under the rules, from an empty start to a crypt's secret in place |
| Counterexamples.SharedTargetLosesWakeUp | controller/controller.go:317-342 | in some run two crypts share a target; once its deletion is handled, one misses it and nobody knows, though the store could serve it |
| Counterexamples.NamesakeTakesTheWakeUp | controller/controller.go:317-335 | in some run the deletion of one crypt's own secret wakes a namesake in an earlier listed namespace instead |
| Counterexamples.BreakPassesOver | controller/controller.go:282-291 | in some run two crypts of one home select a new namespace; the second is passed over and nobody knows |
| Counterexamples.UncachedHomeIsPassedOver | controller/controller.go:271-280 | in some run the only crypt that selects a new namespace has a home that is not cached; it is passed over |
| Counterexamples.FailedLookupIsForgotten | controller/controller.go:249-253 | in some run the store lacks a key when it is looked up; the secret stays missing and nobody knows, even once the store has the key |
| Counterexamples.EarlierDefinitionShowsThrough | controller/controller.go:236-242 | a settled secret of a crypt with two definitions of that name does not hold still during a sync |
| Provenance.EveryWriteIsTraced | controller/controller.go:222-257 | every write in every run carries one store entry's whole data, current during the sync, for a crypt cached when the sync read it |
| Provenance.WriteHasProvenance | controller/controller.go:215-385 | every secret written in any run equals, field by field, what a crypt cached when the sync read it asks for, with one entry current before the write, and the API holds it right after |
| Provenance.SecretsAreWholeWrites | controller/controller.go:236-263 | a secret is always the last write to it, whole, or what was there from the start |
| Provenance.StoreNeverGoesBack | controller/controller.go:149-263 | successive writes to a secret with a single crypt come from strictly later store readings |
| Provenance.LaterWriteLaterReading | controller/controller.go:149-263 | of two writes to such a secret the later one carries the later reading |
| Convergence.WriteIsDesired | controller/controller.go:236-263 | a quiet worker only writes identities its own crypt wants |
| Convergence.InProgressStep | controller/controller.go:215-263 | each quiet step keeps: processed crypts have what they want or a worker will deliver it, the rest is untouched |
| Convergence.Converges | controller/controller.go:161-263 | once a crypt's key was taken and released every secret it wants is as wanted |
| Convergence.UnwantedIsUntouched | controller/controller.go:236-263 | a secret that no taken key's crypt wants is exactly as it was at the start |
| Convergence.SerialAt | controller/controller.go:215-263 | serial syncs of disjoint crypts leave each identity to its own crypt, in any order |
| Convergence.InterleavedEqualsSerial | controller/controller.go:149-151 | whenever an interleaved run has every worker idle, the secrets are those that syncing the keys taken so far one by one in any order leaves |
| Convergence.SettledForGood | controller/controller.go:236-263 | once settled, a secret whose definitions agree stays as wanted in every later state, mid-sync included |
| DeepCopy.CopyStringMap | pkg/apis/crypt/v1alpha1/zz_generated.deepcopy.go:135-148 | nil stays nil, any other map is a new one with the same pairs |
| DeepCopy.SecretDefinition.DeepCopy | pkg/apis/crypt/v1alpha1/zz_generated.deepcopy.go:135-148 | equal, with two new maps that are not one |
| DeepCopy.CopyDefinitionInto | pkg/apis/crypt/v1alpha1/zz_generated.deepcopy.go:133-150 | overwrites the target and nothing else with such a copy |
| DeepCopy.DeepCopyDefinition | pkg/apis/crypt/v1alpha1/zz_generated.deepcopy.go:153-160 | nil for nil, otherwise a new place holding such a copy |
| DeepCopy.CopySlice | pkg/apis/crypt/v1alpha1/zz_generated.deepcopy.go:91-97 | equal slot by slot, nil kept from empty, new maps in every slot even if the source shared them |
| DeepCopy.CopyStrings | pkg/apis/crypt/v1alpha1/zz_generated.deepcopy.go:98-102 | a new slice with the same strings, nil for nil |
| DeepCopy.EqualDefinitionsMean | pkg/apis/crypt/v1alpha1/zz_generated.deepcopy.go:133-150 | equality of definitions is equality of every field and map entry, nil apart from empty |
| DeepCopy.CryptSpec.DeepCopy | pkg/apis/crypt/v1alpha1/zz_generated.deepcopy.go:91-103 | equal, and everything it leads to is new and separate |
| DeepCopy.CopySpecInto | pkg/apis/crypt/v1alpha1/zz_generated.deepcopy.go:89-104 | overwrites the target and nothing else with such a copy |
| DeepCopy.DeepCopySpec | pkg/apis/crypt/v1alpha1/zz_generated.deepcopy.go:107-114 | nil for nil, otherwise a new place holding such a copy |
| DeepCopy.Crypt.DeepCopy | pkg/apis/crypt/v1alpha1/zz_generated.deepcopy.go:28-35 | equal in type, metadata and spec, and everything it leads to is new and pairwise separate |
| DeepCopy.EqualCryptsMean | pkg/apis/crypt/v1alpha1/zz_generated.deepcopy.go:28-35 | equality of crypts is equality of every field, slot and map entry, nil apart from empty |
| DeepCopy.WithinMeans | pkg/apis/crypt/v1alpha1/zz_generated.deepcopy.go:28-35 | everything a copied crypt refers to is among the new objects |
| DeepCopy.SeparateMeans | pkg/apis/crypt/v1alpha1/zz_generated.deepcopy.go:28-35 | no map of a copied crypt is referred to twice |
| DeepCopy.CopyCryptInto | pkg/apis/crypt/v1alpha1/zz_generated.deepcopy.go:28-35 | overwrites the target and nothing else with such a copy |
| DeepCopy.DeepCopyCrypt | pkg/apis/crypt/v1alpha1/zz_generated.deepcopy.go:38-45 | nil for nil, otherwise a new place holding such a copy |
| DeepCopy.CryptList.DeepCopy | pkg/apis/crypt/v1alpha1/zz_generated.deepcopy.go:57-68 | equal item by item in a new slice, each copy in its own set of new objects even when the items shared parts |
| DeepCopy.ListsMean | pkg/apis/crypt/v1alpha1/zz_generated.deepcopy.go:56-68 | equal lists agree in every field and item, and separate ones give each item objects of its own |
| DeepCopy.CopyListInto | pkg/apis/crypt/v1alpha1/zz_generated.deepcopy.go:56-68 | overwrites the target and nothing else with such a copy |
| DeepCopy.DeepCopyList | pkg/apis/crypt/v1alpha1/zz_generated.deepcopy.go:71-78 | nil for nil, otherwise a new place holding such a copy |
| InformerFactory.LastPeriodWins | pkg/client/informers/externalversions/factory.go:53-60 | a type's custom period is that of the last option that names it |
| InformerFactory.LastNamespaceWins | pkg/client/informers/externalversions/factory.go:71-73 | the namespace is that of the last option that gives one |
| InformerFactory.LastTweakWins | pkg/client/informers/externalversions/factory.go:63-68 | the tweak is that of the last option that gives one |
| InformerFactory.UnsetIsDefault | pkg/client/informers/externalversions/factory.go:92-103 | what no option sets stays at its default: no custom period, all namespaces, no tweak |
| InformerFactory.SharedInformerFactory.constructor | pkg/client/informers/externalversions/factory.go:92-108 | the options are applied in order; a type none of them names has no custom period, and nothing is known or started |
| InformerFactory.SharedInformerFactory.RunUnstarted | pkg/client/informers/externalversions/factory.go:111-121 | the loop under the lock runs each known, unstarted informer once and no other |
| InformerFactory.KnownWhenAsked | pkg/client/informers/externalversions/factory.go:147-166 | over every call sequence a type is known exactly when somebody asked for it |
| InformerFactory.FirstInformerStays | pkg/client/informers/externalversions/factory.go:147-166 | over every call sequence a type's informer is the first one made, with the custom period or else the default |
| InformerFactory.RunsExactlyOnce | pkg/client/informers/externalversions/factory.go:111-121 | over every call sequence an informer has run once if a Start followed its first request, never otherwise; started types are known |
| InformerFactory.SharedInformerFactory.Start | pkg/client/informers/externalversions/factory.go:111-121 | runs exactly the known informers that were not started, and marks them |
| InformerFactory.SharedInformerFactory.WaitForCacheSync | pkg/client/informers/externalversions/factory.go:124-143 | waits for the started types only and reports exactly those: as synced those whose wait the stop did not cut short, the others as they are |
| InformerFactory.SharedInformerFactory.InformerFor | pkg/client/informers/externalversions/factory.go:147-166 | returns the informer of the type, the old object if there is one |
| InformerFactory.CryptInformer.Lister | pkg/client/informers/externalversions/crypt/v1alpha1/crypt.go:83-89 | the lister reads the index of the factory's own crypt informer |
| InformerFactory.CryptInformer.Wire | controller/controller.go:79-110 | the informer that gets one more handler, its first if it is new, and the index the controller reads are one object |

## Left out

- Consul and Vault network calls, JSON decoding and the store factory: the store is an arbitrary map that may change at any time and whose lookups may fail.
- The semantics of regular expressions: matching is an arbitrary predicate, so nothing depends on what a pattern means.
- client-go internals: rate limiting, watch and relist, FIFO order of events. Events may be handled in any order and a delay may end at any time, which includes what client-go does.
- Rate-limiter bookkeeping (`Forget`) and queue items that are not strings: no code of this repository adds such an item.
- Handlers read their caches and listings in one step; the machine does not split a handler between two listings.
- A lister error other than not-found, after which the code would go on with a nil crypt: the in-memory index never returns one.
- Resource versions, immutable fields and other admission rules: a write replaces the whole secret or fails.
- Deletion of secrets after their crypt is gone: done by the cluster's garbage collector through owner references, here an arbitrary deletion by the environment.
- Object metadata beyond name, namespace, uid, labels and annotations; the apimachinery copy of metadata is represented by a copy of those fields.
- DeepCopy.CopySlice: a slot is copied as a value and then stored, since a pointer into a slice has no counterpart here; the `DeepCopyObject` methods, which only widen the result's type, are left out.
- Ownership.DrainedIsControlled: states control by kind and name, which is all the delete handler compares; that the uid is the crypt's too holds for every single write (`EveryWriteIsTraced`), but a crypt deleted and made anew under its name finds secrets with the old uid.
- Controllers.Controller.RunWorker: one call at a time, so stated for a closed queue with no other activity, because an open and empty queue blocks; the open queue and several workers are the step machine's (`Rest.ScheduledIsTaken`).
- Controllers.Controller.ShutDownAndDrain: one worker by itself, for the same reason; a shutdown with several workers at any stage is the step machine's (`Rest.NeverStalls`, `Rest.ScheduledIsTaken`, `Rest.ComesToRest`).
- Events sent to the recorder, logging, flags, signal handling, the cache-sync timeout, the Helm chart, role and CRD files, and the generated REST and fake clientsets.
