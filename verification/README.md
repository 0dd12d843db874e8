# Verified models of the Home Assistant operator's protocols

Dafny models of the parts of the operator that must stay correct when a process stops between two writes, when a
remote call succeeds but its reply is lost, or when somebody else edits the same objects. `dafny verify
dfyconfig.toml` checks the whole project.

**How it is built.** Code that changes objects step by step is modelled by classes whose methods take the same steps
in the same order. External calls are unreliable: they may be refused, may take effect and still report an error, or
may be the last thing that happens before a crash. The methods' contracts say that, wherever they stop, the state has
only moved along a named relation, and what they achieve when nothing failed (`faults == old(faults)`). Lemmas then
prove what that relation implies over every run.

| modules | what they model |
|---|---|
| `CredentialProtocol`, `CredentialRuns`, `RecoveryExample`, `OperatorAccount` | the dedicated operator credential: the Secret as a ledger, provisioning, recovery, migration, token selection |
| `RepositoryEntries`, `Disk`, `Materializer`, `MaterializerRuns` | the entry fingerprint and the init container that swaps integration directories |
| `Catalog`, `RepositoryProtocol`, `RepositoryRuns`, `RepositoryListing`, `ListingExample`, `CommunityRepository`, `EndToEnd` | the aggregate ConfigMap, the phases of community repositories, and the acknowledgement that ties them to the files in the volume |
| `Networks`, `HttpConfig`, `HttpComparison`, `HttpProtocol` | trusted-proxy canonicalisation, the merge of the http configuration, how configurations are compared, and the pending/promote delivery |
| `BanRecovery` | the restart window after an IP ban |
| `YamlConfig`, `InjectionAlgebra`, `RestartClassifier` | ordered edits of configuration.yaml and the restart decision |
| `Metadata` | the three-way merge of user labels and annotations |
| `Archive`, `Manifest` | the in-memory repository tree and what it resolves to |

**What the proofs turned up.** Where the code falls short of its documentation, the model follows the code, and the
exact condition is proved.

- A recovery interrupted after Issuing is marked Succeeded with the old token (`SucceededMayMeanOldToken`, a run from
  a fresh instance). Over every run, success means a new token exactly when a token issued since the request was
  consumed was stored in between (`SucceededMeansNewTokenIffStored`).
- The last consumed request can be consumed again although the status records it (`RequestConsumedTwice`, a run from a
  fresh instance). Over every run that is possible exactly when the stored ledger was created since the consumption,
  which takes a deletion of the Secret, and not by this reconcile under a status that records the request
  (`ReplaysIffLedgerCreatedSince`). Only the reconcile right after the deletion goes by the status alone
  (`DeletedSecretReplaysIffStatusForgot`).
- Recording a new resolved target before writing the ConfigMap is documented as protecting the clean-up of the old
  entry. A restart between the two writes leaves the old entry listed, because the next reconcile takes the new target
  for the previous one, and it stays listed through every run in which no resource resolves to it again
  (`AccountedUnlessLeak`, `LeakStaysForever`). A failed read of the Home Assistant resource during deletion is logged
  as "not found" and skips the clean-up, with the same effect, and so does an empty resolved target.
- An active resource's entry need not be listed. A step ends "every active entry is listed" exactly when it withdraws
  the entry of a deleted resource whose component an active one has taken over, when it publishes a new target in place
  of one that an active resource has taken over, or when the Home Assistant goes (`ActiveListedUnlessUnlisted`);
  `ActiveEntryLost` is such a run from the beginning.
- The installed version is the ref that was validated and listed exactly when the last edit since Installing began, if
  any, set that same ref (`InstalledVersionIsListedRef`); any other ref edited meanwhile is reported as installed
  without having been validated or listed (`EditWhileInstallingIsSkipped`).
- An integration placed by an init container that stopped before saving its ownership is not cleaned up once it is
  unlisted (`UnlistedRemovedIffOwned`). A listed target is lost exactly when a later entry or a removal takes it for a
  backup (`ListedUnlessHidden`).
- Configurations are compared by printed text. Integers from a million on print differently after a JSON round trip,
  and then the operator never recognises, hence never promotes, its own write (`OwnWriteRecognised`). Different lists
  can compare equal (`DifferentConfigsCompareEqual`); where values agree in kind and list texts are words, equal
  configurations are the same, and a differing stable one is always rewritten (`EqualMeansSame`,
  `DifferenceIsWritten`). A `base_url` in the resource's section is sent although a comment says that it never is
  (`MetadataIsSentAsWritten`).
- A `homeassistant:` or `http:` section that is present but not a mapping, for instance empty, turns every change
  into a restart (`ProxyDefaultsNeedNoRestart`).

## Model

| member | source | states |
|---|---|---|
| CredentialProtocol.StepKeepsInv | internal/controller/operator_account.go:96-127 | every durable step of the controller and every act of the environment keeps: one identity, tokens paid for, Verified means observed, owner password retired |
| CredentialProtocol.AttachIsFirst | internal/controller/operator_account.go:502-509 | attaching a login happens only while no identity has one, so outside a recovery it happens once per identity |
| CredentialRuns.TokensBoundedByRequests | internal/controller/operator_account.go:223-231 | over every run with restarts, status loss and Secret deletion: tokens issued are at most one more than requests consumed plus users deleted by hand |
| CredentialRuns.ConstantRequestConsumedOnce | internal/controller/operator_account.go:85-96 | while the Secret survives, an unchanged recoveryRequestID is consumed at most once |
| CredentialRuns.LedgerRemembersLastRequest | internal/controller/operator_account.go:92-96 | consecutive consumed requests differ and the ledger always holds the last one |
| CredentialRuns.ConsumesIff | internal/controller/operator_account.go:85-96 | over every run, deletions of the Secret included: the current request may be consumed iff there is a ledger, another request was consumed last or the ledger was created since, and it was not created by this reconcile under a status recording the request |
| CredentialRuns.ReplaysIffLedgerCreatedSince | internal/controller/operator_account.go:92-96 | over every run: the last consumed request may be consumed again iff the stored ledger was created since then and not by this reconcile under a status recording it, and only after a deletion of the Secret |
| RecoveryExample.RequestConsumedTwice | internal/controller/operator_account.go:92-96 | a run from a fresh instance that consumes its last consumed request again although the status records it |
| CredentialRuns.DeletedSecretReplaysIffStatusForgot | internal/controller/operator_account.go:87-96 | in the reconcile right after a deletion of the Secret, before any other ledger is created, the current request can be consumed iff the status does not record it |
| CredentialRuns.SucceededMeansNewTokenIffStored | internal/controller/operator_account.go:171-175 | over every run: when a consumed recovery is marked Verified it is recorded as succeeded, and its token was unknown at consumption iff a token issued since then was stored in between |
| RecoveryExample.SucceededMayMeanOldToken | internal/controller/operator_account.go:107-109 | a run from a fresh instance, with the owner login, in which an interrupted recovery ends Verified and Succeeded with the old token |
| CredentialRuns.AtMostOneOperatorUser | internal/controller/operator_account.go:446-467 | in every reachable state at most one user carries the deterministic name, and it is not the owner |
| CredentialRuns.VerifiedMeansObserved | internal/controller/operator_account.go:149-178 | a Verified ledger's token was observed, while stored, to belong to exactly the recorded user, a non-owner administrator |
| CredentialRuns.OwnerPasswordRetired | internal/controller/operator_account.go:223-231 | once Verified was persisted, the owner password is used only after a request consumed in the same reconcile |
| CredentialRuns.MigrationContinuity | internal/controller/helpers.go:129-201 | during a migration the selection in dedicated mode succeeds in every reachable state: the legacy token before Verified is published, the observed dedicated one afterwards |
| CredentialRuns.GetApiToken | internal/controller/helpers.go:129-201 | in legacy mode a named Secret decides whatever status and ledger say, else the advertised or the default one, each with its own error; in dedicated mode exactly a verified ledger with a user and a well-formed token |
| CredentialRuns.RollbackAlwaysHasToken | internal/controller/helpers.go:177-182 | over every run: legacy mode with a retained named Secret hands out its token in every reachable state |
| CredentialRuns.ModesAgreeInMigration | internal/controller/helpers.go:134-182 | throughout a migration and after it legacy mode without a name, no account at all and dedicated mode hand out the same token |
| CredentialRuns.SelectedTokenIsVerifiedOrLegacy | internal/controller/helpers.go:134-164 | in dedicated mode no token of an unverified ledger is ever handed out |
| CredentialRuns.RecordedUserKnown | internal/controller/operator_account.go:468-471 | a recorded user id names the dedicated user or one that was deleted by hand |
| OperatorAccount.SelectIdentity | internal/controller/operator_account.go:433-458 | adopts exactly the one eligible match, creates exactly when nobody matches and no creation was begun, else refuses |
| OperatorAccount.Controller.CreateIdentity | internal/controller/operator_account.go:456-467 | users change only once the creation intent is durable, wherever it stops |
| OperatorAccount.Controller.EnsureUser | internal/controller/operator_account.go:418-478 | success means a recorded administrator with the deterministic name; without faults it succeeds whenever the identity can be found or created |
| OperatorAccount.Controller.OpenLogin | internal/controller/operator_account.go:490-516 | accounts and login change only once Issuing is durable, wherever it stops; an attached login is touched only by a recovery |
| OperatorAccount.Controller.IssueCredential | internal/controller/operator_account.go:480-549 | success stores a token that did not exist before, in a Verified ledger |
| OperatorAccount.Controller.LegacySecretName | internal/controller/operator_account_migration.go:28-43 | the ledger's source wins over the advertised one, and that over the default of a completed bootstrap; exactly when there is no source; the target is none unless recorded |
| OperatorAccount.Controller.Migrate | internal/controller/operator_account_migration.go:47-115 | a migration spends no owner credentials and is reported Verified, with a new token, only if during it a well-formed legacy token, apart from the target, was an administrator's other than the dedicated user's; without faults such a token suffices |
| OperatorAccount.Controller.ProvisionFirstTime | internal/controller/operator_account.go:231-262 | a first provisioning spends no owner credentials on an onboarded instance that the ledger did not see fresh; without faults it ends Verified whenever the identity is available and the migration has its administrator or the onboarding its credentials |
| OperatorAccount.Controller.ObserveOperatorToken | internal/controller/operator_account.go:134-182 | observing changes nothing but verification results and status; without faults it reports another user or the owner as rejected, a lost role as needing elevation, a malformed token as malformed, an unfinished recovery as failed, and else Verified |
| OperatorAccount.Controller.RunProvisioning | internal/controller/operator_account.go:184-333 | in a recovery, owner credentials are used and accounts changed only once the request is on record as consumed; without one, and once Verified was persisted, it spends no owner credentials, wherever it stops |
| OperatorAccount.Controller.Reconcile | internal/controller/operator_account.go:38-128 | extends a valid run wherever it stops; an enabled, fault-free reconcile reports exactly the reason that the stored token, migration, recovery or first provisioning calls for; a stored token of exactly the recorded non-owner administrator without a new request ends Verified with that same token; after Verified was persisted and without a request no owner credentials are spent; a recovery that fails keeps the old token |
| OperatorAccount.VerifiedIff | internal/controller/operator_account.go:96-333 | a fault-free, enabled reconcile ends Verified iff the stored token is steady, a requested recovery has what it needs, or a first provisioning or migration has |
| CredentialProtocol.WellFormedIffTrimmed | internal/controller/helpers.go:158-162 | a token passes the check iff trimming leaves it unchanged and not empty and it has no blank, tab or line break inside |
| CredentialRuns.IdentityOutlivesSecret | internal/controller/operator_account.go:208-216 | after a ledger was published, a ledger created in its place has its user, counts the same recovery request as the last one, and before the migration was verified has the advertised legacy Secret |
| RepositoryEntries.GoFingerprint | internal/controller/community_repository_pod.go:108-123 | the Go loop computes the fingerprint of the list's integrations |
| RepositoryEntries.PythonFingerprint | internal/controller/community_repository_pod.go:250-253 | the Python expression computes the same fingerprint |
| RepositoryEntries.FingerprintInjective | internal/controller/community_repository_pod.go:108-123 | lists with NUL-free fields have equal fingerprints only if they are equal |
| Materializer.InitContainer.RecoverBackup | internal/controller/community_repository_pod.go:293-299 | keeps the logical content at every crash point; completed, the backup is gone and the destination holds it |
| Materializer.InitContainer.Swap | internal/controller/community_repository_pod.go:352-368 | at every stopping point destination-or-backup holds the complete old or the complete new tree; after a single failed step the destination itself is present |
| Materializer.InitContainer.FetchAndPlace | internal/controller/community_repository_pod.go:331-368 | touches only its target, backup and staging; completed, it has placed the content, whatever the target's name; without faults it completes iff the target is a plain name and the content valid |
| Materializer.InitContainer.RemoveOwnedTarget | internal/controller/community_repository_pod.go:371-375 | completed, neither destination nor backup exists; a target that is no plain name is refused |
| Materializer.InitContainer.LoadEntries | internal/controller/community_repository_pod.go:244-258 | yields the listed integrations exactly when their hash is the non-empty expected one |
| Materializer.InitContainer.PlaceListed | internal/controller/community_repository_pod.go:389-396 | every listed target keeps its old or gets a complete new tree; without problems exactly the listed contents are placed; the placed targets are those with fewer failures than entries, and each holds what one of its entries asks for |
| Materializer.InitContainer.Finish | internal/controller/community_repository_pod.go:397-408 | after any placement problem nothing is removed, but the ownership set is saved in every case: of the known targets the listed ones, those that could not be removed, and after a placement problem all |
| Materializer.InitContainer.Run | internal/controller/community_repository_pod.go:378-416 | every ending keeps foreign files and complete trees; exit zero means the completed final volume; a run that ends by itself and can save has recorded exactly the owned and placed targets that are listed or were not removed; without faults only entries that cannot be placed are reported, no staging directory is left, and the exit code says whether there are problems |
| MaterializerRuns.RecoveryIsAtomic | internal/controller/community_repository_pod.go:293-299 | after any number of attempts stopped anywhere, recovery leaves no backup and, unless mkdtemp could draw the target's name because nothing is there, the complete old or a complete new tree, present if it was |
| MaterializerRuns.DrawnTargetMayTear | internal/controller/community_repository_pod.go:350-353 | in that excepted case an attempt stopped while copying leaves an incomplete tree at the target |
| MaterializerRuns.CrashesThenSuccess | internal/controller/community_repository_pod.go:331-368 | crashed attempts followed by a complete one give the crash-free result up to staging leftovers |
| MaterializerRuns.Acknowledgement | internal/controller/community_repository_pod.go:371-416 | a completed run leaves listed targets with the last listed content, owned unlisted ones absent, the list as ownership set and everything else unchanged, iff no listed target is named like the backup of a listed or owned one |
| MaterializerRuns.ListedUnlessHidden | internal/controller/community_repository_pod.go:279-299 | after a completed run a listed target is in place, with the last content listed for it, iff no entry after its last one and no removal has it as backup |
| MaterializerRuns.UnlistedUnlessKnown | internal/controller/community_repository_pod.go:388-408 | after a completed run an unlisted path is there, unchanged, iff it was there and is neither owned nor a backup |
| MaterializerRuns.CompletedTwice | internal/controller/community_repository_pod.go:388-408 | repeating a completed run changes nothing, iff no removal took a listed target away as a backup |
| MaterializerRuns.UnlistedRemovedIffOwned | internal/controller/community_repository_pod.go:397-408 | a completed run removes an unlisted target iff the ownership set recorded it or it is named like a backup |
| MaterializerRuns.ForeignUntouched | internal/controller/community_repository_pod.go:378-416 | over every sequence of runs a file never listed nor owned is unchanged |
| MaterializerRuns.ListedNeverLost | internal/controller/community_repository_pod.go:331-368 | over every sequence of runs, stopped anywhere, an integration that stays listed is complete at its destination or, if that is missing, in its backup |
| MaterializerRuns.UnlistedEventuallyGone | internal/controller/community_repository_pod.go:397-408 | after any interrupted runs, the first complete run without an owned integration leaves nothing of it |
| MaterializerRuns.PlacedEventuallyGone | internal/controller/community_repository_pod.go:389-408 | what a run placed beside other problems, once unlisted, is gone after the first complete run, however many were interrupted before |
| MaterializerRuns.UnlistedNextIffPlaced | internal/controller/community_repository_pod.go:397-408 | the complete run after one that saved removes an integration that is no longer listed iff that run placed it, it was owned before, or it is named like a backup |
| Catalog.SortStrings | internal/controller/homeassistantintegration_controller.go:569-575 | sorts in place: sorted and a permutation |
| Catalog.ListUnique | internal/controller/homeassistantcommunityrepository_controller.go:694-711 | the written list is a function of the entries, whatever the map's iteration order |
| Catalog.Decode | internal/controller/homeassistantcommunityrepository_controller.go:661-677 | a missing or corrupt list reads as empty; later entries with the same key win |
| Catalog.Encode | internal/controller/homeassistantcommunityrepository_controller.go:694-711 | writes every entry once, in key order |
| Catalog.EncodeDecode | internal/controller/homeassistantcommunityrepository_controller.go:661-731 | decoding a written list gives the entries back |
| Catalog.EntryKeyInjective | internal/controller/homeassistantcommunityrepository_controller.go:683-685 | keys identify category and target when no category contains the separator |
| Catalog.UpsertList | internal/controller/homeassistantcommunityrepository_controller.go:598-620 | changes no key but the resource's new and previous ones, whatever the list held |
| Catalog.RemoveFromList | internal/controller/homeassistantcommunityrepository_controller.go:624-635 | removes exactly the resource's key |
| Catalog.LastEntryCounts | internal/controller/homeassistantcommunityrepository_controller.go:661-677 | of several entries with one key the last one counts |
| Catalog.UpsertedByKey | internal/controller/homeassistantcommunityrepository_controller.go:609-618 | replacing an entry sets its key, drops the key of the previous target and leaves every other key |
| RepositoryProtocol.StepKeepsInv | internal/controller/homeassistantcommunityrepository_controller.go:206-263 | every status or ConfigMap write, restart and environment act keeps exclusion, the installation clock and the passed conflict check |
| RepositoryRuns.MutualExclusion | internal/controller/homeassistantcommunityrepository_controller.go:467-504 | over every run no two live Installing or Installed resources share Home Assistant, category and target |
| RepositoryRuns.ActivationSettles | internal/controller/homeassistantcommunityrepository_controller.go:296-313 | hot-reload activation comes more than 89 seconds after entering Installing and within the retry window |
| RepositoryRuns.ClockFromEntry | internal/controller/homeassistantcommunityrepository_controller.go:780-787 | while Installing, installingSince is the stamp of the last entry into that phase |
| RepositoryRuns.AccountedUnlessLeak | internal/controller/homeassistantcommunityrepository_controller.go:241-262 | while every listed entry belongs to a resource, a step ends that iff it is one of four named leaks, one being a restart between target and list write |
| RepositoryRuns.NothingLeftBehind | internal/controller/homeassistantcommunityrepository_controller.go:598-635 | over every run without a leak each listed entry belongs to a resource |
| RepositoryRuns.LeakStaysForever | internal/controller/homeassistantcommunityrepository_controller.go:241-262 | a leaked entry stays listed through every run in which no resource resolves to it and its Home Assistant stays |
| RepositoryListing.WithdrawHitsSibling | internal/controller/homeassistantcommunityrepository_controller.go:527-527 | withdrawing removes a sibling's entry iff both name the same component |
| RepositoryListing.PublishHitsSibling | internal/controller/homeassistantcommunityrepository_controller.go:609-611 | publishing removes a sibling's entry iff the resource gives up a target that the sibling holds |
| RepositoryListing.ActiveListedUnlessUnlisted | internal/controller/homeassistantcommunityrepository_controller.go:598-635 | while every active resource's entry is listed, a step ends that iff it withdraws or gives up a component that an active resource holds, or removes its Home Assistant |
| RepositoryListing.ActiveAlwaysListed | internal/controller/homeassistantcommunityrepository_controller.go:598-635 | over every run without such a step each active resource's entry is listed |
| ListingExample.ActiveEntryLost | internal/controller/homeassistantcommunityrepository_controller.go:609-611 | a run from the beginning in which a resource that changes its target takes an active one's entry off the list |
| RepositoryRuns.InstalledVersionIsListedRef | internal/controller/homeassistantcommunityrepository_controller.go:454-462 | over every run: the version recorded at activation is the ref at the last entry into Installing iff the last edit since then, if any, set that same ref, and either way it counts as observed |
| RepositoryRuns.EntryRefIsListed | internal/controller/homeassistantcommunityrepository_controller.go:257-262 | when a resource enters Installing, its listed entry has its ref |
| CommunityRepository.Reconciler.ConflictingOwner | internal/controller/homeassistantcommunityrepository_controller.go:467-504 | finds a live sibling with the same key iff there is one, in any order |
| CommunityRepository.Reconciler.Inspect | internal/controller/homeassistantcommunityrepository_controller.go:362-422 | acknowledged iff annotation, zero exit, message and readiness all agree; failing iff the last known run of the first such container ended non-zero |
| CommunityRepository.Reconciler.Install | internal/controller/homeassistantcommunityrepository_controller.go:241-262 | wherever it stops, the list has changed only if the target is recorded, and Installing means that exactly the resource's entries were replaced in the list |
| CommunityRepository.Reconciler.ReconcileValidating | internal/controller/homeassistantcommunityrepository_controller.go:206-263 | the phase, reason, observed generation and list entry that each validation outcome leads to |
| CommunityRepository.Reconciler.ReconcileIntegration | internal/controller/homeassistantcommunityrepository_controller.go:274-294 | Installed with the current ref iff the pod acknowledged the hash of the current list and is ready; otherwise still Installing, and the reason says what is missing; the StatefulSet has the current hash |
| CommunityRepository.Reconciler.ReconcileHotReload | internal/controller/homeassistantcommunityrepository_controller.go:296-355 | Failed after 210 seconds; Installed with the current ref iff 90 seconds are over by then, with a token and a confirmed activation; else nothing changes |
| CommunityRepository.Reconciler.HandleDeletion | internal/controller/homeassistantcommunityrepository_controller.go:510-558 | without faults exactly the resource's entry is withdrawn at once; complete means the entry is off the list and, for an integration, acknowledged by the pod, unless the Home Assistant could not be read |
| CommunityRepository.Reconciler.Reconcile | internal/controller/homeassistantcommunityrepository_controller.go:125-196 | whatever fails, the run goes on and exclusion holds; without faults only the one resource and its list may change, the StatefulSet gets the hash of the list's integrations exactly while one is installed or deleted, and every phase, reason and generation leads where it should: an unreachable repository, a conflict or an unobserved generation is validated again, any other failure and an observed installation stay |
| CommunityRepository.ReachesInstalling | internal/controller/homeassistantcommunityrepository_controller.go:125-263 | over successive fault-free reconciles: new, edited, waiting and transiently failed resources are being installed, with their entry listed, after exactly one to three turns once the repository resolves and no sibling holds the target |
| CommunityRepository.SettledStays | internal/controller/homeassistantcommunityrepository_controller.go:176-192 | installed resources and those that failed for good stay as they are until edited |
| CommunityRepository.RetriedIffTransient | internal/controller/homeassistantcommunityrepository_controller.go:182-191 | an unedited failed resource is installed again iff it failed as unreachable or conflicting |
| EndToEnd.InstalledIsMaterialised | internal/controller/homeassistantcommunityrepository_controller.go:274-293 | an integration is marked Installed only if the volume is the completed run of exactly the list's integrations, its own among them while it is listed |
| EndToEnd.DeletionCleansVolume | internal/controller/homeassistantcommunityrepository_controller.go:527-553 | while its Home Assistant can be read and has its StatefulSet, a deleted integration is released only after clean-up: something is left at its target iff it was there before, neither owned nor a backup |
| Networks.CanonicalIdempotent | internal/controller/http_config_fields.go:129-141 | canonical networks are their own canonical form |
| Networks.CanonicalMembers | internal/controller/http_config_fields.go:129-141 | canonicalising changes no network's members |
| Networks.CanonicalIffSameMembers | internal/controller/http_config_fields.go:129-141 | networks have the same canonical form iff they have the same members |
| Networks.SingleMembers | internal/controller/http_config_fields.go:133-141 | a bare address becomes the network whose only member it is |
| HttpConfig.CanonicalizeTrustedProxies | internal/controller/http_config_fields.go:113-127 | rewrites a list of strings entry by entry, in order, and leaves anything else |
| HttpConfig.CanonicalTextMeaning | internal/controller/http_config_fields.go:129-141 | a readable entry becomes a block with the same members, and two of them get the same text iff they stand for the same members; any other entry stays |
| HttpConfig.ProxiesRewritten | internal/controller/http_config_fields.go:113-127 | a list of strings keeps its length and order, each readable entry becoming the block of its network |
| HttpConfig.ProxyWritingIgnored | internal/controller/http_config.go:133-142 | configurations that differ only in how the same proxies are written compare equal |
| HttpConfig.StrippedMetadata | internal/haclient/http_config.go:66-78 | removes exactly the four metadata keys |
| HttpConfig.DesiredHTTPConfig | internal/controller/http_config.go:111-131 | key by key, in any iteration order: the section's value, else an unmanaged stable option's, else the default's, without metadata but the section's, trusted proxies canonical, and no other key |
| HttpConfig.DesiredIsLayered | internal/controller/http_config.go:111-131 | the merge that writes and comparisons refer to has these layers |
| HttpConfig.LayeredOnce | internal/controller/http_config.go:111-131 | the layers determine the configuration |
| HttpConfig.DecodedPrintsAlike | internal/controller/http_config.go:147-153 | a value, lists and mappings included, prints alike after a JSON round trip iff it has no integer of a million or more |
| HttpConfig.DifferentConfigsCompareEqual | internal/controller/http_config.go:136-153 | two different configurations that compare equal |
| HttpComparison.ValueExact | internal/controller/http_config.go:147-153 | values that agree in kind, list texts being words, print alike only if they are the same up to the number type |
| HttpComparison.EqualMeansSame | internal/controller/http_config.go:136-153 | where values agree in kind, configurations compare equal only if they are the same, metadata and the writing of proxies aside |
| HttpComparison.ComparisonIsExact | internal/controller/http_config.go:136-153 | and with no integer of a million or more, they compare equal iff they are the same |
| HttpProtocol.HttpReconciler.ConfigEqual | internal/controller/http_config.go:136-142 | compares without metadata and with canonical proxies on both sides |
| HttpProtocol.HttpReconciler.Reconcile | internal/controller/http_config.go:158-256 | clears only rejected, promotes only matching pending configurations, leaves foreign ones, configures only when stable differs, touches one slot, and when each condition is reported |
| HttpProtocol.PromotedStaysInSync | internal/controller/http_config.go:111-142 | recomputing the desired configuration from a promoted one gives an equal one |
| HttpProtocol.OwnWriteRecognised | internal/controller/http_config.go:209-220 | after its write the operator promotes iff the section has no integer of a million or more, else it waits as for a foreign change |
| HttpProtocol.MetadataIsSentAsWritten | internal/controller/http_config.go:124-131 | a metadata key, base_url among them, is sent iff the section has it |
| HttpProtocol.DifferenceIsWritten | internal/controller/http_config.go:234-245 | where values agree in kind, a stable configuration that is not the desired one is rewritten |
| HttpProtocol.SettlesInThreeWrites | internal/controller/http_config.go:196-255 | with Home Assistant accepting: at most three writes; apart from turns that wait for a foreign change to be confirmed or reverted, every turn comes closer to a state that no longer changes |
| HttpProtocol.SettledIsDelivered | internal/controller/http_config.go:196-255 | once settled, Home Assistant holds the desired configuration, where values agree in kind |
| HttpProtocol.DroppedOptionAtDefault | internal/controller/http_config.go:111-131 | once settled, a managed option that the section no longer has is back at Home Assistant's default, or gone where there is none |
| HttpProtocol.PendingError | internal/haclient/http_config.go:51-63 | there is an error iff one of the two fields is a text that is not empty; the message goes first |
| HttpProtocol.OperatorPromotesOnlyDesired | internal/controller/http_config.go:196-229 | the stable slot changes by the operator only to an error-free pending configuration equal to the desired one |
| HttpProtocol.StableCameFromOperator | internal/controller/http_config.go:196-229 | over every interleaving with interface edits of the pending slot and auto-reverts, each later stable configuration matched the section that promoted it |
| HttpProtocol.UnknownOptionKept | internal/controller/http_config.go:117-122 | options the operator does not manage keep their value through any number of replacing writes |
| BanRecovery.BanRecoverer.HandleSelfBan | internal/controller/bootstrap_controller.go:805-924 | waits iff the last restart is less than five minutes ago, gives up iff three are counted in the current thirty minutes, else restarts once the pod is gone, and counts that in the current window or as the first of a new one; a failed patch counts nothing |
| BanRecovery.BanRecoverer.Reset | internal/controller/bootstrap_controller.go:928-944 | forgets the window, the cooldown and the condition, or changes nothing; a failed patch may be either |
| BanRecovery.WindowHoldsThree | internal/controller/bootstrap_controller.go:813-841 | at most three counted restarts share an anchored window |
| BanRecovery.SixOutlastAWindow | internal/controller/bootstrap_controller.go:813-841 | any six counted restarts span more than thirty minutes, so no closed interval of that length holds more than five |
| BanRecovery.RestartsAreBounded | internal/controller/bootstrap_controller.go:805-924 | both bounds over every run of counted calls |
| BanRecovery.FiveInAWindow | internal/controller/bootstrap_controller.go:805-924 | a run of counted calls with five restarts in thirty minutes |
| BanRecovery.StampsKeepCooldown | internal/controller/bootstrap_controller.go:825-834 | a call waits iff the second of its check is less than five minutes after the stored one |
| BanRecovery.StampsApart | internal/controller/bootstrap_controller.go:825-834 | over every run: the check of a counted call is five minutes after the stored time of the one before, in whole seconds, and so are the stored times when the two clock readings agree |
| YamlConfig.MappingNode.NodeMappingValue | internal/controller/auto_include.go:135-142 | finds the first value of a key |
| YamlConfig.MappingNode.SetNodeField | internal/controller/auto_include.go:145-153 | appends a missing field and never touches an existing one |
| YamlConfig.MappingNode.OverrideNodeField | internal/controller/auto_include.go:156-169 | replaces in place or appends |
| YamlConfig.MappingNode.SetSequenceFieldIfAbsent | internal/controller/auto_include.go:175-187 | appends a list of strings when the key is missing |
| YamlConfig.InjectSection | internal/controller/auto_include.go:221-263 | finds, upgrades or creates the section and edits it in place; leaves any other node alone |
| YamlConfig.TrustedProxies | internal/controller/trusted_proxies.go:66-120 | the outcome reports applied defaults iff the configuration changed |
| InjectionAlgebra.InjectAllIdempotent | internal/controller/trusted_proxies.go:66-120 | location, recorder and proxy injection are idempotent, and so is their composition |
| InjectionAlgebra.DefaultsNeverOverride | internal/controller/auto_include.go:135-187 | adding injections keep every existing field of the section in place and value, and all other sections |
| InjectionAlgebra.InjectOnlySection | internal/controller/auto_include.go:221-263 | an injection changes at most the first section of its name or appends it |
| InjectionAlgebra.LocationAfter | internal/controller/auto_include.go:66-131 | each location key has the user's value or else the given one with its tag, the section's other keys stay, and a section that is neither a mapping nor empty is left alone |
| InjectionAlgebra.RecorderAfter | internal/controller/auto_include.go:221-301 | the database URL, as an include where it is secret, and the purge days replace the user's, other keys stay, and an include of the section is left alone |
| InjectionAlgebra.ProxiesAfter | internal/controller/trusted_proxies.go:66-120 | missing proxy options of an exposed instance get their defaults, the private ranges, and the user's stay |
| InjectionAlgebra.StripForgetsInjection | internal/controller/http_config_fields.go:83-106 | stripping http gives the same nodes with or without the injection, for every mapping root |
| InjectionAlgebra.StripKeepsOthers | internal/controller/http_config_fields.go:95-97 | stripping takes away one http section and keeps every other section in its order |
| RestartClassifier.HttpSectionChanged | internal/controller/homeassistantconfiguration_controller.go:594-633 | critical iff some differing key is not reloadable, whatever the iteration order |
| RestartClassifier.HomeAssistantSectionChanged | internal/controller/homeassistantconfiguration_controller.go:552-591 | critical iff a side is no mapping or a critical key differs |
| RestartClassifier.Classify | internal/controller/homeassistantconfiguration_controller.go:456-499 | agrees with the declarative specification in every iteration order |
| RestartClassifier.NeedsRestart | internal/controller/homeassistantconfiguration_controller.go:436-500 | a restart iff a side repeats a key of a mapping or the specification asks for one |
| RestartClassifier.OtherSectionEdited | internal/controller/homeassistantconfiguration_controller.go:456-482 | outside homeassistant and http contents never ask for a restart, removed sections always do, and added ones unless they are among the twelve that can be added |
| RestartClassifier.HomeAssistantEdited | internal/controller/homeassistantconfiguration_controller.go:552-591 | an edit of homeassistant asks for a restart iff one of eleven options changes |
| RestartClassifier.HttpEdited | internal/controller/homeassistantconfiguration_controller.go:594-633 | an edit of http, its removal or its addition asks for a restart iff an option other than three changes |
| RestartClassifier.ProxyDefaultsNeedNoRestart | internal/controller/homeassistantconfiguration_controller.go:511-533 | adding or removing the proxy defaults needs a restart iff the configuration repeats a key or homeassistant or http is present and no mapping |
| Metadata.SplitJoined | internal/controller/homeassistant_controller.go:1052-1063 | splitting the joined list of comma-free keys gives the keys back |
| Metadata.ReconcileMaps | internal/controller/homeassistant_controller.go:1081-1092 | drops managed keys, overlays the desired ones, in any order |
| Metadata.ReconcileMetadata | internal/controller/homeassistant_controller.go:1041-1078 | the merged metadata, with tracking annotations that list the sorted keys of the spec |
| Metadata.MetadataAfterEdits | internal/controller/homeassistant_controller.go:1041-1092 | after any sequence of spec edits, with the operator setting its hash annotations in between: user keys have the last value or are gone, never-managed keys keep theirs |
| Metadata.SelectorAlwaysHolds | internal/controller/homeassistant_controller.go:1067-1072 | selector labels hold after every reconcile |
| Metadata.ReconcileIsFixpoint | internal/controller/homeassistant_controller.go:1041-1092 | reapplying a spec changes nothing and asks for no update |
| Metadata.UpdateIffEdited | internal/controller/homeassistant_controller.go:1871-1954 | between two reconciles an update is asked for iff a compared hash changed, the spec's annotations changed, or its labels changed in their keys or outside the selector |
| Archive.MarkParentDirs | internal/communityrepo/fetch.go:308-317 | adds exactly the ancestors, although it may stop early |
| Archive.Extract | internal/communityrepo/fetch.go:233-303 | accepts exactly the archives within all limits and yields their tree; a refusal names what is wrong with the first unacceptable entry |
| Archive.FileIsLastEntry | internal/communityrepo/fetch.go:275-296 | a path is a file iff a regular entry has its name; the last one counts, with its content iff that is at most a mebibyte |
| Archive.DirIsImplied | internal/communityrepo/fetch.go:266-317 | a path is a directory iff an entry says so or lies below it |
| Archive.TreeShaped | internal/communityrepo/fetch.go:308-317 | for every entry sequence all ancestors of files and directories are directories |
| Archive.AcceptedFitsInMemory | internal/communityrepo/fetch.go:266-287 | content held is at most 32 MiB, even when names repeat |
| Archive.StripTopLevelDir | internal/communityrepo/fetch.go:321-355 | removes the wrapper of archives with exactly one top-level directory, refuses others |
| Archive.StripKeepsShape | internal/communityrepo/fetch.go:321-355 | stripping keeps directories closed under ancestors |
| Archive.WrapThenStrip | internal/communityrepo/fetch.go:321-355 | stripping a wrapped archive gives the tree of the archive without its wrapper |
| Archive.ReadDir | internal/communityrepo/fetch.go:126-155 | lists each direct child once and nothing else |
| Manifest.ValidateAndResolve | internal/communityrepo/manifest.go:75-99 | the result is a function of the tree, independent of map iteration order |
| Manifest.ResolveIntegration | internal/communityrepo/manifest.go:122-157 | succeeds iff there is one component directory with a readable manifest and a domain |
| Manifest.ResolvedIntegrationExists | internal/communityrepo/manifest.go:122-157 | a resolved integration's manifest is in the tree, and there is no other component directory |
| Manifest.ResolveSingleFile | internal/communityrepo/manifest.go:179-219 | succeeds iff exactly one file matches |
| Manifest.DeclarationFirst | internal/communityrepo/manifest.go:75-83 | an unreadable hacs.json is refused, and a mismatch is reported iff it declares another category |
| Manifest.ResolvedByCategory | internal/communityrepo/manifest.go:85-98 | each category's directory and extensions, that its file is resolved exactly where there is one such file, and that a plugin's declared file goes first |
| Manifest.IntegrationResolves | internal/communityrepo/manifest.go:122-157 | one component directory with a readable manifest and a domain is resolved to that domain, and nothing else |

## Left out

- The network, the Kubernetes client, WebSocket commands, events, logging, metrics and conditions' messages: calls become nondeterministic outcomes.
- Stale reads and concurrent reconciles: one reconcile at a time, reading current objects. The environment acts between reconciles; user roles may also change during one.
- Text parsing and printing of YAML, JSON, tar and IP addresses, and SHA-256: nodes, entries, path components and address bits are structured, and hashes are function parameters, injective where a lemma says so.
- Materializer.InitContainer.Run: what a target holds is promised for targets that mkdtemp could not draw as a staging name (`.community-repository-` and eight of a-z, 0-9, _), and success without faults when no listed target is such a name. Staging directories left by a crash are never removed.
- MaterializerRuns.ListedNeverLost: for a target that is not, and has not as backup, another target ever listed or owned; `ListedUnlessHidden` says what happens otherwise in a complete run.
- MaterializerRuns.UnlistedEventuallyGone: for such targets too; `UnlistedUnlessKnown` says what happens otherwise in a complete run.
- EndToEnd.InstalledIsMaterialised: takes as a premise that the pod's zero exit came from a run started with the pod's annotation, and NUL-free entry fields.
- CredentialRuns.MigrationContinuity: assumes that nobody deletes or replaces the Secrets, loses the status or requests a recovery meanwhile, and that Home Assistant issues tokens without white space.
- CredentialRuns.TokensBoundedByRequests: assumes that user ids are never reused, that tokens are fresh, and that only the operator writes its ledger or uses the deterministic name.
- The onboarding probe may wrongly say that onboarding is done, which counts as a fault, but is trusted when it says that it is pending.
- Changes of tokenSecretName, restoring older Secrets from a backup, and revoked tokens other than as failing calls.
- HttpConfig.DecodedPrintsAlike: whole floats are taken to be exact; a number that is not whole is given by its shortest text.
- HttpProtocol.SettlesInThreeWrites: the operator's own pending configuration is not reverted before the next reconcile; how long a foreign one stays is up to its author and to Home Assistant.
- BanRecovery.SixOutlastAWindow: counts recorded restarts; a restart whose status patch failed is not counted by the code either. The two clock readings of one call lie less than a minute apart.
- RepositoryRuns.ActivationSettles: one second less than the settle delay, because stored times lose their fraction.
- RestartClassifier.NeedsRestart: of what the YAML parser refuses, only repeated keys are modelled; aliases, merge keys and scalars that contradict their tag are not.
- YamlConfig.InjectSection: works on a root mapping; other roots are an error or left alone before it. Location values are given already checked for numbers. Comments and styles of YAML nodes are not modelled.
- Archive.ReadDir: paths are cleaned component lists; the root itself is never listed as its own child.
- Manifest.ValidateAndResolve: a plugin's file name is given as a cleaned path; JSON decoding, extensions and stems are parameters.
- Metadata.ReconcileIsFixpoint: keys are comma-free and not empty, as Kubernetes demands.
- The sidecar for the hot-reload categories, bounded login retries during bootstrap, config-hash debouncing, StatefulSet building, uploads of integration files, gateways, ingress, TLS and the label, area, scene, script and automation reconcilers.
