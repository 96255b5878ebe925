# Verified models of nvt-agent

A Dafny model of the parts of nvt-agent that keep durable or shared state, and of the transformations
that have to preserve meaning, with proofs of what they promise. `dafny verify dfyconfig.toml` checks the
whole project.

- **Principal accounts** (`AccountRecord`, `Registry`, `AccountLines`, `RegistryRuns`, `RegistryIndexes`,
  `RegistrySafety`, `RegistryRestart`, `RegistryReplies`, `AccountManager`, `AccountDirectory`, `PrincipalClient`). The
  broker keeps one record per principal. `Registry` gives every operation as a function on the registry and its disk;
  `RegistryReplies` says what each reply means;
  `AccountManager` is the manager object, each of whose methods is proved to be that function; `AccountDirectory`
  is one account directory with every file operation as a step at which the process may die. A run is any sequence
  of calls, failed writes, crashes and restarts with a clock that does not go back. The disk keeps, per account,
  the whole line of manifests ever committed, so that statements about history are statements about the disk.
- **Leased provider handle** (`LeasedHandle`). Any number of threads acquire, release, swap and close; a step is one
  region that holds the lock.
- **Trusted state volumes** (`Names`, `VolumeInventory`, `StateStore`, `StateManager`). The helper scripts are
  rename and link protocols; every intermediate tree is a state, and `Ensure` can be cut off at any of them.
- **Seed import** (`SeedReconciler`, `SeedSupervisor`). An undo log with apply, accept and recover, and the
  supervisor loop over it.
- **Executable provider** (`ProviderGenerations`). Callers, readers, failures and restarts of the child process,
  interleaved in any way.
- **Claim enrichment** (`Texts`, `LinkHeader`, `BoundedJson`, `Pagination`). The bounded decoder, the Link header,
  and the loop over the pages of a claim source.
- **Grants** (`KubernetesGrants`, `RepositoryGrants`). Compiling, expanding and rendering the grants of a profile.
- **Prompt queue** (`PromptNames`, `PromptQueue`, `PromptRuns`). The durable queue of the agent daemon.

## What the model takes as given

Digests are injective and random ids are fresh; both are therefore represented by the value they stand for or by a
number. One call reads the clock once. Lengths of texts count characters. A crash keeps a prefix of the file
operations; the last rename, or a directory entry that was not synced, may be lost. Provider plugins are objects
that accept or refuse; the network, the child processes and the file system's refusals are nondeterministic choices
or parameters. A prompt counts as acknowledged when its request leaves the locked region, not when the reply goes
out. Names produced by validation (volume names, provider names, seed names) do not collide with the temporary
names next to them. In the registry, `InternalError` stands for the paths on which the Python code would raise an
exception that is not one of its own.

## Where the code says something else than its documents

- Enrolling over a revoked record carries its reservation along, whatever its kind
  (`broker/core/dynamic_accounts.py:931-934`), but the loader refuses an active record with a template-switch
  reservation (`broker/core/dynamic_accounts.py:1459-1462`). `RegistryRestart.SwitchOverwriteStopsRegistry` is a run
  of successful calls after which a restart leaves the registry unavailable. `AccountLines.LineValidIff` says that
  this is the only way.
- The loader counts account directories, and a first enrollment that fails leaves its directory behind, so the
  registry can be unavailable after a restart without ever having held too many accounts
  (`RegistryRestart.FailedEnrollmentStopsRegistry`). `RegistryRestart.RestartIsHealthyIff` is the exact condition.
- For a revoked account the clean-up on restart compares a missing name with a missing name
  (`broker/core/dynamic_accounts.py:1131-1133`): it keeps left-over credential files and removes only their locks
  (`AccountDirectory.TombstoneKeepsLeftovers`, `AccountDirectory.RevokedCredentialCanSurvive`), although
  `protocol/broker.md:267-270` has a restart complete the clean-up of a revoked account.
- The answer to a repeated proof of a switch that is already committed carries an expiry like that of a held
  reservation (`broker/core/dynamic_accounts.py:686-725`), although nothing is reserved any more
  (`RegistryReplies.CommittedHoldsNothing`). `RegistryReplies.SwitchReply` separates the two cases.
- When creating the provider or writing the manifest fails, the new credential is unlinked but not a lock its
  provider may have left (`broker/core/dynamic_accounts.py:907-913`). `AccountDirectory.Directory.Replace` says that
  the directory stays one the loader accepts exactly when no lock is left on those two paths.
- Label maps are compared by size and by looking up the keys of one side, with a missing key read as empty
  (`localplatform/state/docker_store.go:596-606`); `VolumeInventory.EqualLabelsCanDiffer` shows two different maps that
  compare equal, and `VolumeInventory.EqualLabelsIff` says when the comparison is equality.
- A rollback that fails inside `apply` leaves undo records, and the loop may call `apply` again over them
  (`broker/seed_supervisor.py:441-445`, `broker/seed_supervisor.py:695-700`).
  `SeedReconciler.ApplyingOverRecordsLosesTheOldFile` shows the old file lost, and
  `SeedReconciler.NewRecordGoesBackIff` says when a new record over old ones still goes back.
- `docs/oauth-eligibility.md:83` promises Link pagination as in RFC 8288. Section 3 of it allows parameters without a
  value and tabs in quoted texts, section 3.3 has a second `rel` ignored, and section 7 of RFC 7230 has
  empty elements of a list ignored; the reader refuses the whole field for each of them (`protocol/eligibility/enrichment.go:489-612`).
  `LinkHeader.HeaderReadsBack` is the exact condition; `LinkHeader.MissingValueIsRefused`,
  `LinkHeader.SecondRelIsRefused` and `LinkHeader.EmptyElementIsRefused` show such fields. An `anchor` parameter is
  read like any other, so a link with another context is followed too.
- Prompt numbers are padded to twenty digits but may be longer (`runtime/agentd/agentd.py:94-95`), and a restart fails
  over a longer one (`runtime/agentd/agentd.py:23`). `PromptRuns.LargeNumberStopsStart` is a run that shows it,
  `PromptRuns.StartsIffNumbersFit` the exact condition and `PromptRuns.AlwaysStarts` when it cannot happen.

## Model

| member | source | states |
|---|---|---|
| `AccountRecord.WindowAppend` | broker/core/dynamic_accounts.py:1199-1204 | appending an operation and cutting to the last 32 commutes with taking the last 32 of the full history |
| `AccountRecord.WindowDistinct` | broker/core/dynamic_accounts.py:1199-1208 | an operation id that is not in the log keeps the ids of the window pairwise distinct |
| `AccountLines.TimesRise` | broker/core/dynamic_accounts.py:891-974 | the times of an account's committed manifests never fall |
| `AccountLines.OwnerIsFixed` | broker/core/dynamic_accounts.py:915-935 | all manifests of an account name the same principal |
| `AccountLines.GenerationCountsReplacements` | broker/core/dynamic_accounts.py:915-950 | the generation of the last manifest is the number of replacements ever committed |
| `AccountLines.ReplacementsSplit` | broker/core/dynamic_accounts.py:915-950 | the replacements of a history are those of a prefix plus those after it |
| `AccountLines.LogIsWindowOfHistory` | broker/core/dynamic_accounts.py:1188-1208 | the operation log is the last 32 entries of the full history, with pairwise distinct ids |
| `AccountLines.LineWellFormed` | broker/core/dynamic_accounts.py:1380-1478 | every committed manifest passes the loader's field checks other than the one on reservations |
| `AccountLines.LineValidUnlessStranded` | broker/core/dynamic_accounts.py:1380-1478 | a committed manifest passes the whole check exactly unless it is active and holds a template-switch reservation |
| `AccountLines.StepKeepsValid` | broker/core/dynamic_accounts.py:643-809 | a step from a valid record gives a valid record unless it is a replacement over a template-switch reservation |
| `AccountLines.LineValidIff` | broker/core/dynamic_accounts.py:891-935 | all manifests of an account pass the loader's check if and only if no replacement was made over a record holding a template-switch reservation |
| `AccountLines.SwitchReservationOrigin` | broker/core/dynamic_accounts.py:1251-1281 | a record holding a switch reservation was preceded by its creation, with no other reservation in between |
| `AccountLines.AuthorizationOrigin` | broker/core/dynamic_accounts.py:727-751 | an authorized record was preceded by the commit of a live switch reservation, with no replacement in between |
| `AccountLines.AdmissionKept` | broker/core/dynamic_accounts.py:1251-1302 | an admission reservation stays on the record until it is released or has lapsed |
| `AccountLines.ReservationKept` | broker/core/dynamic_accounts.py:1251-1302 | a reservation of either kind stays on the record until it expires or its own holder releases or commits it |
| `AccountLines.SwitchIsExclusive` | broker/core/dynamic_accounts.py:613-758 | in an account's history, a template change is authorized by a switch reservation since whose creation no admission reservation was live |
| `RegistrySafety.RunKeepsInv` | broker/core/dynamic_accounts.py:545-1145 | every world of every run, restarts included, has sound histories, distinct providers and requests, and indexes in step with the records |
| `RegistrySafety.RunGrows` | broker/core/dynamic_accounts.py:1108-1122 | committed histories only grow over a run |
| `RegistrySafety.TemplateSwitchExcludesAdmission` | broker/core/dynamic_accounts.py:613-758 | over every run with restarts, when an account is enrolled under a new template no admission reservation was live from the creation of the authorizing switch reservation to that enrollment |
| `RegistrySafety.CommittedRecordsLoad` | broker/core/dynamic_accounts.py:1380-1478 | over every run, the manifests of an account pass the loader's check if and only if none was committed over a template-switch reservation |
| `RegistrySafety.LogIsRecentHistory` | broker/core/dynamic_accounts.py:1188-1208 | over every run, an account's log is the last 32 entries of its full history and its ids are pairwise distinct |
| `RegistrySafety.RepeatChangesNothing` | broker/core/dynamic_accounts.py:613-641 | a repeat of an operation in the log changes nothing and is refused or answered with the recorded result |
| `RegistrySafety.IndexedLookupIsScan` | broker/core/dynamic_accounts.py:686-725 | in every world of every run, beginning a switch through the two index maps gives what scanning all records gives, even after a commit that failed midway |
| `RegistrySafety.GenerationIsCount` | broker/core/dynamic_accounts.py:811-846 | the generation reported for an account is the number of its replacements |
| `RegistrySafety.EqualGenerationsMeanNoReplacement` | broker/core/dynamic_accounts.py:811-846 | reported generations never fall, and two reports are equal exactly when nothing was replaced between them |
| `RegistryRestart.RestartIsHealthyIff` | broker/core/dynamic_accounts.py:1013-1093 | starting again after any run, in whatever state the last manager was and under any configuration, is healthy if and only if the directories fit the capacity, the configuration knows every name on record and no manifest is an active record holding a switch reservation; it then serves exactly the manifests on disk, with a handle for exactly the active ones whose provider accepts |
| `RegistryRestart.SameConfigSuits` | broker/core/dynamic_accounts.py:1013-1093 | the configuration of a manager in working order, or stopped by an unconfirmed write, knows every name on record |
| `RegistryRestart.EnrollUnderSwitchStrands` | broker/core/dynamic_accounts.py:931-934 | enrolling over a record that holds a switch reservation commits a manifest the loader refuses |
| `RegistryRestart.SwitchOverwriteStopsRegistry` | broker/core/dynamic_accounts.py:1459-1462 | a run of successful calls after which a restart finds the registry unavailable |
| `RegistryRestart.FailedEnrollmentStopsRegistry` | broker/core/dynamic_accounts.py:1013-1030 | a run with one account at most after which a restart finds the registry unavailable |
| `RegistryRestart.OneBadManifestStopsAll` | broker/core/dynamic_accounts.py:1013-1093 | one manifest that fails the check leaves no account served |
| `RegistryReplies.ReservationReply` | broker/core/dynamic_accounts.py:1251-1281 | a reservation told held is on record under exactly the kind, operation and expiry of the answer, which is still to come and is the one on record before or the configured time from now, with nothing else changed; a live one of another kind or operation is a conflict that changes nothing, and without one the call succeeds unless a write fails |
| `RegistryReplies.AdmissionReply` | broker/core/dynamic_accounts.py:671-677 | an admission is held only by an active, eligible account and is then on record under its own operation; it conflicts exactly with a live reservation of another operation |
| `RegistryReplies.SwitchReply` | broker/core/dynamic_accounts.py:686-725 | a switch told held is on record under its own operation on the account that waits for that request, or was authorized before by the same operation and changes nothing |
| `RegistryReplies.SwitchConflict` | broker/core/dynamic_accounts.py:686-725 | beginning a switch for an account that waits is refused as a conflict exactly when another operation holds the slot, and then changes nothing |
| `RegistryReplies.CommittedHoldsNothing` | broker/core/dynamic_accounts.py:727-751 | an authorized account has no reservation |
| `RegistryReplies.EndReply` | broker/core/dynamic_accounts.py:1283-1302 | only the live holder changes anything by releasing, and a release that succeeds leaves the slot free |
| `RegistryReplies.EndIsAnswered` | broker/core/dynamic_accounts.py:1283-1302 | the holder can always release, and any other operation is told that it does not hold the slot |
| `RegistryReplies.ToldIsRecorded` | broker/core/dynamic_accounts.py:671-725 | at every step of every run, an operation told to hold a slot is on record in it, with the expiry it was told |
| `RegistryReplies.SlotIsKept` | broker/core/dynamic_accounts.py:1251-1302 | over every run with restarts a slot stays with its holder until it expires or the holder gives it up |
| `RegistryReplies.SlotIsExclusive` | broker/core/dynamic_accounts.py:1251-1302 | over every run with restarts, no two operations are both told to hold the slot of an account with overlapping times unless the first has given it up in between |
| `RegistryReplies.ConflictIsRefused` | broker/core/dynamic_accounts.py:671-725 | at every step of every run, asking for a slot another operation holds is refused as a conflict and leaves the registry as it was |
| `RegistryReplies.RequestReply` | broker/core/dynamic_accounts.py:643-669 | a pending answer names the request on record and in the index, an authorized answer an account that is authorized |
| `RegistryReplies.CommitReply` | broker/core/dynamic_accounts.py:727-751 | an authorization goes to the live holder of the switch slot, for the request on record, and clears both, or repeats one given to the same operation |
| `RegistryReplies.EnrollReply` | broker/core/dynamic_accounts.py:613-641 | an enrollment that succeeds left an active record of the caller with the template asked for, its own eligibility, the next generation and a published provider, or repeats one in the log |
| `RegistryReplies.ReconnectReply` | broker/core/dynamic_accounts.py:760-771 | a reconnection that succeeds put the next generation in place under the same template and provider, or repeats one in the log |
| `RegistryReplies.RevokeReply` | broker/core/dynamic_accounts.py:773-809 | a revocation that succeeds left a record without credential, eligibility or handle, or repeats one in the log |
| `RegistryReplies.EnrollIsServed` | broker/core/dynamic_accounts.py:613-641 | an enrollment that may be made succeeds when nothing fails |
| `RegistryReplies.RequestIsServed` | broker/core/dynamic_accounts.py:643-669 | a request for a switch that may be made succeeds when nothing fails |
| `RegistryReplies.CommitIsServed` | broker/core/dynamic_accounts.py:727-751 | the holder of a switch slot can commit it when nothing fails |
| `RegistryReplies.RepeatIsAnswered` | broker/core/dynamic_accounts.py:1188-1197 | in every world of every run an operation repeated while it is in the log is answered with the result it had |
| `RegistryReplies.RenewReply` | broker/core/dynamic_accounts.py:848-863 | renewing never lowers an eligibility and reaches the one asserted |
| `RegistryReplies.RevokeEligibilityReply` | broker/core/dynamic_accounts.py:865-880 | revoking an eligibility ends it |
| `RegistryReplies.ResolveReply` | broker/core/dynamic_accounts.py:832-846 | in every world of every run an account resolves if and only if it is active, eligible now and its provider is published and ready, and then to what is on record |
| `RegistryReplies.ReadinessReply` | broker/core/dynamic_accounts.py:811-830 | in every world of every run each readiness answer is given exactly for its own reason |
| `RegistryReplies.CapacityIsKept` | broker/core/dynamic_accounts.py:613-641 | over every run a registry in working order never has more accounts than its capacity |
| `AccountManager.IndexTestsFindCollisions` | broker/core/dynamic_accounts.py:1033-1049 | the loader's look-ups in the two indexes find exactly the requests that another loaded account already has |
| `AccountManager.DynamicAccountManager.constructor` | broker/core/dynamic_accounts.py:545-564 | a new manager is the registry that loading its disk leads to: the records on disk, and a published provider exactly for the active ones whose provider accepts |
| `AccountManager.DynamicAccountManager.Load` | broker/core/dynamic_accounts.py:1013-1093 | loading gives exactly the records on disk with their indexes, publishes a provider if and only if some active record has it and it accepts, or leaves an unavailable registry when any entry or the count is refused |
| `AccountManager.DynamicAccountManager.Commit` | broker/core/dynamic_accounts.py:1304-1313 | a commit is synced, lost, or leaves the registry latched as unavailable |
| `AccountManager.DynamicAccountManager.BeginReservation` | broker/core/dynamic_accounts.py:1251-1281 | the method is the registry function, of which `ReservationReply` says what each answer means |
| `AccountManager.DynamicAccountManager.BeginAdmissionCall` | broker/core/dynamic_accounts.py:671-677 | the method is the registry function, of which `AdmissionReply` says what each answer means |
| `AccountManager.DynamicAccountManager.EndReservationCall` | broker/core/dynamic_accounts.py:1283-1302 | the method is the registry function on the new state and the reply |
| `AccountManager.DynamicAccountManager.RequestSwitchCall` | broker/core/dynamic_accounts.py:643-669 | the method is the registry function, with the index entry moved even when the commit fails |
| `AccountManager.DynamicAccountManager.BeginSwitchCall` | broker/core/dynamic_accounts.py:686-725 | the method is the registry function through both indexes, of which `SwitchReply` and `SwitchConflict` say what each answer means |
| `AccountManager.DynamicAccountManager.CommitSwitchCall` | broker/core/dynamic_accounts.py:727-751 | the method is the registry function on the new state and the reply |
| `AccountManager.DynamicAccountManager.FindRepeated` | broker/core/dynamic_accounts.py:1188-1197 | the loop over the log gives the recorded answer of that operation, if there is one |
| `AccountManager.DynamicAccountManager.DrawProviderId` | broker/core/dynamic_accounts.py:1210-1216 | the first drawn id that no static name, published provider or account has |
| `AccountManager.DynamicAccountManager.ReplaceCredential` | broker/core/dynamic_accounts.py:891-974 | the method is the registry function for every fault of storage, provider and commit |
| `AccountManager.DynamicAccountManager.EnrollCall` | broker/core/dynamic_accounts.py:613-641 | the method is the registry function on the new state and the reply |
| `AccountManager.DynamicAccountManager.ReconnectCall` | broker/core/dynamic_accounts.py:760-771 | the method is the registry function on the new state and the reply |
| `AccountManager.DynamicAccountManager.RevokeCall` | broker/core/dynamic_accounts.py:773-809 | the method is the registry function on the new state and the reply |
| `AccountManager.DynamicAccountManager.RenewEligibilityCall` | broker/core/dynamic_accounts.py:848-863 | the method is the registry function on the new state and the reply |
| `AccountManager.DynamicAccountManager.RevokeEligibilityCall` | broker/core/dynamic_accounts.py:865-880 | the method is the registry function on the new state and the reply |
| `AccountDirectory.Directory.RemoveArtifacts` | broker/core/dynamic_accounts.py:1361-1377 | locks go first and durably, so no state on the way has a lock without its credential |
| `AccountDirectory.Directory.WriteManifest` | broker/core/dynamic_accounts.py:1108-1122 | every state on the way has the old or the new manifest whole, and success leaves nothing unsynced |
| `AccountDirectory.Directory.Replace` | broker/core/dynamic_accounts.py:891-974 | every state a crash can leave selects the old or the new record exactly unless a locked credential is unlinked on an error path; success leaves the new credential named and the old one gone |
| `AccountDirectory.Directory.Revoke` | broker/core/dynamic_accounts.py:773-809 | every state a crash can leave selects the active record or the tombstone; the state with the tombstone and all files is visited whenever the manifest is written; success removes the credential and its lock |
| `AccountDirectory.Directory.CleanupOrphans` | broker/core/dynamic_accounts.py:1124-1135 | exactly the artifacts the manifest does not need are removed, and every state on the way is one the loader accepts |
| `AccountDirectory.Directory.RecoverUncommitted` | broker/core/dynamic_accounts.py:1137-1145 | a directory without a manifest is emptied of recognized artifacts |
| `AccountDirectory.CrashSelectsOldOrNew` | broker/core/dynamic_accounts.py:891-1135 | cleaning up after a crash anywhere on the way leaves the old or the new record; an active one keeps exactly its own credential and the lock of it, unaltered, and loses every other file |
| `AccountDirectory.TombstoneKeepsLeftovers` | broker/core/dynamic_accounts.py:1131-1133 | cleaning up under a tombstone keeps every credential file |
| `AccountDirectory.RevokedCredentialCanSurvive` | broker/core/dynamic_accounts.py:1131-1133 | every revocation that writes its tombstone visits a state after which a restart keeps the revoked credential, however often it is repeated |
| `PrincipalClient.ResolveIsConsistent` | operator/principalaccounts/client.go:237-307 | when the client's two reads agree, no replacement happened between them, restarts included |
| `PrincipalClient.SteadyAccountResolves` | operator/principalaccounts/client.go:237-307 | an active, eligible account with a ready provider resolves |
| `PrincipalClient.RestartedAccountResolves` | operator/principalaccounts/client.go:237-307 | after any run and a healthy restart, every active, eligible account whose provider accepts resolves |
| `PrincipalClient.ClientAnswers` | operator/principalaccounts/client.go:237-307 | whatever two moments of a run the two reads meet, the answer is not enrolled, not eligible, not ready or unavailable exactly for that reason, and success exactly when both reads find the account served with the same template and generation |
| `LeasedHandle.DynamicProviderAdapter.Acquire` | broker/core/dynamic_provider.py:136-142 | a lease is counted on the current adapter, or the handle is closed |
| `LeasedHandle.DynamicProviderAdapter.Release` | broker/core/dynamic_provider.py:144-151 | one lease is given back, and waiters are woken exactly when it was the last |
| `LeasedHandle.DynamicProviderAdapter.Swap` | broker/core/dynamic_provider.py:63-78 | the replacement is current and the previous adapter is waited for exactly when it is leased |
| `LeasedHandle.DynamicProviderAdapter.Close` | broker/core/dynamic_provider.py:48-61 | nothing is current afterwards and the previous adapter is waited for exactly when it is leased |
| `LeasedHandle.RunKeepsInv` | broker/core/dynamic_provider.py:48-151 | over every interleaving, counts equal the calls in progress, a retirement has its adapter to itself, and no adapter is lost |
| `LeasedHandle.NoCallOnClosedAdapter` | broker/core/dynamic_provider.py:122-151 | no call runs on an adapter that has been closed |
| `LeasedHandle.CloseRunsAfterRetirement` | broker/core/dynamic_provider.py:48-78 | an adapter is closed at most once, when it is no longer current and has no leases |
| `LeasedHandle.ClosedStaysClosed` | broker/core/dynamic_provider.py:48-78 | a closed adapter is never current, leased or closed again |
| `LeasedHandle.RetirementIsNeverStuck` | broker/core/dynamic_provider.py:144-151 | a sleeping retirement has leases left, so the drop to zero that it needs will wake it |
| `LeasedHandle.NothingLeaks` | broker/core/dynamic_provider.py:48-78 | an adapter that is no longer current is being retired by one thread or has been closed once |
| `LeasedHandle.SwapWithCurrentWouldClose` | broker/core/dynamic_provider.py:63-78 | swapping in the adapter that is already current would close it while it is current |
| `Names.SortNames` | localplatform/state/manager.go:287-291 | the listing is sorted and has exactly the given names |
| `Names.SortedIsUnique` | localplatform/state/manager.go:287-291 | there is only one such listing |
| `VolumeInventory.EqualLabelsIff` | localplatform/state/docker_store.go:596-606 | the label comparison is equality if and only if no empty label of the first side is missing on the second |
| `VolumeInventory.EqualLabelsCanDiffer` | localplatform/state/docker_store.go:550-606 | for every project and volume, labels without the owner label and with a foreign empty one compare equal to the volume's own |
| `VolumeInventory.SameLabelsSameRecord` | localplatform/state/manager.go:278-280 | two declarations of a volume with equal labels agree in role and owner |
| `VolumeInventory.LoadHistory` | localplatform/state/manager.go:254-273 | the recorded volumes are taken in, or the history is refused as a whole, as `AcceptedHistories` says |
| `VolumeInventory.AcceptedHistories` | localplatform/state/manager.go:254-273 | a recorded history is accepted if and only if it has the version and project, between 1 and 1024 volumes, no name twice, and every volume has a safe name, a role, an owner, no consumers and exactly the five labels of this project, but for the slip of the label comparison; it is then taken in unaltered |
| `VolumeInventory.MergeCurrent` | localplatform/state/manager.go:274-283 | the plan is taken in, or refused over a changed label |
| `VolumeInventory.MergeVolumeInventory` | localplatform/state/manager.go:254-297 | the result lists exactly the merged records in the order of their names |
| `VolumeInventory.MergingOnlyAdds` | localplatform/state/manager.go:274-283 | merging never drops or alters a record, and the names are those of both sides |
| `VolumeInventory.MergingFailsOverLabels` | localplatform/state/manager.go:274-283 | the plan is taken in if and only if its labels agree with the recorded ones and among themselves |
| `VolumeInventory.WrittenIsAccepted` | localplatform/state/manager.go:254-273 | a written inventory is accepted and read back as exactly the records written |
| `VolumeInventory.NextMergeFailsOnlyOverThePlan` | localplatform/state/manager.go:254-297 | after a written inventory the next merge succeeds if and only if no planned label differs from a recorded or another planned one of the same name and the names are not too many |
| `StateStore.InitializingIsNeverCorrupt` | localplatform/state/docker_store.go:236-253 | every crash prefix of initializing is empty, publishing or ready, and shows the value from the rename on |
| `StateStore.FinalizingIsNeverCorrupt` | localplatform/state/docker_store.go:316-335 | every crash prefix of finalizing is publishing or ready with the same value |
| `StateStore.CopyingIsWhole` | localplatform/state/docker_store.go:337-374 | at every step a consumer finds its old copy, none, or the whole new one |
| `StateStore.ReaderSeesOldOrNew` | localplatform/state/docker_store.go:217-235 | at every step of a replacement the reader finds the complete old or the complete new version |
| `StateStore.RecordsAcrossReplacement` | localplatform/state/docker_store.go:131-161 | at every step the records read are the old ones or exactly the new ones |
| `StateStore.LaterExtendsEarlier` | localplatform/state/manager.go:71-183 | over any history of runs and crashes, nothing published, recorded or created is lost or altered |
| `StateStore.PublishedForGood` | localplatform/state/manager.go:103-181 | a value published once is published unaltered ever after, and a ready source stays ready |
| `StateStore.RecordedForGood` | localplatform/state/manager.go:87-125 | the inventory is readable at every point, records are never lost, and only recorded volumes exist besides the configuration volume |
| `StateStore.NothingIsSafe` | localplatform/state/manager.go:87-125 | the state before the first run satisfies the invariant |
| `StateStore.ClassifiedExactly` | localplatform/state/docker_store.go:282-314 | a source is found ready or publishing if and only if the tree and every marker there is name one value of the right size, empty if and only if there is neither tree nor marker, and corrupt otherwise, and the published value is that one |
| `StateManager.DockerStore.InspectPrivateSource` | localplatform/state/docker_store.go:282-314 | the state reported is the classification of the source |
| `StateManager.DockerStore.InitializePrivateSource` | localplatform/state/docker_store.go:163-264 | success publishes exactly the given value in a source that was empty; whatever happens, nothing published changes |
| `StateManager.DockerStore.FinalizePrivateSource` | localplatform/state/docker_store.go:316-335 | success makes a publishing source ready; whatever happens, nothing published changes |
| `StateManager.DockerStore.CopyPrivateFile` | localplatform/state/docker_store.go:337-374 | success leaves the consumer with the published value in its own file and touches no other volume |
| `StateManager.DockerStore.ReadVolumeInventory` | localplatform/state/docker_store.go:131-161 | what is read is what the volume records |
| `StateManager.DockerStore.ReplaceFiles` | localplatform/state/docker_store.go:127-235 | success records the new inventory; cut off anywhere, the old or the new one is recorded |
| `StateManager.DockerStore.EnsureVolumes` | localplatform/state/docker_store.go:72-98 | only recorded volumes are created, and success leaves all of them in place |
| `StateManager.InspectOne` | localplatform/state/manager.go:103-114 | no history of runs and crashes leads to a source that is found corrupt |
| `StateManager.PublishInventory` | localplatform/state/manager.go:115-125 | success leaves the merged inventory recorded and every planned volume in place, and at every step on the way only recorded volumes exist |
| `StateManager.CopyToConsumers` | localplatform/state/manager.go:174-179 | copying serves one consumer after the other without disturbing those served before |
| `StateManager.ServeConsumers` | localplatform/state/manager.go:126-181 | from any state a cut-off run can leave, finishing publications, generating and copying serves every consumer unless it is cut off again |
| `StateManager.Ensure` | localplatform/state/manager.go:71-183 | a run never meets a corrupt source and writes nothing when the plan cannot be merged; one that is not cut off, with values of the right size for distinct sources, completes exactly when the plan can be merged; on completion every consumer holds its source's value and every planned volume exists and is recorded |
| `StateManager.EnsureRepeatedly` | localplatform/state/manager.go:71-183 | any number of runs, each cut off anywhere, forms one history with the invariant |
| `SeedReconciler.PlanIsEmptyIff` | broker/seed_supervisor.py:371-398 | nothing is planned exactly when every seed is marked as imported and its canonical file exists |
| `SeedReconciler.PlanIsExact` | broker/seed_supervisor.py:371-398 | a seed is adopted if and only if its file is there without a marker, and imported if and only if the file is missing or marked for other content |
| `SeedReconciler.RewritingKeepsSettled` | broker/seed_supervisor.py:371-398 | however the broker rewrites its canonical files, the plan stays empty |
| `SeedReconciler.Reconciler.Plan` | broker/seed_supervisor.py:371-398 | the plan adopts exactly the files without a marker, imports exactly the missing ones and those marked for other content, in order, and fails exactly over an unreadable marker |
| `SeedReconciler.Reconciler.WriteRecovery` | broker/seed_supervisor.py:409-427 | while an undo record is written nothing else changes |
| `SeedReconciler.Reconciler.Apply` | broker/seed_supervisor.py:429-446 | from any step of an apply, recovery brings every seed back to what it was; a torn record is left only while nothing has changed |
| `SeedReconciler.Reconciler.PlayBack` | broker/seed_supervisor.py:501-517 | at every step of playing a record back, recovery would bring back the same files |
| `SeedReconciler.Reconciler.RecoverIncomplete` | broker/seed_supervisor.py:457-521 | a completed recovery leaves no record and exactly the recorded files; it refuses only over a torn record, and never completes over one; without records it completes and changes nothing |
| `SeedReconciler.Reconciler.Accept` | broker/seed_supervisor.py:448-455 | only undo records are removed, while the broker goes on rewriting its files between the removals |
| `SeedReconciler.Reconciler.Generation` | broker/seed_supervisor.py:686-716 | at every step of apply, accept or rollback, with the broker rewriting files whenever it runs, each name comes back old or, only when the broker was ready and not stopping, its record was dropped by the acceptance and file and marker are new; no step but the broker's own changes a file that had no marker; after a refusal or a rollback all names are old, and acceptance leaves the plan empty |
| `SeedReconciler.AsTheBrokerLeftIt` | broker/seed_supervisor.py:429-521 | at every step of a generation the file of a seed without a marker is the one that was there or the one the broker wrote last |
| `SeedReconciler.RecoveryIsUnique` | broker/seed_supervisor.py:457-521 | all completed recoveries from one state end with the same disk, whatever the order of the records and however often they were repeated |
| `SeedReconciler.CrashThenRecovery` | broker/seed_supervisor.py:409-521 | from any state of a generation, any number of interrupted recoveries and a completed one leave no record and every name old, or new with its record dropped by the acceptance before the crash |
| `SeedReconciler.NewRecordGoesBackIff` | broker/seed_supervisor.py:409-427 | a record written over old records still goes back if and only if its name had not been touched |
| `SeedReconciler.ApplyingOverRecordsLosesTheOldFile` | broker/seed_supervisor.py:441-445 | applying again over the records of a failed rollback loses the old file |
| `SeedSupervisor.Supervise` | broker/seed_supervisor.py:662-723 | the loop ends without undo records unless a rollback or an acceptance failed, a torn record holds the broker back without an attempt, no refused generation is tried blindly again, the loop stops with the first round that asks for it, the last round taken ended settled, unreadable, refused or rolled back, and every state on the way belongs to the first recovery, to the broker's own writing or to one planned generation |
| `SeedSupervisor.NoCredentialIsOverwritten` | broker/seed_supervisor.py:662-723 | over a supervised run, a step that changes a file was the broker's own, or belongs to a generation that found the file missing or under a marker |
| `SeedSupervisor.CrashedRunRecovers` | broker/seed_supervisor.py:457-723 | a crash at any point of a supervised run and recoveries until one completes change nothing while only the broker wrote, and otherwise leave every name as before the generation or settled by it |
| `SeedSupervisor.RefusedStaysRefused` | broker/seed_supervisor.py:682-716 | a refused generation is not tried again until another one has been decided |
| `ProviderGenerations.ExecutableProvider.Begin` | broker/core/executable_provider.py:334-344 | a child becomes current exactly when none is running and the provider is not closing |
| `ProviderGenerations.ExecutableProvider.Register` | broker/core/executable_provider.py:456-469 | a request is registered with the current child exactly when the provider accepts it and the child is alive; a child found dead is declared failed with its requests |
| `ProviderGenerations.ExecutableProvider.Pop` | broker/core/executable_provider.py:547-550 | a reader takes a request only while its own child is current |
| `ProviderGenerations.ExecutableProvider.TakeFailed` | broker/core/executable_provider.py:594-601 | only the first declaration of a failure takes effect, and it takes exactly the child's requests |
| `ProviderGenerations.StepsAreRegions` | broker/core/executable_provider.py:320-650 | every step of a run does to the guarded fields what the object's method for that region does, or leaves them alone |
| `ProviderGenerations.RunKeepsInv` | broker/core/executable_provider.py:320-657 | over every interleaving each request is in exactly one place and each child in exactly one stage |
| `ProviderGenerations.RequestsBelongToCurrent` | broker/core/executable_provider.py:453-496 | all registered requests belong to the child running now |
| `ProviderGenerations.CompletedAtMostOnce` | broker/core/executable_provider.py:521-571 | no request is completed twice, and each completion comes from the child it was registered with |
| `ProviderGenerations.NoRequestIsLost` | broker/core/executable_provider.py:592-615 | once a child's threads are done, each of its requests has been completed or taken back by its caller |
| `ProviderGenerations.RetiredExactlyOnce` | broker/core/executable_provider.py:592-650 | every child that is no longer running has been, or is about to be, handed over for retirement exactly once |
| `ProviderGenerations.LateOutputIsDropped` | broker/core/executable_provider.py:547-550 | what a failed child prints afterwards reaches no caller |
| `ProviderGenerations.RestartIsComing` | broker/core/executable_provider.py:614-639 | while no child runs and the provider is not closing, a restart is under way or will be signalled |
| `ProviderGenerations.AdmittedRequests` | broker/core/executable_provider.py:456-469 | a request can be registered if and only if a child runs, is ready or need not be, has fewer than 128 requests waiting, and the provider is not closing or is being shut down by it |
| `ProviderGenerations.PendingIsBounded` | broker/core/executable_provider.py:453-469 | over every run at most 128 requests wait |
| `ProviderGenerations.ReadyIsEarned` | broker/core/executable_provider.py:334-372 | the provider is ready only while a child runs that was itself found ready |
| `ProviderGenerations.ClosingIsFinal` | broker/core/executable_provider.py:334-344 | once the provider is closing no further child becomes current |
| `ProviderGenerations.AnsweredAndFailed` | broker/core/executable_provider.py:521-615 | a run in which a child answers one request after it was declared failed, because its reader had matched it before, and another is failed with it |
| `LinkHeader.SplitLinkHeader` | protocol/eligibility/enrichment.go:489-528 | the loop splits at the commas outside quotes and brackets, and refuses unbalanced or empty values |
| `LinkHeader.ConsumeLinkParameter` | protocol/eligibility/enrichment.go:575-612 | the loop reads a token or a quoted text with its escapes |
| `LinkHeader.ParseLinkParameters` | protocol/eligibility/enrichment.go:540-571 | the loop gives the words of the only rel parameter |
| `LinkHeader.FieldsReadBack` | protocol/eligibility/enrichment.go:562-570 | the words of a rel value are the words it was written from, whatever the white space around them |
| `LinkHeader.ParseLinkValue` | protocol/eligibility/enrichment.go:530-573 | a value is a target in brackets and its parameters |
| `LinkHeader.UnquoteChars` | protocol/eligibility/enrichment.go:589-611 | a quoted text is read as its characters, each plain or behind a backslash, or refused exactly over a bare tab |
| `LinkHeader.LinkReadsBack` | protocol/eligibility/enrichment.go:530-573 | a link in any spelling of section 3 of RFC 8288, with token, quoted or missing values and white space anywhere it is allowed, is read as target and words of the first rel, or refused exactly over a missing value, a bare tab, or a second or empty rel |
| `LinkHeader.SplitsWritten` | protocol/eligibility/enrichment.go:489-528 | a field in any spelling splits into exactly its links, or is refused exactly over an empty element |
| `LinkHeader.HeaderReadsBack` | protocol/eligibility/enrichment.go:489-573 | a field in any spelling of the grammar is read as exactly the links the standard finds in it, or refused exactly when an element is empty or a link is refused |
| `LinkHeader.MissingValueIsRefused` | protocol/eligibility/enrichment.go:547-550 | a field with a parameter without a value is a next link by the standard and is refused |
| `LinkHeader.SecondRelIsRefused` | protocol/eligibility/enrichment.go:562-570 | a field with a second rel is a next link by the standard and is refused |
| `LinkHeader.EmptyElementIsRefused` | protocol/eligibility/enrichment.go:489-528 | a field with an empty element has the links of the others by the standard and is refused |
| `BoundedJson.DecodeBoundedJson` | protocol/eligibility/enrichment.go:680-751 | the loops and calls compute the decoder function on every token stream |
| `BoundedJson.DecodesExactly` | protocol/eligibility/enrichment.go:680-751 | on the tokens of any value the decoder returns exactly that value and counts exactly its values if all limits hold and no key repeats, and fails otherwise |
| `BoundedJson.SucceedsIff` | protocol/eligibility/enrichment.go:680-751 | on any token stream it succeeds if and only if the stream starts with the tokens of a value within the limits |
| `BoundedJson.DecodedComesFrom` | protocol/eligibility/enrichment.go:680-751 | whatever is decoded consumed exactly the tokens of a value |
| `BoundedJson.PassIsWithin` | protocol/eligibility/enrichment.go:698-722 | checking member by member is the same as distinct keys, bounded count, bounded keys and bounded values |
| `Pagination.NextLink` | protocol/eligibility/enrichment.go:425-472 | the method is the function of which `OnlyNextLink` and `NoneOrTwoNextLinks` say what it returns |
| `Pagination.OnlyNextLink` | protocol/eligibility/enrichment.go:425-487 | on a field in any spelling with one next link, it is returned if and only if it has no fragment, can be resolved, is not too long, is https without user or fragment, and has the host up to case, the port with 443 for none and the path of the original; anything else is refused |
| `Pagination.NoneOrTwoNextLinks` | protocol/eligibility/enrichment.go:425-472 | without a next link the pages end, and with two the pagination is refused |
| `Pagination.FetchPaginatedPage` | protocol/eligibility/enrichment.go:367-423 | a page is read within the bytes that are left, as an array without secrets |
| `Pagination.FetchPaginatedClaim` | protocol/eligibility/enrichment.go:306-365 | the loop computes the fetch function |
| `Pagination.FetchedIsAChain` | protocol/eligibility/enrichment.go:306-365 | whatever is returned is the concatenation of a whole chain of next links within all limits |
| `Pagination.ChainIsFetched` | protocol/eligibility/enrichment.go:306-365 | whenever there is such a chain, its concatenation is returned |
| `Pagination.PaginationIsComplete` | protocol/eligibility/enrichment.go:306-365 | pagination succeeds if and only if the whole chain exists within the limits, and returns all its items in order |
| `Pagination.ChainStaysHome` | protocol/eligibility/enrichment.go:474-487 | the pages of a chain are at pairwise distinct URLs, each https without opaque part, user or fragment, on the original host up to case, the original path, and the original port with 443 for a missing one |
| `Pagination.PageIsAnArray` | protocol/eligibility/enrichment.go:395-423 | each page is the text of a JSON array with exactly its items, none of them sensitive, no more bytes than were sent, and the value count grows by exactly its size within the limit |
| `Pagination.TwoPagesAreJoined` | protocol/eligibility/enrichment.go:306-365 | a server that answers with a page, a next link and a last page has both pages returned, for any other safe URL of the second page |
| `KubernetesGrants.ResolveKubernetesGrant` | localplatform/manifest/compiler.go:462-476 | the first grant of the provider is filled, or the pass fails because it is missing or not open |
| `KubernetesGrants.ResolveProfile` | localplatform/manifest/compiler.go:423-454 | both copies of a profile's grants are filled access by access |
| `KubernetesGrants.ResolveKubernetesSelections` | localplatform/manifest/compiler.go:409-460 | the pass succeeds exactly when every profile can be filled and every catalogue is used, and then fills every profile |
| `KubernetesGrants.ResolvedProfile` | localplatform/manifest/compiler.go:423-454 | a compiled profile can be filled exactly when the catalogues it needs are valid, and then every open grant and no other is filled |
| `KubernetesGrants.FilledIsListed` | localplatform/config/render.go:376-382 | filled grants render as listed ones and ask for the same resources |
| `KubernetesGrants.ExpandingIsListing` | localplatform/manifest/compiler.go:551-562 | compiling, filling and rendering gives what listing the contexts by hand gives, of which `RenderedAsAsked` says what that is |
| `KubernetesGrants.RenderedAsAsked` | localplatform/manifest/compiler.go:551-598 | every access renders to the contexts asked for, sorted, each with its own host; to observe is to deny everything but one observation of each context, a custom policy keeps its action and rules, and no policy gives none; the other grants stay as written |
| `KubernetesGrants.ResourcesAsAsked` | localplatform/config/render.go:730-742 | the resources asked of a provider are exactly the contexts its accesses select |
| `KubernetesGrants.RefusedCatalogs` | localplatform/manifest/compiler.go:429-442 | the pass fails for a compiled profile if and only if a catalogue it needs is missing, empty, too long, repeats a name or has a forbidden one |
| `KubernetesGrants.PassIsListing` | localplatform/config/render.go:730-742 | after the pass the broker's and the controller's grants are equal and both render as the listed ones, with the same resources for every provider, and give what was asked for |
| `RepositoryGrants.CheckAccess` | localplatform/manifest/manifest.go:594-637 | the check passes exactly when repositories of one provider declare the same access |
| `RepositoryGrants.CompileRepositoryGrants` | localplatform/manifest/compiler.go:497-575 | a repository is in a group exactly when a use of it belongs to that provider and those permissions |
| `RepositoryGrants.RenderRepositoryGrants` | localplatform/config/render.go:383-403 | a repository is in a grant exactly when a group puts it there, and no grant names it twice |
| `RepositoryGrants.GrantsAreExactlyTheUses` | localplatform/config/render.go:350-403 | a grant names a repository exactly when the profile uses it, with credentials, under that provider and with those permissions |
| `RepositoryGrants.GrantedAsDeclared` | localplatform/manifest/compiler.go:606-616 | a grant names a repository if and only if a use has it under that provider, per owner for an app with several installations, with the access it declares, the default of an app without a declaration, or none |
| `RepositoryGrants.NoRepositoryProviderTwice` | localplatform/config/render.go:767-774 | no provider occurs in two repository grants of a profile that passed the check |
| `RepositoryGrants.NoProviderTwice` | localplatform/manifest/manifest.go:462-637 | no provider occurs in two grants of a profile that passed validation, whatever the grants are for |
| `RepositoryGrants.ContradictionSplitsProvider` | localplatform/manifest/manifest.go:594-637 | uses that fail the check would put one provider in two grants |
| `PromptNames.PadReadsBack` | runtime/agentd/agentd.py:95 | a padded number is read back, whatever its length |
| `PromptNames.NameReadsBack` | runtime/agentd/agentd.py:76-86 | a file name is matched if and only if its number fits twenty digits, and then gives back its number and id |
| `PromptNames.MatchesIff` | runtime/agentd/agentd.py:23 | a name is matched as a number and an id if and only if the id is well-formed, the number fits twenty digits and the name is the one written for them |
| `PromptNames.IdIff` | runtime/agentd/agentd.py:23 | an id is well-formed if and only if it is prm_ and 32 small hexadecimal digits |
| `PromptNames.NamesSortAsNumbers` | runtime/agentd/agentd.py:72 | names sort as their numbers do |
| `PromptQueue.RestorePromptQueue` | runtime/agentd/agentd.py:67-89 | the start succeeds exactly when every file is temporary or readable, and then holds the prompts in the order of their names, the file of each, and the highest number |
| `PromptQueue.StartOnAnyDirectory` | runtime/agentd/agentd.py:67-89 | on any directory a start fails exactly over a file that is neither temporary by its name nor a prompt's own with the same id inside; otherwise the queue has exactly the prompts with a file, each with a file of its own id to delete, and the number is the highest of them |
| `PromptQueue.RestoredInOrder` | runtime/agentd/agentd.py:67-89 | the refilled queue lists exactly the directory in the order of the sequence numbers |
| `PromptQueue.StartsIff` | runtime/agentd/agentd.py:67-89 | on the files of any directory with well-formed ids a start succeeds if and only if all numbers fit their width, and then queues the whole directory in order |
| `PromptRuns.RunKeepsInv` | runtime/agentd/agentd.py:67-282 | over every run with crashes the queue, the worker and the request in progress are in order, files carry the numbers their prompts were given, and no prompt present has a number above the current one |
| `PromptRuns.AcknowledgedIsSafe` | runtime/agentd/agentd.py:211-229 | a prompt whose request has left the locked region has been injected or is on disk for good |
| `PromptRuns.QueueFollowsDirectory` | runtime/agentd/agentd.py:91-121 | the queue in memory is always an ascending part of the directory |
| `PromptRuns.InjectedOncePerLife` | runtime/agentd/agentd.py:262-282 | no prompt is injected twice in one life of the process |
| `PromptRuns.RestoredInAckOrder` | runtime/agentd/agentd.py:67-121 | after a restart, which refills the queue from the files that are left, prompts come back in the order in which their requests left the locked region |
| `PromptRuns.NothingIsForgotten` | runtime/agentd/agentd.py:67-89 | after a restart that succeeds every accepted prompt that was not injected is in the queue |
| `PromptRuns.StartsIffNumbersFit` | runtime/agentd/agentd.py:67-95 | over every run a restart succeeds if and only if every number left on disk fits twenty digits |
| `PromptRuns.AlwaysStarts` | runtime/agentd/agentd.py:91-95 | while the clock plus the number of steps stays within twenty digits every restart succeeds |
| `PromptRuns.LargeNumberStopsStart` | runtime/agentd/agentd.py:76-78 | a prompt accepted under a longer number makes the next restart fail |

## Left out

- HTTP handling, TLS, signatures, base64 and the audit log of the broker and the operator client: libraries and plumbing.
- Provider plugins, upstream refresh, the provider protocol's message formats: a provider accepts or refuses.
- Processes, signals, pipes and thread joins: only "the child failed" and "the broker is ready" remain; restart delays of the executable provider are not modelled, and a time-out is one of the ways a child is declared failed.
- File modes, ownership, symbolic links and the projected-volume scan: files are private and regular.
- YAML and JSON decoding of the manifest and its field-by-field validation, other than the access check of repositories.
- Compose and producer rendering, Docker command lines, bootstrap and health checks.
- Temporary files left by a crash in the broker's canonical and marker directories: nothing reads them.
- The size limits of seed files, markers and undo records, and the limit on the encoded inventory.
- Labels of volumes that already exist: an ownership conflict is one of the ways a run is cut off.
- Static private inputs and directory ownership in a run of the state manager: they touch volumes of their own.
- SeedSupervisor.Supervise: ends where a rollback or an acceptance fails; after a failed rollback inside an apply the loop would go on, and what that leads to is stated by `ApplyingOverRecordsLosesTheOldFile` and `NewRecordGoesBackIff` instead.
- SeedReconciler.Reconciler.Apply: requires that there are no undo records, because over old records the property fails as `NewRecordGoesBackIff` says.
- RepositoryGrants.NoProviderTwice: derived provider names are taken not to collide with other names.
- AccountManager.DynamicAccountManager.Load: the artifacts beside a manifest are checked and removed by `AccountDirectory`, not by this method.
- Pagination.ChainStaysHome: hosts are compared with the case of ASCII letters folded, not with full Unicode folding.
- Cancellation of a request by its context: one of the failures of a page.
- The order in which maps are traversed where the result is sorted afterwards.
