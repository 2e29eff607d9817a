# ProxyCore, modelled and proved

ProxyCore is a control plane for DNS and reverse proxying. It keeps the desired configuration in SQLite tables,
replicates it from a PRIMARY to enrolled NODEs, and has a worker apply it to CoreDNS and nginx. This project models
the parts where several operations must fit together and proves what they keep, in Dafny 4.11:

    dafny verify dfyconfig.toml

Every write to the tables is one transaction under one writer, so each transaction is one step on a record of tables
and whole runs are sequences of steps. Where the source updates tables or objects in place there is a class whose
methods are proved against functions on the tables' values; the lemmas are about those functions and about runs of
them. Ids are numbers that order like canonical UUID texts, clocks are integers, and whatever lies outside (signing,
hashing, address parsing, replies of a service) is a parameter or a nondeterministic choice.

| files | what they model |
|---|---|
| Publication, PublicationRuns, PublicationServing, PublicationExamples | publishing, discarding, serving and re-listing canonical snapshots on a PRIMARY |
| EnrollmentTls, EnrollmentTlsRuns | any number of callers that read, sign and recheck the enrollment CA and leaf |
| NodeTables, NodeImport, OwnerImport | importing a snapshot on a NODE: revisions, jobs, tables and accounts |
| Jobs, ControlPlane, ApplySaga, JobStore | the apply saga over two services, with every reply free to fail and a log of all of them, and the job store |
| Enrollment, EnrollmentRuns | tokens, credentials, nodes, grants, heartbeats and acknowledgements |
| JsonReader, StableJson, Enqueue | the stable text of a configuration, a reader that gets it back, and the reuse of revisions by its checksum |
| GrantCodec, Tar | the bootstrap grant format, the binding's canonical bytes, ustar archives |
| DnsNames, ZoneTexts, ZoneFiles, Forwarding | names, zone files and forwarding rules |
| Sessions, Retention | logins racing password changes; artifact retention |
| Options, Octets, Sequences, Sorting, Numerals | shared vocabulary |

Findings, each with a lemma that says exactly when it happens and one at an input or a run where it does:

- A job is always published under its own finish clock, so a relisted job is published behind newer rows, and its
  stamp on a shared revision can leave the newest row live but unservable (`PublicationServing.RunServableIff`,
  `PublicationExamples.RelistedJobUnservesTheNewest`).
- New content under the clock and revision of a discarded newest row is served only if its row id is the larger
  (`PublicationRuns.RegenerationServedIff`, `PublicationExamples.RegeneratedBehindTheDiscarded`).
- A publish that is older than the live row succeeds without stamping its job, and the job stays listed
  (`PublicationRuns.PublishSettlesCandidateIff`, `PublicationExamples.OlderWriteStaysListed`).
- Reading the establishment marker before, and the CA row after, the first establishment makes a caller fail although
  nothing is wrong; an expired leaf is refused before it can be renewed (`EnrollmentTlsRuns.ReadRowFailsIff`,
  `EnrollmentTlsRuns.TornReadFails`).
- In the last days of a CA every call signs and commits a new leaf (`EnrollmentTls.NewLeafReusableIff`,
  `EnrollmentTls.DyingCaIsSignedForEveryCall`, `EnrollmentTls.TwoCallsSignTwice`).
- nginx is restored by a rollback only if a copy of a non-empty running configuration was kept
  (`ControlPlane.NginxRollbackRestoresIff`, `ControlPlane.RollbackBringsStaleCopyBack`); two candidates for one
  service share one copy (`ControlPlane.RepeatedServiceRestoredIff`, `ControlPlane.RepeatedServiceLosesTheOriginal`).
- A worker's late status write over a job that an import gave up leaves two unfinished jobs on one revision
  (`NodeImport.LateUpdateIff`, `NodeImport.LateUpdateRun`).
- A record id listed in two zones ends up in the first zone with the second body (`NodeTables.FilledMirrorsIff`,
  `NodeTables.SharedRecordIdMovesTheRecord`).
- Replicated owners can take over each other's local row and leave a node without an owner
  (`OwnerImport.ImportIsExactIff`, `OwnerImport.TakeoverCanLoseTheOwner`).
- An update of a settled job unlocks its target although another job runs there (`JobStore.RunLocksIff`,
  `JobStore.PatchOfSettledJobUnlocks`).
- A retry of an exchange gets the sealed payload again even after the token was revoked or the node unlinked,
  as long as the leader is the same and the grant has not run out (`EnrollmentRuns.RetryAnswersTheSameIff`,
  `EnrollmentRuns.RetryAfterRevocationAndUnlink`).
- An archive gives its first file back below 8^12 bytes, one octal digit more than a terminated size field holds
  (`Tar.FirstFileComesBackIff`).
- A CNAME is accepted at the zone apex, beside SOA and NS (`ZoneFiles.AliasStandsAloneIff`,
  `ZoneFiles.ApexAliasIsAccepted`); a target is checked trimmed but rendered as typed
  (`ZoneTexts.TargetReadsBackIff`, `ZoneTexts.TrailingBlankChangesTheTarget`, `ZoneFiles.TrailingBlankAddsAnItem`); a
  canonical name may exceed 253 characters (`ZoneTexts.CanonicalIsValidIff`, `ZoneTexts.CanonicalNameTooLong`).
- A password patch by an administrator leaves older sessions alive (`Sessions.OverwriteIsSafeIff`,
  `Sessions.PatchLeavesSessionAlive`).

## Model

| member | source | states |
|---|---|---|
| Publication.SnapshotStore.PublishCanonicalSnapshot | apps/api/internal/configuration/sqlite_phase2_store.go:362-462 | fails exactly for an invalid or conflicting write; otherwise the tables are those of a replay, a skip, an insert or a rebind; one row per hash stays |
| Publication.SnapshotStore.DiscardCanonicalSnapshot | apps/api/internal/configuration/sqlite_phase2_store.go:286-290 | discards exactly a live applied row and changes nothing else |
| Publication.SnapshotStore.LatestSnapshotPublication | apps/api/internal/configuration/sqlite_snapshot_publication.go:318-349 | returns the one row newer than every other row of the primary, and whether its proof is complete |
| Publication.SnapshotStore.ListCanonicalSnapshotCandidates | apps/api/internal/configuration/sqlite_canonical_snapshot_candidates.go:29-49 | lists exactly the applied, finished, combined jobs of this installation's own configuration without a live row of their own or of their hash, oldest finish first, then by id |
| Publication.FindByHash | apps/api/internal/configuration/sqlite_phase2_store.go:292-299 | finds a row of the hash whenever there is one |
| PublicationRuns.RunKeepsOneRowPerHash | apps/api/internal/configuration/sqlite_phase2_store.go:362-462 | over every run there is at most one row per content hash, applied, with body, revision and job |
| PublicationRuns.EffectivePublishIsComplete | apps/api/internal/configuration/sqlite_snapshot_publication.go:46-71 | an insert or rebind leaves its row proof-complete and equal to the write |
| PublicationRuns.PublishStandsIff | apps/api/internal/configuration/sqlite_phase2_store.go:362-462 | over the rows: a write stands after its publish if and only if it stood before, or is complete, belongs to a finished apply and every live row of its content was applied earlier or at the same clock from a smaller revision; and exactly when the publish succeeds |
| PublicationRuns.PublishTouchesOnly | apps/api/internal/configuration/sqlite_phase2_store.go:413-462 | a publish that changes anything changes its own row, its revision's replication columns and its job's, with these values, and nothing else |
| PublicationRuns.CompleteIffReproducible | apps/api/internal/configuration/sqlite_snapshot_publication.go:46-71 | a row's proof is complete if and only if some publish would leave the row, its revision and its job just as they are |
| PublicationRuns.ReplayIsNoOp | apps/api/internal/configuration/sqlite_phase2_store.go:374-391 | repeating a write right after it changes nothing and still succeeds |
| PublicationRuns.RunKeepsRecency | apps/api/internal/configuration/sqlite_phase2_store.go:392-412 | while a row stays live its pair of apply clock and revision number never goes back |
| PublicationRuns.PublishTakesTheTop | apps/api/internal/configuration/sqlite_snapshot_publication.go:318-349 | a publish with a later clock makes its row the newest, and complete |
| PublicationRuns.NewestIsMaximum | apps/api/internal/configuration/sqlite_snapshot_publication.go:328-336 | the newest row is the maximum of apply clock, then revision number, then row id |
| PublicationRuns.LatestPublishIsServed | apps/api/internal/configuration/sqlite_snapshot_publication.go:318-349 | whether it inserts, rebinds or heals, a write that stands under a clock later than every stored one is the newest row, and complete |
| PublicationServing.PublishServableIff | apps/api/internal/configuration/sqlite_phase2_store.go:413-462 | after any effective publish, under any clock, the newest row is complete or discarded if and only if whichever other row stays newest is discarded, or complete and shares neither revision nor job with the write |
| PublicationServing.CompleteAfterIff | apps/api/internal/configuration/sqlite_snapshot_publication.go:46-71 | another row stays complete if and only if it was and the write stamps neither its revision nor its job |
| PublicationServing.RunServableIff | apps/api/internal/configuration/sqlite_snapshot_publication.go:318-349 | over every run of publishes, discards and apply work, with any clocks, the newest row is complete or discarded in every state if and only if it is at the start and every publish is harmless |
| PublicationServing.RunKeepsServable | apps/api/internal/configuration/sqlite_snapshot_publication.go:318-349 | in particular when apply clocks strictly increase |
| PublicationServing.HealedRowIsServed | apps/api/internal/configuration/sqlite_phase2_store.go:389-391 | regenerating the discarded newest row with the same content and clock rebinds and serves that row |
| PublicationExamples.RelistedJobUnservesTheNewest | apps/api/internal/configuration/sqlite_canonical_snapshot_candidates.go:29-49 | a run of listed publishes and one discard after which the newest row is live and incomplete |
| PublicationRuns.RegenerationServedIff | apps/api/internal/configuration/sqlite_snapshot_publication.go:328-336 | under an equal clock and revision a regenerated row is newest if and only if its id is larger than the discarded one's |
| PublicationExamples.RegeneratedBehindTheDiscarded | apps/api/internal/configuration/sqlite_snapshot_publication.go:328-336 | a regenerated row with a smaller id that is never served |
| PublicationRuns.RunKeepsBound | apps/api/internal/configuration/sqlite_canonical_snapshot_candidates.go:29-49 | publishing only listed jobs, each job has at most one live row, and a live row's settled job carries its hash |
| PublicationRuns.DiscardRelists | apps/api/internal/configuration/sqlite_canonical_snapshot_candidates.go:29-49 | discarding a live row lists its job again |
| PublicationRuns.PublishSettlesCandidateIff | apps/api/internal/configuration/sqlite_phase2_store.go:392-412 | after a successful publish of a listed job it is still listed if and only if a live row of its content was applied later, or at the same clock from no smaller revision |
| PublicationExamples.OlderWriteStaysListed | apps/api/internal/configuration/sqlite_phase2_store.go:392-393 | a listed job whose publish succeeds, writes nothing and leaves it listed |
| PublicationRuns.RunKeepsUnlisted | apps/api/internal/configuration/sqlite_canonical_snapshot_candidates.go:29-49 | a job that carries a live row's hash stays unlisted over every run that does not discard that row |
| PublicationRuns.PublishedJobRelistedOnlyByDiscard | apps/api/internal/configuration/sqlite_canonical_snapshot_candidates.go:29-49 | a job that took an insert or rebind is listed again only if some step discarded that row |
| EnrollmentTls.CaStore.WriteEnrollment | apps/api/internal/configuration/sqlite_enrollment_tls.go:216-289 | the recheck decides between error, existing material, retry and commit, and the rows are those of the decision |
| EnrollmentTls.CaStore.WriteInternalCa | apps/api/internal/configuration/sqlite_internal_ca.go:74-101 | stores the CA and its key only when there is none, answers the stored one, and fails exactly when its key does not fit or it is not in force |
| EnrollmentTls.TamperedIsRefused | apps/api/internal/configuration/sqlite_enrollment_tls.go:117-152 | with a CA or leaf key missing or foreign nothing is reused, signed or committed |
| EnrollmentTlsRuns.UpdateInvalidatesCandidates | apps/api/internal/configuration/sqlite_enrollment_settings.go:45-70 | after a hostname update no candidate signed for other hostnames is ever committed |
| EnrollmentTlsRuns.UpdateRenewsTheLeaf | apps/api/internal/configuration/sqlite_enrollment_tls.go:154-289 | the next lone call after a hostname update ends with a leaf for exactly the new names, also in the store |
| EnrollmentTlsRuns.CommitOutcomeIff | apps/api/internal/configuration/sqlite_enrollment_tls.go:211-289 | over the rows: when a commit fails, answers the stored material, goes back to the start, or stores its leaf |
| EnrollmentTls.NewLeafReusableIff | apps/api/internal/acme/internal_ca.go:99-108 | a leaf signed now is valid, ends in a year or with its CA, and is reusable if and only if the CA outlives the renewal window |
| EnrollmentTls.DyingCaIsSignedForEveryCall | apps/api/internal/configuration/sqlite_enrollment_tls.go:154-157 | within the renewal window of the CA's end the call after a commit signs and commits again if and only if CA and leaf are still valid, and never reuses the leaf |
| EnrollmentTls.TwoCallsSignTwice | apps/api/internal/configuration/sqlite_enrollment_tls.go:154-157 | a CA with a hundred seconds left, for which two calls commit two leaves |
| EnrollmentTlsRuns.NextKeepsInv | apps/api/internal/configuration/sqlite_enrollment_tls.go:162-289 | every step of every caller keeps rows, secrets and what each caller holds consistent; what is handed out is for the names read or stored in that step, valid, and good for thirty more days unless just signed |
| EnrollmentTlsRuns.LeafIssuedForStoredInputs | apps/api/internal/configuration/sqlite_enrollment_tls.go:243-286 | a committed leaf was issued for exactly the CA and hostnames stored at its commit, with the stored key |
| EnrollmentTlsRuns.RetryOnlyAfterChange | apps/api/internal/configuration/sqlite_enrollment_tls.go:239-242 | a caller retries only if a commit changed an input after its reads began |
| EnrollmentTlsRuns.ReadRowFailsIff | apps/api/internal/configuration/sqlite_enrollment_tls.go:50-86 | the last read fails if and only if it was torn by the first establishment, or CA or leaf are outside their validity periods |
| EnrollmentTlsRuns.TornReadFails | apps/api/internal/configuration/sqlite_enrollment_tls.go:60-81 | a run from the empty store in which a torn read fails with everything valid |
| EnrollmentTlsRuns.RunKeepsIdentity | apps/api/internal/configuration/sqlite_enrollment_tls.go:162-289 | over every interleaving the CA row, the leaf key id and every secret stay as first written |
| EnrollmentTlsRuns.RunKeepsDone | apps/api/internal/configuration/sqlite_enrollment_tls.go:162-289 | material handed to a caller is never changed, was fitting when handed out and agrees with the store at the end of every run |
| EnrollmentTlsRuns.EveryRunIsSafe | apps/api/internal/configuration/sqlite_enrollment_tls.go:162-289 | from the empty store: marker if and only if leaf, at most one CA key and one leaf key, all finished callers agree, and each got material for the right names |
| EnrollmentTlsRuns.RetriesAreBoundedByChanges | apps/api/internal/configuration/sqlite_enrollment_tls.go:162-209 | a caller retries at most as often as the inputs changed |
| NodeTables.ConfigStore.Materialize | apps/api/internal/configuration/sqlite_import_materialize.go:37-111 | succeeds exactly for a snapshot that validation, unique keys and the CHECKs on zones, records and routes accept, and leaves its filled tables, or no trace |
| NodeTables.ConfigStore.ReplaceSettings | apps/api/internal/configuration/sqlite_import_materialize.go:118-159 | pool and normalised rules replace the old ones, or nothing changes |
| NodeTables.ConfigStore.ReplaceZones | apps/api/internal/configuration/sqlite_import_materialize.go:67-86 | fails exactly on a repeated zone id or name or a zone or record that a CHECK refuses; otherwise zone and record rows are those of the listing |
| NodeTables.ConfigStore.ReplaceStreams | apps/api/internal/configuration/sqlite_import_materialize.go:87-91 | fails exactly on a route id that is not a lower-case UUID; otherwise the rows are the routes by id, later ones replacing earlier ones |
| NodeTables.ValidateRoutes | apps/api/internal/domain/proxy.go:197-210 | accepts exactly valid routes with distinct listeners |
| NodeTables.AcceptableIff | apps/api/internal/configuration/sqlite_import_materialize.go:37-111 | an import demands valid routes, rules and pool, zones with ids and names of their own, and what the CHECKs accept, and nothing more |
| NodeTables.RoutesOkIff | apps/api/internal/domain/proxy.go:197-210 | which routes are valid, field by field |
| NodeTables.StorableIff | apps/api/internal/sqlitedb/migrations/002_configuration_core.sql:26-148 | what the CHECKs accept, field by field |
| Forwarding.RulesOkIff | packages/domain/src/dns.ts:243-271 | which rules and pools are valid, field by field |
| NodeTables.RecordRowsMirrorIff | apps/api/internal/configuration/sqlite_record_write.go:200-238 | the record rows say, field by field, what the snapshot's records say if and only if no record id has two meanings |
| NodeTables.FilledMirrorsIff | apps/api/internal/configuration/sqlite_import_materialize.go:37-111 | an accepted import leaves exactly the snapshot's zones, records, streams and pool, field by field, and its rules with normal suffixes, if and only if ids have one meaning |
| NodeTables.SharedRecordIdMovesTheRecord | apps/api/internal/configuration/sqlite_record_write.go:200-238 | a record id in two zones: accepted, and the record stays in the first zone |
| NodeImport.NodeStore.CreateApplyJobFromSnapshot | apps/api/internal/configuration/sqlite_phase2_store.go:493-597 | reuses, refreshes, inserts or refuses as the rows demand, with all tables of one transaction |
| NodeImport.Top | apps/api/internal/configuration/sqlite_phase2_store.go:542-545 | the largest revision number, 0 when there is none |
| NodeImport.LastGood | apps/api/internal/configuration/sqlite_phase2_store.go:520-526 | the newest job of the revision that was not given up, whenever there is one |
| NodeImport.Superseded | apps/api/internal/configuration/sqlite_phase2_store.go:551-556 | fails exactly the unfinished jobs of the revision |
| NodeImport.ImportKeepsInv | apps/api/internal/configuration/sqlite_phase2_store.go:508-597 | a successful import, reused or not, answers a live job of the latest revision, which holds its bytes, and the tables are its configuration; a refused one changes nothing |
| NodeImport.ImportAnswersIff | apps/api/internal/configuration/sqlite_phase2_store.go:508-597 | over the rows: which job is answered unchanged, and otherwise exactly when an import is accepted |
| NodeImport.FreshImportOnly | apps/api/internal/configuration/sqlite_phase2_store.go:539-597 | an import that reuses nothing appends its job, fails the unfinished ones of its revision, makes that the latest, unapplied one, and changes no other row |
| NodeImport.ImportAgainIsNoOp | apps/api/internal/configuration/sqlite_phase2_store.go:520-538 | importing the same bytes again changes nothing and answers the same job |
| NodeImport.ImportMirrorsIff | apps/api/internal/configuration/sqlite_phase2_store.go:520-597 | after every successful import, reused jobs included, the tables mirror the snapshot if and only if its ids have one meaning |
| NodeImport.RunKeepsInv | apps/api/internal/configuration/sqlite_phase2_store.go:508-597 | over every run of imports and worker steps: unique checksums and numbers, unfinished jobs in creation order have rising revision numbers, tables equal the latest import |
| NodeImport.RunMirrorsIff | apps/api/internal/configuration/sqlite_phase2_store.go:508-597 | in every state of every run the tables mirror the latest import under the same condition |
| NodeImport.OneUnfinishedJobPerRevision | apps/api/internal/configuration/sqlite_phase2_store.go:546-556 | a revision has at most one unfinished job |
| NodeImport.ClaimEndsOnTheNewest | packages/db/src/ports.ts:406-426 | after any run a claim happens exactly when a job is queued and none runs, and takes the one of the smallest revision number of all unfinished jobs, so the newest import is applied last |
| NodeImport.LateUpdateIff | packages/db/src/ports.ts:448-462 | an unguarded status write keeps one unfinished job per revision if and only if the job still was unfinished or is alone |
| NodeImport.LateUpdateAfterRefresh | packages/db/src/ports.ts:448-462 | a write to a job that a refresh gave up always breaks it |
| NodeImport.LateUpdateRun | packages/db/src/ports.ts:448-462 | a run of three imports and a claim that reaches such a job |
| OwnerImport.UserTable.ImportReplicatedOwners | apps/api/internal/configuration/sqlite_import_secrets_owners.go:109-151 | all owners merged and the rest deactivated, or no change; usernames stay unique |
| OwnerImport.UserTable.FindImportedOwner | apps/api/internal/configuration/sqlite_import_secrets_owners.go:153-173 | matches by id, then by username, and refuses two different rows |
| OwnerImport.ImportIsExactIff | apps/api/internal/configuration/sqlite_import_secrets_owners.go:109-173 | with distinct ids and usernames the active accounts become exactly the snapshot's if and only if no later owner's id is a local row named by an earlier owner |
| OwnerImport.ImportSucceedsIff | apps/api/internal/configuration/sqlite_import_secrets_owners.go:109-173 | without a takeover, an import goes through if and only if it has no owners, or complete ones with an administrator, none of whom matches one local row by id while another has the username |
| OwnerImport.ImportKeepsRows | apps/api/internal/configuration/sqlite_import_secrets_owners.go:93-108 | no local row is lost; every row is an owner's, active and with its own password-change flag, or as before but inactive |
| OwnerImport.ExactImportKeepsAnOwner | apps/api/internal/configuration/sqlite_import_secrets_owners.go:113-123 | an exact import leaves an active owner |
| OwnerImport.TakeoverCanLoseTheOwner | apps/api/internal/configuration/sqlite_import_secrets_owners.go:124-151 | a takeover can leave only an operator active |
| ControlPlane.PromoteIsAllOrNothing | apps/control/src/docker-control.ts:222-272 | a promotion without silent failures makes the candidate live and undoable, or leaves the configuration as it was |
| ControlPlane.NginxRollbackRestoresIff | apps/control/src/docker-control.ts:630-721 | promote and roll back restore the running nginx.conf, or succeed where none ran, if and only if a copy was kept or an older copy equals it; the persisted one is then the one that was read |
| ControlPlane.BrokenNginxPromoteRestoresIff | apps/control/src/docker-control.ts:630-687 | an nginx promotion that breaks leaves the running configuration, whatever else it leaves, if and only if its restore ran and had it in memory or in the copy |
| ControlPlane.RollbackBringsStaleCopyBack | apps/control/src/docker-control.ts:630-721 | without a new copy a rollback succeeds and brings an older configuration back |
| ControlPlane.RollbackRestores | apps/control/src/docker-control.ts:273-298 | a completed rollback restores the service, and a rollback can be repeated |
| ControlPlane.OthersUntouchedByPromote | apps/control/src/docker-control.ts:73-147 | a promotion leaves the other service's configuration and its way back alone |
| ControlPlane.OthersUntouchedByRollback | apps/control/src/docker-control.ts:73-147 | so does a rollback |
| ControlPlane.RepeatedServiceRestoredIff | apps/control/src/docker-control.ts:222-298 | undoing two promotions of one service restores the original, running or not, if and only if the first candidate was the original |
| ControlPlane.RepeatedServiceLosesTheOriginal | apps/control/src/docker-control.ts:222-298 | two CoreDNS candidates after whose undoing, all replies successful, the first one is live |
| ApplySaga.PromoteKeepsRecoverable | apps/worker/src/apply.ts:159-170 | after each promotion without silent failures what was promoted is undoable and everything else untouched |
| ApplySaga.PromoteKeepsLive | apps/worker/src/apply.ts:159-170 | whatever failed silently, each service's latest promoted candidate is live |
| ApplySaga.Orchestrator.SetStatus | apps/worker/src/apply.ts:244-252 | moves the job only along the transition table |
| ApplySaga.Orchestrator.RollbackAll | apps/worker/src/apply.ts:265-286 | asks every promoted service in reverse order; when every reply succeeds the configuration is the original one; a failed reply is reported |
| ApplySaga.Orchestrator.ValidateAll | apps/worker/src/apply.ts:122-153 | succeeds exactly with every candidate written, staged and validated in order, and touches nothing live |
| ApplySaga.Orchestrator.PromoteAll | apps/worker/src/apply.ts:159-170 | the promoted candidates are a prefix, the next one was refused; if all were promoted each service's latest one is live; without silent failures all can be undone |
| ApplySaga.Orchestrator.ProbeAll | apps/worker/src/apply.ts:173-200 | succeeds exactly with every service reloaded and then found healthy without drift, in order |
| ApplySaga.Orchestrator.Settle | apps/worker/src/apply.ts:202-208 | marks the revision and then stores the job's status, or reports which of the two failed |
| ApplySaga.Orchestrator.Recover | apps/worker/src/apply.ts:209-218 | ends rolled back with the original configuration, or failed with it or after a failed rollback reply |
| ApplySaga.Orchestrator.Deploy | apps/worker/src/apply.ts:157-218 | applied means the log holds the promotions, then reload and health of every candidate, all well, then mark and status, and each latest candidate is live; otherwise something went wrong; rolled back means the log ends with the rollback of exactly what was promoted; failed after a promotion means a rollback or its status failed; the revision is marked without the job being applied if and only if the status write behind the mark failed |
| ApplySaga.Orchestrator.Apply | apps/worker/src/apply.ts:79-218 | for every pattern of failures: applied if and only if everything asked was answered well, in the order claim, write, stage and validate every candidate, promote every one, reload and probe every one, mark, settle; nothing is promoted before all are validated; every candidate is then live; rolled back and failed keep what they promise unless a copy failed silently; marked without applied means exactly that the status write behind the mark failed |
| JobStore.InMemoryJobStore.Enqueue | packages/db/src/ports.ts:377-390 | appends the job and locks the target of a running one |
| JobStore.InMemoryJobStore.EnqueueIfNotActive | packages/db/src/ports.ts:392-400 | enqueues exactly when every job is applied, failed or rolled back |
| JobStore.InMemoryJobStore.ClaimNext | packages/db/src/ports.ts:406-426 | takes the oldest queued job whose target is free and locks it, or changes nothing |
| JobStore.InMemoryJobStore.RecoverStale | packages/db/src/ports.ts:428-446 | requeues the jobs that run on a claim older than the lease, unlocks their targets and counts them |
| JobStore.RecoveryRequeuesTheStale | packages/db/src/ports.ts:428-446 | each record is requeued if and only if it runs on a claim older than the lease, and otherwise unchanged |
| JobStore.InMemoryJobStore.Update | packages/db/src/ports.ts:448-463 | patches status, target and claim and unlocks the resulting target if the result is settled; an unknown id changes nothing |
| JobStore.EnqueueKeepsLocksIff | packages/db/src/ports.ts:377-390 | enqueueing keeps the locks right if and only if the job is not running or its target is free |
| JobStore.RecoverKeepsLocks | packages/db/src/ports.ts:428-446 | recovery keeps the locks right and leaves no stale job |
| JobStore.UpdateKeepsLocksIff | packages/db/src/ports.ts:448-463 | an update keeps the locks right if and only if a running job keeps its target and does not go back to the queue, and any other job does not start running or settle on a held target |
| JobStore.PatchOfSettledJobUnlocks | packages/db/src/ports.ts:448-463 | a run after which an empty patch of a settled job unlocks another job's target |
| JobStore.IdleIsUnlocked | packages/db/src/ports.ts:392-400 | with nothing queued or running nothing is locked, so a job of any status may be added |
| JobStore.RunLocksIff | packages/db/src/ports.ts:373-463 | over every run of all the calls the locked targets are in every state exactly those of running jobs, one job each, if and only if they are at the start and every call is harmless |
| JobStore.RunKeepsLocks | packages/db/src/ports.ts:373-463 | so every run of harmless calls keeps the locks right |
| JobStore.ProgramCallsAreHarmless | apps/worker/src/apply.ts:67-74 | queued enqueues, repair jobs of any status on an idle store, claims, recoveries and updates by the running worker are harmless |
| JobStore.ClaimTakesOldestFree | packages/db/src/ports.ts:406-426 | after any run a claim, with or without a target, takes and stamps the oldest queued job of that target whose target has no running job, and changes nothing else |
| Enrollment.EnrollmentStore.CreateNodeCredential | apps/api/internal/configuration/sqlite_primary_grant.go:128-167 | inserts for an unknown node, re-keys a revoked one in place, refuses a live one |
| Enrollment.EnrollmentStore.CreateEnrolledNode | apps/api/internal/configuration/sqlite_primary_grant.go:173-201 | inserts, or completes the rotation of a revoked node of the same installation |
| Enrollment.EnrollmentStore.CreateEnrollmentGrant | apps/api/internal/configuration/sqlite_primary_grant.go:205-229 | one grant per attempt and per token |
| Enrollment.EnrollmentStore.ConsumeEnrollmentToken | apps/api/internal/configuration/sqlite_primary_grant.go:233-251 | succeeds exactly for an unconsumed, unrevoked token |
| Enrollment.EnrollmentStore.TransitionPrimaryToWithNodes | apps/api/internal/configuration/sqlite_primary_grant.go:256-272 | a primary gets nodes only at exactly the verified generation |
| Enrollment.EnrollmentStore.IssueGrant | apps/api/internal/enrollment/primary.go:173-300 | a retry of the consuming attempt is answered from the stored grant without a write; otherwise all five writes or none |
| Enrollment.EnrollmentStore.CreateEnrollmentToken | apps/api/internal/configuration/sqlite_enrollment_tokens.go:56-104 | stores a fresh token exactly on an installation that leads, and makes a standalone one a primary |
| Enrollment.EnrollmentStore.CheckEnrollmentToken | apps/api/internal/configuration/sqlite_enrollment_tokens.go:106-150 | accepts exactly a fitting, unexpired, unconsumed, unrevoked token, and consumes it on request |
| Enrollment.EnrollmentStore.RevokeEnrollmentToken | apps/api/internal/configuration/sqlite_enrollment_tokens.go:152-172 | keeps the first revocation |
| Enrollment.EnrollmentStore.DeleteEnrollmentToken | apps/api/internal/configuration/sqlite_enrollment_tokens.go:176-231 | deletes exactly an inactive token without a grant |
| Enrollment.EnrollmentStore.UnlinkEnrolledNode | apps/api/internal/configuration/sqlite_node_unlink.go:24-70 | revokes node and credential and answers the first unlink's time |
| Enrollment.EnrollmentStore.RecordNodeHeartbeat | apps/api/internal/configuration/sqlite_node_heartbeat.go:67-96 | stamps only a node that is neither revoked nor unlinked |
| Enrollment.EnrollmentStore.RecordSnapshotAcknowledgement | apps/api/internal/configuration/sqlite_snapshot_acknowledgement.go:34-119 | tells withdrawn (lineage stands, something on it revoked) from denied, and records exactly for an unrevoked lineage under the same leader |
| EnrollmentRuns.RunKeepsInv | apps/api/internal/configuration/sqlite_primary_grant.go:128-251 | over every run node and credential rows pair up, installations and attempts are unique, every grant's token exists and was consumed by its attempt |
| EnrollmentRuns.IssueSucceedsIff | apps/api/internal/enrollment/primary.go:173-345 | over the rows: an exchange goes through if and only if it shows a fresh token with the stored hash to the expected leader, attempt and credential are free, and the node is new or revoked with its own installation |
| EnrollmentRuns.AnswerIff | apps/api/internal/enrollment/primary.go:173-193 | over the rows: with what a request is answered; an answer, retries included, always takes the stored hash and the expected leader |
| EnrollmentRuns.CheckIff | apps/api/internal/configuration/sqlite_enrollment_tokens.go:106-150 | a check accepts exactly the stored hash and version of an unexpired, unconsumed, unrevoked token, and consumes it on request |
| EnrollmentRuns.CreateTokenIff | apps/api/internal/configuration/sqlite_enrollment_tokens.go:56-104 | when a token is created, how its row looks and what becomes of the role |
| EnrollmentRuns.OwnerEndsTokenIff | apps/api/internal/configuration/sqlite_enrollment_tokens.go:152-231 | only its owner revokes or deletes a token, under these conditions, and nothing else changes |
| EnrollmentRuns.HeartbeatIff | apps/api/internal/configuration/sqlite_node_heartbeat.go:67-96 | a heartbeat stamps exactly a node that is neither revoked nor unlinked and keeps addresses it does not carry |
| EnrollmentRuns.RetireEndsAll | apps/api/internal/identity/sqlite_topology.go:156-175 | stepping down revokes every node and credential and keeps first revocations |
| EnrollmentRuns.GrantedTokenStays | apps/api/internal/configuration/sqlite_enrollment_tokens.go:176-231 | a grant and the consumption of its token never change |
| EnrollmentRuns.TokenIsSpentOnce | apps/api/internal/configuration/sqlite_primary_grant.go:231-251 | after an exchange no later exchange with the same token goes through |
| EnrollmentRuns.RunKeepsTokenHistory | apps/api/internal/configuration/sqlite_enrollment_tokens.go:106-172 | while a token row stands, its consumption and first revocation never change |
| EnrollmentRuns.RunNeverRekeysLiveNode | apps/api/internal/configuration/sqlite_primary_grant.go:122-167 | while a node is unrevoked its credential and its hash never change |
| EnrollmentRuns.UnlinkSilences | apps/api/internal/configuration/sqlite_node_unlink.go:37-62 | after an unlink no heartbeat and no acknowledgement is recorded until an exchange for the node goes through |
| EnrollmentRuns.RunKeepsSilence | apps/api/internal/identity/sqlite_topology.go:156-175 | the same after any other revocation |
| EnrollmentRuns.RetryAnswersTheSameIff | apps/api/internal/enrollment/primary.go:182-193 | after any run the same request gets the same payload if and only if the primary is still the leader of the grant and the grant has not run out, gets no other answer, and nothing is issued twice |
| EnrollmentRuns.RetryAfterRevocationAndUnlink | apps/api/internal/enrollment/primary.go:182-193 | a run that revokes the token and unlinks the node, after which the retry is answered |
| EnrollmentRuns.LineageStands | apps/api/internal/configuration/sqlite_snapshot_acknowledgement.go:145-171 | in every reachable state the joins lose no enrolled node; it is withdrawn if and only if its row or its grant's token is revoked, and otherwise good exactly under the leader and generation of its grant |
| StableJson.StableTextIdentifiesTree | apps/api/internal/domain/snapshot.go:42-123 | two trees have the same stable text if and only if they are equal |
| StableJson.TextReadsBack | apps/api/internal/domain/snapshot.go:74-123 | an independent JSON reader gets the tree back from its stable text |
| StableJson.ReadsBack | apps/api/internal/domain/snapshot.go:74-123 | the same with anything behind it that may follow a value |
| StableJson.EscapeIff | apps/api/internal/domain/snapshot.go:86-88 | which characters are escaped, and how |
| StableJson.LessIff | apps/api/internal/domain/snapshot.go:103-103 | the key order: a proper prefix first, otherwise the first difference |
| StableJson.PutIsPrefixFree | apps/api/internal/domain/snapshot.go:74-123 | a value's text determines the value and where it ends, whatever follows |
| StableJson.AscendingIsUnique | apps/api/internal/domain/snapshot.go:98-103 | the sorted key order does not depend on the order the keys came in |
| StableJson.WriteStable | apps/api/internal/domain/snapshot.go:74-123 | appends the stable text of the tree to the builder |
| StableJson.WriteMembers | apps/api/internal/domain/snapshot.go:98-117 | the object loop, from keys in any order |
| StableJson.SortKeys | apps/api/internal/domain/snapshot.go:99-103 | all keys, ascending |
| Enqueue.ApplyQueue.CreateApplyJob | apps/api/internal/configuration/sqlite_enqueue.go:17-84 | reuses the revision with the checksum or inserts the next number, points desired at it and queues one job |
| Enqueue.RunKeepsRevisions | apps/api/internal/configuration/sqlite_enqueue.go:25-54 | over every run numbers and checksums are unique and no revision changes |
| Enqueue.EnqueuedRevisionHoldsText | apps/api/internal/configuration/sqlite_enqueue.go:25-54 | the answered revision holds the enqueued text |
| Enqueue.EnqueueSucceedsIff | apps/api/internal/configuration/sqlite_enqueue.go:17-84 | over the rows: when an enqueue goes through, and that a new revision gets the largest number and is unapplied |
| Enqueue.SameRevisionIffSameConfiguration | apps/api/internal/configuration/sqlite_enqueue.go:25-54 | two enqueues get the same revision if and only if their configurations are equal |
| GrantCodec.GrantReadsBack | apps/api/internal/enrollment/bootstrap_secrets.go:104-202 | decoding undoes encoding for every valid grant |
| GrantCodec.GrantWireFormat | apps/api/internal/enrollment/bootstrap_secrets.go:104-134 | the bytes of a grant, field after field |
| GrantCodec.ValidGrantIff | apps/api/internal/enrollment/bootstrap_secrets.go:71-102 | which grants are valid, field by field |
| GrantCodec.ValidUtf8Iff | apps/api/internal/enrollment/bootstrap_secrets.go:100-102 | a text is accepted as UTF-8 if and only if it spells a sequence of scalar values as section 3 of RFC 3629 does |
| GrantCodec.BigEndianIs | apps/api/internal/enrollment/bootstrap_secrets.go:109-131 | numbers of four and eight bytes start with their most significant byte |
| GrantCodec.AcceptedBytesAreCanonical | apps/api/internal/enrollment/bootstrap_secrets.go:136-202 | whatever is accepted is the encoding of a valid grant |
| GrantCodec.EncodingIsWithinLimits | apps/api/internal/enrollment/bootstrap_secrets.go:11-19 | every valid grant's encoding is within the stated lengths |
| GrantCodec.CanonicalBytesIdentifyBinding | apps/api/internal/enrollment/bootstrap.go:93-108 | two valid bindings have the same canonical bytes if and only if they are equal |
| GrantCodec.BindingWireFormat | apps/api/internal/enrollment/bootstrap.go:93-108 | the canonical bytes of a binding, field after field |
| GrantCodec.ValidBindingIff | apps/api/internal/enrollment/bootstrap.go:233-243 | which bindings are valid, field by field |
| GrantCodec.AllReadBack | apps/api/internal/enrollment/bootstrap_secrets.go:204-250 | reading any layout undoes writing it, whatever follows |
| GrantCodec.ReadAllIsFaithful | apps/api/internal/enrollment/bootstrap_secrets.go:204-250 | what was read, written again, is what was there |
| GrantCodec.PlaintextReader.Uint | apps/api/internal/enrollment/bootstrap_secrets.go:209-225 | reads a big-endian number at the offset and moves behind it |
| GrantCodec.PlaintextReader.Fixed | apps/api/internal/enrollment/bootstrap_secrets.go:227-234 | reads a block at the offset |
| GrantCodec.PlaintextReader.Identifier | apps/api/internal/enrollment/bootstrap_secrets.go:236-246 | reads a length-prefixed valid identifier |
| GrantCodec.DecodeBootstrapGrantPlaintext | apps/api/internal/enrollment/bootstrap_secrets.go:136-202 | the decoder that the two laws above are about |
| GrantCodec.EncodeBootstrapGrantPlaintext | apps/api/internal/enrollment/bootstrap_secrets.go:104-134 | the encoder that the two laws above are about |
| GrantCodec.CanonicalBytes | apps/api/internal/enrollment/bootstrap.go:93-108 | the bytes that the law above is about |
| Tar.FirstFileComesBackIff | apps/control/src/docker-control.ts:356-428 | the first file comes out again if and only if its size is below 8 to the 12th |
| Tar.HeaderIsUstar | apps/control/src/docker-control.ts:380-409 | every header byte at the offsets of the ustar format |
| Tar.ExtractFinds | apps/control/src/docker-control.ts:356-378 | in any archive: a regular file of either kind gives its contents, any other entry is skipped, a blank block ends it |
| Tar.SizeFieldReads | apps/control/src/docker-control.ts:363-369 | which size fields are read, and as what |
| Tar.SizeReadsBackIff | apps/control/src/docker-control.ts:420-428 | the size field reads back exactly up to twelve octal digits, and as less beyond |
| Tar.ArchiveIsWholeBlocks | apps/control/src/docker-control.ts:380-409 | the length is a multiple of 512 |
| Tar.ChecksumIsRight | apps/control/src/docker-control.ts:395-402 | the checksum field spells the sum of the header with blanks in its place |
| Tar.NothingPackedNothingFound | apps/control/src/docker-control.ts:356-378 | an empty archive holds no file |
| Tar.CreateTar | apps/control/src/docker-control.ts:380-409 | builds the archive from buffers filled in place |
| Tar.WriteTarOctal | apps/control/src/docker-control.ts:420-428 | writes digits and a NUL, cut to the field, and nothing else |
| Tar.WriteTarString | apps/control/src/docker-control.ts:411-418 | writes the text, cut to the field, and nothing else |
| Tar.ExtractFirstFileFromTar | apps/control/src/docker-control.ts:356-378 | the first regular file of any archive, or none |
| DnsNames.NormalizeIsAProjection | packages/domain/src/dns.ts:24-43 | normalising is idempotent and fixes exactly the names in normal form |
| DnsNames.NormalizeIff | packages/domain/src/dns.ts:24-43 | a text is accepted as a name if and only if it spells it up to case, final dots and white space around |
| DnsNames.NormalIff | packages/domain/src/dns.ts:24-43 | the names in normal form are up to 127 proper labels joined by dots, 253 characters in all, the first perhaps a wildcard |
| DnsNames.SpaceIff | packages/domain/src/dns.ts:25-25 | what counts as white space |
| DnsNames.WithinIff | packages/domain/src/dns.ts:53-55 | a name is a suffix or below it if and only if its labels end with the suffix's |
| DnsNames.NormalizeDnsName | packages/domain/src/dns.ts:24-43 | its results are names in normal form |
| DnsNames.SuffixesOfOneName | packages/domain/src/dns.ts:278-282 | of two suffixes of a name the shorter is a suffix of the longer and has fewer labels |
| ZoneTexts.OwnerReadsBack | packages/renderers/src/coredns.ts:143-146 | for every input name the rendered owner expands to the canonical name |
| ZoneTexts.CanonicalIsInZone | packages/domain/src/dns.ts:45-57 | a canonical name lies in its zone and has proper labels |
| ZoneTexts.CanonicalLabels | packages/domain/src/dns.ts:45-57 | the canonical name, label by label |
| ZoneTexts.CanonicalIsValidIff | packages/domain/src/dns.ts:45-57 | a canonical name is a valid name if and only if it has at most 253 characters |
| ZoneTexts.CanonicalNameTooLong | packages/domain/src/dns.ts:45-57 | an accepted name whose canonical name has 255 characters |
| ZoneTexts.TextReadsBack | packages/renderers/src/coredns.ts:115-119 | TXT data of any content is read back by quoted-string parsing, whatever follows |
| ZoneTexts.TargetReadsBackIff | packages/renderers/src/coredns.ts:119-150 | a rendered target is the validated name if and only if nothing was trimmed and at most one dot dropped |
| ZoneTexts.TrailingBlankChangesTheTarget | packages/renderers/src/coredns.ts:148-150 | a target with a blank behind it is accepted as one name and rendered as another |
| ZoneFiles.ValidateRecordSet | packages/domain/src/dns.ts:59-126 | accepts exactly valid records with distinct ids whose enabled namesakes are neither aliases nor both proxied |
| ZoneFiles.SetOkIff | packages/domain/src/dns.ts:59-126 | which sets are valid: each record by itself, ids distinct, and no enabled namesakes that are aliases or both proxied |
| ZoneFiles.ValueOkIff | packages/domain/src/dns.ts:128-193 | which values are valid, by type |
| ZoneFiles.ProxyOkIff | packages/domain/src/dns.ts:84-98 | which records may be proxied |
| ZoneFiles.CheckGroups | packages/domain/src/dns.ts:103-123 | the grouped check is the pairwise condition |
| ZoneFiles.RenderZoneFile | packages/renderers/src/coredns.ts:70-98 | SOA and NS, then the answers of the enabled records in sorted order |
| ZoneFiles.LinesAreShownIff | packages/renderers/src/coredns.ts:70-141 | SOA and NS come first, and the other lines are exactly what the enabled records show, with their data and lifetimes |
| ZoneFiles.MailReadsBackIff | packages/renderers/src/coredns.ts:119-122 | accepted MX data splits into the priority and the validated exchange, made absolute, if and only if the exchange was typed without outer blanks and with at most one final dot |
| ZoneFiles.TrailingBlankAddsAnItem | packages/renderers/src/coredns.ts:119-122 | with a blank behind the exchange the accepted data splits into three items |
| ZoneFiles.ServiceReadsBackIff | packages/renderers/src/coredns.ts:123-128 | accepted SRV data starts with priority, weight and port in this order, and ends in the validated absolute target alone under the same condition |
| ZoneFiles.ProxiedRecordAnswersIngress | packages/renderers/src/coredns.ts:100-113 | a valid proxied record answers with ingress addresses of its family only, and with at least one |
| ZoneFiles.AliasBelowApexStandsAlone | packages/renderers/src/coredns.ts:70-113 | in the file of a valid set an alias at any owner but the apex is the only line there, whatever stands at the apex |
| ZoneFiles.AliasStandsAloneIff | packages/renderers/src/coredns.ts:70-113 | an alias shares its owner with another line if and only if one was accepted at the zone's own name |
| ZoneFiles.ApexAliasIsAccepted | packages/domain/src/dns.ts:103-116 | a valid set whose alias stands beside SOA and NS |
| Forwarding.ValidateForwardingRules | packages/domain/src/dns.ts:263-271 | accepts exactly valid rules with distinct normalised suffixes and returns them normalised |
| Forwarding.SelectIsLongest | packages/domain/src/dns.ts:273-283 | the selected rule is the one with the longest matching suffix, none if and only if nothing matches |
| Forwarding.SelectIgnoresOrder | packages/domain/src/dns.ts:273-283 | the order of the rules does not matter |
| Forwarding.CorefileOrderAgrees | packages/renderers/src/coredns.ts:50-54 | the first Corefile block that covers a query is the selected rule |
| Forwarding.SelectForwardingPool | packages/domain/src/dns.ts:273-283 | answers the pool of the longest matching suffix, and refuses exactly invalid input |
| Sessions.AuthStore.CreateSessionForCredential | apps/api/internal/auth/sqlite.go:182-202 | inserts only while the user is active and still has the verified hash |
| Sessions.AuthStore.PasswordMutation | apps/api/internal/auth/sqlite.go:300-359 | writes the hash and revokes every other live session of the user, or refuses |
| Sessions.StaleLoginIsRefused | apps/api/internal/auth/service.go:149-198 | a login that verified an outdated hash never inserts |
| Sessions.VerifyIff | apps/api/internal/auth/service.go:149-167 | a login is noted exactly for an active user's fitting password |
| Sessions.ChangeIff | apps/api/internal/auth/sqlite.go:300-359 | a password change takes effect exactly through a live, unexpired session of the same active user, and ends every other one |
| Sessions.RunKeepsSafe | apps/api/internal/auth/service.go:149-198 | over every interleaving each live session comes from a login that verified the current hash or made the latest change |
| Sessions.OverwriteIsSafeIff | apps/api/internal/auth/sqlite.go:120-160 | a password patch keeps that if and only if the user has no live session |
| Sessions.PatchLeavesSessionAlive | apps/api/internal/auth/sqlite.go:120-160 | a login and a patch after which the old session is alive |
| Retention.SelectRetentionDeletions | apps/worker/src/operations.ts:17-48 | for every input the deletions are the candidates with an id among the first k, k being as many of the oldest as the age limit or the size limit asks for, whichever is more |
| Retention.DeletionsAreFewestIff | apps/worker/src/operations.ts:30-47 | those k are the fewest that meet both limits, or all, if and only if they bring the rest within the size limit or are all; so always for sizes that are not negative; with unique ids nothing else is deleted |
| Retention.ChosenIsPrefixIff | apps/worker/src/operations.ts:47-47 | nothing but the first k is deleted if and only if no deleted id comes again behind them |
| Retention.NegativeSizeMissesTheLimit | apps/worker/src/operations.ts:38-46 | three artifacts, one of negative size, of which too few are deleted |
| Retention.CandidatesAreUnprotected | apps/worker/src/operations.ts:22-29 | the candidates are exactly the artifacts without a protected artifact of the same id, oldest first |
| Sorting.SortOrders | packages/domain/src/dns.ts:282-282 | sorting by a strict transitive comparison puts no element behind one it precedes |
| Sorting.SortPermutes | packages/domain/src/dns.ts:282-282 | sorting keeps the elements and how often they occur |

## Left out

- Cryptography and X.509: keys, certificates and hashes are values with the relations the source relies on; a collision-free checksum is a hypothesis where it is needed.
- SQLite, timestamp keys, UUID parsing and JSON decoding: tables are maps, clocks integers, ids numbers; a decoded envelope is a parameter.
- StableJson.WriteStable: integers are written in decimal; the source decodes numbers to float64 first, so integers from 2^53 on may be rounded there; the exponent form from 1e21 on, negative zero, fractions and strings that are not valid Unicode are not modelled.
- JsonReader: white space, fractions, exponents and surrogate pairs are not read; the stable texts have none.
- Running processes after a rollback: no reload is issued there, so the saga speaks about persisted configuration; timeouts after which a service still finishes its work.
- The snapshot producer, exporter and sync client: only the store operations they call.
- Retention limits, ingress addresses and certificate key references of an import: they depend on prior local state by design.
- NodeTables.ConfigStore.Materialize: whether secrets, owners, certificates and the archive of the old configuration could be stored is one flag; owners have a module of their own.
- Archives of the configuration an import replaces, audit events, and response texts.
- The topology transition matrix, nginx rendering, path rules, ACME, Cloudflare, the updater, HTTP handlers and the user interface: they would only add easy members.
- Enrollment.EnrollmentStore.IssueGrant: whether credential, cluster key and seal could be made is one flag; the payload's hash is not modelled.
- Enrollment.EnrollmentStore.RecordSnapshotAcknowledgement: whether the key lineage holds and the acknowledged snapshot is the published one is one flag.
- NodeImport.RunKeepsInv: worker steps move only jobs that are still unfinished; LateUpdateIff says what an unguarded write does.
- JobStore.InMemoryJobStore.Update: output, error and start fields of a patch are not modelled.
- Sessions.RunKeepsSafe: new password hashes are taken to be fresh, as they are salted.
- Tar.ExtractFirstFileFromTar: a size field with a sign, or with bytes above 127, is not read as JavaScript would read it.
- ZoneFiles.RenderZoneFile: lines are kept as owner, lifetime, kind and data; joining them with blanks and line breaks is not modelled.
