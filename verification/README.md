# Device identity, delivery and custody: a verified model

The repository is a multi-tenant device platform. A device with no account
announces itself, proves a key, is claimed by a tenant, gets a broker client and
a certificate, is configured over a lossy link, raises alerts, and keeps its
secrets encrypted under two levels of keys. This project models that machinery in
Dafny and proves what every interleaving of it keeps.

Every database transaction is one step; an error rolls it back, a refusal that
the code returns as a value commits. Network calls are steps of their own that
may be lost, may act and lose their answer, or may be answered. Each area has the
same three layers:

* a module of functions on table values, one per transaction (`...Tables`,
  `...Rules`, `SecretStore`);
* a state machine over those functions, its invariant, and theorems over whole
  runs (`...Runs`, `...Safety`, `BrokerLedger`, `KekRotation`), of two kinds: what
  no interleaving can break, and in `...Progress` what each step brings about and
  exactly when;
* classes whose methods follow the source statement by statement on mutable
  tables, each proved to do exactly what the function says (`...Service`,
  `Limiter`, `StagedWrite`, `ConfigSecrets`, and `Cascade`, which runs one delete
  across four of them).

`Schema` holds the shared rows, `Prelude` the small building blocks. Check the
project with `dafny verify --resource-limit 2000000 dfyconfig.toml`.

A run is a sequence of states with the events between them; every theorem of the
form "over every run" is about all such sequences of any length. Digests,
signatures and sealed blobs are ideal (equal or openable only for equal inputs),
nonces, serials, row ids and row keys are fresh, and the unique indexes the Go
code relies on are assumed: (tenant, device id), (device id, public key), live
certificate name.

What a method can do nothing about is counted in a ghost field (`faults`, `refusals`,
`lost`, `expired`): an answer that got lost, a transaction or a payload that failed, a
message its recipient refused, a deadline. The contracts say what the method achieves
when the count did not rise, so giving up without cause does not meet them.

## What the proofs found

These are places where a natural reading of the code or its comments is not quite
what holds; each is stated as a lemma with the exact condition or a concrete case.

* `BrokerLedger.OverlapTakesLiveClient`: the ledger compares (tenant, device id)
  pairs, but the broker knows a client by the name made of both, and two pairs can
  run together into one name. A teardown from an up-to-date snapshot can then delete
  another row's live client. `BrokerTables.CertCNNamesOneIdentity` says exactly when
  two identities share a name, `BrokerLedger.DeletesSpareOtherRows` that this overlap
  is the only way it happens; ids of one length, as every enrolled id has, never
  overlap.
* `LimiterRules.OutOfOrderExceedsTheCap`: a call reads the clock before it takes the
  lock, so on a clock that never runs backwards calls can still take effect out of
  order, and then more than max fit in one window. `AtMostMaxPerWindow` gives the
  bound for every skew, `SkewBoundIsTight` a run that meets it, `SweepChangesAnswerIff` says when a sweep matters.
* `KekRotation.OldKeyIsShutOutBySweep`: the comment on `RotateRootKEK` keeps the
  live key on the old value while sweeping "so the running app still unwraps"; for
  swept tenants it does not. Until the swap the running service answers a field
  exactly when it is unset or its tenant's key was made since the last sweep, and
  sets one (`OldKeyWritesIff`) exactly when its tenant has no key or such a key.
* `BrokerTables.LookupNamesForeignIdentityIff`: `BrokerIdentityOf` falls back to
  the tenant in the caller's snapshot of the row. If the row was reassigned since
  that snapshot, the answer can be another row's live identity, exactly under the
  stated condition; `StaleSnapshotNamesForeignClient` is such a table.
* `EnrollmentReset.SealIsOrphanIff`: `MarkDelivered` does not look for a
  certificate, so an acknowledgement can seal a claim that the next sweep removes.
* `ClaimLock.PruneCanLiftLock`: a run of ten wrong codes, a later announce by another
  key and a prune that unlocks the form. The cap holds while one row for the id is
  there throughout (`AtMostCapWrongCodes`); `PruneLeavesBudget` says how many codes
  are judged after a prune.
* `SecretStore.OriginsPartIff`: `OriginStatus` has no rule for the device-level-only
  legacy field. It agrees with `Resolve` because `SetTenantSecret` refuses the
  field; on any other table they part exactly where stated.
* `ConfigSecrets.PasswordSurvivesIff`: every network's password is blanked, but only
  that of a named network that agrees with the first of its name is extracted.
* `Cascade.Server.CascadeDeleteOne`: the teardown finds a row's identities by its
  primary key, the row delete by the snapshot's tenant. If the row has left that
  tenant, its broker clients are deleted while the row, its record of them and its
  certificates stay, and success is still reported; a clean success leaves a row
  behind without its clients exactly for such rows.
* `PagedReply.NothingDroppedIff`: a finished reply leaves out exactly the arrived
  pages with an index below 0 or above the final one; a negative final index ends
  the wait at once with an empty output.

## Model

| member | source | states |
|---|---|---|
| EnrollmentPolicy.ClaimLockOrderIsStrictTotal | pkg/service/enrollment_policy.go:117-124 | the order that decides who clears the claim lock is irreflexive, transitive, and decides every pair of distinct keys |
| EnrollmentPolicy.DeviceHolder | pkg/service/enrollment_policy.go:85-99 | a claim by any other tenant decides, wherever it stands in the list; nobody holds the id exactly when it is unpaired and unclaimed |
| EnrollmentService.EnrollmentService.Announce | pkg/service/enrollment.go:154-245 | the whole table after an announce: a fresh challenge, the token replaced only while unverified, the lock cleared only by its owner |
| EnrollmentService.EnrollmentService.BurnChallenge | pkg/service/enrollment.go:257-297 | Verify's first transaction consumes the challenge before the signature is judged, and refuses a sealed row |
| EnrollmentService.EnrollmentService.CommitVerified | pkg/service/enrollment.go:298-330 | Verify's second transaction marks the row only if it still has the token hash and empty challenge of the burn |
| EnrollmentService.EnrollmentService.FindForClaim | pkg/service/enrollment.go:366-455 | the answer and the counters of every lookup: locked, wrong code, one match, one claimable match, ambiguous |
| EnrollmentService.EnrollmentService.ClaimInto | pkg/service/enrollment.go:499-572 | claim and device row change together or not at all; a replay by the same tenant and owner changes nothing |
| EnrollmentService.EnrollmentService.MarkDelivered | pkg/service/enrollment.go:461-491 | seals exactly the claimed, verified, undelivered row whose token is presented |
| EnrollmentService.EnrollmentService.Reset | pkg/service/enrollment.go:628-664 | the two deletes in order, and the number of rows they removed |
| EnrollmentService.EnrollmentService.ResetForTenant | pkg/service/enrollment.go:713-743 | all of the tenant's and unclaimed rows go, or none if another tenant holds a claim |
| EnrollmentService.EnrollmentService.SweepOrphanClaims | pkg/service/enrollment.go:674-708 | every orphan goes when the pool sees all tenants; otherwise it is an error and nothing goes |
| EnrollmentService.EnrollmentService.Prune | pkg/service/enrollment.go:748-762 | exactly the unclaimed rows not seen within the TTL go |
| EnrollmentRuns.SoundAlways | pkg/service/enrollment.go:154-762 | the invariant behind the theorems below holds in every state of every run |
| EnrollmentSafety.VerifyBindsTheSignedToken | pkg/service/enrollment.go:168-330 | when a Verify commits, the row's token hash is the one it had at the burn; if it was unverified then, the one announced with the signed challenge |
| EnrollmentSafety.VerifiedRowIsFrozen | pkg/service/enrollment_policy.go:190-199 | over every run, a verified row keeps its token hash and verified mark, a claimed one its tenant, a sealed one its seal, until it is removed |
| EnrollmentSafety.SealedRowIsNeverBurned | pkg/service/enrollment.go:266-283 | no challenge is burned on a sealed row |
| EnrollmentSafety.EachChallengeBurnsOnce | pkg/service/enrollment.go:266-294 | two burns of one run never burn the same challenge |
| EnrollmentSafety.EnrollmentOrder | pkg/service/enrollment.go:266-572 | delivered implies claimed implies verified, and a verified row's own key signed a challenge burned earlier off that row |
| EnrollmentProgress.AnnounceTakesEffectIff | pkg/service/enrollment.go:154-245 | over every run, an announce leaves its row with a fresh challenge, and the announced token unless verified, exactly for a well spelled id and key; of other rows it only ever touches the counters |
| EnrollmentProgress.ChallengeLivesItsTime | pkg/service/enrollment_policy.go:151-158 | over every run, the first Verify for an unsealed row after its announce burns the challenge exactly when it comes within 300 seconds of it |
| EnrollmentProgress.SignatureIsJudged | pkg/service/enrollment.go:298-330 | over every run, a Verify that burned marks its row verified exactly on the key's own signature over the burned challenge, and changes nothing on any other |
| EnrollmentProgress.CodeMatchesIff | pkg/service/enrollment_policy.go:44-66 | over every run, a row answers to exactly the code announced for it, under the claim key of the announce or, if there was none then, under any |
| EnrollmentProgress.FormAnswers | pkg/service/enrollment.go:366-455 | over every run, the form's exact answer for an id with one row: by whether the code is the announced one and how many wrong ones were judged |
| EnrollmentProgress.ClaimTakesEffectIff | pkg/service/enrollment.go:499-572 | over every run, a claim marks the row and gives the tenant its device row exactly when the row is verified and unclaimed and there is an owner, room and no foreign row on the identity |
| EnrollmentProgress.ReplayIsAnsweredIff | pkg/service/enrollment.go:512-524 | right after a claim, a repeat by the same tenant and owner is a replay and every other claim on the row is refused |
| EnrollmentProgress.SealTakesEffectIff | pkg/service/enrollment.go:461-491 | over every run, an acknowledgement seals exactly the claimed, unsealed row whose announced code it carries |
| EnrollmentProgress.PrunedAfterADay | pkg/service/enrollment.go:748-762 | over every run, an unclaimed row that heard nothing since its announce is pruned exactly when that was more than 86400 seconds ago |
| EnrollmentProgress.HonestDeviceEnrolls | pkg/service/enrollment.go:154-572 | from every reachable state, a device new here that announces, signs in time and shows its code to a tenant with room ends up claimed there and sealed |
| ClaimLock.ExactlyOneRowClears | pkg/service/enrollment.go:217-240 | exactly one verified row per device id can clear the counter, and only by announcing a token it already owns |
| ClaimLock.CounterStep | pkg/service/enrollment.go:398-426 | a counter moves by one for a wrong code, drops to zero for a clear, and moves for nothing else |
| ClaimLock.AtMostCapWrongCodes | pkg/service/enrollment_policy.go:101-109 | at most ten wrong codes are judged between two clears, as long as one row for the id is there from the first of them to the last |
| ClaimLock.TryIsJudgedIff | pkg/service/enrollment.go:382-426 | after n wrong codes the next is judged exactly when every row for the id has more than n tries left |
| ClaimLock.PruneLeavesBudget | pkg/service/enrollment.go:748-762 | after a prune the form judges wrong codes for exactly as long as the worst surviving row has tries left |
| ClaimLock.PruneCanLiftLock | pkg/service/enrollment.go:748-762 | a run of announces and wrong codes in which a prune lifts a lock that ten wrong codes set |
| ClaimLock.ClaimLookupNeverPicks | pkg/service/enrollment.go:427-455 | the form answers with a row exactly when it is the only match or the only claimable match |
| EnrollmentReset.ResetLeavesOnlyBackedClaims | pkg/service/enrollment.go:620-664 | after Reset for (id, tenant) exactly the other tenants' backed claims on the id remain, unchanged |
| EnrollmentReset.RestrictedResetKeepsForeignClaims | pkg/service/enrollment.go:628-664 | when the pool sees one tenant, exactly the other tenants' claims on the id remain |
| EnrollmentReset.OwnerResetIsAllOrNothing | pkg/service/enrollment.go:710-743 | the owner's reset removes every row for the id, or nothing while a foreign claim stands |
| EnrollmentReset.SweepLeavesNoOrphan | pkg/service/enrollment.go:674-708 | after a full sweep no orphan remains and nothing else was removed |
| EnrollmentReset.FullSweepSparesIff | pkg/service/enrollment.go:596-607 | a full sweep spares a row exactly if it is unclaimed, or its tenant has a row for the id and, once sealed, a certificate there ever issued to its key or a live one issued to none |
| EnrollmentReset.PendingClaimIsNeverOrphan | pkg/service/enrollment.go:596-607 | over every run without a device delete or reassign, no pending claim is an orphan |
| EnrollmentReset.SealIsOrphanIff | pkg/service/enrollment.go:461-491 | sealing makes an orphan exactly when no certificate of the tenant's row backs the key |
| BrokerTables.ClaimThenReserveIsNeverRefused | pkg/service/enrollment.go:536-564 | right after a claim creates or takes the tenant's row, reserving its broker identity succeeds |
| BrokerTables.LookupNamesForeignIdentityIff | pkg/service/device_broker.go:96-122 | exactly when a lookup answers an identity another row holds |
| BrokerTables.CurrentSnapshotIsSafe | pkg/service/device_broker.go:96-122 | with an up-to-date snapshot, no listed identity is held by another row |
| BrokerTables.CertCNNamesOneIdentity | pkg/service/enrollment_policy.go:251-257 | two identities have one broker name exactly when they are the same or one id is the other behind a front that its tenant lacks; never two of one length |
| BrokerTables.NameHeldIff | pkg/service/device_broker.go:49-53 | another row holds an identity of the same name exactly when it holds the same one, which the check sees, or an overlapping one, which it does not |
| BrokerLedger.LedgerAlways | pkg/service/device_broker.go:51-136 | the ledger invariant over every interleaving of provisioning, teardown and other services, with broker calls failing anywhere |
| BrokerLedger.EveryClientIsRecorded | pkg/web/admin_pair.go:130-250 | no identity is held by two rows, no row's current is stale, and every client name on the broker is that of an identity some row holds, or held when its delete was reported unclean |
| BrokerLedger.DeletesSpareOtherRows | pkg/web/admin_pair.go:130-221 | from a current snapshot, a delete takes another row's client exactly on an overlap of names, so never among ids of one length; a re-provision never deletes the client it just reserved |
| BrokerLedger.DeleteTakesOtherIff | pkg/web/admin_pair.go:226-250 | any one delete takes another row's client exactly when it acted, the client was there and another row holds the name |
| BrokerLedger.OverlapTakesLiveClient | pkg/web/admin_pair.go:188-250 | a run in which a teardown from a current snapshot deletes another row's live client |
| BrokerLedger.CleanDeleteLeavesNoClient | pkg/web/admin_devices_bulk.go:544-622 | after a delete reported clean, a client under the name of an identity the row held belongs to another row that overlaps it, or to an earlier unclean delete |
| BrokerService.DeviceService.ReserveBrokerIdentity | pkg/service/device_broker.go:55-94 | the whole table after a reservation, which goes through exactly when the tenant has the row and no other row has its identity |
| BrokerService.DeviceService.BrokerIdentityOf | pkg/service/device_broker.go:101-122 | the identities a lookup answers, including the fallback for an unrecorded row |
| BrokerService.DeviceService.ForgetBrokerIdentity | pkg/service/device_broker.go:127-136 | one identity leaves one row of one tenant, and nothing else changes |
| BrokerService.BrokerIdentity.Tenants | pkg/service/device_broker.go:30-40 | every identity once, the current one first, none empty |
| BrokerService.DeviceService.RetryDynsecDelete | pkg/mqtt/dynsec.go:202-241 | at most three calls; success only when the client is gone; gives up only on a deadline or after three lost calls |
| BrokerService.DeviceService.DeleteStaleIdentities | pkg/web/admin_pair.go:149-165 | only listed clients go, an identity is forgotten only after its client is gone, clean means all are gone; unclean only on a deadline or three lost deletes of one client; with no failed forget the row holds none of them |
| BrokerService.DeviceService.ProvisionDeviceDynsec | pkg/web/admin_pair.go:130-186 | nothing is written for a refused reservation; success leaves a live client recorded as current; a row whose identity no other holds fails only on a lost call, and with nothing in the way ends holding the one identity, the old clients gone; every client stays recorded, and another row's is lost only to an overlap of names |
| BrokerService.DeviceService.TeardownDeviceDynsec | pkg/web/admin_pair.go:188-221 | clean means no client the row held is left; a failed lookup is never clean; unclean only without a row, on a failed statement, a deadline or three lost calls; from a current snapshot another row's client is lost only to an overlap of names |
| Cascade.Server.CascadeDeleteOne | pkg/web/admin_devices_bulk.go:538-622 | one delete end to end with any step failing: refused exactly for a paired device with no way back and no override, then carried through unless a transaction fails or a shutdown comes first; a refusal touches nothing, other rows and certificates are kept, another row's client is lost only to an overlap of names, a deleted row's serials read revoked, a clean report means no client of it is left, every other client is recorded or reported, a clean success leaves a row in place without its clients exactly when it has left the snapshot's tenant, and the claims left are exactly those the reset keeps, every row of another id among them |
| Cascade.RemovalDeletes | pkg/web/admin_devices_bulk.go:597-603 | after the row delete the row is gone with its certificates, its serials answered revoked, exactly if it is still in the snapshot's tenant; the teardown before it has taken the row's clients either way |
| Cascade.RemovalIsReported | pkg/web/admin_devices_bulk.go:389-397 | deleting the row leaves unrecorded only clients it held, and none when the teardown was clean |
| Cascade.BuriedIsAnswered | pkg/service/device_delete.go:50-64 | every identity-bound serial of a deleted device is answered revoked afterwards |
| StagedWrite.AckRoundTrip | pkg/web/admin_config.go:558-570 | the byte count of every well-formed acknowledgement, cut anywhere in its path, reads back exactly |
| StagedWrite.AckReadIff | pkg/web/admin_config.go:453-570 | a count is read from exactly the lines that acknowledge it for the staging path or a front of it |
| StagedWrite.ChunkExtends | pkg/web/admin_config.go:496-542 | if the staged total is as long as what was acknowledged, every chunk landed complete |
| StagedWrite.SendChunks | pkg/web/admin_config.go:496-525 | the chunk loop never touches the target, its success fixes the staged content up to its length, and only a fault of link or device fails it |
| StagedWrite.StagedWrite | pkg/web/admin_config.go:456-556 | at every command the target is the old or the whole new content; nil means new; a failure before the rename means old; round trips stay within writeSteps; with no fault of link or device it succeeds exactly for a path the code accepts and content that is not empty, or is over an empty staging file |
| AlertRules.BackoffDoublesThenStays | pkg/alerts/alerts.go:379-391 | the delay doubles per attempt up to 64 times the base |
| AlertRules.DeliveredIffEveryChannel | pkg/alerts/alerts.go:290-338 | given the marks of a round, a row reads delivered exactly when every channel with a recipient carries its flag |
| AlertRules.MarksAreSends | pkg/alerts/alerts.go:244-289 | an email or telegram mark means exactly that the row lacked the flag and some recipient on that channel took the message; a webhook mark that its own post was taken and written down |
| AlertRules.DeliveredWasSent | pkg/alerts/alerts.go:290-338 | a round delivers exactly when each channel with a recipient had a message taken in it or carried its flag before, each webhook target its own |
| AlertRules.RoundsSettle | pkg/alerts/alerts.go:311-358 | every round, a panic's too, adds one attempt and delivers, or leaves the row due after the base delay doubled per earlier failure up to 64 times, until the last attempt leaves it dead |
| AlertRuns.SendRoundsAreBounded | pkg/alerts/alerts.go:167-338 | over every run, send rounds exceed maxAttempts only by rounds whose outcome was not written; pending implies an attempt left |
| AlertRuns.TerminalRowsStay | pkg/alerts/alerts.go:191-196 | a finished row is never sent for and never rewritten; delivered flags and the webhook record only grow |
| AlertRuns.RecordedHookIsNeverReposted | pkg/alerts/alerts.go:268-288 | a webhook delivery on record is never posted again |
| AlertRuns.OutcomesSpendBudget | pkg/alerts/redispatch.go:60-106 | every written outcome lowers the sum of attempts left, and nothing but a new alert raises it |
| AlertRuns.OutcomesAreBounded | pkg/alerts/alerts.go:305-338 | over a whole run, outcomes written plus attempts left never exceed maxAttempts for each alert inserted |
| AlertRuns.MarksAreEarned | pkg/alerts/alerts.go:244-303 | over every run, an alert's flag on a channel, or a webhook on its record, comes from an earlier send of that alert on that channel that was taken |
| AlertRuns.DeliveredWasEarned | pkg/alerts/alerts.go:305-319 | over every run, an alert reads delivered only after a round by whose end every channel with a recipient had such a send, each webhook target on record or flagged before |
| AlertRuns.DeadIffSpent | pkg/alerts/alerts.go:311-327 | over every run, an alert with recipients that was not delivered reads dead exactly once maxAttempts rounds of it, at least one, were written |
| AlertRuns.RetryIsDue | pkg/alerts/alerts.go:328-338 | over every run, a pending alert tried before is due the backoff for its failures after its last written round |
| AlertRuns.SmoothRoundDelivers | pkg/alerts/alerts.go:244-319 | from every reachable state, a round of a pending alert in which every recipient takes its message delivers it exactly if telegram is not asked for, was done before, or has an address |
| AlertService.NeededChannels | pkg/alerts/alerts.go:202-219 | the channels a round needs: a matching subscription not yet delivered |
| AlertService.AllHooksDone | pkg/alerts/alerts.go:291-303 | true exactly when there are webhook targets and each is on record |
| AlertService.Notifier.SendOne | pkg/alerts/alerts.go:244-289 | one recipient's turn: at most one message, of its own channel; email or telegram is marked exactly when it was taken, a webhook recorded only then |
| AlertService.Notifier.SendAll | pkg/alerts/alerts.go:244-289 | email and telegram are marked exactly when a message on that channel was taken in this round, a webhook newly recorded only when its own was; no recorded webhook is posted |
| AlertService.Notifier.Dispatch | pkg/alerts/alerts.go:167-338 | the row written for every way a round can end, its flags and delivered status exactly warranted by the messages taken; a pending alert gets its outcome unless something failed, is delivered if all went well, and else is due after the backoff or dead with its last attempt; nothing is sent while claimed elsewhere or no longer pending; the claim is always released |
| AlertService.Notifier.Sweep | pkg/alerts/redispatch.go:60-106 | a sweep takes the first hundred due rows but those in flight elsewhere, leaves none of them due unless something failed, and touches no other; each written outcome spends budget |
| Aead.BoundIsInjective | pkg/service/secret.go:772-791 | the three associated-data builders are injective and disjoint for NUL-free slugs |
| Aead.NulInSlugBreaksBinding | pkg/service/secret.go:772-791 | a NUL in a slug would make two identities share associated data |
| SecretStore.CommandRefines | pkg/service/secret.go:174-295 | one set or clear on the encrypted tables is the same command on a plain map |
| SecretStore.ExecRefines | pkg/service/secret.go:174-295 | so is every sequence of them, with tenant keys made on first use |
| SecretStore.ResolveIsThePlainMap | pkg/service/secret.go:394-450 | Resolve answers override, else default, else unset of the plain map, and OriginStatus agrees, in every reachable state |
| SecretStore.RefusedIffNoEffect | pkg/service/secret.go:174-295 | which commands are refused, spelled out: an unknown field, an override without a device, a default for the device-level-only field, a set without a keyring |
| SecretStore.SetIsAnswered | pkg/service/secret.go:174-243 | in every reachable store, an override set is answered to its device and a default to every device without an override; every other answer stays |
| SecretStore.ClearIsAnswered | pkg/service/secret.go:250-295 | in every reachable store, a cleared override gives way to what devices without one answer, a cleared default to unset; every other answer stays |
| SecretStore.OriginsPartIff | pkg/service/secret.go:529-562 | on any table, exactly when OriginStatus and Resolve disagree about the origin |
| SecretStore.CiphertextIsBound | pkg/service/secret.go:775-779 | a stored ciphertext opens for its own identity only, whichever tenant's key is tried |
| KekRotation.CustodyAlways | pkg/service/secret.go:683-744 | over any mix of sets, clears, mints and sweeps, every tenant row is its creation key wrapped once, under the old key exactly if made since the last sweep, and every secret is sealed under that key |
| KekRotation.SweepMovesEveryKeyOnce | pkg/service/secret.go:656-744 | every row opens under exactly one key; a sweep succeeds, moves all to the new key, its counts add up, and a rerun rotates nothing |
| KekRotation.OneForeignRowStopsTheSweep | pkg/service/secret.go:716-726 | one row that opens under neither key fails the sweep and changes nothing |
| KekRotation.RotationKeepsEveryAnswer | pkg/service/secret.go:665-682 | after any such work, one more sweep and the swap, every field answers what the plain map does |
| KekRotation.OldKeyIsShutOutBySweep | pkg/service/secret.go:670-682 | until the swap the running service answers a field exactly when it is unset or its tenant's key was made since the last sweep, and then as the plain map does |
| KekRotation.OldKeyWritesIff | pkg/service/secret.go:174-243 | until the swap the running service sets a field exactly when it is not refused and its tenant has no key or one made since the last sweep |
| SecretService.SecretService.TenantDEK | pkg/service/secret.go:752-770 | the tenant's key, created once and re-read |
| SecretService.SecretService.SetSecret | pkg/service/secret.go:174-243 | the tables after a set at either level; every refusal leaves them unchanged |
| SecretService.SecretService.ClearSecret | pkg/service/secret.go:250-295 | the tables after a clear at either level, and whether a row went |
| SecretService.SecretService.ResolveSecret | pkg/service/secret.go:394-450 | the effective secret and its origin, or the reason there is none, a row whose tenant has no key included |
| SecretService.SecretService.OriginStatus | pkg/service/secret.go:529-562 | the loop reports the origin of every field whatever order the rows arrive in |
| SecretService.SecretService.SweepTable | pkg/service/secret.go:691-739 | the loop over wrapped keys commits the whole rotation or nothing, with the right counts |
| SecretService.SecretService.RotateRootKEK | pkg/service/secret.go:683-744 | the table and the result of one sweep, refused without a keyring |
| CertService.CertificateService.IssueTx | pkg/service/certificate.go:57-94 | supersedes the device's rows and inserts the new one; fails for a row the tenant cannot see or a name live elsewhere |
| CertService.CertificateService.Issue | pkg/service/certificate.go:111-121 | certificate and pairing change together or not at all |
| CertService.CertificateService.IssueWithIdentity | pkg/service/certificate.go:128-140 | the same with an identity key, refused when the key is empty |
| CertService.CertificateService.IssuePending | pkg/service/certificate.go:151-166 | a pending row unpairs the device in the same transaction |
| CertService.CertificateService.Activate | pkg/service/certificate.go:173-189 | flips and pairs only a pending unrevoked row of that device in that tenant |
| CertService.CertificateService.MarkFailed | pkg/service/certificate.go:197-211 | flips only a pending unrevoked row the tenant can see |
| CertService.CertificateService.Revoke | pkg/service/certificate.go:218-229 | revokes every row of the device and unpairs it |
| CertService.CertificateService.RevocationStatus | pkg/service/cert_status.go:19-63 | the answer of the row if there is one, else of the tombstone, for the canonical serial |
| CertService.DeviceDelete.TombstoneCertSerials | pkg/service/device_delete.go:50-64 | every identity-bound serial of the device is remembered, and a remembered one is kept |
| CertService.DeviceDelete.DeleteByID | pkg/service/device_delete.go:40-48 | row, certificates and tombstones change together, only for the owning tenant |
| CertRuns.SoundAlways | pkg/service/certificate.go:66-229 | the certificate invariant holds in every state of every run |
| CertRuns.CertStep | pkg/service/certificate.go:66-229 | a certificate row never changes identity, revocation is final, and only a pending row changes status |
| CertSafety.OneLiveCertAndPairingFollowsIt | pkg/service/certificate.go:57-121 | at every moment at most one unrevoked certificate per device and per name, and a device is paired exactly while it has an active one |
| CertSafety.SupersededRowNeverFlips | pkg/service/certificate.go:168-211 | once a later issue committed, Activate and MarkFailed on the earlier row change nothing |
| CertSafety.ActivatedRowIsTheLiveOne | pkg/service/certificate.go:173-189 | an Activate that commits leaves its row as the device's one unrevoked certificate |
| CertSafety.AnswerIsExactAlways | pkg/service/cert_status_policy.go:85-107 | the identity a serial is bound to gets revoked exactly when the row is revoked or deleted, else active; every other identity gets unknown |
| CertSafety.RevokedIsFinal | pkg/service/device_delete.go:50-64 | over every run, device deletes included, revoked stays revoked and active never becomes unknown |
| CertSafety.AnySpellingIsAnswered | pkg/service/cert_status.go:19-63 | over every run with canonical issued serials, any spelling of a bound serial's number gets the exact answer, and a number never issued gets unknown |
| CertProgress.IssueTakesEffectIff | pkg/service/certificate.go:57-94 | over every run, an issue to an owned row under a name no other device has live adds the device's one unrevoked certificate, pairs it exactly if born active, and a bound serial then reads active; any other issue changes nothing |
| CertProgress.PendingIsSettledIff | pkg/service/certificate.go:168-211 | over every run, a pending issue that nothing touched since is settled by the first Activate or MarkFailed of its tenant that names it |
| CertProgress.DeviceIsPairedAndRevoked | pkg/service/certificate.go:151-229 | from every reachable state, a fresh pending issue and its Activate pair the device on exactly that certificate, and a revoke after it unpairs it |
| CertProgress.RevokeTakesEffectIff | pkg/service/certificate.go:218-229 | over every run, a revoke of an owned row revokes each of its certificates, unpairs it and has each bound serial read revoked, and changes no other row; of any other row it changes nothing |
| CertProgress.DeleteTakesEffectIff | pkg/service/device_delete.go:40-64 | over every run, a delete of an owned row takes it and exactly its certificates and has its bound serials read revoked; any other changes nothing |
| CertSerial.CanonicalExistsIff | pkg/service/cert_status_policy.go:47-67 | exactly the non-empty lower-case hex strings worth less than 16^40 have a canonical form |
| CertSerial.CanonicalIsTheNumber | pkg/service/cert_status_policy.go:47-67 | two serials share a canonical form exactly when they are the same number |
| CertSerial.CanonicalKeepsTheValue | pkg/service/cert_status_policy.go:47-67 | the canonical form is worth the same and is its own canonical form |
| QuotaRuns.CapIsNeverExceeded | pkg/service/quota.go:52-78 | with a positive cap, no interleaving of adders, movers and deletes takes a tenant's rows above the cap, or above what it started with |
| QuotaRuns.ShrinkKeepsRoom | pkg/service/quota.go:61-69 | why skipping the count for an existing id is safe: losing rows without the lock never takes that room away |
| QuotaRuns.WriteFits | pkg/service/device.go:112-117 | a commit adds at most the one row the checks left room for |
| QuotaRuns.ChecksPassIff | pkg/service/quota.go:52-78 | over every run, an adder with the lock passes its checks exactly when its tenant has a row for the id or fewer rows than the cap |
| QuotaRuns.CommitTakesEffectIff | pkg/service/device.go:112-124 | over every run, a commit leaves its tenant with a row for the id and changes no other, but for a reassign whose row is gone or whose target has one |
| QuotaRuns.AdderGetsThrough | pkg/service/quota.go:52-78 | from every reachable state, an adder for a new id with room gets its row in, under a cap with lock and checks, else without |
| QuotaService.DeviceService.QuotaAllowDevice | pkg/service/quota.go:52-78 | lets through exactly an id the tenant has, or any while there is no cap or the tenant has fewer rows than it |
| QuotaService.DeviceService.UpsertCore | pkg/service/device.go:81-124 | the table after an upsert, the row it returns, and when it is refused |
| QuotaService.DeviceService.Reassign | pkg/service/device.go:270-287 | each way a move can fail, exactly when, the table when it does not, and the target within its cap |
| QuotaService.AllowedWriteStaysInCap | pkg/service/quota.go:52-78 | a write the check allowed adds no row, or one and stays within a positive cap |
| LimiterRules.AtMostMaxPerWindow | pkg/ratelimit/ratelimit.go:48-70 | when no reading is more than d ahead of a later call's, any half-open stretch as long as the window less d lets through at most max calls of a key |
| LimiterRules.SkewBoundIsTight | pkg/ratelimit/ratelimit.go:48-70 | for every cap of at least two and every skew d of one up to the window, some run lets max + 1 calls through in a stretch of the window less d plus one |
| LimiterRules.OutOfOrderExceedsTheCap | pkg/ratelimit/ratelimit.go:51-55 | four calls that reach the lock out of order pass three in one window with a cap of two |
| LimiterRules.AcceptedAreSpaced | pkg/ratelimit/ratelimit.go:48-70 | each call let through found fewer than max of those before it in the window less the skew |
| LimiterRules.AnswerIsTheRecord | pkg/ratelimit/ratelimit.go:31-70 | fewer than max in the window is enough to be let through, and fewer than max in the window less the skew is needed; without skew they are one condition |
| LimiterRules.SweepsChangeNoAnswer | pkg/ratelimit/ratelimit.go:72-97 | whatever order the calls come in, taking out all sweeps changes no answer as long as no tick is ahead of a later call |
| LimiterRules.SweepChangesAnswerIff | pkg/ratelimit/ratelimit.go:72-97 | one sweep changes the next answer exactly when its tick is ahead of the call and trims the key below the cap |
| LimiterRules.LaterStillAdmits | pkg/notify/notify.go:126-147 | what WouldAllow saw still holds later, with any sweep in between |
| Limiter.Compact | pkg/ratelimit/ratelimit.go:56-62 | compaction into the list's own backing yields exactly the live hits in order |
| Limiter.Limiter.WouldAllow | pkg/ratelimit/ratelimit.go:34-46 | answers as Allow would and records nothing |
| Limiter.Limiter.Allow | pkg/ratelimit/ratelimit.go:51-70 | the answer and the whole table after a call |
| Limiter.Limiter.Sweep | pkg/ratelimit/ratelimit.go:77-97 | trims every key, drops the empty ones, and counts them |
| Limiter.Mail.Allow | pkg/notify/notify.go:126-147 | with sweeps landing anywhere between the looks: a refusal adds no hit to either limiter, an acceptance exactly one to each used, room in both is enough and, with no tick ahead, needed, and the last refusal cannot happen |
| PagedReply.AwaitPagedCLIResponse | pkg/mqtt/mqtt_cli.go:47-100 | returns at the first message that completes the reply, never with a lower page missing |
| PagedReply.StreamCompletes | pkg/mqtt/mqtt_cli.go:37-46 | for pages of one reply in any order with any repeats, complete means all arrived, and reads as all outputs in page order |
| PagedReply.ReplyArrivesWithItsLastPage | pkg/mqtt/mqtt_cli.go:37-46 | the assembly returns exactly on the message that brings the last missing page |
| PagedReply.PageCountsIff | pkg/mqtt/mqtt_cli.go:75-95 | in any finished reply an arrived page counts exactly when its index lies between 0 and the final one |
| PagedReply.NothingDroppedIff | pkg/mqtt/mqtt_cli.go:75-95 | a finished reply drops no arrived page exactly when all their indices lie there; a negative final index drops them all |
| PagedReply.NegativeFinalIsEmpty | pkg/mqtt/mqtt_cli.go:75-95 | a final page with a negative index completes at once with no output |
| JsonBlank.BlankedEverywhere | pkg/service/config_secrets_blank.go:191-219 | at every path of every tree: a string under a sensitive key becomes empty, key sets, array lengths and all other leaves stay |
| JsonBlank.BlankedTwice | pkg/service/config_secrets_blank.go:191-219 | a second pass changes nothing |
| JsonBlank.BackstopSubsumesPath | pkg/service/config_secrets_blank.go:56-69 | emptying an allowlisted path first makes no difference to the backstop |
| JsonBlank.AllowlistIsSensitive | pkg/service/config_secrets_blank.go:27-30 | every allowlisted field ends in a key the backstop matches |
| JsonBlank.SensitiveIff | pkg/service/config_secrets_blank.go:30 | a key is sensitive exactly if it ends in one of six words, in any mix of cases |
| ConfigSecrets.BlankPath | pkg/service/config_secrets_blank.go:169-189 | empties exactly the string at the path and reports whether anything changed |
| ConfigSecrets.BlankSensitiveLeaves | pkg/service/config_secrets_blank.go:191-219 | the loops over objects and arrays blank the whole tree, and changed is true exactly when it differs |
| ConfigSecrets.BlankConfigSecrets | pkg/service/config_secrets_blank.go:43-79 | allowlist and backstop together equal the backstop; unparseable objects fail closed; changed is exact |
| ConfigSecrets.ExtractConfigSecrets | pkg/service/config_secrets_blank.go:81-110 | exactly the non-empty scalars and first passwords of named networks, each under its storage field |
| ConfigSecrets.WifiNetworkPassword | pkg/service/config_secrets_blank.go:124-134 | the password of the first network of that name |
| ConfigSecrets.ExtractionOfBlankedIsEmpty | pkg/service/config_secrets_blank.go:81-110 | nothing can be extracted from a blanked configuration |
| ConfigSecrets.PasswordSurvivesIff | pkg/service/config_secrets_blank.go:99-134 | every network's password is blanked, and it is stored under its own field exactly when its name is non-empty and the first network of that name has the same password |
| ConfigSecrets.SecondPasswordOfAnSsidIsLost | pkg/service/config_secrets_blank.go:124-134 | of networks with one name, a password that differs from the first one's is not stored |

## Left out

- HTTP handlers, templates, flash messages, the mailer, OIDC, websocket and
  logging code, PEM and X.509 parsing: I/O or wrappers over libraries.
- Cryptography: Ed25519, SHA-256, HMAC and AES-GCM are ideal; random draws are
  parameters assumed fresh.
- SQL text: row-level security is a tenant filter, and the migrations that declare
  the indexes are not part of this model.
- Failing reads: a query that errors aborts its transaction and changes nothing;
  only the errors the code turns into a different outcome are modelled.
- StagedWrite.StagedWrite: assumes one staged write per device at a time, because
  runCLIWrite releases the device claim twice (pkg/web/admin_config.go:385-406) and
  the second release can drop a later holder's claim; a command takes effect before
  the next is delivered or never.
- BrokerLedger.LedgerAlways: provisioning and teardown of one device id are taken to
  be serialised; roles on the broker are created with the client and not modelled
  apart.
- BrokerLedger.DeletesSpareOtherRows: needs the caller's snapshot of the row to name
  its present tenant at the lookup; LookupNamesForeignIdentityIff says what happens
  when it does not.
- EnrollmentSafety.VerifiedRowIsFrozen: does not fix the verified time, because a
  commit whose burn came before the seal may still move it.
- Cascade.Server.CascadeDeleteOne: no other request lands between its steps here;
  BrokerLedger, CertRuns and EnrollmentRuns interleave those steps with everything
  else, each for its own tables. The best-effort pushes to the device, the cleared
  retained topics, the ingest tombstone and the audit entry are not modelled.
- AlertRuns.SendRoundsAreBounded: bounds rounds by maxAttempts plus the rounds whose
  outcome write failed or whose process died; with every write succeeding that is
  maxAttempts.
- AlertRules.DeliveredIffEveryChannel: email and telegram are done after one
  recipient succeeds, by design of the code.
- AlertService.Notifier.Dispatch: a webhook payload that cannot be rendered ends the
  round with no attempt recorded, as in the code.
- SecretStore.ResolveIsThePlainMap: each device has one tenant; a reassign leaves
  secret rows with their old tenant and is not modelled here. Status, Reveal and the
  provisioning queries add only easy members.
- QuotaService.DeviceService.UpsertCore: of the display columns only the topic
  prefix is kept; the foreign key that refuses a reassign to an unknown tenant and
  the user and event caps are not modelled.
- LimiterRules.AtMostMaxPerWindow: how far readings can be out of order is a parameter;
  the code puts no limit on it.
- Limiter.Limiter.Allow: the backing array is a sequence variable updated by index,
  so sharing between slices of different keys is not expressible, and the code never
  shares any.
- Limiter.Mail.Allow: the three clock readings and the sweepers' ticks are parameters,
  and lower-casing of addresses is a function parameter; no other request lands
  between its looks.
- ConfigSecrets.BlankSensitiveLeaves: the tree is a value that each level rebuilds,
  so aliasing between subtrees, which parsed JSON never has, is not expressible.
  Parsing and printing of JSON text are not modelled; content is a parsed object,
  an unparseable object, or other text.
- CertService.CertificateService.RevocationStatus: assumes no two certificate rows
  share a serial; CertRuns proves that every reachable table has that.
- CertRuns.SoundAlways: validity windows and PEM text are not kept.
- TOTP replay, session rotation, magic links, impersonation: each rests on one
  guarded update and would be an easy member.
- Topic strings, audit queries, number formatting, over-the-air updates, rules and
  telemetry.
