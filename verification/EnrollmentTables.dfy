/** What each enrollment transaction does to the tables, as functions on values.
    EnrollmentService proves its methods against these; EnrollmentRuns reasons
    about every interleaving of them. */
module EnrollmentTables {
  import opened Prelude
  import opened Schema
  import opened EnrollmentPolicy

  datatype EnrollError =
    | NotFound | Malformed | Sealed | NotReady | BadProof | NoOwner | Ambiguous
    | ClaimLocked | ClaimedElsewhere | QuotaReached | IdentityTaken | PoolSeesOneTenant

  // ----- Announce and the two transactions of Verify

  /** The SQL EXISTS of Announce: another verified row for the id wins the order. */
  ghost predicate OlderVerified(rows: Enrollments, k: EnrollKey, at: Time) {
    exists o :: o in rows && o.id == k.id && o.pub != k.pub && rows[o].verifiedAt.Some?
             && ClaimLockOlder(at, rows[o].verifiedAt.value, k.pub, o.pub)
  }

  /** May this announce clear the claim lock of k.id? */
  ghost predicate ClearsLock(rows: Enrollments, k: EnrollKey, claimKey: string, token: string) {
    k in rows && rows[k].verifiedAt.Some?
    && ClaimLockClears(ClaimTokenAccepts(claimKey, token, rows[k].tokenHash), rows[k].verifiedAt,
                       OlderVerified(rows, k, rows[k].verifiedAt.value))
  }

  function WithFailures(rows: Enrollments, id: DeviceId, bump: bool): Enrollments {
    map k | k in rows ::
      if k.id == id then rows[k].(failures := if bump then rows[k].failures + 1 else 0) else rows[k]
  }

  function FirstRow(digest: Digest, nonce: Nonce, now: Time): Enrollment {
    Enrollment(digest, 0, Some(nonce), Some(now + CHALLENGE_TTL), None, None, None, None, now)
  }

  ghost function Announce(rows: Enrollments, k: EnrollKey, claimKey: string, token: string, nonce: Nonce,
                          now: Time): Enrollments {
    if !WellFormed(k) then rows
    else if k !in rows then rows[k := FirstRow(ClaimTokenDigest(claimKey, token), nonce, now)]
    else
      var was := rows[k];
      var stored := if ClaimTokenFrozen(was.verifiedAt) then was.tokenHash else ClaimTokenDigest(claimKey, token);
      var announced := rows[k := was.(tokenHash := stored, challenge := Some(nonce),
                                      expires := Some(now + CHALLENGE_TTL), lastSeen := now)];
      if ClearsLock(rows, k, claimKey, token) then WithFailures(announced, k.id, false) else announced
  }

  /** What Verify carries from its burn transaction to its commit transaction. */
  datatype Burned = Burned(challenge: Nonce, tokenHash: Digest)

  function BurnVerdict(rows: Enrollments, k: EnrollKey, now: Time): Result<Burned, EnrollError> {
    if !WellFormed(k) || k !in rows then Err(BadProof)
    else if !ProofAllowed(rows[k].deliveredAt) then Err(Sealed)
    else if !ChallengeUsable(rows[k].challenge, rows[k].expires, now) then Err(BadProof)
    else Ok(Burned(rows[k].challenge.value, rows[k].tokenHash))
  }

  function Burn(rows: Enrollments, k: EnrollKey, now: Time): Enrollments {
    if BurnVerdict(rows, k, now).Ok?
    then rows[k := rows[k].(challenge := None, expires := None, lastSeen := now)]
    else rows
  }

  /** The row still has the shape the burn left behind. */
  predicate StillBurned(rows: Enrollments, k: EnrollKey, burned: Burned) {
    k in rows && rows[k].tokenHash == burned.tokenHash && rows[k].challenge.None?
  }

  predicate Proves(rows: Enrollments, k: EnrollKey, burned: Burned, sig: Signature) {
    ProofVerifies(k, burned.challenge, sig) && StillBurned(rows, k, burned)
  }

  function Judge(rows: Enrollments, k: EnrollKey, burned: Burned, sig: Signature, now: Time): Enrollments {
    if Proves(rows, k, burned, sig) then rows[k := rows[k].(verifiedAt := Some(now))] else rows
  }

  // ----- The claim form

  ghost function Candidates(rows: Enrollments, id: DeviceId): set<EnrollKey> {
    set k | k in rows && k.id == id
  }

  ghost function Matches(rows: Enrollments, id: DeviceId, claimKey: string, token: string): set<EnrollKey> {
    set k | k in rows && k.id == id && ClaimTokenAccepts(claimKey, token, rows[k].tokenHash)
  }

  ghost function Claimable(rows: Enrollments, id: DeviceId, claimKey: string, token: string): set<EnrollKey> {
    set k | k in Matches(rows, id, claimKey, token) && ClaimAllowed(rows[k].verifiedAt, rows[k].claimedAt)
  }

  ghost predicate LockedOut(rows: Enrollments, id: DeviceId) {
    exists k :: k in rows && k.id == id && ClaimFailuresExhausted(rows[k].failures)
  }

  /** A code the form judges, and judges wrong. */
  ghost predicate WrongCode(rows: Enrollments, id: DeviceId, claimKey: string, token: string) {
    && ValidDeviceID(id) && token != "" && Candidates(rows, id) != {} && !LockedOut(rows, id)
    && Matches(rows, id, claimKey, token) == {}
  }

  ghost function ClaimLookup(rows: Enrollments, id: DeviceId, claimKey: string, token: string): Enrollments {
    if WrongCode(rows, id, claimKey, token) then WithFailures(rows, id, true) else rows
  }

  ghost function ClaimLookupAnswer(rows: Enrollments, id: DeviceId, claimKey: string,
                                   token: string): Result<EnrollKey, EnrollError> {
    var matches := Matches(rows, id, claimKey, token);
    var claimable := Claimable(rows, id, claimKey, token);
    if !ValidDeviceID(id) || token == "" || Candidates(rows, id) == {} then Err(NotFound)
    else if LockedOut(rows, id) then Err(ClaimLocked)
    else if matches == {} then
      Err(if LockedOut(WithFailures(rows, id, true), id) then ClaimLocked else NotFound)
    else if Singleton(matches) then Ok(Only(matches))
    else if Singleton(claimable) then Ok(Only(claimable))
    else Err(Ambiguous)
  }

  // ----- Claim into a tenant

  predicate Holds(d: Device, tenant: Tenant) {
    d.current == Some(tenant) || tenant in d.stale
  }

  /** ClaimInto's EXISTS: a row of another tenant holds this tenant's identity. */
  ghost predicate IdentityHeldOutside(devices: Devices, tenant: Tenant, id: DeviceId) {
    exists pk :: pk in devices && devices[pk].id == id && devices[pk].tenant != tenant && Holds(devices[pk], tenant)
  }

  datatype ClaimRequest = ClaimRequest(
    key: EnrollKey, tenant: Tenant, owner: User, prefix: string, quota: int, newPk: DevicePk, now: Time)

  ghost function ClaimVerdict(rows: Enrollments, devices: Devices, r: ClaimRequest): Result<bool, EnrollError> {
    if r.owner == NO_USER then Err(NoOwner)
    else if r.key !in rows then Err(NotFound)
    else if ClaimRetryAllowed(rows[r.key].claimedAt, rows[r.key].claimedBy, r.tenant) then
      if HasDevice(devices, r.tenant, r.key.id)
         && devices[TheDevice(devices, r.tenant, r.key.id)].owner == Some(r.owner)
      then Ok(false) else Err(NotReady)
    else if !ClaimAllowed(rows[r.key].verifiedAt, rows[r.key].claimedAt) then Err(NotReady)
    else if !QuotaAllows(devices, r.tenant, r.key.id, r.quota) then Err(QuotaReached)
    else if IdentityHeldOutside(devices, r.tenant, r.key.id) then Err(IdentityTaken)
    else Ok(true)
  }

  /** A claim the transaction makes, as opposed to one it replays. */
  ghost predicate MakesClaim(rows: Enrollments, devices: Devices, r: ClaimRequest) {
    ClaimVerdict(rows, devices, r) == Ok(true)
  }

  ghost function ClaimDevicePk(devices: Devices, r: ClaimRequest): DevicePk {
    if HasDevice(devices, r.tenant, r.key.id) then TheDevice(devices, r.tenant, r.key.id) else r.newPk
  }

  ghost function ClaimRows(rows: Enrollments, devices: Devices, r: ClaimRequest): Enrollments {
    if MakesClaim(rows, devices, r)
    then rows[r.key := rows[r.key].(claimedBy := Some(r.tenant), claimedAt := Some(r.now))]
    else rows
  }

  ghost function ClaimDevices(rows: Enrollments, devices: Devices, r: ClaimRequest): Devices {
    if !MakesClaim(rows, devices, r) then devices
    else if HasDevice(devices, r.tenant, r.key.id) then
      var pk := TheDevice(devices, r.tenant, r.key.id);
      devices[pk := devices[pk].(owner := Some(r.owner), prefix := Some(r.prefix))]
    else
      devices[r.newPk := Device(r.tenant, r.key.id, Some(r.owner), Some(r.prefix), None, None, [])]
  }

  // ----- Sealing, resets and sweeps

  function DeliverVerdict(rows: Enrollments, k: EnrollKey, claimKey: string,
                          token: string): Result<Tenant, EnrollError> {
    if k !in rows || !ClaimTokenAccepts(claimKey, token, rows[k].tokenHash) then Err(NotFound)
    else if !DeliverAllowed(rows[k].verifiedAt, rows[k].claimedAt, rows[k].deliveredAt) then Err(NotReady)
    else if rows[k].claimedBy.None? then Err(NotReady)
    else Ok(rows[k].claimedBy.value)
  }

  function Deliver(rows: Enrollments, k: EnrollKey, claimKey: string, token: string, now: Time): Enrollments {
    if DeliverVerdict(rows, k, claimKey, token).Ok?
    then rows[k := rows[k].(deliveredAt := Some(now), lastSeen := now)]
    else rows
  }

  /** A certificate on one of the tenant's rows for the id speaks for the key. */
  ghost predicate BackingCert(devices: Devices, certs: Certs, tenant: Tenant, k: EnrollKey) {
    exists c :: c in certs && certs[c].device in devices
             && devices[certs[c].device].tenant == tenant && devices[certs[c].device].id == k.id
             && (certs[c].pub == Some(k.pub) || (certs[c].pub.None? && !certs[c].revoked))
  }

  /** The orphanClaim SQL fragment. */
  ghost predicate Orphan(rows: Enrollments, devices: Devices, certs: Certs, k: EnrollKey)
    requires k in rows
  {
    rows[k].claimedBy.Some?
    && if rows[k].deliveredAt.None?
       then !HasDevice(devices, rows[k].claimedBy.value, k.id)
       else !BackingCert(devices, certs, rows[k].claimedBy.value, k)
  }

  predicate OwnOrUnclaimed(e: Enrollment, tenant: Tenant) {
    e.claimedBy.None? || e.claimedBy == Some(tenant)
  }

  ghost function WithoutForeignOrphans(rows: Enrollments, devices: Devices, certs: Certs, id: DeviceId,
                                       tenant: Tenant): Enrollments {
    map k | k in rows && !(k.id == id && rows[k].claimedBy.Some? && rows[k].claimedBy != Some(tenant)
                           && Orphan(rows, devices, certs, k)) :: rows[k]
  }

  function WithoutOwn(rows: Enrollments, id: DeviceId, tenant: Tenant): Enrollments {
    map k | k in rows && !(k.id == id && OwnOrUnclaimed(rows[k], tenant)) :: rows[k]
  }

  /** Reset runs its two DELETEs in order; the first only when the pool bypasses RLS. */
  ghost function Reset(rows: Enrollments, devices: Devices, certs: Certs, id: DeviceId, tenant: Tenant,
                       seesAll: bool): Enrollments {
    WithoutOwn(if seesAll then WithoutForeignOrphans(rows, devices, certs, id, tenant) else rows, id, tenant)
  }

  ghost predicate ForeignClaim(rows: Enrollments, id: DeviceId, tenant: Tenant) {
    exists k :: k in rows && k.id == id && !OwnOrUnclaimed(rows[k], tenant)
  }

  ghost function ResetForTenant(rows: Enrollments, id: DeviceId, tenant: Tenant): Enrollments {
    if ForeignClaim(rows, id, tenant) then rows else WithoutOwn(rows, id, tenant)
  }

  ghost function SweepOrphans(rows: Enrollments, devices: Devices, certs: Certs, seesAll: bool): Enrollments {
    if seesAll then map k | k in rows && !Orphan(rows, devices, certs, k) :: rows[k] else rows
  }

  function Prune(rows: Enrollments, now: Time): Enrollments {
    map k | k in rows && !(rows[k].claimedAt.None? && rows[k].lastSeen < now - ENROLLMENT_TTL) :: rows[k]
  }
}
