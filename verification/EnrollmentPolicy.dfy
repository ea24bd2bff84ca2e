/** The enrollment guards: decisions over plain column values. */
module EnrollmentPolicy {
  import opened Prelude
  import opened Schema

  const CHALLENGE_TTL: Time := 300
  const ENROLLMENT_TTL: Time := 86400
  const CLAIM_FAILURE_CAP: nat := 10
  const DEVICE_ID_PREFIX := "thesada-"

  predicate ValidDeviceID(id: DeviceId) {
    DEVICE_ID_PREFIX <= id && |id| == 20 && LowerHex(id[8..])
  }

  predicate ValidPubkey(pub: Pubkey) {
    |pub| == 64 && LowerHex(pub)
  }

  predicate WellFormed(k: EnrollKey) {
    ValidDeviceID(k.id) && ValidPubkey(k.pub)
  }

  function ClaimTokenDigest(key: string, token: string): Digest {
    if key == "" then Sha256(token) else Hmac(key, token)
  }

  predicate ClaimTokenAccepts(key: string, presented: string, stored: Digest) {
    presented != "" && (stored == Sha256(presented) || stored == ClaimTokenDigest(key, presented))
  }

  predicate ChallengeUsable(challenge: Option<Nonce>, expires: Option<Time>, now: Time) {
    challenge.Some? && expires.Some? && now < expires.value
  }

  predicate ProofAllowed(deliveredAt: Option<Time>) {
    deliveredAt.None?
  }

  predicate ClaimTokenFrozen(verifiedAt: Option<Time>) {
    verifiedAt.Some?
  }

  predicate DeliverAllowed(verifiedAt: Option<Time>, claimedAt: Option<Time>, deliveredAt: Option<Time>) {
    verifiedAt.Some? && claimedAt.Some? && deliveredAt.None?
  }

  predicate ClaimAllowed(verifiedAt: Option<Time>, claimedAt: Option<Time>) {
    verifiedAt.Some? && claimedAt.None?
  }

  predicate ClaimRetryAllowed(claimedAt: Option<Time>, claimedBy: Option<Tenant>, tenant: Tenant) {
    claimedAt.Some? && claimedBy.Some? && tenant != "" && claimedBy.value == tenant
  }

  predicate ClaimFailuresExhausted(failures: nat) {
    failures >= CLAIM_FAILURE_CAP
  }

  predicate ClaimLockClears(ownsCode: bool, verifiedAt: Option<Time>, olderVerified: bool) {
    ownsCode && verifiedAt.Some? && !olderVerified
  }

  /** Does the other row win the right to clear the claim lock? */
  predicate ClaimLockOlder(thisAt: Time, otherAt: Time, thisPub: Pubkey, otherPub: Pubkey) {
    otherAt < thisAt || (otherAt == thisAt && Before(otherPub, thisPub))
  }

  predicate ProofVerifies(k: EnrollKey, challenge: Nonce, sig: Signature) {
    WellFormed(k) && sig == Signature(k.pub, challenge)
  }

  datatype DeviceHold = HoldNone | HoldHere | HoldElsewhere

  /** The claim-lock order is one strict total order on (verified_at, pubkey). */
  lemma ClaimLockOrderIsStrictTotal(a: Time, p: Pubkey, b: Time, q: Pubkey, c: Time, r: Pubkey)
    ensures !ClaimLockOlder(a, a, p, p)
    ensures p != q ==> (ClaimLockOlder(a, b, p, q) <==> !ClaimLockOlder(b, a, q, p))
    ensures ClaimLockOlder(a, b, p, q) && ClaimLockOlder(b, c, q, r) ==> ClaimLockOlder(a, c, p, r)
  {
    BeforeIrreflexive(p);
    BeforeTotal(p, q);
    if Before(p, q) && Before(q, p) {
      BeforeTransitive(p, q, p);
    }
    if Before(q, p) && Before(r, q) {
      BeforeTransitive(r, q, p);
    }
  }

  /** Where a unit is, as one tenant's row can tell: a foreign claim anywhere in the
      list settles it. */
  method DeviceHolder(tenant: Tenant, paired: bool, claimedBy: seq<Tenant>) returns (hold: DeviceHold)
    ensures hold == HoldElsewhere <==> exists j :: 0 <= j < |claimedBy| && claimedBy[j] != tenant
    ensures hold == HoldNone <==> !paired && claimedBy == []
  {
    hold := if paired then HoldHere else HoldNone;
    for i := 0 to |claimedBy|
      invariant hold != HoldElsewhere
      invariant forall j :: 0 <= j < i ==> claimedBy[j] == tenant
      invariant hold == HoldNone <==> !paired && i == 0
    {
      if claimedBy[i] != tenant {
        return HoldElsewhere;
      }
      hold := HoldHere;
    }
  }
}
