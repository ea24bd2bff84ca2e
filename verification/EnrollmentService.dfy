/** EnrollmentService: each method is one transaction on the shared tables, and
    does what EnrollmentTables says. Verify is the two transactions it commits. */
module EnrollmentService {
  import opened Prelude
  import opened Schema
  import opened EnrollmentPolicy
  import opened EnrollmentTables

  function HigherCount(current: nat, next: nat): nat {
    if next > current then next else current
  }

  class EnrollmentService {
    const db: Database
    const claimKey: string
    const quotaDevices: int

    constructor (db: Database, claimKey: string, quotaDevices: int)
      ensures this.db == db && this.claimKey == claimKey && this.quotaDevices == quotaDevices
    {
      this.db, this.claimKey, this.quotaDevices := db, claimKey, quotaDevices;
    }

    /** Records an announcement. `nonce` is the challenge newNonce drew. */
    method Announce(k: EnrollKey, token: string, nonce: Nonce, now: Time) returns (r: Result<Nonce, EnrollError>)
      modifies db`enrollments
      ensures db.enrollments == EnrollmentTables.Announce(old(db.enrollments), k, claimKey, token, nonce, now)
      ensures r == if WellFormed(k) then Ok(nonce) else Err(Malformed)
    {
      if !WellFormed(k) { return Err(Malformed); }
      var digest := ClaimTokenDigest(claimKey, token);
      if k !in db.enrollments {
        db.enrollments := db.enrollments[k := FirstRow(digest, nonce, now)];
        return Ok(nonce);
      }
      var existing := db.enrollments[k];
      var ownsCode := ClaimTokenAccepts(claimKey, token, existing.tokenHash);
      var storedToken := existing.tokenHash;
      if !ClaimTokenFrozen(existing.verifiedAt) {
        storedToken := digest;
      }
      var before := db.enrollments;
      db.enrollments := before[k := existing.(tokenHash := storedToken, challenge := Some(nonce),
                                              expires := Some(now + CHALLENGE_TTL), lastSeen := now)];
      var older := false;
      if ownsCode && existing.verifiedAt.Some? {
        older := exists o :: o in before && o.id == k.id && o.pub != k.pub && before[o].verifiedAt.Some?
                          && ClaimLockOlder(existing.verifiedAt.value, before[o].verifiedAt.value, k.pub, o.pub);
      }
      if ClaimLockClears(ownsCode, existing.verifiedAt, older) {
        db.enrollments := WithFailures(db.enrollments, k.id, false);
      }
      return Ok(nonce);
    }

    /** Verify's first transaction. It commits before the signature is judged. */
    method BurnChallenge(k: EnrollKey, now: Time) returns (r: Result<Burned, EnrollError>)
      modifies db`enrollments
      ensures db.enrollments == Burn(old(db.enrollments), k, now)
      ensures r == BurnVerdict(old(db.enrollments), k, now)
    {
      if !WellFormed(k) || k !in db.enrollments { return Err(BadProof); }
      var e := db.enrollments[k];
      if !ProofAllowed(e.deliveredAt) { return Err(Sealed); }
      if !ChallengeUsable(e.challenge, e.expires, now) { return Err(BadProof); }
      db.enrollments := db.enrollments[k := e.(challenge := None, expires := None, lastSeen := now)];
      return Ok(Burned(e.challenge.value, e.tokenHash));
    }

    /** The signature check and Verify's second transaction. */
    method CommitVerified(k: EnrollKey, burned: Burned, sig: Signature, now: Time) returns (ok: bool)
      modifies db`enrollments
      ensures db.enrollments == Judge(old(db.enrollments), k, burned, sig, now)
      ensures ok == Proves(old(db.enrollments), k, burned, sig)
    {
      if !ProofVerifies(k, burned.challenge, sig) { return false; }
      if k !in db.enrollments { return false; }
      var e := db.enrollments[k];
      if e.tokenHash != burned.tokenHash || e.challenge.Some? { return false; }
      db.enrollments := db.enrollments[k := e.(verifiedAt := Some(now))];
      return true;
    }

    /** SELECT ... WHERE device_id = id: each row once, in some order. */
    method SelectById(id: DeviceId) returns (keys: seq<EnrollKey>)
      ensures forall k :: k in keys <==> k in Candidates(db.enrollments, id)
      ensures forall i, j :: 0 <= i < j < |keys| ==> keys[i] != keys[j]
    {
      keys := [];
      var rest := set k | k in db.enrollments && k.id == id;
      while rest != {}
        invariant forall k :: k in Candidates(db.enrollments, id) <==> k in keys || k in rest
        invariant forall k :: k in keys ==> k !in rest
        invariant forall i, j :: 0 <= i < j < |keys| ==> keys[i] != keys[j]
        decreases rest
      {
        var k :| k in rest;
        keys, rest := keys + [k], rest - {k};
      }
    }

    /** The worst counter among the listed rows. */
    method WorstFailures(keys: seq<EnrollKey>) returns (worst: nat)
      requires forall k :: k in keys ==> k in db.enrollments
      ensures forall k :: k in keys ==> db.enrollments[k].failures <= worst
      ensures worst == 0 || exists k :: k in keys && db.enrollments[k].failures == worst
    {
      worst := 0;
      for i := 0 to |keys|
        invariant forall j :: 0 <= j < i ==> db.enrollments[keys[j]].failures <= worst
        invariant worst == 0 || exists j :: 0 <= j < i && db.enrollments[keys[j]].failures == worst
      {
        worst := HigherCount(worst, db.enrollments[keys[i]].failures);
      }
    }

    /** The listed rows that pass a test, in order. */
    method Select(keys: seq<EnrollKey>, pass: EnrollKey -> bool) returns (out: seq<EnrollKey>)
      requires forall i, j :: 0 <= i < j < |keys| ==> keys[i] != keys[j]
      ensures forall k :: k in out <==> k in keys && pass(k)
      ensures forall i, j :: 0 <= i < j < |out| ==> out[i] != out[j]
    {
      out := [];
      for i := 0 to |keys|
        invariant forall k :: k in out <==> k in keys[..i] && pass(k)
        invariant forall a, b :: 0 <= a < b < |out| ==> out[a] != out[b]
      {
        assert keys[..i + 1] == keys[..i] + [keys[i]];
        assert keys[i] !in keys[..i];
        if pass(keys[i]) {
          out := out + [keys[i]];
        }
      }
      assert keys[..|keys|] == keys;
    }

    /** Judges one code typed for a device id: the row it names, or why none. */
    method FindForClaim(id: DeviceId, token: string) returns (r: Result<EnrollKey, EnrollError>)
      modifies db`enrollments
      ensures db.enrollments == ClaimLookup(old(db.enrollments), id, claimKey, token)
      ensures r == ClaimLookupAnswer(old(db.enrollments), id, claimKey, token)
    {
      if !ValidDeviceID(id) || token == "" { return Err(NotFound); }
      ghost var rows := db.enrollments;
      var candidates := SelectById(id);
      if |candidates| == 0 {
        assert Candidates(rows, id) == {};
        return Err(NotFound);
      }
      assert candidates[0] in Candidates(rows, id);
      var worst := WorstFailures(candidates);
      assert ClaimFailuresExhausted(worst) <==> LockedOut(rows, id) by {
        if k :| k in rows && k.id == id && ClaimFailuresExhausted(rows[k].failures) { assert k in candidates; }
      }
      if ClaimFailuresExhausted(worst) { return Err(ClaimLocked); }
      var table, key := db.enrollments, claimKey;
      var matches := Select(candidates, k => k in table && ClaimTokenAccepts(key, token, table[k].tokenHash));
      SeqIsSet(matches, Matches(rows, id, claimKey, token));
      if |matches| == 0 {
        db.enrollments := WithFailures(db.enrollments, id, true);
        var next := WorstFailures(candidates);
        assert ClaimFailuresExhausted(next) <==> LockedOut(db.enrollments, id) by {
          if k :| k in db.enrollments && k.id == id && ClaimFailuresExhausted(db.enrollments[k].failures) {
            assert k in candidates;
          }
        }
        return Err(if ClaimFailuresExhausted(next) then ClaimLocked else NotFound);
      }
      if |matches| == 1 { return Ok(matches[0]); }
      var claimable := Select(matches, k => k in table && ClaimAllowed(table[k].verifiedAt, table[k].claimedAt));
      SeqIsSet(claimable, Claimable(rows, id, claimKey, token));
      if |claimable| != 1 { return Err(Ambiguous); }
      return Ok(claimable[0]);
    }

    /** The claim and its device row, written together; repeating one's own claim
        answers the row it made. */
    method ClaimInto(k: EnrollKey, tenant: Tenant, owner: User, prefix: string, newPk: DevicePk, now: Time)
      returns (r: Result<DevicePk, EnrollError>)
      requires UniqueDevices(db.devices) && newPk !in db.devices
      modifies db`enrollments, db`devices
      ensures var req := ClaimRequest(k, tenant, owner, prefix, quotaDevices, newPk, now);
        && db.enrollments == ClaimRows(old(db.enrollments), old(db.devices), req)
        && db.devices == ClaimDevices(old(db.enrollments), old(db.devices), req)
        && match ClaimVerdict(old(db.enrollments), old(db.devices), req)
           case Err(e) => r == Err(e)
           case Ok(_) => r == Ok(ClaimDevicePk(old(db.devices), req))
      ensures UniqueDevices(db.devices)
    {
      if owner == NO_USER { return Err(NoOwner); }
      if k !in db.enrollments { return Err(NotFound); }
      var e := db.enrollments[k];
      if ClaimRetryAllowed(e.claimedAt, e.claimedBy, tenant) {
        if pk :| pk in db.devices && db.devices[pk].tenant == tenant && db.devices[pk].id == k.id
                 && db.devices[pk].owner == Some(owner) {
          return Ok(pk);
        }
        return Err(NotReady);
      }
      if !ClaimAllowed(e.verifiedAt, e.claimedAt) { return Err(NotReady); }
      var known := exists pk :: pk in db.devices && db.devices[pk].tenant == tenant && db.devices[pk].id == k.id;
      if quotaDevices > 0 && !known && QuotaFull(|OfTenant(db.devices, tenant)|, quotaDevices) {
        return Err(QuotaReached);
      }
      var taken := exists pk :: pk in db.devices && db.devices[pk].id == k.id && db.devices[pk].tenant != tenant
                             && Holds(db.devices[pk], tenant);
      if taken { return Err(IdentityTaken); }
      var devicePk := UpsertClaimed(k.id, tenant, owner, prefix, newPk);
      db.enrollments := db.enrollments[k := e.(claimedBy := Some(tenant), claimedAt := Some(now))];
      return Ok(devicePk);
    }

    /** INSERT ... ON CONFLICT (tenant, device id) DO UPDATE of the claimed device row. */
    method UpsertClaimed(id: DeviceId, tenant: Tenant, owner: User, prefix: string, newPk: DevicePk)
      returns (pk: DevicePk)
      requires UniqueDevices(db.devices) && newPk !in db.devices
      modifies db`devices
      ensures pk == if HasDevice(old(db.devices), tenant, id) then TheDevice(old(db.devices), tenant, id) else newPk
      ensures db.devices == old(db.devices)[pk :=
                if pk in old(db.devices) then old(db.devices)[pk].(owner := Some(owner), prefix := Some(prefix))
                else Device(tenant, id, Some(owner), Some(prefix), None, None, [])]
      ensures UniqueDevices(db.devices)
    {
      if at :| at in db.devices && db.devices[at].tenant == tenant && db.devices[at].id == id {
        pk := at;
        db.devices := db.devices[pk := db.devices[pk].(owner := Some(owner), prefix := Some(prefix))];
      } else {
        pk := newPk;
        db.devices := db.devices[pk := Device(tenant, id, Some(owner), Some(prefix), None, None, [])];
      }
    }

    /** Seals one row, only on the device's own acknowledgement. */
    method MarkDelivered(k: EnrollKey, token: string, now: Time) returns (r: Result<Tenant, EnrollError>)
      modifies db`enrollments
      ensures db.enrollments == Deliver(old(db.enrollments), k, claimKey, token, now)
      ensures r == DeliverVerdict(old(db.enrollments), k, claimKey, token)
    {
      if k !in db.enrollments { return Err(NotFound); }
      var e := db.enrollments[k];
      if !ClaimTokenAccepts(claimKey, token, e.tokenHash) { return Err(NotFound); }
      if !DeliverAllowed(e.verifiedAt, e.claimedAt, e.deliveredAt) { return Err(NotReady); }
      if e.claimedBy.None? { return Err(NotReady); }
      db.enrollments := db.enrollments[k := e.(deliveredAt := Some(now), lastSeen := now)];
      return Ok(e.claimedBy.value);
    }

    /** The orphanClaim condition of one row. */
    predicate IsOrphan(k: EnrollKey)
      reads db
      requires k in db.enrollments
      ensures IsOrphan(k) == Orphan(db.enrollments, db.devices, db.certs, k)
    {
      var e, devices, certs := db.enrollments[k], db.devices, db.certs;
      e.claimedBy.Some?
      && if e.deliveredAt.None?
         then !exists pk :: pk in devices && devices[pk].tenant == e.claimedBy.value && devices[pk].id == k.id
         else !exists c :: c in certs && certs[c].device in devices
                        && devices[certs[c].device].tenant == e.claimedBy.value && devices[certs[c].device].id == k.id
                        && (certs[c].pub == Some(k.pub) || (certs[c].pub.None? && !certs[c].revoked))
    }

    /** Deletes a device id's unclaimed rows, the tenant's own claims and orphan
        claims. `seesAll`: the pool bypasses RLS. */
    method Reset(id: DeviceId, tenant: Tenant, seesAll: bool) returns (removed: nat)
      modifies db`enrollments
      ensures db.enrollments == EnrollmentTables.Reset(old(db.enrollments), db.devices, db.certs, id, tenant, seesAll)
      ensures removed == |old(db.enrollments)| - |db.enrollments|
    {
      removed := 0;
      if seesAll {
        var orphans := set k | k in db.enrollments && k.id == id && db.enrollments[k].claimedBy.Some?
                                && db.enrollments[k].claimedBy != Some(tenant) && IsOrphan(k);
        DropSize(db.enrollments, orphans);
        removed := |orphans|;
        db.enrollments := db.enrollments - orphans;
        assert db.enrollments == WithoutForeignOrphans(old(db.enrollments), db.devices, db.certs, id, tenant);
      }
      var own := DeleteOwn(id, tenant);
      removed := removed + own;
    }

    method DeleteOwn(id: DeviceId, tenant: Tenant) returns (removed: nat)
      modifies db`enrollments
      ensures db.enrollments == WithoutOwn(old(db.enrollments), id, tenant)
      ensures removed == |old(db.enrollments)| - |db.enrollments|
    {
      var own := set k | k in db.enrollments && k.id == id && OwnOrUnclaimed(db.enrollments[k], tenant);
      DropSize(db.enrollments, own);
      db.enrollments := db.enrollments - own;
      assert db.enrollments == WithoutOwn(old(db.enrollments), id, tenant);
      return |own|;
    }

    /** Reset for an owner's revoke: refused while another tenant holds a claim. */
    method ResetForTenant(id: DeviceId, tenant: Tenant) returns (r: Result<nat, EnrollError>)
      modifies db`enrollments
      ensures db.enrollments == EnrollmentTables.ResetForTenant(old(db.enrollments), id, tenant)
      ensures r == if ForeignClaim(old(db.enrollments), id, tenant) then Err(ClaimedElsewhere)
                   else Ok(|old(db.enrollments)| - |db.enrollments|)
    {
      var keys := SelectById(id);
      for i := 0 to |keys|
        invariant db.enrollments == old(db.enrollments)
        invariant forall j :: 0 <= j < i ==>
          keys[j] in db.enrollments && OwnOrUnclaimed(db.enrollments[keys[j]], tenant)
        invariant forall k :: k in keys <==> k in Candidates(db.enrollments, id)
      {
        assert keys[i] in Candidates(db.enrollments, id);
        if !OwnOrUnclaimed(db.enrollments[keys[i]], tenant) {
          return Err(ClaimedElsewhere);
        }
      }
      assert !ForeignClaim(db.enrollments, id, tenant) by {
        if k :| k in db.enrollments && k.id == id && !OwnOrUnclaimed(db.enrollments[k], tenant) {
          assert k in keys;
        }
      }
      var own := DeleteOwn(id, tenant);
      return Ok(own);
    }

    /** Deletes every orphan claim. A pool that sees one tenant cannot tell them and
        errs. */
    method SweepOrphanClaims(seesAll: bool) returns (r: Result<nat, EnrollError>)
      modifies db`enrollments
      ensures db.enrollments == SweepOrphans(old(db.enrollments), db.devices, db.certs, seesAll)
      ensures r == if seesAll then Ok(|old(db.enrollments)| - |db.enrollments|) else Err(PoolSeesOneTenant)
    {
      if !seesAll { return Err(PoolSeesOneTenant); }
      var orphans := set k | k in db.enrollments && IsOrphan(k);
      DropSize(db.enrollments, orphans);
      db.enrollments := db.enrollments - orphans;
      assert db.enrollments == SweepOrphans(old(db.enrollments), db.devices, db.certs, seesAll);
      return Ok(|orphans|);
    }

    /** Ages out unclaimed rows. */
    method Prune(now: Time) returns (removed: nat)
      modifies db`enrollments
      ensures db.enrollments == EnrollmentTables.Prune(old(db.enrollments), now)
      ensures removed == |old(db.enrollments)| - |db.enrollments|
    {
      var stale := set k | k in db.enrollments && db.enrollments[k].claimedAt.None?
                           && db.enrollments[k].lastSeen < now - ENROLLMENT_TTL;
      DropSize(db.enrollments, stale);
      db.enrollments := db.enrollments - stale;
      removed := |stale|;
      assert db.enrollments == EnrollmentTables.Prune(old(db.enrollments), now);
    }
  }

  lemma SeqIsSet(s: seq<EnrollKey>, keys: set<EnrollKey>)
    requires forall k :: k in s <==> k in keys
    requires forall i, j :: 0 <= i < j < |s| ==> s[i] != s[j]
    ensures |s| == 0 <==> keys == {}
    ensures |s| == 1 <==> Singleton(keys)
    ensures |s| == 1 ==> Only(keys) == s[0]
  {
    if |s| == 1 {
      assert keys == {s[0]};
    } else if |s| > 1 {
      assert s[0] in keys && s[1] in keys && s[0] != s[1];
    } else {
      forall k ensures k !in keys { assert k !in s; }
    }
  }

  lemma DropSize<K, V>(m: map<K, V>, drop: set<K>)
    requires drop <= m.Keys
    ensures |m - drop| == |m| - |drop|
  {
    assert (m - drop).Keys == m.Keys - drop;
  }
}
