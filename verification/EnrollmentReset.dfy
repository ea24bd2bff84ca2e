/** Resets and sweeps: what they keep, what they leave, and when a claim is an
    orphan at all. */
module EnrollmentReset {
  import opened Prelude
  import opened Schema
  import opened EnrollmentPolicy
  import opened EnrollmentTables
  import opened EnrollmentRuns

  /** A claim of the row by a tenant other than `tenant` that its tables back. */
  ghost predicate BackedElsewhere(rows: Enrollments, devices: Devices, certs: Certs, k: EnrollKey, tenant: Tenant) {
    k in rows && rows[k].claimedBy.Some? && rows[k].claimedBy != Some(tenant) && !Orphan(rows, devices, certs, k)
  }

  /** Reset for (id, tenant) leaves exactly the other tenants' backed claims on
      that id, and every row of every other id, all unchanged. */
  lemma ResetLeavesOnlyBackedClaims(rows: Enrollments, devices: Devices, certs: Certs, id: DeviceId, tenant: Tenant)
    ensures var left := Reset(rows, devices, certs, id, tenant, true);
      && left.Keys <= rows.Keys
      && (forall k :: k in rows ==>
            (k in left <==> k.id != id || BackedElsewhere(rows, devices, certs, k, tenant)))
      && (forall k :: k in left ==> left[k] == rows[k])
      && (forall k :: k in left && k.id == id ==> BackedElsewhere(left, devices, certs, k, tenant))
  {
    var first := WithoutForeignOrphans(rows, devices, certs, id, tenant);
    forall k | k in rows && k.id == id && k in first
      ensures Orphan(rows, devices, certs, k) == Orphan(first, devices, certs, k)
    {
    }
  }

  /** Without RLS bypass the orphan statement is skipped: for the id, exactly the
      other tenants' claims stay, orphans among them. */
  lemma RestrictedResetKeepsForeignClaims(rows: Enrollments, devices: Devices, certs: Certs, id: DeviceId,
                                          tenant: Tenant)
    ensures var left := Reset(rows, devices, certs, id, tenant, false);
      && (forall k :: k in left <==> k in rows && (k.id != id || !OwnOrUnclaimed(rows[k], tenant)))
      && (forall k :: k in left ==> left[k] == rows[k])
  {
  }

  /** The owner's reset never removes a foreign claim, backed or not: while one
      stands it removes nothing. */
  lemma OwnerResetIsAllOrNothing(rows: Enrollments, id: DeviceId, tenant: Tenant)
    ensures var left := ResetForTenant(rows, id, tenant);
      if ForeignClaim(rows, id, tenant) then left == rows
      else forall k :: k in left <==> k in rows && k.id != id
  {
    if !ForeignClaim(rows, id, tenant) {
      forall k | k in rows && k.id == id ensures OwnOrUnclaimed(rows[k], tenant) {}
    }
  }

  /** A full sweep leaves no orphan and removes nothing else. */
  lemma SweepLeavesNoOrphan(rows: Enrollments, devices: Devices, certs: Certs)
    ensures var left := SweepOrphans(rows, devices, certs, true);
      && (forall k :: k in left ==> k in rows && left[k] == rows[k] && !Orphan(left, devices, certs, k))
      && (forall k :: k in rows && k !in left ==> Orphan(rows, devices, certs, k))
  {
  }

  /** The tenant's rows for the id. */
  function RowsFor(devices: Devices, tenant: Tenant, id: DeviceId): set<DevicePk> {
    set pk | pk in devices && devices[pk].tenant == tenant && devices[pk].id == id
  }

  /** The keys certificates of these rows carry, revoked ones too. */
  function KeysOf(certs: Certs, rows: set<DevicePk>): set<Pubkey> {
    set c | c in certs && certs[c].device in rows && certs[c].pub.Some? :: certs[c].pub.value
  }

  predicate HasLiveKeyless(certs: Certs, rows: set<DevicePk>) {
    exists c :: c in certs && certs[c].device in rows && certs[c].pub.None? && !certs[c].revoked
  }

  /** A full sweep spares a row exactly if it is unclaimed, or claimed and its tenant has
      a row for the id, and if sealed also a certificate there that was ever issued to
      its key, or a live one issued to none. */
  lemma FullSweepSparesIff(rows: Enrollments, devices: Devices, certs: Certs, k: EnrollKey)
    requires k in rows
    ensures k in SweepOrphans(rows, devices, certs, true) <==>
              rows[k].claimedBy.None?
              || (var own := RowsFor(devices, rows[k].claimedBy.value, k.id);
                  if rows[k].deliveredAt.None? then own != {}
                  else k.pub in KeysOf(certs, own) || HasLiveKeyless(certs, own))
  {
    if rows[k].claimedBy.Some? {
      var tenant := rows[k].claimedBy.value;
      var own := RowsFor(devices, tenant, k.id);
      if HasDevice(devices, tenant, k.id) { assert TheDevice(devices, tenant, k.id) in own; }
      if own != {} {
        var pk :| pk in own;
        assert HasDevice(devices, tenant, k.id);
      }
      SpeaksIffListed(devices, certs, tenant, k);
    }
  }

  lemma SpeaksIffListed(devices: Devices, certs: Certs, tenant: Tenant, k: EnrollKey)
    ensures var own := RowsFor(devices, tenant, k.id);
      BackingCert(devices, certs, tenant, k) <==> k.pub in KeysOf(certs, own) || HasLiveKeyless(certs, own)
  {
    var own := RowsFor(devices, tenant, k.id);
    if c :| c in certs && certs[c].device in own && certs[c].pub == Some(k.pub) {
      assert certs[c].pub.value in KeysOf(certs, own);
    }
  }

  /** No device row is deleted or moved to another tenant. */
  ghost predicate KeepsDevices(w: World, e: Event) {
    e.Elsewhere? ==>
      forall t, id :: HasDevice(w.devices, t, id) ==> HasDevice(e.devices, t, id)
  }

  lemma PendingBackedStep(w: World, e: Event, k: EnrollKey)
    requires Sound(w) && Enabled(w, e) && KeepsDevices(w, e)
    requires k in w.rows && w.rows[k].claimedBy.Some? ==> HasDevice(w.devices, w.rows[k].claimedBy.value, k.id)
    requires k in NextRows(w, e) && NextRows(w, e)[k].claimedBy.Some?
    ensures HasDevice(NextDevices(w, e), NextRows(w, e)[k].claimedBy.value, k.id)
  {
    if e.Claimed? && MakesClaim(w.rows, w.devices, e.request) {
      ClaimKeepsDevices(w.rows, w.devices, e.request);
      if k in w.rows { RowStep(w, e, k); } else { RowCreated(w, e, k); }
      if e.request.key != k { assert NextRows(w, e)[k] == w.rows[k]; }
    } else {
      if k in w.rows { RowStep(w, e, k); } else { RowCreated(w, e, k); }
    }
  }

  /** ClaimInto creates the tenant's device row and drops none. */
  lemma ClaimKeepsDevices(rows: Enrollments, devices: Devices, r: ClaimRequest)
    requires MakesClaim(rows, devices, r) && r.newPk !in devices
    ensures HasDevice(ClaimDevices(rows, devices, r), r.tenant, r.key.id)
    ensures forall t, id :: HasDevice(devices, t, id) ==> HasDevice(ClaimDevices(rows, devices, r), t, id)
  {
    var after := ClaimDevices(rows, devices, r);
    forall t, id | HasDevice(devices, t, id) ensures HasDevice(after, t, id) {
      var pk := TheDevice(devices, t, id);
      assert pk in after && after[pk].tenant == t && after[pk].id == id;
    }
    if HasDevice(devices, r.tenant, r.key.id) {
      assert after[TheDevice(devices, r.tenant, r.key.id)].tenant == r.tenant;
    } else {
      assert after[r.newPk].tenant == r.tenant && after[r.newPk].id == r.key.id;
    }
  }

  /** Over every run in which no device row is deleted or reassigned, every
      claim has its device row, so no pending claim is ever an orphan. */
  lemma {:induction false} PendingClaimIsNeverOrphan(ws: seq<World>, es: seq<Event>, i: nat, k: EnrollKey)
    requires Run(ws, es) && i < |ws| && forall m :: 0 <= m < i ==> KeepsDevices(ws[m], es[m])
    requires k in ws[i].rows && ws[i].rows[k].claimedBy.Some?
    ensures HasDevice(ws[i].devices, ws[i].rows[k].claimedBy.value, k.id)
    ensures ws[i].rows[k].deliveredAt.None? ==> !Orphan(ws[i].rows, ws[i].devices, ws[i].certs, k)
  {
    if k in ws[i - 1].rows && ws[i - 1].rows[k].claimedBy.Some? {
      PendingClaimIsNeverOrphan(ws, es, i - 1, k);
    }
    SoundAlways(ws, es, i - 1);
    assert StepAt(ws, es, i - 1);
    PendingBackedStep(ws[i - 1], es[i - 1], k);
  }

  /** Sealing does not look for a certificate. A device that acknowledges seals
      an orphan, which the next sweep removes, exactly when no certificate on its
      tenant's row backs its key at that moment. */
  lemma SealIsOrphanIff(rows: Enrollments, devices: Devices, certs: Certs, k: EnrollKey, claimKey: string,
                        token: string, now: Time)
    requires DeliverVerdict(rows, k, claimKey, token).Ok?
    ensures var after := Deliver(rows, k, claimKey, token, now);
      && (Orphan(after, devices, certs, k) <==> !BackingCert(devices, certs, rows[k].claimedBy.value, k))
      && (k in SweepOrphans(after, devices, certs, true) <==> BackingCert(devices, certs, rows[k].claimedBy.value, k))
  {
  }
}
