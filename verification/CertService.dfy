/** CertificateService and the device delete: each method is one transaction on
    the shared tables, and a refusal leaves them as they were. */
module CertService {
  import opened Prelude
  import opened Schema
  import opened CertSerial
  import opened CertTables

  class CertificateService {
    const db: Database

    constructor (db: Database)
      ensures this.db == db
    {
      this.db := db;
    }

    /** Revokes the device's unrevoked rows and inserts the new one, inside the
        caller's transaction: the unique-name violation is only met on the insert,
        with the revocations already written. */
    method IssueTx(r: IssueRequest) returns (res: Result<CertId, CertError>)
      modifies db`certs
      ensures res == IssueVerdict(db.devices, old(db.certs), r)
      ensures res.Ok? ==> db.certs == IssueCerts(db.devices, old(db.certs), r)
      ensures res == Err(NoDeviceRow) ==> db.certs == old(db.certs)
    {
      if !(r.device in db.devices && db.devices[r.device].tenant == r.tenant) { return Err(NoDeviceRow); }
      var revoked := set c | c in db.certs && db.certs[c].device == r.device && !db.certs[c].revoked;
      db.certs := map c | c in db.certs :: if c in revoked then db.certs[c].(revoked := true) else db.certs[c];
      assert db.certs == Superseded(old(db.certs), r.device);
      SupersedingClearsOwnNames(old(db.certs), r.device, r.cn);
      if exists c :: c in db.certs && !db.certs[c].revoked && db.certs[c].cn == r.cn {
        return Err(CNLive);
      }
      db.certs := db.certs[r.certId := Cert(r.device, r.serial, r.cn, r.status, false, r.pub)];
      return Ok(r.certId);
    }

    /** The transaction around issueTx, with the paired_at write that follows it. */
    method IssueAs(r: IssueRequest) returns (res: Result<CertId, CertError>)
      modifies db`certs, db`devices
      ensures res == IssueVerdict(old(db.devices), old(db.certs), r)
      ensures db.certs == IssueCerts(old(db.devices), old(db.certs), r)
      ensures db.devices == IssueDevices(old(db.devices), old(db.certs), r)
    {
      var begun := db.certs;
      res := IssueTx(r);
      if res.Err? {
        db.certs := begun;
        return;
      }
      var paired := if r.status == Active then Some(r.now) else None;
      db.devices := db.devices[r.device := db.devices[r.device].(pairedAt := paired)];
    }

    method Issue(tenant: Tenant, device: DevicePk, serial: Serial, cn: string, certId: CertId, now: Time)
      returns (res: Result<CertId, CertError>)
      modifies db`certs, db`devices
      ensures var r := IssueRequest(tenant, device, serial, cn, Active, None, certId, now);
        && res == IssueVerdict(old(db.devices), old(db.certs), r)
        && db.certs == IssueCerts(old(db.devices), old(db.certs), r)
        && db.devices == IssueDevices(old(db.devices), old(db.certs), r)
    {
      res := IssueAs(IssueRequest(tenant, device, serial, cn, Active, None, certId, now));
    }

    method IssueWithIdentity(tenant: Tenant, device: DevicePk, serial: Serial, cn: string, pub: Pubkey, certId: CertId,
                             now: Time)
      returns (res: Result<CertId, CertError>)
      modifies db`certs, db`devices
      ensures pub == "" ==> res == Err(NoPubkey) && db.certs == old(db.certs) && db.devices == old(db.devices)
      ensures pub != "" ==>
        (var r := IssueRequest(tenant, device, serial, cn, Active, Some(pub), certId, now);
         && res == IssueVerdict(old(db.devices), old(db.certs), r)
         && db.certs == IssueCerts(old(db.devices), old(db.certs), r)
         && db.devices == IssueDevices(old(db.devices), old(db.certs), r))
    {
      if pub == "" { return Err(NoPubkey); }
      res := IssueAs(IssueRequest(tenant, device, serial, cn, Active, Some(pub), certId, now));
    }

    method IssuePending(tenant: Tenant, device: DevicePk, serial: Serial, cn: string, certId: CertId, now: Time)
      returns (res: Result<CertId, CertError>)
      modifies db`certs, db`devices
      ensures var r := IssueRequest(tenant, device, serial, cn, Pending, None, certId, now);
        && res == IssueVerdict(old(db.devices), old(db.certs), r)
        && db.certs == IssueCerts(old(db.devices), old(db.certs), r)
        && db.devices == IssueDevices(old(db.devices), old(db.certs), r)
    {
      res := IssueAs(IssueRequest(tenant, device, serial, cn, Pending, None, certId, now));
    }

    /** The flip of one pending row the transaction can see. */
    method Flip(tenant: Tenant, cert: CertId, to: CertStatus) returns (rows: nat)
      modifies db`certs
      ensures rows == if Flippable(db.devices, old(db.certs), tenant, cert) then 1 else 0
      ensures db.certs == if rows == 1 then old(db.certs)[cert := old(db.certs)[cert].(status := to)] else old(db.certs)
    {
      if cert !in db.certs { return 0; }
      var row := db.certs[cert];
      if row.device !in db.devices || db.devices[row.device].tenant != tenant || row.status != Pending || row.revoked {
        return 0;
      }
      db.certs := db.certs[cert := row.(status := to)];
      return 1;
    }

    method Activate(tenant: Tenant, cert: CertId, device: DevicePk, now: Time) returns (err: Option<CertError>)
      modifies db`certs, db`devices
      ensures err == if Activates(old(db.devices), old(db.certs), tenant, cert, device) then None else Some(NotPending)
      ensures db.certs == ActivateCerts(old(db.devices), old(db.certs), tenant, cert, device)
      ensures db.devices == ActivateDevices(old(db.devices), old(db.certs), tenant, cert, device, now)
    {
      if cert in db.certs && db.certs[cert].device != device { return Some(NotPending); }
      var rows := Flip(tenant, cert, Active);
      if rows == 0 { return Some(NotPending); }
      db.devices := db.devices[device := db.devices[device].(pairedAt := Some(now))];
      return None;
    }

    method MarkFailed(tenant: Tenant, cert: CertId) returns (err: Option<CertError>)
      modifies db`certs
      ensures err == if Flippable(db.devices, old(db.certs), tenant, cert) then None else Some(NotPending)
      ensures db.certs == CertTables.MarkFailed(db.devices, old(db.certs), tenant, cert)
    {
      var rows := Flip(tenant, cert, Failed);
      return if rows == 0 then Some(NotPending) else None;
    }

    method Revoke(tenant: Tenant, device: DevicePk)
      modifies db`certs, db`devices
      ensures db.certs == RevokeCerts(old(db.devices), old(db.certs), tenant, device)
      ensures db.devices == RevokeDevices(old(db.devices), tenant, device)
    {
      if device in db.devices && db.devices[device].tenant == tenant {
        var revoked := set c | c in db.certs && db.certs[c].device == device && !db.certs[c].revoked;
        db.certs := map c | c in db.certs :: if c in revoked then db.certs[c].(revoked := true) else db.certs[c];
        db.devices := db.devices[device := db.devices[device].(pairedAt := None)];
        assert db.certs == Superseded(old(db.certs), device);
      }
    }

    /** Answers a signed status check across tenants. */
    method RevocationStatus(id: DeviceId, pub: Pubkey, raw: string) returns (r: Result<(Answer, Serial), ()>)
      requires UniqueSerials(db.certs)
      ensures CanonicalCertSerial(raw).None? ==> r.Err?
      ensures CanonicalCertSerial(raw).Some? ==>
        (var s := CanonicalCertSerial(raw).value;
         r == Ok((Answered(db.devices, db.certs, db.tombstones, id, pub, s), s)))
    {
      var canonical := CanonicalCertSerial(raw);
      if canonical.None? { return Err(()); }
      var s := canonical.value;
      var row: Option<CertStatusRow>, tomb: Option<Tombstone> := None, None;
      if c :| c in db.certs && db.certs[c].device in db.devices && db.certs[c].serial == s {
        row := Some(RowOf(db.devices, db.certs[c]));
      } else if s in db.tombstones {
        tomb := Some(db.tombstones[s]);
      }
      return Ok((CertRevocationAnswer(id, pub, row, tomb), s));
    }
  }

  class DeviceDelete {
    const db: Database

    constructor (db: Database)
      ensures this.db == db
    {
      this.db := db;
    }

    /** Copies the device's identity-bound serials, one row at a time; a serial
        already on record is kept. */
    method TombstoneCertSerials(device: DevicePk)
      requires device in db.devices && UniqueSerials(db.certs)
      modifies db`tombstones
      ensures db.tombstones == Buried(db.devices, db.certs, old(db.tombstones), device)
    {
      var id, certs, tombs := db.devices[device].id, db.certs, db.tombstones;
      var after, rest := tombs, set c | c in certs && certs[c].device == device && certs[c].pub.Some?;
      while rest != {}
        invariant rest <= Bound(certs, device)
        invariant BuriedSoFar(id, certs, tombs, Bound(certs, device) - rest, after)
        decreases rest
      {
        var c :| c in rest;
        BuryStep(id, certs, tombs, device, rest, c, after);
        if certs[c].serial !in after {
          after := after[certs[c].serial := Tombstone(id, certs[c].pub.value)];
        }
        rest := rest - {c};
      }
      BuryEnds(db.devices, certs, tombs, device, after);
      db.tombstones := after;
    }

    /** Deletes one row of the tenant, with its certificates (ON DELETE CASCADE). */
    method DeleteByID(tenant: Tenant, device: DevicePk)
      requires UniqueSerials(db.certs)
      modifies db`devices, db`certs, db`tombstones
      ensures if Visible(old(db.devices), tenant, device)
              then db.devices == old(db.devices) - {device}
                   && db.certs == WithoutDevice(old(db.devices), old(db.certs), device)
                   && db.tombstones == Buried(old(db.devices), old(db.certs), old(db.tombstones), device)
              else db.devices == old(db.devices) && db.certs == old(db.certs) && db.tombstones == old(db.tombstones)
    {
      if device in db.devices && db.devices[device].tenant == tenant {
        TombstoneCertSerials(device);
        db.devices := db.devices - {device};
        var cascaded := set c | c in db.certs && db.certs[c].device == device;
        db.certs := db.certs - cascaded;
        assert db.certs == WithoutDevice(old(db.devices), old(db.certs), device);
      }
    }
  }

  /** Once the device's own rows are revoked, the unique index can only be violated
      by another device's. */
  lemma SupersedingClearsOwnNames(certs: Certs, device: DevicePk, cn: string)
    ensures var after := Superseded(certs, device);
      CNHeldElsewhere(certs, device, cn) <==> exists c :: c in after && !after[c].revoked && after[c].cn == cn
  {
    var after := Superseded(certs, device);
    forall c | c in certs && certs[c].device != device ensures after[c] == certs[c] {}
  }

  predicate SerialIn(certs: Certs, rows: set<CertId>, s: Serial) {
    exists c :: c in rows && c in certs && certs[c].serial == s
  }

  /** The rows of `done` have been copied. */
  ghost predicate BuriedSoFar(id: DeviceId, certs: Certs, tombs: Tombstones, done: set<CertId>, after: Tombstones) {
    && (forall s :: s in after <==> s in tombs || SerialIn(certs, done, s))
    && (forall s :: s in tombs ==> after[s] == tombs[s])
    && (forall c :: c in done && c in certs && certs[c].pub.Some? && certs[c].serial !in tombs ==>
          after[certs[c].serial] == Tombstone(id, certs[c].pub.value))
  }

  lemma BuryStep(id: DeviceId, certs: Certs, tombs: Tombstones, device: DevicePk, rest: set<CertId>, c: CertId,
                 after: Tombstones)
    requires rest <= Bound(certs, device) && c in rest && UniqueSerials(certs)
    requires BuriedSoFar(id, certs, tombs, Bound(certs, device) - rest, after)
    ensures BuriedSoFar(id, certs, tombs, Bound(certs, device) - (rest - {c}),
                        if certs[c].serial in after then after
                        else after[certs[c].serial := Tombstone(id, certs[c].pub.value)])
  {
    var was, now := Bound(certs, device) - rest, Bound(certs, device) - (rest - {c});
    assert now == was + {c};
    forall s ensures SerialIn(certs, now, s) <==> SerialIn(certs, was, s) || s == certs[c].serial {}
    assert !SerialIn(certs, was, certs[c].serial);
  }

  lemma BuryEnds(devices: Devices, certs: Certs, tombs: Tombstones, device: DevicePk, after: Tombstones)
    requires device in devices && UniqueSerials(certs)
    requires BuriedSoFar(devices[device].id, certs, tombs, Bound(certs, device) - {}, after)
    ensures after == Buried(devices, certs, tombs, device)
  {
    var buried := Buried(devices, certs, tombs, device);
    forall s ensures s in after <==> s in buried {
      assert SerialIn(certs, Bound(certs, device) - {}, s) <==>
        exists c :: c in Bound(certs, device) && certs[c].serial == s;
    }
  }
}
