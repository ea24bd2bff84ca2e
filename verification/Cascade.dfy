/** Deleting one device end to end: revoke, broker teardown, row delete and
    enrollment reset, each its own transaction or broker call, each able to fail. */
module Cascade {
  import opened Prelude
  import opened Schema
  import opened BrokerTables
  import opened CertTables
  import Enrolled = EnrollmentTables
  import Ledger = BrokerLedger
  import Brokers = BrokerService
  import Certificates = CertService
  import Enrollments = EnrollmentService
  import Resets = EnrollmentReset

  /** The gate refused, a step failed, a shutdown came first, or the row was
      deleted; Sealed: but the enrollment rows may still stand. */
  datatype Verdict = Refused | Failed | Stopped | OK | Sealed

  /** Refuses one shape only: paired, no way back onto the broker, no override. */
  predicate DestructiveAllowed(paired: bool, usable: bool, override: bool) {
    !paired || usable || override
  }

  /** What the caller read of the row before it began. */
  datatype Snapshot = Snapshot(pk: DevicePk, tenant: Tenant, id: DeviceId, paired: bool)

  class Server {
    const db: Database
    const broker: Brokers.Broker
    const devices: Brokers.DeviceService
    const certificates: Certificates.CertificateService
    const removals: Certificates.DeviceDelete
    const enrollments: Enrollments.EnrollmentService

    constructor (db: Database, broker: Brokers.Broker, devices: Brokers.DeviceService,
                 certificates: Certificates.CertificateService, removals: Certificates.DeviceDelete,
                 enrollments: Enrollments.EnrollmentService)
      requires db as object != broker && devices.db == db && devices.broker == broker
      requires certificates.db == db && removals.db == db && enrollments.db == db
      ensures Wired() && this.db == db && this.broker == broker
    {
      this.db, this.broker, this.devices := db, broker, devices;
      this.certificates, this.removals, this.enrollments := certificates, removals, enrollments;
    }

    ghost predicate Wired() {
      && db as object != broker && devices.db == db && devices.broker == broker
      && certificates.db == db && removals.db == db && enrollments.db == db
    }

    /** The certificate revoke, and then the broker teardown, whatever comes of it. */
    method RevokeAndTearDown(d: Snapshot) returns (clean: bool)
      requires Wired() && devices.AllRecorded() && Ledger.Slugged(db.devices)
      requires d.pk in db.devices ==> db.devices[d.pk].id == d.id
      modifies db`devices, db`certs, db`faults, broker`clients, broker`calls, broker`lost, broker`expired
      ensures db.faults >= old(db.faults) && broker.lost >= old(broker.lost) && broker.expired >= old(broker.expired)
      ensures !clean ==> d.pk !in old(db.devices) || db.faults > old(db.faults)
                         || broker.expired > old(broker.expired) || broker.lost >= old(broker.lost) + 3
      ensures db.certs == RevokeCerts(old(db.devices), old(db.certs), d.tenant, d.pk)
      ensures TornDown(d, old(db.devices), db.devices, broker.clients, broker.reported, clean)
      ensures Exclusive(old(db.devices)) && (d.pk in old(db.devices) ==> Visible(old(db.devices), d.tenant, d.pk)) ==>
                SparesOthers(old(db.devices), d.pk, d.id, old(broker.clients) - broker.clients)
      ensures d.pk in old(db.devices) && !Visible(old(db.devices), d.tenant, d.pk) ==> db.devices == old(db.devices)
    {
      ghost var devs := db.devices;
      certificates.Revoke(d.tenant, d.pk);
      RevokeKeepsLedger(devs, d.tenant, d.pk);
      RecordSurvives(devs, db.devices, broker.clients, broker.reported);
      ghost var revoked := db.devices;
      clean := devices.TeardownDeviceDynsec(d.pk, d.tenant, d.id);
      if Exclusive(devs) { RevokedSparesAlike(d, devs, revoked, old(broker.clients) - broker.clients); }
    }

    /** The rows go so that the unit can start over. */
    method ResetDeviceEnrollment(d: Snapshot, seesAll: bool)
      requires Wired()
      modifies db`enrollments
      ensures ClaimsLeft(d, seesAll, old(db.enrollments), db.enrollments, db.devices, db.certs)
    {
      ghost var rows := db.enrollments;
      var removed := enrollments.Reset(d.id, d.tenant, seesAll);
      if seesAll {
        Resets.ResetLeavesOnlyBackedClaims(rows, db.devices, db.certs, d.id, d.tenant);
      } else {
        Resets.RestrictedResetKeepsForeignClaims(rows, db.devices, db.certs, d.id, d.tenant);
      }
    }

    /** The row delete after the teardown of a row that was in `devs`, with `certs`. */
    method DeleteRow(d: Snapshot, brokerClean: bool, ghost devs: Devices, ghost certs: Certs)
      requires Wired() && UniqueSerials(certs) && db.certs == RevokeCerts(devs, certs, d.tenant, d.pk)
      requires TornDown(d, devs, db.devices, broker.clients, broker.reported, brokerClean)
      modifies db`devices, db`certs, db`tombstones, broker`reported
      ensures Deleted(d, devs, certs, old(db.tombstones), db.devices, db.certs, db.tombstones)
      ensures OthersKept(d.pk, devs, certs, db.devices, db.certs) && devices.AllRecorded()
      ensures !Visible(devs, d.tenant, d.pk) ==>
                db.devices == old(db.devices) && db.certs == old(db.certs) && db.tombstones == old(db.tombstones)
      ensures broker.reported == old(broker.reported) + if brokerClean then {} else HeldBy(devs, d.pk)
    {
      ghost var torn, tombs := db.devices, db.tombstones;
      SupersededIsUnique(certs, d.pk);
      removals.DeleteByID(d.tenant, d.pk);
      RemovalIsReported(d, devs, torn, db.devices, broker.clients, broker.reported, brokerClean);
      if !brokerClean { broker.reported := broker.reported + HeldBy(devs, d.pk); }
      RemovalDeletes(d, devs, certs, tombs, torn, db.devices, db.certs, db.tombstones);
    }

    /** The row delete and the enrollment reset, unless a shutdown comes first. */
    method RemoveTornDown(d: Snapshot, stopping: bool, seesAll: bool, brokerClean: bool,
                          ghost devs: Devices, ghost certs: Certs) returns (v: Verdict)
      requires Wired() && UniqueSerials(certs) && db.certs == RevokeCerts(devs, certs, d.tenant, d.pk)
      requires TornDown(d, devs, db.devices, broker.clients, broker.reported, brokerClean)
      modifies db, broker`reported
      ensures db.faults >= old(db.faults) && (v == Stopped <==> stopping) && v != Refused
      ensures db.faults == old(db.faults) ==> v == if stopping then Stopped else OK
      ensures v == OK || v == Sealed ==>
                Deleted(d, devs, certs, old(db.tombstones), db.devices, db.certs, db.tombstones)
      ensures OthersKept(d.pk, devs, certs, db.devices, db.certs) && devices.AllRecorded()
      ensures (v != OK && v != Sealed) || !Visible(devs, d.tenant, d.pk) ==>
                db.devices == old(db.devices) && db.certs == old(db.certs) && db.tombstones == old(db.tombstones)
      ensures broker.reported == old(broker.reported)
              || (!brokerClean && (v == OK || v == Sealed)
                  && broker.reported == old(broker.reported) + HeldBy(devs, d.pk))
      ensures v == OK ==> ClaimsLeft(d, seesAll, old(db.enrollments), db.enrollments, db.devices, db.certs)
      ensures v != OK ==> db.enrollments == old(db.enrollments)
    {
      RevokedKeepsOthers(d, devs, certs, db.devices);
      if stopping { return Stopped; }
      var deleteFails := db.Fails();
      if deleteFails { return Verdict.Failed; }
      DeleteRow(d, brokerClean, devs, certs);
      var resetFails := db.Fails();
      if resetFails { return Sealed; }
      ResetDeviceEnrollment(d, seesAll);
      return OK;
    }

    /** One device. `usable`: the probe found a recovery path. `stopping`: a shutdown is
        near when the teardown is over. `seesAll`: the enrollment pool bypasses RLS. */
    method CascadeDeleteOne(d: Snapshot, usable: bool, override: bool, stopping: bool, seesAll: bool)
      returns (v: Verdict, brokerClean: bool)
      requires Wired() && devices.AllRecorded() && Ledger.Slugged(db.devices) && UniqueSerials(db.certs)
      requires d.pk in db.devices ==> db.devices[d.pk].id == d.id
      modifies db, broker
      // The gate is the only thing that refuses, and a refusal touches nothing.
      ensures v == Refused <==> d.paired && !usable && !override
      // Past it, only a failed transaction or a shutdown keeps it from going all the way, and
      // only that, a deadline or three lost calls from leaving a clean broker.
      ensures db.faults == old(db.faults) ==>
                v == if d.paired && !usable && !override then Refused else if stopping then Stopped else OK
      ensures v == Stopped ==> stopping
      ensures !brokerClean ==> d.pk !in old(db.devices) || db.faults > old(db.faults)
                               || broker.expired > old(broker.expired) || broker.lost >= old(broker.lost) + 3
      ensures v == Refused ==>
                db.devices == old(db.devices) && db.certs == old(db.certs) && db.tombstones == old(db.tombstones)
                && db.enrollments == old(db.enrollments) && broker.clients == old(broker.clients)
      // Other rows and their certificates are never touched, whatever fails.
      ensures OthersKept(d.pk, old(db.devices), old(db.certs), db.devices, db.certs)
      // A deleted row is gone with its certificates, and its bound serials are answered revoked.
      ensures v == OK || v == Sealed ==>
                Deleted(d, old(db.devices), old(db.certs), old(db.tombstones), db.devices, db.certs, db.tombstones)
      // A row that has left the snapshot's tenant keeps everything but its clients: a clean
      // success leaves a row in place without its clients exactly for such a row.
      ensures d.pk in old(db.devices) && !Visible(old(db.devices), d.tenant, d.pk) ==>
                db.devices == old(db.devices) && db.certs == old(db.certs) && db.tombstones == old(db.tombstones)
      ensures (v == OK || v == Sealed) && brokerClean ==>
                (Stranded(d, old(db.devices), db.devices, broker.clients) <==>
                   d.pk in old(db.devices) && !Visible(old(db.devices), d.tenant, d.pk))
      // Clean means none of the row's clients is left.
      ensures (v == OK || v == Sealed || v == Stopped) && brokerClean ==>
                NoClientLeft(d, old(db.devices), broker.clients)
      // Every client still on the broker is on a row's record or reported, and only an
      // unclean delete reports any: those its row held.
      ensures devices.AllRecorded()
      ensures broker.reported == old(broker.reported)
              || (!brokerClean && (v == OK || v == Sealed)
                  && broker.reported == old(broker.reported) + HeldBy(old(db.devices), d.pk))
      // From an up-to-date snapshot, a client another row held is lost only to an overlap of
      // names, and so never where all ids have one length.
      ensures Exclusive(old(db.devices)) && (d.pk in old(db.devices) ==> Visible(old(db.devices), d.tenant, d.pk)) ==>
                SparesOthers(old(db.devices), d.pk, d.id, old(broker.clients) - broker.clients)
      ensures v == OK ==> ClaimsLeft(d, seesAll, old(db.enrollments), db.enrollments, db.devices, db.certs)
      ensures v != OK ==> db.enrollments == old(db.enrollments)
    {
      if !DestructiveAllowed(d.paired, usable, override) { return Refused, true; }
      var revokeFails := db.Fails();
      if revokeFails { return Verdict.Failed, true; }
      ghost var devs, certs := db.devices, db.certs;
      brokerClean := RevokeAndTearDown(d);
      v := RemoveTornDown(d, stopping, seesAll, brokerClean, devs, certs);
    }
  }

  // ----- What the parts of a delete promise, on table values

  ghost predicate OthersKept(pk: DevicePk, devs: Devices, certs: Certs, devsNow: Devices, certsNow: Certs) {
    && (forall p :: p in devs && p != pk ==> p in devsNow && devsNow[p] == devs[p])
    && (forall c :: c in certs && certs[c].device != pk ==> c in certsNow && certsNow[c] == certs[c])
  }

  /** The row is still there as it was, and none of the clients it records is. */
  ghost predicate Stranded(d: Snapshot, devs: Devices, devsNow: Devices, clients: set<Ledger.Client>) {
    d.pk in devs && d.pk in devsNow && devsNow[d.pk] == devs[d.pk] && NoClientLeft(d, devsNow, clients)
  }

  /** For the id exactly the other tenants' claims remain that they back, or, with a
      pool that sees one tenant, all their claims; other ids keep every row. */
  ghost predicate ClaimsLeft(d: Snapshot, seesAll: bool, rows: Schema.Enrollments, left: Schema.Enrollments,
                             devs: Devices, certs: Certs) {
    && (forall k :: k in left ==> k in rows && left[k] == rows[k])
    && (forall k :: k in rows && k.id != d.id ==> k in left)
    && (forall k :: k in rows && k.id == d.id ==>
          (k in left <==> if seesAll then Resets.BackedElsewhere(rows, devs, certs, k, d.tenant)
                          else !Enrolled.OwnOrUnclaimed(rows[k], d.tenant)))
  }

  ghost predicate NoClientLeft(d: Snapshot, devs: Devices, clients: set<Ledger.Client>) {
    d.pk in devs ==> forall t :: Enrolled.Holds(devs[d.pk], t) ==> CertCN(t, d.id) !in clients
  }

  /** The clients a row records. */
  ghost function HeldBy(devs: Devices, pk: DevicePk): set<Ledger.Client> {
    if pk in devs
    then (var current := if devs[pk].current.Some? then [devs[pk].current.value] else [];
          set t | t in current + devs[pk].stale :: CertCN(t, devs[pk].id))
    else {}
  }

  ghost predicate Reported(devs: Devices, clients: set<Ledger.Client>, reported: set<Ledger.Client>) {
    forall c :: c in clients ==> c in reported || Brokers.RecordedOn(devs, c)
  }

  ghost predicate AnsweredRevoked(devs: Devices, certs: Certs, tombs: Tombstones, id: DeviceId, cert: Cert) {
    cert.pub.Some? && Answered(devs, certs, tombs, id, cert.pub.value, cert.serial) == AnswerRevoked
  }

  /** The row is gone with its certificates and its serials read revoked; a row
      that has left the snapshot's tenant stays, and no step reports that. */
  ghost predicate Deleted(d: Snapshot, devs: Devices, certs: Certs, tombs: Tombstones,
                          devsNow: Devices, certsNow: Certs, tombsNow: Tombstones) {
    && (d.pk in devsNow <==> d.pk in devs && !Visible(devs, d.tenant, d.pk))
    && (Visible(devs, d.tenant, d.pk) ==>
          (forall c :: c in certsNow ==> certsNow[c].device != d.pk)
          && forall c :: c in Bound(certs, d.pk) && certs[c].serial !in tombs ==>
               AnsweredRevoked(devsNow, certsNow, tombsNow, d.id, certs[c]))
  }

  /** After the teardown: other rows as they were, this one at most letting go. */
  ghost predicate TornDown(d: Snapshot, devs: Devices, torn: Devices, clients: set<Ledger.Client>,
                           reported: set<Ledger.Client>, clean: bool) {
    && torn.Keys == devs.Keys
    && (forall p :: p in devs && p != d.pk ==> torn[p] == devs[p])
    && (d.pk in devs ==> torn[d.pk].id == devs[d.pk].id == d.id && torn[d.pk].tenant == devs[d.pk].tenant
                         && forall t :: Enrolled.Holds(torn[d.pk], t) ==> Enrolled.Holds(devs[d.pk], t))
    && Reported(torn, clients, reported)
    && (clean ==> NoClientLeft(d, devs, clients))
  }

  lemma RevokedKeepsOthers(d: Snapshot, devs: Devices, certs: Certs, torn: Devices)
    requires torn.Keys == devs.Keys && forall p :: p in devs && p != d.pk ==> torn[p] == devs[p]
    ensures OthersKept(d.pk, devs, certs, torn, RevokeCerts(devs, certs, d.tenant, d.pk))
  {
  }

  /** Deleting the row leaves unrecorded only clients it held, and none if clean. */
  lemma RemovalIsReported(d: Snapshot, devs: Devices, torn: Devices, left: Devices,
                          clients: set<Ledger.Client>, reported: set<Ledger.Client>, clean: bool)
    requires TornDown(d, devs, torn, clients, reported, clean)
    requires left == torn || left == torn - {d.pk}
    ensures Reported(left, clients, if clean then reported else reported + HeldBy(devs, d.pk))
  {
    forall p | p in torn && p != d.pk ensures p in left && left[p] == torn[p] {}
    forall c | c in clients && c !in reported && !Brokers.RecordedOn(left, c)
      ensures !clean && c in HeldBy(devs, d.pk) {
      var p, t :| p in torn && Enrolled.Holds(torn[p], t) && CertCN(t, torn[p].id) == c;
      assert p == d.pk;
    }
  }

  lemma RemovalDeletes(d: Snapshot, devs: Devices, certs: Certs, tombs: Tombstones, torn: Devices,
                       left: Devices, certsLeft: Certs, tombsLeft: Tombstones)
    requires UniqueSerials(certs) && UniqueSerials(Superseded(certs, d.pk))
    requires torn.Keys == devs.Keys && forall p :: p in devs && p != d.pk ==> torn[p] == devs[p]
    requires d.pk in devs ==> torn[d.pk].id == d.id && torn[d.pk].tenant == devs[d.pk].tenant
    requires var revoked := RevokeCerts(devs, certs, d.tenant, d.pk);
      if Visible(torn, d.tenant, d.pk)
      then UniqueSerials(revoked) && left == torn - {d.pk} && certsLeft == WithoutDevice(torn, revoked, d.pk)
           && tombsLeft == Buried(torn, revoked, tombs, d.pk)
      else left == torn && certsLeft == revoked && tombsLeft == tombs
    ensures Deleted(d, devs, certs, tombs, left, certsLeft, tombsLeft)
    ensures OthersKept(d.pk, devs, certs, left, certsLeft)
  {
    RevokedKeepsOthers(d, devs, certs, torn);
    if Visible(torn, d.tenant, d.pk) {
      assert RevokeCerts(devs, certs, d.tenant, d.pk) == Superseded(certs, d.pk);
      BuriedIsAnswered(torn, certs, tombs, d.pk);
      forall c | c in Bound(certs, d.pk) && certs[c].serial !in tombs
        ensures AnsweredRevoked(left, certsLeft, tombsLeft, d.id, certs[c])
      {
      }
    }
  }

  /** Revoking writes paired_at only. */
  lemma RevokeKeepsLedger(devices: Devices, tenant: Tenant, pk: DevicePk)
    ensures var after := RevokeDevices(devices, tenant, pk);
      after.Keys == devices.Keys && forall p :: p in devices ==>
        (after[p] == devices[p].(pairedAt := after[p].pairedAt) && (p != pk ==> after[p] == devices[p]))
  {
  }

  lemma RecordSurvives(was: Devices, now: Devices, clients: set<Ledger.Client>, reported: set<Ledger.Client>)
    requires was.Keys == now.Keys && forall p :: p in was ==> now[p] == was[p].(pairedAt := now[p].pairedAt)
    requires Reported(was, clients, reported)
    ensures Reported(now, clients, reported)
  {
    forall c | c in clients && c !in reported ensures Brokers.RecordedOn(now, c) {
      var p, t :| p in was && Enrolled.Holds(was[p], t) && CertCN(t, was[p].id) == c;
      assert Enrolled.Holds(now[p], t) && CertCN(t, now[p].id) == c;
    }
  }

  lemma RevokedSparesAlike(d: Snapshot, was: Devices, now: Devices, lost: set<Ledger.Client>)
    requires Exclusive(was) && was.Keys == now.Keys && forall p :: p in was ==>
      now[p] == was[p].(pairedAt := now[p].pairedAt)
    ensures Exclusive(now)
    ensures SparesOthers(now, d.pk, d.id, lost) ==> SparesOthers(was, d.pk, d.id, lost)
  {
    forall p, t | p in was ensures Enrolled.Holds(now[p], t) <==> Enrolled.Holds(was[p], t) {}
  }

  lemma SupersededIsUnique(certs: Certs, pk: DevicePk)
    requires UniqueSerials(certs)
    ensures UniqueSerials(Superseded(certs, pk))
  {
  }

  /** Once a device's serials are buried and its rows gone, each is answered revoked. */
  lemma BuriedIsAnswered(devices: Devices, certs: Certs, tombs: Tombstones, pk: DevicePk)
    requires pk in devices && UniqueSerials(certs) && UniqueSerials(Superseded(certs, pk))
    ensures var left := WithoutDevice(devices, Superseded(certs, pk), pk);
      forall c :: c in Bound(certs, pk) && certs[c].serial !in tombs ==>
        Answered(devices - {pk}, left, Buried(devices, Superseded(certs, pk), tombs, pk), devices[pk].id,
                 certs[c].pub.value, certs[c].serial)
        == AnswerRevoked
  {
    var revoked := Superseded(certs, pk);
    var left, buried := WithoutDevice(devices, revoked, pk), Buried(devices, revoked, tombs, pk);
    forall c | c in Bound(certs, pk) && certs[c].serial !in tombs
      ensures Answered(devices - {pk}, left, buried, devices[pk].id, certs[c].pub.value, certs[c].serial)
              == AnswerRevoked
    {
      var s := certs[c].serial;
      assert c in Bound(revoked, pk) && revoked[c].serial == s;
      assert buried[s] == Tombstone(devices[pk].id, certs[c].pub.value);
      assert !HasRow(devices - {pk}, left, s);
    }
  }
}
