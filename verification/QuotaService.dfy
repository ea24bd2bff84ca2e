/** The device service's adders and movers, each run as one uncontended
    transaction. QuotaRuns interleaves their statements. */
module QuotaService {
  import opened Prelude
  import opened Schema
  import opened QuotaRuns

  datatype DeviceError = NoRow | CapReached | DuplicateId

  /** Columns an upsert fills only when the caller has something to say. */
  function Coalesced(prefix: string, kept: Option<string>): Option<string> {
    if prefix == "" then kept else Some(prefix)
  }

  /** The row an upsert leaves behind. */
  ghost function Upserted(devices: Devices, tenant: Tenant, id: DeviceId, prefix: string): Device {
    if HasDevice(devices, tenant, id) then
      var d := devices[TheDevice(devices, tenant, id)];
      d.(prefix := Coalesced(prefix, d.prefix))
    else Device(tenant, id, None, Coalesced(prefix, None), None, None, [])
  }

  /** No more rows than before, or one more and no more than a positive cap allows. */
  predicate StaysInCap(was: Devices, now: Devices, tenant: Tenant, cap: int) {
    cap <= 0 || Count(now, tenant) <= Count(was, tenant)
    || (Count(now, tenant) == Count(was, tenant) + 1 && Count(now, tenant) <= cap)
  }

  class DeviceService {
    const db: Database
    const quotaDevices: int

    constructor (db: Database, quotaDevices: int)
      ensures this.db == db && this.quotaDevices == quotaDevices
    {
      this.db, this.quotaDevices := db, quotaDevices;
    }

    /** Refuses a device id the tenant does not already have, at the cap. */
    method QuotaAllowDevice(tenant: Tenant, id: DeviceId) returns (allowed: bool)
      ensures allowed == QuotaAllows(db.devices, tenant, id, quotaDevices)
      ensures allowed <==> HasRoom(db.devices, tenant, id, quotaDevices)
    {
      if quotaDevices <= 0 { return true; }
      if exists pk :: pk in db.devices && db.devices[pk].tenant == tenant && db.devices[pk].id == id { return true; }
      var rows := set pk | pk in db.devices && db.devices[pk].tenant == tenant;
      assert rows == OfTenant(db.devices, tenant);
      return !QuotaFull(|rows|, quotaDevices);
    }

    /** INSERT ... ON CONFLICT (tenant, device id) DO UPDATE, under the cap. */
    method UpsertCore(tenant: Tenant, id: DeviceId, prefix: string, newPk: DevicePk)
      returns (r: Result<DevicePk, DeviceError>)
      requires UniqueDevices(db.devices) && newPk !in db.devices
      modifies db`devices
      ensures r.Ok? <==> HasRoom(old(db.devices), tenant, id, quotaDevices)
      ensures r.Err? ==> r == Err(CapReached) && db.devices == old(db.devices)
      ensures r.Ok? ==>
        db.devices == Written(old(db.devices), Upsert(tenant, id, newPk), Upserted(old(db.devices), tenant, id, prefix))
      ensures r.Ok? ==> HasDevice(db.devices, tenant, id) && TheDevice(db.devices, tenant, id) == r.value
      ensures UniqueDevices(db.devices) && StaysInCap(old(db.devices), db.devices, tenant, quotaDevices)
    {
      var allowed := QuotaAllowDevice(tenant, id);
      if !allowed { return Err(CapReached); }
      AllowedWriteStaysInCap(db.devices, Upsert(tenant, id, newPk), Upserted(db.devices, tenant, id, prefix),
                             quotaDevices);
      if pk :| pk in db.devices && db.devices[pk].tenant == tenant && db.devices[pk].id == id {
        assert HasDevice(db.devices, tenant, id) && TheDevice(db.devices, tenant, id) == pk;
        db.devices := db.devices[pk := db.devices[pk].(prefix := Coalesced(prefix, db.devices[pk].prefix))];
        assert db.devices[pk].tenant == tenant && db.devices[pk].id == id;
        return Ok(pk);
      }
      db.devices := db.devices[newPk := Device(tenant, id, None, Coalesced(prefix, None), None, None, [])];
      assert db.devices[newPk].tenant == tenant && db.devices[newPk].id == id;
      return Ok(newPk);
    }

    /** Moves a row to another tenant; the unique index refuses a second row for
        the id there. */
    method Reassign(pk: DevicePk, target: Tenant) returns (r: Result<(), DeviceError>)
      requires UniqueDevices(db.devices)
      modifies db`devices
      ensures UniqueDevices(db.devices) && StaysInCap(old(db.devices), db.devices, target, quotaDevices)
      ensures r.Err? ==> db.devices == old(db.devices)
      ensures r == Err(NoRow) <==> pk !in old(db.devices)
      ensures r == Err(CapReached) <==>
                pk in old(db.devices) && !HasRoom(old(db.devices), target, old(db.devices)[pk].id, quotaDevices)
      ensures r == Err(DuplicateId) <==>
                pk in old(db.devices) && HasRoom(old(db.devices), target, old(db.devices)[pk].id, quotaDevices)
                && HasDevice(old(db.devices), target, old(db.devices)[pk].id)
                && TheDevice(old(db.devices), target, old(db.devices)[pk].id) != pk
      ensures r.Ok? ==>
        pk in old(db.devices) && db.devices == old(db.devices)[pk := old(db.devices)[pk].(tenant := target)]
                        && db.devices ==
                          Written(old(db.devices), Move(target, old(db.devices)[pk].id, pk), old(db.devices)[pk])
    {
      if pk !in db.devices { return Err(NoRow); }
      var d := db.devices[pk];
      var allowed := QuotaAllowDevice(target, d.id);
      if !allowed { return Err(CapReached); }
      if exists o :: o in db.devices && o != pk && db.devices[o].tenant == target && db.devices[o].id == d.id {
        return Err(DuplicateId);
      }
      AllowedWriteStaysInCap(db.devices, Move(target, d.id, pk), d.(tenant := target), quotaDevices);
      db.devices := db.devices[pk := d.(tenant := target)];
      return Ok(());
    }
  }

  /** An allowed write stays within the cap, or adds no row. */
  lemma AllowedWriteStaysInCap(devices: Devices, a: Adder, row: Device, cap: int)
    requires UniqueDevices(devices) && Fits(devices, a, row)
    requires QuotaAllows(devices, a.tenant, a.id, cap)
    ensures StaysInCap(devices, Written(devices, a, row), a.tenant, cap)
  {
    WriteFits(devices, a, row);
  }
}
