/** The database rows the device identity protocol shares. Digests, signatures
    and nonces are ideal: two digests are equal only for equal inputs. */
module Schema {
  import opened Prelude

  type Tenant = string
  type DeviceId = string
  type Pubkey = string
  type Serial = string
  type User = nat
  type DevicePk = nat
  type CertId = nat
  type Nonce = nat
  type Time = int

  const NO_USER: User := 0

  /** What Announce stores of a claim token. */
  datatype Digest = Sha256(token: string) | Hmac(key: string, token: string)

  /** A signature over one challenge by the private half of `signer`. */
  datatype Signature = Signature(signer: Pubkey, message: Nonce)

  /** device_enrollments is keyed on the pair, never on the id alone. */
  datatype EnrollKey = EnrollKey(id: DeviceId, pub: Pubkey)

  datatype Enrollment = Enrollment(
    tokenHash: Digest,
    failures: nat,
    challenge: Option<Nonce>,
    expires: Option<Time>,
    verifiedAt: Option<Time>,
    claimedBy: Option<Tenant>,
    claimedAt: Option<Time>,
    deliveredAt: Option<Time>,
    lastSeen: Time)

  /** `current` is broker_tenant_id, `stale` is broker_stale_tenants. */
  datatype Device = Device(
    tenant: Tenant,
    id: DeviceId,
    owner: Option<User>,
    prefix: Option<string>,
    pairedAt: Option<Time>,
    current: Option<Tenant>,
    stale: seq<Tenant>)

  datatype CertStatus = Pending | Active | Failed

  datatype Cert = Cert(
    device: DevicePk,
    serial: Serial,
    cn: string,
    status: CertStatus,
    revoked: bool,
    pub: Option<Pubkey>)

  datatype Tombstone = Tombstone(id: DeviceId, pub: Pubkey)

  type Enrollments = map<EnrollKey, Enrollment>
  type Devices = map<DevicePk, Device>
  type Certs = map<CertId, Cert>
  type Tombstones = map<Serial, Tombstone>

  /** The unique (tenant_id, device_id) index. */
  ghost predicate UniqueDevices(devices: Devices) {
    forall p, q ::
      p in devices && q in devices && devices[p].tenant == devices[q].tenant && devices[p].id == devices[q].id
      ==> p == q
  }

  ghost predicate HasDevice(devices: Devices, tenant: Tenant, id: DeviceId) {
    exists pk :: pk in devices && devices[pk].tenant == tenant && devices[pk].id == id
  }

  ghost function TheDevice(devices: Devices, tenant: Tenant, id: DeviceId): (pk: DevicePk)
    requires HasDevice(devices, tenant, id)
    ensures pk in devices && devices[pk].tenant == tenant && devices[pk].id == id
  {
    var pk :| pk in devices && devices[pk].tenant == tenant && devices[pk].id == id;
    pk
  }

  function OfTenant(devices: Devices, tenant: Tenant): set<DevicePk> {
    set pk | pk in devices && devices[pk].tenant == tenant
  }

  predicate QuotaFull(count: int, max: int) {
    max > 0 && count >= max
  }

  /** quotaAllowDevice: a device the tenant already has never counts twice. */
  ghost predicate QuotaAllows(devices: Devices, tenant: Tenant, id: DeviceId, max: int) {
    max <= 0 || HasDevice(devices, tenant, id) || !QuotaFull(|OfTenant(devices, tenant)|, max)
  }

  /** The tenant has the id already, or a row to spare. */
  ghost predicate HasRoom(devices: Devices, tenant: Tenant, id: DeviceId, cap: int) {
    || cap <= 0
    || (exists pk :: pk in devices && devices[pk].tenant == tenant && devices[pk].id == id)
    || |set pk | pk in devices && devices[pk].tenant == tenant| < cap
  }

  /** The shared tables; the services below hold a reference to one of these. */
  class Database {
    var enrollments: Enrollments
    var devices: Devices
    var certs: Certs
    var tombstones: Tombstones
    /** Transactions that failed and changed nothing. */
    ghost var faults: nat

    constructor ()
      ensures enrollments == map[] && devices == map[] && certs == map[] && tombstones == map[] && faults == 0
    {
      enrollments, devices, certs, tombstones, faults := map[], map[], map[], map[], 0;
    }

    /** A transaction may fail. */
    method Fails() returns (failed: bool)
      modifies `faults
      ensures faults == if failed then old(faults) + 1 else old(faults)
    {
      failed := *;
      if failed { faults := faults + 1; }
    }
  }
}
