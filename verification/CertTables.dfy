/** What each certificate transaction does to the tables, and the answer to a
    signed status check. A certificate row has no tenant column: the row policy
    shows it to the tenant its device row belongs to. */
module CertTables {
  import opened Prelude
  import opened Schema

  datatype CertError = NoDeviceRow | CNLive | NotPending | NoPubkey

  /** Row-level security on devices. */
  predicate Visible(devices: Devices, tenant: Tenant, pk: DevicePk) {
    pk in devices && devices[pk].tenant == tenant
  }

  datatype IssueRequest = IssueRequest(
    tenant: Tenant, device: DevicePk, serial: Serial, cn: string, status: CertStatus,
    pub: Option<Pubkey>, certId: CertId, now: Time)

  /** device_certificates_live_cn_uniq, after the device's own rows are revoked. */
  predicate CNHeldElsewhere(certs: Certs, device: DevicePk, cn: string) {
    exists c :: c in certs && certs[c].device != device && !certs[c].revoked && certs[c].cn == cn
  }

  function Superseded(certs: Certs, device: DevicePk): Certs {
    map c | c in certs :: if certs[c].device == device then certs[c].(revoked := true) else certs[c]
  }

  function IssueVerdict(devices: Devices, certs: Certs, r: IssueRequest): Result<CertId, CertError> {
    if !Visible(devices, r.tenant, r.device) then Err(NoDeviceRow)
    else if CNHeldElsewhere(certs, r.device, r.cn) then Err(CNLive)
    else Ok(r.certId)
  }

  function IssueCerts(devices: Devices, certs: Certs, r: IssueRequest): Certs {
    if IssueVerdict(devices, certs, r).Ok?
    then Superseded(certs, r.device)[r.certId := Cert(r.device, r.serial, r.cn, r.status, false, r.pub)]
    else certs
  }

  function WithPairing(devices: Devices, pk: DevicePk, at: Option<Time>): Devices
    requires pk in devices
  {
    devices[pk := devices[pk].(pairedAt := at)]
  }

  /** Born active: paired now. Born pending: unpaired until Activate. */
  function IssueDevices(devices: Devices, certs: Certs, r: IssueRequest): Devices {
    if IssueVerdict(devices, certs, r).Ok?
    then WithPairing(devices, r.device, if r.status == Active then Some(r.now) else None)
    else devices
  }

  /** A pending, unrevoked row the tenant can see. */
  predicate Flippable(devices: Devices, certs: Certs, tenant: Tenant, cert: CertId) {
    cert in certs && Visible(devices, tenant, certs[cert].device)
    && certs[cert].status == Pending && !certs[cert].revoked
  }

  predicate Activates(devices: Devices, certs: Certs, tenant: Tenant, cert: CertId, device: DevicePk) {
    Flippable(devices, certs, tenant, cert) && certs[cert].device == device
  }

  function ActivateCerts(devices: Devices, certs: Certs, tenant: Tenant, cert: CertId, device: DevicePk): Certs {
    if Activates(devices, certs, tenant, cert, device) then certs[cert := certs[cert].(status := Active)] else certs
  }

  function ActivateDevices(devices: Devices, certs: Certs, tenant: Tenant, cert: CertId, device: DevicePk,
                           now: Time): Devices {
    if Activates(devices, certs, tenant, cert, device) then WithPairing(devices, device, Some(now)) else devices
  }

  function MarkFailed(devices: Devices, certs: Certs, tenant: Tenant, cert: CertId): Certs {
    if Flippable(devices, certs, tenant, cert) then certs[cert := certs[cert].(status := Failed)] else certs
  }

  function RevokeCerts(devices: Devices, certs: Certs, tenant: Tenant, device: DevicePk): Certs {
    if Visible(devices, tenant, device) then Superseded(certs, device) else certs
  }

  function RevokeDevices(devices: Devices, tenant: Tenant, device: DevicePk): Devices {
    if Visible(devices, tenant, device) then WithPairing(devices, device, None) else devices
  }

  // ----- Deleting a device

  /** Serials are random and 128 bits long: no two rows share one. */
  predicate UniqueSerials(certs: Certs) {
    forall c, d :: c in certs && d in certs && certs[c].serial == certs[d].serial ==> c == d
  }

  /** The rows of `device` that carry an identity key. */
  function Bound(certs: Certs, device: DevicePk): set<CertId> {
    set c | c in certs && certs[c].device == device && certs[c].pub.Some?
  }

  /** DeleteByID copies the identity-bound serials of the device; a serial already
      on record keeps its entry (ON CONFLICT DO NOTHING). */
  function Buried(devices: Devices, certs: Certs, tombs: Tombstones, device: DevicePk): Tombstones
    requires device in devices && UniqueSerials(certs)
  {
    map s | s in tombs.Keys + set c | c in Bound(certs, device) :: certs[c].serial ::
      if s in tombs then tombs[s]
      else var c :| c in Bound(certs, device) && certs[c].serial == s;
        Tombstone(devices[device].id, certs[c].pub.value)
  }

  function WithoutDevice(devices: Devices, certs: Certs, device: DevicePk): (r: Certs)
    ensures forall c :: c in r <==> c in certs && certs[c].device != device
  {
    map c | c in certs && certs[c].device != device :: certs[c]
  }

  // ----- The status check

  datatype Answer = AnswerActive | AnswerRevoked | AnswerUnknown

  datatype CertStatusRow = CertStatusRow(revoked: bool, status: CertStatus, pub: Pubkey, id: DeviceId)

  function CertRevocationAnswer(id: DeviceId, pub: Pubkey, row: Option<CertStatusRow>,
                                tomb: Option<Tombstone>): Answer {
    if row.Some? then
      if row.value.pub == "" || row.value.pub != pub || row.value.id != id then AnswerUnknown
      else if row.value.revoked then AnswerRevoked
      else if row.value.status == Active then AnswerActive
      else AnswerUnknown
    else if tomb.Some? && tomb.value.pub == pub && tomb.value.id == id then AnswerRevoked
    else AnswerUnknown
  }

  predicate HasRow(devices: Devices, certs: Certs, serial: Serial) {
    exists c :: c in certs && certs[c].device in devices && certs[c].serial == serial
  }

  ghost function TheRow(devices: Devices, certs: Certs, serial: Serial): (c: CertId)
    requires HasRow(devices, certs, serial)
    ensures c in certs && certs[c].device in devices && certs[c].serial == serial
  {
    var c :| c in certs && certs[c].device in devices && certs[c].serial == serial;
    c
  }

  function RowOf(devices: Devices, cert: Cert): CertStatusRow
    requires cert.device in devices
  {
    CertStatusRow(cert.revoked, cert.status, if cert.pub.Some? then cert.pub.value else "", devices[cert.device].id)
  }

  /** The row is looked for first, the tombstone only when there is none. */
  ghost function Answered(devices: Devices, certs: Certs, tombs: Tombstones, id: DeviceId, pub: Pubkey,
                          serial: Serial): Answer {
    if HasRow(devices, certs, serial)
    then CertRevocationAnswer(id, pub, Some(RowOf(devices, certs[TheRow(devices, certs, serial)])), None)
    else CertRevocationAnswer(id, pub, None, if serial in tombs then Some(tombs[serial]) else None)
  }
}
