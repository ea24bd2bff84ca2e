/** The broker identity ledger: what a device row records about the broker
    clients named after it, and what each transaction does to that record. */
module BrokerTables {
  import opened Prelude
  import opened Schema
  import opened EnrollmentTables

  datatype ReserveError = NoSuchRow | Taken

  /** A row other than pk holds the tenant's identity for the id, live or stale. */
  ghost predicate HeldElsewhere(devices: Devices, tenant: Tenant, id: DeviceId, pk: DevicePk) {
    exists o :: o in devices && devices[o].id == id && o != pk && Holds(devices[o], tenant)
  }

  function Without(s: seq<Tenant>, t: Tenant): (r: seq<Tenant>)
    ensures forall x :: x in r <==> x in s && x != t
  {
    if s == [] then []
    else if s[0] == t then Without(s[1..], t)
    else [s[0]] + Without(s[1..], t)
  }

  /** The row after a reservation: the identity it had, if another, goes stale. */
  function Reserved(d: Device, tenant: Tenant): Device {
    var moved :=
      if d.current.Some? && d.current.value != tenant && d.current.value !in d.stale
      then d.stale + [d.current.value] else d.stale;
    d.(current := Some(tenant), stale := Without(moved, tenant))
  }

  ghost function ReserveVerdict(devices: Devices, tenant: Tenant, id: DeviceId): Result<DevicePk, ReserveError> {
    if !HasDevice(devices, tenant, id) then Err(NoSuchRow)
    else if HeldElsewhere(devices, tenant, id, TheDevice(devices, tenant, id)) then Err(Taken)
    else Ok(TheDevice(devices, tenant, id))
  }

  ghost function Reserve(devices: Devices, tenant: Tenant, id: DeviceId): Devices {
    match ReserveVerdict(devices, tenant, id)
    case Ok(pk) => devices[pk := Reserved(devices[pk], tenant)]
    case Err(_) => devices
  }

  /** The current identity a lookup answers, from the caller's snapshot of the
      row's tenant. Unrecorded falls back to the snapshot, unless the identity of
      the tenant the row has now is held elsewhere. */
  ghost function CurrentIdentity(devices: Devices, pk: DevicePk, snapshot: Tenant): Option<Tenant>
    requires pk in devices
  {
    var d := devices[pk];
    if d.current.Some? then d.current
    else if HeldElsewhere(devices, d.tenant, d.id, pk) then None
    else Some(snapshot)
  }

  /** BrokerIdentity.Tenants: current first, no duplicates, no empties. */
  function AppendNew(out: seq<Tenant>, more: seq<Tenant>): (r: seq<Tenant>)
    requires forall i, j :: 0 <= i < j < |out| ==> out[i] != out[j]
    requires "" !in out
    ensures out <= r && "" !in r
    ensures forall i, j :: 0 <= i < j < |r| ==> r[i] != r[j]
    ensures forall t :: t in r <==> t in out || (t in more && t != "")
    decreases |more|
  {
    if more == [] then out
    else if more[0] != "" && more[0] !in out then AppendNew(out + [more[0]], more[1..])
    else AppendNew(out, more[1..])
  }

  function Tenants(current: Option<Tenant>, stale: seq<Tenant>): seq<Tenant> {
    AppendNew([], (if current.Some? then [current.value] else []) + stale)
  }

  /** ForgetBrokerIdentity, under the row-level policy of `scope`. */
  function Forget(devices: Devices, scope: Tenant, pk: DevicePk, identity: Tenant): Devices {
    if pk in devices && devices[pk].tenant == scope then
      var d := devices[pk];
      devices[pk := d.(current := if d.current == Some(identity) then None else d.current,
                       stale := Without(d.stale, identity))]
    else devices
  }

  /** The name a client and a certificate carry on the broker. */
  function CertCN(tenant: Tenant, id: DeviceId): string {
    "thesada-" + tenant + "-" + id
  }

  /** `od` is `id` behind a front and a dash, and `t` carries the same front behind `u`. */
  predicate RunsInto(t: Tenant, id: DeviceId, u: Tenant, od: DeviceId) {
    |id| < |od| && od[|od| - |id| - 1..] == "-" + id && t == u + "-" + od[..|od| - |id| - 1]
  }

  /** Two different identities whose parts run together into one name. */
  predicate Overlap(t: Tenant, id: DeviceId, u: Tenant, od: DeviceId) {
    RunsInto(t, id, u, od) || RunsInto(u, od, t, id)
  }

  lemma RunningIntoSharesName(t: Tenant, id: DeviceId, u: Tenant, od: DeviceId)
    requires RunsInto(t, id, u, od)
    ensures CertCN(t, id) == CertCN(u, od)
  {
    var front := od[..|od| - |id| - 1];
    assert od == front + "-" + id;
    assert CertCN(u, od) == "thesada-" + u + "-" + front + "-" + id;
  }

  /** A name read from its end, by an id it ends in. */
  lemma NameParts(t: Tenant, id: DeviceId)
    ensures var a := CertCN(t, id); a[8..|a| - |id| - 1] == t && a[|a| - |id| - 1] == '-' && a[|a| - |id|..] == id
  {
  }

  lemma LongerIdSharesName(t: Tenant, id: DeviceId, u: Tenant, od: DeviceId)
    requires |id| <= |od| && CertCN(t, id) == CertCN(u, od)
    ensures (t == u && id == od) || RunsInto(t, id, u, od)
  {
    var a, n := CertCN(t, id), |od| - |id|;
    NameParts(t, id);
    NameParts(u, od);
    assert od[n..] == a[|a| - |id|..] == id;
    if n > 0 {
      assert od[n - 1] == a[|a| - |id| - 1] == '-';
      assert od[n - 1..] == "-" + id;
      assert a[8..|a| - |id| - 1] == u + "-" + od[..n - 1];
    }
  }

  /** Two identities have one name exactly when they are one identity or overlap. */
  lemma CertCNNamesOneIdentity(t: Tenant, id: DeviceId, u: Tenant, od: DeviceId)
    ensures CertCN(t, id) == CertCN(u, od) <==> (t == u && id == od) || Overlap(t, id, u, od)
    ensures Overlap(t, id, u, od) ==> |id| != |od|
  {
    if RunsInto(t, id, u, od) { RunningIntoSharesName(t, id, u, od); }
    if RunsInto(u, od, t, id) { RunningIntoSharesName(u, od, t, id); }
    if CertCN(t, id) == CertCN(u, od) {
      if |id| <= |od| { LongerIdSharesName(t, id, u, od); } else { LongerIdSharesName(u, od, t, id); }
    }
  }

  /** Operator-named ids differ in length, and then two identities can share a name. */
  lemma CertCNCanCollide()
    ensures CertCN("acme", "lab-owb") == CertCN("acme-lab", "owb") && Overlap("acme", "lab-owb", "acme-lab", "owb")
  {
    assert CertCN("acme", "lab-owb") == "thesada-acme-lab-owb" == CertCN("acme-lab", "owb");
    CertCNNamesOneIdentity("acme", "lab-owb", "acme-lab", "owb");
  }

  /** No two rows of one device id hold one identity; no row's current is stale. */
  ghost predicate Exclusive(devices: Devices) {
    && (forall p, q, t ::
          (p in devices && q in devices && devices[p].id == devices[q].id && Holds(devices[p], t)
           && Holds(devices[q], t))
          ==> p == q)
    && (forall p :: p in devices && devices[p].current.Some? ==> devices[p].current.value !in devices[p].stale)
  }

  /** A lookup answers an identity another row holds exactly when the row is
      unrecorded and the caller's snapshot names a tenant the row has left, whose
      identity is held elsewhere while that of its present tenant is not. */
  lemma LookupNamesForeignIdentityIff(devices: Devices, pk: DevicePk, snapshot: Tenant)
    requires Exclusive(devices) && pk in devices
    ensures var d, c := devices[pk], CurrentIdentity(devices, pk, snapshot);
      (exists t :: (t in d.stale || c == Some(t)) && HeldElsewhere(devices, t, d.id, pk))
      <==> d.current.None? && snapshot != d.tenant && HeldElsewhere(devices, snapshot, d.id, pk)
           && !HeldElsewhere(devices, d.tenant, d.id, pk)
  {
    var d, c := devices[pk], CurrentIdentity(devices, pk, snapshot);
    forall t | Holds(d, t) ensures !HeldElsewhere(devices, t, d.id, pk) {}
    if d.current.None? && !HeldElsewhere(devices, d.tenant, d.id, pk) {
      assert c == Some(snapshot);
    }
  }

  /** With the row's own tenant as snapshot, it never does. */
  lemma CurrentSnapshotIsSafe(devices: Devices, pk: DevicePk)
    requires Exclusive(devices) && pk in devices
    ensures var d, c := devices[pk], CurrentIdentity(devices, pk, devices[pk].tenant);
      forall t :: t in Tenants(c, d.stale) ==> !HeldElsewhere(devices, t, d.id, pk)
  {
    LookupNamesForeignIdentityIff(devices, pk, devices[pk].tenant);
  }

  /** A row other than pk holds an identity with the name of (tenant, id). */
  ghost predicate NameHeldElsewhere(devices: Devices, tenant: Tenant, id: DeviceId, pk: DevicePk) {
    exists o, u :: o in devices && o != pk && Holds(devices[o], u) && CertCN(u, devices[o].id) == CertCN(tenant, id)
  }

  /** A row other than pk holds a different identity that overlaps (tenant, id). */
  ghost predicate OverlapsElsewhere(devices: Devices, tenant: Tenant, id: DeviceId, pk: DevicePk) {
    exists o, u :: o in devices && o != pk && Holds(devices[o], u) && Overlap(tenant, id, u, devices[o].id)
  }

  lemma NameHeldIff(devices: Devices, tenant: Tenant, id: DeviceId, pk: DevicePk)
    ensures NameHeldElsewhere(devices, tenant, id, pk) <==>
              HeldElsewhere(devices, tenant, id, pk) || OverlapsElsewhere(devices, tenant, id, pk)
  {
    forall o, u | o in devices && Holds(devices[o], u)
      ensures CertCN(u, devices[o].id) == CertCN(tenant, id) <==>
                (u == tenant && devices[o].id == id) || Overlap(tenant, id, u, devices[o].id)
    {
      CertCNNamesOneIdentity(tenant, id, u, devices[o].id);
    }
  }

  /** Of the lost clients, one that another row held overlaps an identity of `id`; so
      none did if that row's id is as long as this one. */
  ghost predicate SparesOthers(devices: Devices, pk: DevicePk, id: DeviceId, lost: set<string>) {
    forall o, u :: o in devices && o != pk && Holds(devices[o], u) && CertCN(u, devices[o].id) in lost ==>
      |devices[o].id| != |id| && exists t: Tenant :: Overlap(t, id, u, devices[o].id)
  }

  lemma LosingOwnSparesOthers(devices: Devices, pk: DevicePk, id: DeviceId, tenants: seq<Tenant>, lost: set<string>)
    requires forall t :: t in tenants ==> !HeldElsewhere(devices, t, id, pk)
    requires forall c :: c in lost ==> exists t :: t in tenants && CertCN(t, id) == c
    ensures SparesOthers(devices, pk, id, lost)
  {
    forall o, u | o in devices && o != pk && Holds(devices[o], u) && CertCN(u, devices[o].id) in lost
      ensures |devices[o].id| != |id| && exists t: Tenant :: Overlap(t, id, u, devices[o].id)
    {
      var t :| t in tenants && CertCN(t, id) == CertCN(u, devices[o].id);
      assert !HeldElsewhere(devices, t, id, pk);
      CertCNNamesOneIdentity(t, id, u, devices[o].id);
    }
  }

  /** While every other row's id has the length of this one's, nothing overlaps. */
  lemma OneLengthNeverOverlaps(devices: Devices, tenant: Tenant, id: DeviceId, pk: DevicePk)
    requires forall o :: o in devices && o != pk ==> |devices[o].id| == |id|
    ensures !OverlapsElsewhere(devices, tenant, id, pk)
  {
  }

  /** A unit provisioned in a was reassigned to c and keeps a's identity; a second
      row for the id appeared in a, unrecorded, and was just reassigned to b. A
      teardown that still believes the second row is in a names the first unit's
      live client. */
  lemma StaleSnapshotNamesForeignClient() returns (devices: Devices, pk: DevicePk, other: DevicePk, snapshot: Tenant)
    ensures Exclusive(devices) && UniqueDevices(devices) && pk in devices && other in devices && pk != other
    ensures CurrentIdentity(devices, pk, snapshot) == Some(snapshot)
    ensures devices[other].id == devices[pk].id && devices[other].current == Some(snapshot)
  {
    var second := Device("b", "unit", None, None, None, None, []);
    var first := second.(tenant := "c", current := Some("a"));
    devices, pk, other, snapshot := map[1 := second, 2 := first], 1, 2, "a";
    assert Holds(first, "a") && !Holds(second, "b") && !Holds(first, "b");
  }

  /** A claim that creates the tenant's row is never followed by a refused
      reservation: under the unique (tenant, device id) index the claim's check
      and the reservation's are the same one. */
  lemma ClaimThenReserveIsNeverRefused(rows: Enrollments, devices: Devices, r: ClaimRequest)
    requires UniqueDevices(devices) && r.newPk !in devices && MakesClaim(rows, devices, r)
    ensures var after := ClaimDevices(rows, devices, r);
      UniqueDevices(after) && ReserveVerdict(after, r.tenant, r.key.id).Ok?
  {
    var after := ClaimDevices(rows, devices, r);
    var pk := ClaimDevicePk(devices, r);
    assert after[pk].tenant == r.tenant && after[pk].id == r.key.id;
    assert HasDevice(after, r.tenant, r.key.id);
    forall o | o in after && o != pk ensures after[o] == devices[o] {}
  }
}
