/** The methods that keep the ledger and drive the broker, step by step. A broker
    call may be lost on the way in, act and lose its answer, or be answered. */
module BrokerService {
  import opened Prelude
  import opened Schema
  import opened EnrollmentTables
  import opened BrokerTables
  import opened BrokerLedger

  datatype Reply = Done | AlreadyThere | Gone | Lost

  class Broker {
    var clients: set<Client>
    var calls: nat
    /** Clients whose row a delete took although its teardown was unclean. */
    ghost var reported: set<Client>
    /** Calls without an answer, and deadlines that passed before a call. */
    ghost var lost: nat
    ghost var expired: nat

    constructor ()
      ensures clients == {} && calls == 0 && reported == {} && lost == expired == 0
    {
      clients, calls, reported, lost, expired := {}, 0, {}, 0, 0;
    }

    /** The role behind a client; its own state is not kept. */
    method EnsureRole() returns (r: Reply)
      modifies `lost
      ensures r == Done || r == Lost
      ensures lost == if r == Lost then old(lost) + 1 else old(lost)
    {
      var answered: bool := *;
      r := if answered then Done else Lost;
      if !answered { lost := lost + 1; }
    }

    method DeadlinePassed() returns (passed: bool)
      modifies `expired
      ensures expired == if passed then old(expired) + 1 else old(expired)
    {
      passed := *;
      if passed { expired := expired + 1; }
    }

    method CreateClient(c: Client) returns (r: Reply)
      modifies `clients, `calls, `lost
      ensures clients == old(clients) || clients == old(clients) + {c}
      ensures r != Gone && (r != Lost ==> c in clients)
      ensures calls == old(calls) + 1
      ensures lost == if r == Lost then old(lost) + 1 else old(lost)
    {
      calls := calls + 1;
      var delivered: bool, answered: bool := *, *;
      r := if c in clients then AlreadyThere else Done;
      if delivered { clients := clients + {c}; }
      if !delivered || !answered { r, lost := Lost, lost + 1; }
    }

    method DeleteClient(c: Client) returns (r: Reply)
      modifies `clients, `calls, `lost
      ensures clients == old(clients) || clients == old(clients) - {c}
      ensures r != AlreadyThere && (r != Lost ==> c !in clients)
      ensures calls == old(calls) + 1
      ensures lost == if r == Lost then old(lost) + 1 else old(lost)
    {
      calls := calls + 1;
      var delivered: bool, answered: bool := *, *;
      r := if c in clients then Done else Gone;
      if delivered { clients := clients - {c}; }
      if !delivered || !answered { r, lost := Lost, lost + 1; }
    }
  }

  const TEARDOWN_ATTEMPTS: nat := 3

  /** What a device row holds on the broker, as a lookup answers it. */
  datatype BrokerIdentity = BrokerIdentity(pk: DevicePk, current: Option<Tenant>, stale: seq<Tenant>) {

    /** Every identity to delete, current first, each once. */
    method Tenants() returns (out: seq<Tenant>)
      ensures out == BrokerTables.Tenants(current, stale)
    {
      out := [];
      var all := (if current.Some? then [current.value] else []) + stale;
      for i := 0 to |all|
        invariant "" !in out && forall a, b :: 0 <= a < b < |out| ==> out[a] != out[b]
        invariant AppendNew([], all) == AppendNew(out, all[i..])
      {
        if all[i] != "" && all[i] !in out {
          out := out + [all[i]];
        }
      }
    }
  }

  ghost predicate RecordedOn(devices: Devices, c: Client) {
    exists p, t :: p in devices && Holds(devices[p], t) && CertCN(t, devices[p].id) == c
  }

  /** The tenant has a row for the id, and no other row holds its identity. */
  ghost predicate Reservable(devices: Devices, tenant: Tenant, id: DeviceId) {
    exists pk :: pk in devices && devices[pk].tenant == tenant && devices[pk].id == id
      && forall o :: o in devices && o != pk && devices[o].id == id ==>
        devices[o].current != Some(tenant) && tenant !in devices[o].stale
  }

  /** The row only lets go of identities; every other column stays. */
  predicate OnlyLets(was: Device, now: Device) {
    now == was.(current := now.current, stale := now.stale)
    && (now.current == was.current || now.current.None?) && forall t :: t in now.stale ==> t in was.stale
  }

  class DeviceService {
    const db: Database
    const broker: Broker

    constructor (db: Database, broker: Broker)
      ensures this.db == db && this.broker == broker
    {
      this.db, this.broker := db, broker;
    }

    /** Records, before any broker write, that the row (tenant, id) holds the
        identity issued under its tenant. */
    method ReserveBrokerIdentity(tenant: Tenant, id: DeviceId) returns (r: Result<BrokerIdentity, ReserveError>)
      requires UniqueDevices(db.devices)
      modifies db`devices
      ensures db.devices == Reserve(old(db.devices), tenant, id)
      ensures match ReserveVerdict(old(db.devices), tenant, id)
              case Err(e) => r == Err(e)
              case Ok(pk) => r == Ok(BrokerIdentity(pk, Some(tenant), db.devices[pk].stale))
      // It goes through exactly when the row is there and no other row has the identity.
      ensures r.Ok? <==> Reservable(old(db.devices), tenant, id)
    {
      if pk :| pk in db.devices && db.devices[pk].tenant == tenant && db.devices[pk].id == id {
        var d := db.devices[pk];
        if exists o :: o in db.devices && db.devices[o].id == id && o != pk && Holds(db.devices[o], tenant) {
          return Err(Taken);
        }
        var stale := d.stale;
        if d.current.Some? && d.current.value != tenant && d.current.value !in stale {
          stale := stale + [d.current.value];
        }
        stale := Without(stale, tenant);
        db.devices := db.devices[pk := d.(current := Some(tenant), stale := stale)];
        return Ok(BrokerIdentity(pk, Some(tenant), stale));
      }
      return Err(NoSuchRow);
    }

    /** None when the row does not exist. */
    method BrokerIdentityOf(pk: DevicePk, snapshot: Tenant) returns (r: Option<BrokerIdentity>)
      ensures r == if pk in db.devices
                   then Some(BrokerIdentity(pk, CurrentIdentity(db.devices, pk, snapshot), db.devices[pk].stale))
                   else None
    {
      if pk !in db.devices { return None; }
      var d := db.devices[pk];
      var heldElsewhere := exists o ::
        o in db.devices && db.devices[o].id == d.id && o != pk && Holds(db.devices[o], d.tenant);
      var current := d.current;
      if current.None? && !heldElsewhere {
        current := Some(snapshot);
      }
      return Some(BrokerIdentity(pk, current, d.stale));
    }

    method ForgetBrokerIdentity(scope: Tenant, pk: DevicePk, identity: Tenant)
      modifies db`devices
      ensures db.devices == Forget(old(db.devices), scope, pk, identity)
    {
      if pk in db.devices && db.devices[pk].tenant == scope {
        var d := db.devices[pk];
        db.devices := db.devices[pk := d.(current := if d.current == Some(identity) then None else d.current,
                                          stale := Without(d.stale, identity))];
      }
    }

    /** Deletes until the client is gone, the attempts run out or the deadline
        passes. True only when the client is gone. */
    method RetryDynsecDelete(c: Client) returns (gone: bool)
      modifies broker`clients, broker`calls, broker`lost, broker`expired
      ensures gone ==> c !in broker.clients
      // It gives up only on a deadline or after three lost calls.
      ensures broker.lost >= old(broker.lost) && broker.expired >= old(broker.expired)
      ensures !gone ==> broker.expired > old(broker.expired) || broker.lost == old(broker.lost) + 3
      ensures broker.clients == old(broker.clients) || broker.clients == old(broker.clients) - {c}
      ensures broker.calls <= old(broker.calls) + TEARDOWN_ATTEMPTS
    {
      for attempt := 0 to TEARDOWN_ATTEMPTS
        invariant broker.clients == old(broker.clients) || broker.clients == old(broker.clients) - {c}
        invariant broker.calls == old(broker.calls) + attempt && broker.lost == old(broker.lost) + attempt
        invariant broker.expired == old(broker.expired)
      {
        var passed := broker.DeadlinePassed();
        if passed { return false; }
        var r := broker.DeleteClient(c);
        if r == Done || r == Gone { return true; }
      }
      return false;
    }

    /** The clients of one id that a list of tenants names. */
    ghost function Named(id: DeviceId, tenants: seq<Tenant>): set<Client> {
      set t | t in tenants :: CertCN(t, id)
    }

    /** Every client is recorded on some row, or was reported. */
    ghost predicate AllRecorded()
      reads db, broker
    {
      forall c :: c in broker.clients ==> c in broker.reported || RecordedOn(db.devices, c)
    }

    /** One identity: its client goes, and then its record. */
    method DeleteIdentity(pk: DevicePk, scope: Tenant, id: DeviceId, t: Tenant) returns (gone: bool)
      requires db as object != broker
      requires AllRecorded() && (pk in db.devices ==> db.devices[pk].id == id)
      modifies db`devices, db`faults, broker`clients, broker`calls, broker`lost, broker`expired
      ensures AllRecorded()
      ensures broker.clients == old(broker.clients) || broker.clients == old(broker.clients) - {CertCN(t, id)}
      ensures gone ==> CertCN(t, id) !in broker.clients
      ensures db.devices == old(db.devices) || (gone && db.devices == Forget(old(db.devices), scope, pk, t))
      ensures db.faults >= old(db.faults) && broker.lost >= old(broker.lost) && broker.expired >= old(broker.expired)
      ensures !gone ==> broker.expired > old(broker.expired) || broker.lost == old(broker.lost) + 3
      ensures gone && db.faults == old(db.faults) ==> db.devices == Forget(old(db.devices), scope, pk, t)
    {
      gone := RetryDynsecDelete(CertCN(t, id));
      if !gone { return; }
      var failed := db.Fails();
      if failed { return; }
      ghost var before := db.devices;
      ForgetRows(db.devices, scope, pk, t);
      ForgetBrokerIdentity(scope, pk, t);
      forall c | c in broker.clients && c !in broker.reported
        ensures RecordedOn(db.devices, c)
      {
        var p, u :| p in before && Holds(before[p], u) && CertCN(u, before[p].id) == c;
        assert p in db.devices && Holds(db.devices[p], u) && CertCN(u, db.devices[p].id) == c;
      }
    }

    /** Deletes each listed identity and forgets those that went. Only listed
        clients go, only this row's record shrinks, and an identity is forgotten
        only once its client is gone, so nothing becomes unrecorded. */
    method DeleteStaleIdentities(pk: DevicePk, scope: Tenant, id: DeviceId, tenants: seq<Tenant>) returns (clean: bool)
      requires db as object != broker
      requires AllRecorded() && (pk in db.devices ==> db.devices[pk].id == id)
      modifies db`devices, db`faults, broker`clients, broker`calls, broker`lost, broker`expired
      ensures AllRecorded()
      ensures clean ==> broker.clients * Named(id, tenants) == {}
      // Unclean only on a deadline or a client whose three deletes were lost; clean, and with
      // no forget failing, the row of that tenant holds none of them.
      ensures db.faults >= old(db.faults) && broker.lost >= old(broker.lost) && broker.expired >= old(broker.expired)
      ensures !clean ==> broker.expired > old(broker.expired) || broker.lost >= old(broker.lost) + 3
      ensures clean && db.faults == old(db.faults) && pk in db.devices && db.devices[pk].tenant == scope ==>
                forall t :: t in tenants ==> !Holds(db.devices[pk], t)
      ensures old(broker.clients) - Named(id, tenants) <= broker.clients <= old(broker.clients)
      ensures db.devices.Keys == old(db.devices).Keys
      ensures forall p :: p in db.devices && p != pk ==> db.devices[p] == old(db.devices)[p]
      ensures pk in db.devices ==> OnlyLets(old(db.devices)[pk], db.devices[pk])
      ensures pk in old(db.devices) && old(db.devices)[pk].tenant != scope ==> db.devices == old(db.devices)
      ensures forall p, t :: p in db.devices && Holds(old(db.devices)[p], t) && !Holds(db.devices[p], t) ==>
                p == pk && t in tenants && CertCN(t, id) !in broker.clients
      ensures pk in db.devices && (old(db.devices)[pk].current.None?
                                 || old(db.devices)[pk].current.value !in tenants) ==>
                db.devices[pk].current == old(db.devices)[pk].current
    {
      clean := true;
      for i := 0 to |tenants|
        invariant AllRecorded()
        invariant clean ==> broker.clients * Named(id, tenants[..i]) == {}
        invariant db.faults >= old(db.faults) && broker.lost >= old(broker.lost)
        invariant broker.expired >= old(broker.expired)
        invariant !clean ==> broker.expired > old(broker.expired) || broker.lost >= old(broker.lost) + 3
        invariant clean && db.faults == old(db.faults) && pk in db.devices && db.devices[pk].tenant == scope ==>
                    forall t :: t in tenants[..i] ==> !Holds(db.devices[pk], t)
        invariant old(broker.clients) - Named(id, tenants) <= broker.clients <= old(broker.clients)
        invariant db.devices.Keys == old(db.devices).Keys
        invariant pk in db.devices ==> db.devices[pk].id == id
        invariant forall p :: p in db.devices && p != pk ==> db.devices[p] == old(db.devices)[p]
        invariant pk in db.devices ==> OnlyLets(old(db.devices)[pk], db.devices[pk])
        invariant pk in old(db.devices) && old(db.devices)[pk].tenant != scope ==> db.devices == old(db.devices)
        invariant forall p, t :: p in db.devices && Holds(old(db.devices)[p], t) && !Holds(db.devices[p], t) ==>
                    p == pk && t in tenants && CertCN(t, id) !in broker.clients
        invariant pk in db.devices && (old(db.devices)[pk].current.None?
                                     || old(db.devices)[pk].current.value !in tenants) ==>
                    db.devices[pk].current == old(db.devices)[pk].current
      {
        var t := tenants[i];
        assert CertCN(t, id) in Named(id, tenants);
        assert tenants[..i + 1] == tenants[..i] + [t];
        assert Named(id, tenants[..i + 1]) == Named(id, tenants[..i]) + {CertCN(t, id)};
        ForgetRows(db.devices, scope, pk, t);
        var gone := DeleteIdentity(pk, scope, id, t);
        if !gone { clean := false; }
      }
      assert tenants[..|tenants|] == tenants;
    }

    /** The tenant's row for the id holds its identity and no other. */
    static ghost predicate HoldsOnly(devices: Devices, tenant: Tenant, id: DeviceId) {
      exists pk :: pk in devices && devices[pk].tenant == tenant && devices[pk].id == id
        && devices[pk].current == Some(tenant) && devices[pk].stale == []
    }

    /** The clients of every other identity the row held are gone. */
    static ghost predicate OthersGone(was: Devices, tenant: Tenant, id: DeviceId, clients: set<Client>) {
      forall pk, t :: pk in was && was[pk].tenant == tenant && was[pk].id == id && Holds(was[pk], t) && t != tenant ==>
        CertCN(t, id) !in clients
    }

    /** A row reserved for the tenant that let go of all it had gone stale. */
    lemma ProvisionEnds(was: Devices, now: Devices, pk: DevicePk, tenant: Tenant, id: DeviceId, clients: set<Client>)
      requires UniqueDevices(was) && pk in was && was[pk].tenant == tenant && was[pk].id == id && pk in now
      requires var reserved := Reserved(was[pk], tenant);
        && OnlyLets(reserved, now[pk]) && now[pk].current == Some(tenant)
        && (forall t :: t in reserved.stale ==> !Holds(now[pk], t))
        && clients * Named(id, reserved.stale) == {}
      ensures HoldsOnly(now, tenant, id) && OthersGone(was, tenant, id, clients)
    {
      var reserved := Reserved(was[pk], tenant);
      if now[pk].stale != [] { assert Holds(now[pk], now[pk].stale[0]); }
      ReservedHolds(was[pk], tenant);
      forall t | Holds(was[pk], t) && t != tenant ensures CertCN(t, id) !in clients {
        assert t in reserved.stale;
        assert CertCN(t, id) !in clients * Named(id, reserved.stale);
      }
    }

    /** A reservation drops no identity. */
    lemma ReserveKeepsRecords(was: Devices, pk: DevicePk, tenant: Tenant, clients: set<Client>, reported: set<Client>)
      requires pk in was && forall c :: c in clients ==> c in reported || RecordedOn(was, c)
      ensures forall c :: c in clients ==> c in reported || RecordedOn(was[pk := Reserved(was[pk], tenant)], c)
    {
      var now := was[pk := Reserved(was[pk], tenant)];
      ReservedHolds(was[pk], tenant);
      forall c | c in clients && c !in reported ensures RecordedOn(now, c) {
        var p, u :| p in was && Holds(was[p], u) && CertCN(u, was[p].id) == c;
        assert p in now && Holds(now[p], u) && CertCN(u, now[p].id) == c;
      }
    }

    /** Reserve, write the client, then delete what went stale. A refused
        reservation touches nothing; success leaves the client live, recorded as
        the row's current identity. Every client stays recorded throughout. */
    method ProvisionDeviceDynsec(tenant: Tenant, id: DeviceId) returns (ok: bool)
      requires db as object != broker
      requires UniqueDevices(db.devices) && Exclusive(db.devices) && AllRecorded()
      modifies db`devices, db`faults, broker`clients, broker`calls, broker`lost, broker`expired
      ensures AllRecorded()
      // It fails only on a refused reservation or a lost call; with nothing in the way the
      // row then holds the one identity, and the clients of those before are gone.
      ensures ok <== Reservable(old(db.devices), tenant, id) && broker.lost == old(broker.lost)
      ensures ok && (db.faults, broker.lost, broker.expired) == old((db.faults, broker.lost, broker.expired))
              ==> HoldsOnly(db.devices, tenant, id) && OthersGone(old(db.devices), tenant, id, broker.clients)
      ensures ok ==> CertCN(tenant, id) in broker.clients && ReserveVerdict(old(db.devices), tenant, id).Ok?
                     && var pk := ReserveVerdict(old(db.devices), tenant, id).value;
                        pk in db.devices && db.devices[pk].current == Some(tenant)
      ensures ReserveVerdict(old(db.devices), tenant, id).Err? ==>
                !ok && db.devices == old(db.devices) && broker.clients == old(broker.clients)
      ensures db.devices.Keys == old(db.devices).Keys
      ensures forall p :: p in db.devices && ReserveVerdict(old(db.devices), tenant, id) != Ok(p) ==>
                db.devices[p] == old(db.devices)[p]
      // A client another row held is lost only to an overlap of names.
      ensures forall pk :: ReserveVerdict(old(db.devices), tenant, id) == Ok(pk) ==>
                SparesOthers(old(db.devices), pk, id, old(broker.clients) - broker.clients)
    {
      ghost var before := db.devices;
      var reserved := ReserveBrokerIdentity(tenant, id);
      if reserved.Err? { return false; }
      var identity := reserved.value;
      ReservedHolds(before[identity.pk], tenant);
      ReserveKeepsRecords(before, identity.pk, tenant, broker.clients, broker.reported);
      assert Holds(db.devices[identity.pk], tenant);
      var role := broker.EnsureRole();
      if role == Lost { return false; }
      var written := broker.CreateClient(CertCN(tenant, id));
      if written != Done && written != AlreadyThere { return false; }
      label written:
      forall t | t in identity.stale
        ensures CertCN(t, id) != CertCN(tenant, id) && !HeldElsewhere(before, t, id, identity.pk) {
        CertCNNamesOneIdentity(t, id, tenant, id);
        assert Holds(before[identity.pk], t);
      }
      assert CertCN(tenant, id) !in Named(id, identity.stale);
      var clean := DeleteStaleIdentities(identity.pk, tenant, id, identity.stale);
      LosingOwnSparesOthers(before, identity.pk, id, identity.stale, old(broker.clients) - broker.clients);
      if clean && db.faults == old(db.faults) {
        ProvisionEnds(before, db.devices, identity.pk, tenant, id, broker.clients);
      }
      return true;
    }

    /** The inverse: looks the row's identities up and deletes them all. A failed
        lookup deletes nothing and is not clean. */
    method TeardownDeviceDynsec(pk: DevicePk, snapshot: Tenant, id: DeviceId) returns (clean: bool)
      requires db as object != broker
      requires AllRecorded() && Slugged(db.devices) && (pk in db.devices ==> db.devices[pk].id == id)
      modifies db`devices, db`faults, broker`clients, broker`calls, broker`lost, broker`expired
      ensures AllRecorded()
      // Unclean only where there is no row, a lookup failed, a deadline passed or three calls
      // were lost; clean from a current snapshot, the row holds nothing, if no forget failed.
      ensures db.faults >= old(db.faults) && broker.lost >= old(broker.lost) && broker.expired >= old(broker.expired)
      ensures !clean ==> pk !in old(db.devices) || db.faults > old(db.faults)
                         || broker.expired > old(broker.expired) || broker.lost >= old(broker.lost) + 3
      ensures clean && db.faults == old(db.faults) && pk in db.devices && db.devices[pk].tenant == snapshot ==>
                forall t :: !Holds(db.devices[pk], t)
      ensures clean ==> pk in old(db.devices) && forall t :: Holds(old(db.devices)[pk], t) ==>
        CertCN(t, id) !in broker.clients
      ensures broker.clients <= old(broker.clients)
      ensures db.devices.Keys == old(db.devices).Keys
      ensures forall p :: p in db.devices && p != pk ==> db.devices[p] == old(db.devices)[p]
      ensures pk in db.devices ==> OnlyLets(old(db.devices)[pk], db.devices[pk])
      // A row that has left the snapshot's tenant loses its clients and keeps its record.
      ensures pk in old(db.devices) && old(db.devices)[pk].tenant != snapshot ==> db.devices == old(db.devices)
      // From an up-to-date snapshot, a client another row held is lost only to an overlap of names.
      ensures Exclusive(old(db.devices)) && (pk in old(db.devices) ==> old(db.devices)[pk].tenant == snapshot) ==>
                SparesOthers(old(db.devices), pk, id, old(broker.clients) - broker.clients)
    {
      var failed := db.Fails();
      if failed { return false; }
      var identity := BrokerIdentityOf(pk, snapshot);
      if identity.None? { return false; }
      var tenants := identity.value.Tenants();
      if |tenants| == 0 {
        return true;
      }
      ghost var devs, held := db.devices, db.devices[pk];
      assert forall t :: Holds(held, t) ==> t in tenants;
      clean := DeleteStaleIdentities(pk, snapshot, id, tenants);
      if Exclusive(devs) && devs[pk].tenant == snapshot {
        CurrentSnapshotIsSafe(devs, pk);
        LosingOwnSparesOthers(devs, pk, id, tenants, old(broker.clients) - broker.clients);
      }
      forall t | clean && Holds(held, t) ensures CertCN(t, id) !in broker.clients {
        assert CertCN(t, id) in Named(id, tenants);
        assert CertCN(t, id) !in broker.clients * Named(id, tenants);
      }
    }
  }
}
