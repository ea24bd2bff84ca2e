/** Every interleaving of the certificate transactions with device deletes.
    Elsewhere is any other service's transaction on the device table: it may add
    unpaired rows and move or edit rows, and leaves ids and pairing alone. */
module CertRuns {
  import opened Prelude
  import opened Schema
  import opened CertTables

  /** What a serial was issued to. */
  datatype Issuance = Issuance(id: DeviceId, pub: Option<Pubkey>)

  /** The tables and the history: every serial and row id ever issued, and the row
      of each device's last issue. */
  datatype World = World(
    devices: Devices,
    certs: Certs,
    tombs: Tombstones,
    issued: map<Serial, Issuance>,
    ids: set<CertId>,
    newest: map<DevicePk, CertId>)

  datatype Event =
    | Issuing(request: IssueRequest)
    | Activating(tenant: Tenant, cert: CertId, device: DevicePk, now: Time)
    | Failing(tenant: Tenant, cert: CertId)
    | Revoking(tenant: Tenant, device: DevicePk)
    | Deleting(tenant: Tenant, device: DevicePk)
    | Elsewhere(devices: Devices)

  predicate KeepsPairing(was: Devices, now: Devices) {
    && (forall pk :: pk in was ==> pk in now && now[pk].id == was[pk].id && now[pk].pairedAt == was[pk].pairedAt)
    && (forall pk :: pk in now && pk !in was ==> now[pk].pairedAt.None?)
  }

  /** Row ids and serials are fresh. Only IssueWithIdentity stores a key, never an
      empty one, and its row is born active. */
  predicate Enabled(w: World, e: Event) {
    match e
    case Issuing(r) =>
      && r.certId !in w.ids && r.serial !in w.issued
      && (r.status == Active || r.status == Pending)
      && (r.pub.Some? ==> r.status == Active && r.pub.value != "")
    case Elsewhere(devices) => KeepsPairing(w.devices, devices)
    case _ => true
  }

  predicate Issues(w: World, e: Event) {
    e.Issuing? && IssueVerdict(w.devices, w.certs, e.request).Ok?
  }

  ghost predicate Deletes(w: World, e: Event) {
    e.Deleting? && Visible(w.devices, e.tenant, e.device) && UniqueSerials(w.certs)
  }

  ghost function NextDevices(w: World, e: Event): Devices {
    match e
    case Issuing(r) => IssueDevices(w.devices, w.certs, r)
    case Activating(t, c, d, now) => ActivateDevices(w.devices, w.certs, t, c, d, now)
    case Failing(_, _) => w.devices
    case Revoking(t, d) => RevokeDevices(w.devices, t, d)
    case Deleting(_, d) => if Deletes(w, e) then w.devices - {d} else w.devices
    case Elsewhere(devices) => devices
  }

  ghost function NextCerts(w: World, e: Event): Certs {
    match e
    case Issuing(r) => IssueCerts(w.devices, w.certs, r)
    case Activating(t, c, d, _) => ActivateCerts(w.devices, w.certs, t, c, d)
    case Failing(t, c) => MarkFailed(w.devices, w.certs, t, c)
    case Revoking(t, d) => RevokeCerts(w.devices, w.certs, t, d)
    case Deleting(_, d) => if Deletes(w, e) then WithoutDevice(w.devices, w.certs, d) else w.certs
    case Elsewhere(_) => w.certs
  }

  ghost function Next(w: World, e: Event): World {
    World(
      NextDevices(w, e),
      NextCerts(w, e),
      if Deletes(w, e) then Buried(w.devices, w.certs, w.tombs, e.device) else w.tombs,
      if !Issues(w, e) then w.issued
      else w.issued[e.request.serial := Issuance(w.devices[e.request.device].id, e.request.pub)],
      if Issues(w, e) then w.ids + {e.request.certId} else w.ids,
      if Issues(w, e) then w.newest[e.request.device := e.request.certId] else w.newest)
  }

  ghost predicate Initial(w: World) {
    w.certs == map[] && w.tombs == map[] && w.issued == map[] && w.ids == {} && w.newest == map[]
    && forall pk :: pk in w.devices ==> w.devices[pk].pairedAt.None?
  }

  ghost predicate StepAt(ws: seq<World>, es: seq<Event>, i: nat)
    requires i < |es| < |ws|
  {
    Enabled(ws[i], es[i]) && ws[i + 1] == Next(ws[i], es[i])
  }

  ghost predicate Run(ws: seq<World>, es: seq<Event>) {
    && |ws| == |es| + 1
    && Initial(ws[0])
    && forall i {:trigger StepAt(ws, es, i)} :: 0 <= i < |es| ==> StepAt(ws, es, i)
  }

  // ----- The invariant

  predicate RowSound(w: World, c: CertId, r: Cert) {
    && r.device in w.devices && c in w.ids
    && r.serial in w.issued && w.issued[r.serial] == Issuance(w.devices[r.device].id, r.pub)
    && r.serial !in w.tombs
    && (r.pub.Some? ==> r.pub.value != "" && r.status == Active)
    && (!r.revoked ==> r.device in w.newest && w.newest[r.device] == c)
  }

  /** The device's last issue is still its live certificate. */
  predicate NewestIsLive(w: World, pk: DevicePk) {
    && pk in w.newest && w.newest[pk] in w.certs
    && var r := w.certs[w.newest[pk]]; r.device == pk && !r.revoked && r.status == Active
  }

  predicate TombSound(w: World, s: Serial) {
    s in w.tombs && s in w.issued && w.tombs[s].pub != ""
    && w.issued[s] == Issuance(w.tombs[s].id, Some(w.tombs[s].pub))
  }

  /** An identity-bound serial is on a row or on a tombstone. */
  predicate Accounted(w: World, s: Serial) {
    s in w.tombs || exists c :: c in w.certs && w.certs[c].serial == s
  }

  predicate LiveNamesDiffer(certs: Certs) {
    forall c, d ::
      c in certs && d in certs && !certs[c].revoked && !certs[d].revoked && certs[c].cn == certs[d].cn ==> c == d
  }

  predicate Sound(w: World) {
    && (forall c :: c in w.certs ==> RowSound(w, c, w.certs[c]))
    && UniqueSerials(w.certs)
    && LiveNamesDiffer(w.certs)
    && (forall pk :: pk in w.devices ==> (w.devices[pk].pairedAt.Some? <==> NewestIsLive(w, pk)))
    && (forall pk :: pk in w.newest ==> w.newest[pk] in w.ids)
    && (forall s :: s in w.tombs ==> TombSound(w, s))
    && (forall s :: s in w.issued && w.issued[s].pub.Some? ==> Accounted(w, s))
  }

  /** One row ages: identity is fixed, revocation is final, only a pending and
      unrevoked row changes status. */
  predicate Ages(r: Cert, s: Cert) {
    && s.device == r.device && s.serial == r.serial && s.cn == r.cn && s.pub == r.pub
    && (r.revoked ==> s.revoked && s.status == r.status)
    && (r.status != Pending ==> s.status == r.status)
  }

  lemma AgesStep(w: World, e: Event, c: CertId)
    requires Enabled(w, e) && c in w.certs && RowSound(w, c, w.certs[c]) && c in NextCerts(w, e)
    ensures Ages(w.certs[c], NextCerts(w, e)[c])
  {
  }

  /** How one event may change one certificate row. */
  lemma CertStep(w: World, e: Event, c: CertId)
    requires Sound(w) && Enabled(w, e) && c in NextCerts(w, e)
    ensures c in w.certs ==> Ages(w.certs[c], NextCerts(w, e)[c])
    ensures c in w.certs && Issues(w, e) && w.certs[c].device == e.request.device ==> NextCerts(w, e)[c].revoked
    ensures c !in w.certs ==>
      Issues(w, e) && c == e.request.certId
      && NextCerts(w, e)[c] ==
        Cert(e.request.device, e.request.serial, e.request.cn, e.request.status, false, e.request.pub)
    ensures Deletes(w, e) ==> c in w.certs && w.certs[c].device != e.device
  {
    if c in w.certs {
      assert RowSound(w, c, w.certs[c]);
      AgesStep(w, e, c);
    }
  }

  predicate BuriedAs(w: World, c: CertId, s: Serial, t: Tombstone) {
    && c in w.certs && w.certs[c].device in w.devices && w.certs[c].serial == s
    && Some(t.pub) == w.certs[c].pub && t.id == w.devices[w.certs[c].device].id
  }

  lemma TombStep(w: World, e: Event, s: Serial)
    requires Sound(w) && Enabled(w, e) && s in Next(w, e).tombs && s !in w.tombs
    ensures Deletes(w, e)
    ensures exists c :: c in CertTables.Bound(w.certs, e.device) && BuriedAs(w, c, s, Next(w, e).tombs[s])
  {
  }

  lemma DeviceStep(w: World, e: Event, pk: DevicePk)
    requires Sound(w) && Enabled(w, e) && pk in w.devices && pk !in NextDevices(w, e)
    ensures Deletes(w, e) && pk == e.device
  {
  }

  lemma DeviceIdStep(w: World, e: Event, pk: DevicePk)
    requires Sound(w) && Enabled(w, e) && pk in w.devices && pk in NextDevices(w, e)
    ensures NextDevices(w, e)[pk].id == w.devices[pk].id
  {
  }

  lemma RowsStep(w: World, e: Event)
    requires Sound(w) && Enabled(w, e)
    ensures var v := Next(w, e); forall c :: c in v.certs ==> RowSound(v, c, v.certs[c])
  {
    var v := Next(w, e);
    forall c | c in v.certs ensures RowSound(v, c, v.certs[c]) {
      CertStep(w, e, c);
      var r := v.certs[c];
      if c in w.certs {
        assert RowSound(w, c, w.certs[c]);
        if r.device !in v.devices { DeviceStep(w, e, r.device); }
        DeviceIdStep(w, e, r.device);
        if r.serial in v.tombs { TombStep(w, e, r.serial); }
      } else {
        assert r.device in v.devices;
        DeviceIdStep(w, e, r.device);
        assert r.serial !in w.tombs;
        assert v.tombs == w.tombs;
      }
    }
  }

  lemma UniqueStep(w: World, e: Event)
    requires Sound(w) && Enabled(w, e)
    ensures UniqueSerials(NextCerts(w, e))
  {
    var after := NextCerts(w, e);
    forall c, d | c in after && d in after && after[c].serial == after[d].serial ensures c == d {
      CertStep(w, e, c);
      CertStep(w, e, d);
      if c in w.certs { assert RowSound(w, c, w.certs[c]); }
      if d in w.certs { assert RowSound(w, d, w.certs[d]); }
    }
  }

  lemma NamesStep(w: World, e: Event)
    requires Sound(w) && Enabled(w, e)
    ensures LiveNamesDiffer(NextCerts(w, e))
  {
  }

  /** Superseding a device's rows leaves it with no live certificate, and every
      other device as it was. */
  lemma SupersedingPairs(w: World, device: DevicePk)
    ensures var v := w.(certs := Superseded(w.certs, device));
      !NewestIsLive(v, device) && forall pk :: pk != device ==> (NewestIsLive(v, pk) <==> NewestIsLive(w, pk))
  {
  }

  lemma IssuePairs(w: World, e: Event)
    requires Sound(w) && Enabled(w, e) && Issues(w, e)
    ensures var v := Next(w, e); forall pk :: pk in v.devices ==>
      (v.devices[pk].pairedAt.Some? <==> NewestIsLive(v, pk))
  {
    var v, device := Next(w, e), e.request.device;
    SupersedingPairs(w, device);
    forall pk | pk in v.devices ensures v.devices[pk].pairedAt.Some? <==> NewestIsLive(v, pk) {
      if pk != device && pk in w.newest { assert w.newest[pk] != e.request.certId; }
    }
  }

  lemma FlipPairs(w: World, e: Event)
    requires Sound(w) && Enabled(w, e) && (e.Activating? || e.Failing?)
    ensures var v := Next(w, e); forall pk :: pk in v.devices ==>
      (v.devices[pk].pairedAt.Some? <==> NewestIsLive(v, pk))
  {
    if e.cert in w.certs { assert RowSound(w, e.cert, w.certs[e.cert]); }
  }

  lemma PairingStep(w: World, e: Event)
    requires Sound(w) && Enabled(w, e)
    ensures var v := Next(w, e);
      && (forall pk :: pk in v.devices ==> (v.devices[pk].pairedAt.Some? <==> NewestIsLive(v, pk)))
      && (forall pk :: pk in v.newest ==> v.newest[pk] in v.ids)
  {
    if Issues(w, e) {
      IssuePairs(w, e);
    } else if e.Activating? || e.Failing? {
      FlipPairs(w, e);
    } else if e.Revoking? {
      SupersedingPairs(w, e.device);
    }
  }

  lemma TombsStep(w: World, e: Event)
    requires Sound(w) && Enabled(w, e)
    ensures var v := Next(w, e); forall s :: s in v.tombs ==> TombSound(v, s)
  {
    var v := Next(w, e);
    forall s | s in v.tombs ensures TombSound(v, s) {
      if s !in w.tombs { TombStep(w, e, s); }
    }
  }

  lemma SerialStep(w: World, e: Event, s: Serial)
    requires Sound(w) && Enabled(w, e)
    requires var v := Next(w, e); s in v.issued && v.issued[s].pub.Some?
    ensures Accounted(Next(w, e), s)
  {
    var v := Next(w, e);
    if s !in w.issued {
      assert v.certs[e.request.certId].serial == s;
    } else if s !in w.tombs {
      var c :| c in w.certs && w.certs[c].serial == s;
      assert RowSound(w, c, w.certs[c]);
      if c in v.certs {
        AgesStep(w, e, c);
        assert v.certs[c].serial == s;
      } else {
        assert Deletes(w, e) && c in CertTables.Bound(w.certs, e.device);
      }
    }
  }

  lemma SoundStep(w: World, e: Event)
    requires Sound(w) && Enabled(w, e)
    ensures Sound(Next(w, e))
  {
    RowsStep(w, e);
    UniqueStep(w, e);
    NamesStep(w, e);
    PairingStep(w, e);
    TombsStep(w, e);
    var v := Next(w, e);
    forall s | s in v.issued && v.issued[s].pub.Some? ensures Accounted(v, s) { SerialStep(w, e, s); }
  }

  lemma {:induction false} SoundAlways(ws: seq<World>, es: seq<Event>, i: nat)
    requires Run(ws, es) && i < |ws|
    ensures Sound(ws[i])
  {
    if i > 0 {
      SoundAlways(ws, es, i - 1);
      assert StepAt(ws, es, i - 1);
      SoundStep(ws[i - 1], es[i - 1]);
    }
  }
}
