/** Provisioning and teardown against a broker that may fail anywhere, with
    reassigns, upserts and claims landing between any two steps. Provisioning
    and teardown of one device id are serialised; nothing else is. The broker
    knows a client by its name alone, and two identities can have one name. */
module BrokerLedger {
  import opened Prelude
  import opened Schema
  import opened EnrollmentTables
  import opened BrokerTables

  /** A broker client, by its name. */
  type Client = string

  datatype Kind = Provisioning | TearingDown

  datatype Phase =
    | Looking
    | Writing
    | Deleting(todo: seq<Tenant>)
    | Forgetting(gone: Tenant, rest: seq<Tenant>)

  /** A provisioning or teardown in progress. `tenant` is the caller's snapshot of
      the row's tenant, `current`: it still was the row's tenant at the lookup. */
  datatype Op = Op(kind: Kind, pk: DevicePk, tenant: Tenant, phase: Phase, clean: bool, current: bool)

  /** A deleted row, and whether its delete was reported as a clean teardown. */
  datatype Removed = Removed(device: Device, clean: bool)

  datatype World = World(devices: Devices, clients: set<Client>, ops: map<DeviceId, Op>,
                         removed: map<DevicePk, Removed>)

  datatype Event =
    | ReserveIdentity(tenant: Tenant, id: DeviceId)
    | WriteClient(id: DeviceId, acted: bool, acked: bool)
    | StartTeardown(pk: DevicePk)
    | LookUp(id: DeviceId, ok: bool)
    | DeleteClient(id: DeviceId, acted: bool, gone: bool)
    | ForgetIdentity(id: DeviceId, ok: bool)
    | DeleteRow(id: DeviceId)
    | Stop(id: DeviceId)
    | Elsewhere(devices: Devices)

  /** Tenant slugs are never empty. */
  predicate Slugged(devices: Devices) {
    forall p :: p in devices ==>
      (devices[p].tenant != "" && devices[p].current != Some("") && "" !in devices[p].stale)
  }

  predicate SameLedger(d: Device, e: Device) {
    e.id == d.id && e.current == d.current && e.stale == d.stale
  }

  /** Another service's transactions: rows may move tenant, change other columns
      and appear, holding nothing; no row goes and no broker column changes. */
  ghost predicate KeepsLedger(w: World, after: Devices) {
    && Slugged(after)
    && (forall p :: p in w.devices ==> p in after && SameLedger(w.devices[p], after[p]))
    && (forall p :: p in after && p !in w.devices ==>
          (p !in w.removed && after[p].current.None? && after[p].stale == []))
  }

  /** An acknowledged write acted, and a delete reported gone did leave no client;
      without an answer either may have acted or not. */
  ghost predicate Enabled(w: World, e: Event) {
    match e
    case ReserveIdentity(_, id) => id !in w.ops
    case WriteClient(id, acted, acked) => id in w.ops && w.ops[id].phase.Writing? && (acked ==> acted)
    case StartTeardown(pk) => pk in w.devices && w.devices[pk].id !in w.ops
    case LookUp(id, _) => id in w.ops && w.ops[id].phase.Looking?
    case DeleteClient(id, acted, gone) =>
      id in w.ops && w.ops[id].phase.Deleting? && w.ops[id].phase.todo != []
      && (gone ==> acted || CertCN(w.ops[id].phase.todo[0], id) !in w.clients)
    case ForgetIdentity(id, _) => id in w.ops && w.ops[id].phase.Forgetting?
    case DeleteRow(id) => id in w.ops && w.ops[id].kind.TearingDown? && w.ops[id].phase == Deleting([])
    case Stop(_) => true
    case Elsewhere(devices) => KeepsLedger(w, devices)
  }

  ghost function NextReserve(w: World, tenant: Tenant, id: DeviceId): World {
    match ReserveVerdict(w.devices, tenant, id)
    case Err(_) => w
    case Ok(pk) => w.(devices := Reserve(w.devices, tenant, id),
                      ops := w.ops[id := Op(Provisioning, pk, tenant, Writing, true, true)])
  }

  function Drop(ops: map<DeviceId, Op>, id: DeviceId): map<DeviceId, Op> {
    ops - {id}
  }

  /** The write of role and client; then the identities the reservation made stale. */
  function NextWrite(w: World, id: DeviceId, acted: bool, acked: bool): World
    requires id in w.ops
  {
    var op := w.ops[id];
    var stale := if op.pk in w.devices then w.devices[op.pk].stale else [];
    w.(clients := if acted then w.clients + {CertCN(op.tenant, id)} else w.clients,
       ops := if acked then w.ops[id := op.(phase := Deleting(stale))] else Drop(w.ops, id))
  }

  ghost function NextLookUp(w: World, id: DeviceId, ok: bool): World
    requires id in w.ops
  {
    var op := w.ops[id];
    if ok && op.pk in w.devices then
      var current := CurrentIdentity(w.devices, op.pk, op.tenant);
      w.(ops := w.ops[id := op.(phase := Deleting(Tenants(current, w.devices[op.pk].stale)),
                                current := w.devices[op.pk].tenant == op.tenant)])
    else w.(ops := w.ops[id := op.(phase := Deleting([]), clean := false)])
  }

  function NextDelete(w: World, id: DeviceId, acted: bool, gone: bool): World
    requires id in w.ops && w.ops[id].phase.Deleting? && w.ops[id].phase.todo != []
  {
    var op, todo := w.ops[id], w.ops[id].phase.todo;
    w.(clients := if acted then w.clients - {CertCN(todo[0], id)} else w.clients,
       ops := w.ops[id := if gone then op.(phase := Forgetting(todo[0], todo[1..]))
                          else op.(phase := Deleting(todo[1..]), clean := false)])
  }

  function NextForget(w: World, id: DeviceId, ok: bool): World
    requires id in w.ops && w.ops[id].phase.Forgetting?
  {
    var op := w.ops[id];
    w.(devices := if ok then Forget(w.devices, op.tenant, op.pk, op.phase.gone) else w.devices,
       ops := w.ops[id := op.(phase := Deleting(op.phase.rest))])
  }

  /** DeleteByID under the row-level policy of the snapshot's tenant. */
  function NextDeleteRow(w: World, id: DeviceId): World
    requires id in w.ops
  {
    var op := w.ops[id];
    if op.pk in w.devices && w.devices[op.pk].tenant == op.tenant
    then w.(devices := w.devices - {op.pk},
            removed := w.removed[op.pk := Removed(w.devices[op.pk], op.clean)],
            ops := Drop(w.ops, id))
    else w.(ops := Drop(w.ops, id))
  }

  ghost function Next(w: World, e: Event): World
    requires Enabled(w, e)
  {
    match e
    case ReserveIdentity(tenant, id) => NextReserve(w, tenant, id)
    case WriteClient(id, acted, acked) => NextWrite(w, id, acted, acked)
    case StartTeardown(pk) =>
      w.(ops := w.ops[w.devices[pk].id := Op(TearingDown, pk, w.devices[pk].tenant, Looking, true, false)])
    case LookUp(id, ok) => NextLookUp(w, id, ok)
    case DeleteClient(id, acted, gone) => NextDelete(w, id, acted, gone)
    case ForgetIdentity(id, ok) => NextForget(w, id, ok)
    case DeleteRow(id) => NextDeleteRow(w, id)
    case Stop(id) => w.(ops := Drop(w.ops, id))
    case Elsewhere(devices) => w.(devices := devices)
  }

  // ----- The invariant

  predicate Listed(phase: Phase, t: Tenant) {
    (phase.Deleting? && t in phase.todo) || (phase.Forgetting? && (t in phase.rest || t == phase.gone))
  }

  /** The operation is done with the identity: it is about to forget it, or it is a
      clean teardown that no longer lists it. */
  predicate LetGo(op: Op, t: Tenant) {
    (op.phase.Forgetting? && op.phase.gone == t)
    || (op.kind.TearingDown? && op.clean && !op.phase.Looking? && !Listed(op.phase, t))
  }

  /** The row holds an identity of the client's name and no operation has let it go. */
  predicate Anchors(w: World, p: DevicePk, t: Tenant, c: Client) {
    && p in w.devices && Holds(w.devices[p], t) && CertCN(t, w.devices[p].id) == c
    && (w.devices[p].id in w.ops && w.ops[w.devices[p].id].pk == p ==> !LetGo(w.ops[w.devices[p].id], t))
  }

  /** A row whose delete was reported unclean held an identity of the name. */
  predicate LeftBehind(w: World, p: DevicePk, t: Tenant, c: Client) {
    p in w.removed && !w.removed[p].clean && Holds(w.removed[p].device, t) && CertCN(t, w.removed[p].device.id) == c
  }

  ghost predicate Recorded(w: World, c: Client) {
    (exists p, t :: Anchors(w, p, t, c)) || (exists p, t :: LeftBehind(w, p, t, c))
  }

  ghost predicate OpSound(w: World, id: DeviceId, op: Op) {
    && op.pk in w.devices && w.devices[op.pk].id == id
    && (op.kind.Provisioning? ==> op.current && !op.phase.Looking? && !Listed(op.phase, op.tenant))
    && (op.phase.Writing? ==> op.kind.Provisioning? && w.devices[op.pk].current == Some(op.tenant))
    && (op.current ==> forall t :: Listed(op.phase, t) ==> !HeldElsewhere(w.devices, t, id, op.pk))
  }

  ghost predicate Ledger(w: World) {
    && Exclusive(w.devices) && Slugged(w.devices)
    && (forall c :: c in w.clients ==> Recorded(w, c))
    && (forall id :: id in w.ops ==> OpSound(w, id, w.ops[id]))
    && w.devices.Keys !! w.removed.Keys
  }

  /** An operation on one id does not see changes to rows of another. */
  lemma OpFrame(w: World, v: World, id: DeviceId, op: Op)
    requires OpSound(w, id, op)
    requires forall p :: p in w.devices && w.devices[p].id == id ==> p in v.devices && v.devices[p] == w.devices[p]
    requires forall p :: p in v.devices && v.devices[p].id == id ==> p in w.devices && v.devices[p] == w.devices[p]
    ensures OpSound(v, id, op)
  {
    forall t | op.current && Listed(op.phase, t) ensures !HeldElsewhere(v.devices, t, id, op.pk) {
      assert !HeldElsewhere(w.devices, t, id, op.pk);
    }
  }

  /** A client stays recorded while its anchors hold. */
  lemma RecordedFrame(w: World, v: World, c: Client)
    requires Recorded(w, c)
    requires forall p, t :: Anchors(w, p, t, c) ==> Anchors(v, p, t, c)
    requires forall p :: p in w.removed ==> p in v.removed && v.removed[p] == w.removed[p]
    ensures Recorded(v, c)
  {
    if p, t :| Anchors(w, p, t, c) {
      assert Anchors(v, p, t, c);
    } else {
      var p, t :| LeftBehind(w, p, t, c);
      assert LeftBehind(v, p, t, c);
    }
  }

  lemma ReservedHolds(d: Device, tenant: Tenant)
    ensures forall t :: Holds(Reserved(d, tenant), t) <==> Holds(d, t) || t == tenant
    ensures Reserved(d, tenant).current == Some(tenant) && tenant !in Reserved(d, tenant).stale
  {
  }

  lemma ReserveKeepsExclusive(devices: Devices, tenant: Tenant, id: DeviceId)
    requires Exclusive(devices) && ReserveVerdict(devices, tenant, id).Ok?
    ensures Exclusive(Reserve(devices, tenant, id))
  {
    var pk := ReserveVerdict(devices, tenant, id).value;
    ReservedHolds(devices[pk], tenant);
  }

  lemma ReserveStep(w: World, tenant: Tenant, id: DeviceId)
    requires Ledger(w) && id !in w.ops
    ensures Ledger(NextReserve(w, tenant, id))
  {
    if ReserveVerdict(w.devices, tenant, id).Ok? {
      var v, pk := NextReserve(w, tenant, id), ReserveVerdict(w.devices, tenant, id).value;
      ReservedHolds(w.devices[pk], tenant);
      ReserveKeepsExclusive(w.devices, tenant, id);
      forall c | c in v.clients ensures Recorded(v, c) { RecordedFrame(w, v, c); }
      forall other | other in v.ops && other != id ensures OpSound(v, other, v.ops[other]) {
        OpFrame(w, v, other, w.ops[other]);
      }
    }
  }

  lemma WriteStep(w: World, id: DeviceId, acted: bool, acked: bool)
    requires Ledger(w) && Enabled(w, WriteClient(id, acted, acked))
    ensures Ledger(NextWrite(w, id, acted, acked))
  {
    var v, op := NextWrite(w, id, acted, acked), w.ops[id];
    assert OpSound(w, id, op);
    assert Anchors(v, op.pk, op.tenant, CertCN(op.tenant, id));
    forall c | c in v.clients ensures Recorded(v, c) {
      if c in w.clients { RecordedFrame(w, v, c); }
    }
    forall other | other in v.ops ensures OpSound(v, other, v.ops[other]) {
      assert OpSound(w, other, w.ops[other]);
    }
  }

  lemma StartStep(w: World, pk: DevicePk)
    requires Ledger(w) && Enabled(w, StartTeardown(pk))
    ensures Ledger(Next(w, StartTeardown(pk)))
  {
    var v := Next(w, StartTeardown(pk));
    forall c | c in v.clients ensures Recorded(v, c) { RecordedFrame(w, v, c); }
    forall other | other in v.ops && other in w.ops ensures OpSound(v, other, v.ops[other]) {
      assert OpSound(w, other, w.ops[other]);
    }
  }

  lemma LookUpStep(w: World, id: DeviceId, ok: bool)
    requires Ledger(w) && Enabled(w, LookUp(id, ok))
    ensures Ledger(NextLookUp(w, id, ok))
  {
    var v, op := NextLookUp(w, id, ok), w.ops[id];
    assert OpSound(w, id, op);
    var d := w.devices[op.pk];
    var current := CurrentIdentity(w.devices, op.pk, op.tenant);
    forall t | Holds(d, t) ensures t in Tenants(current, d.stale) {
      assert t != "";
    }
    forall c | c in v.clients ensures Recorded(v, c) { RecordedFrame(w, v, c); }
    forall other | other in v.ops && other != id ensures OpSound(v, other, v.ops[other]) {
      assert OpSound(w, other, w.ops[other]);
    }
    if ok && v.ops[id].current { CurrentSnapshotIsSafe(w.devices, op.pk); }
  }

  lemma DeleteStep(w: World, id: DeviceId, acted: bool, gone: bool)
    requires Ledger(w) && Enabled(w, DeleteClient(id, acted, gone))
    ensures Ledger(NextDelete(w, id, acted, gone))
  {
    var v, op := NextDelete(w, id, acted, gone), w.ops[id];
    assert OpSound(w, id, op);
    assert op.phase.todo == [op.phase.todo[0]] + op.phase.todo[1..];
    assert forall t :: Listed(v.ops[id].phase, t) ==> Listed(op.phase, t);
    assert gone ==> forall t :: Listed(op.phase, t) ==> Listed(v.ops[id].phase, t);
    forall c | c in v.clients ensures Recorded(v, c) { RecordedFrame(w, v, c); }
    forall other | other in v.ops && other != id ensures OpSound(v, other, v.ops[other]) {
      assert OpSound(w, other, w.ops[other]);
    }
  }

  /** Forgetting only ever drops the one identity, and only from the one row. */
  lemma ForgetRows(devices: Devices, scope: Tenant, pk: DevicePk, gone: Tenant)
    ensures var after := Forget(devices, scope, pk, gone);
      && after.Keys == devices.Keys
      && (forall p :: p in devices && p != pk ==> after[p] == devices[p])
      && (pk in devices ==>
            && after[pk].id == devices[pk].id && after[pk].tenant == devices[pk].tenant
            && (after[pk].current == devices[pk].current || after[pk].current.None?)
            && (forall t :: t in after[pk].stale ==> t in devices[pk].stale)
            && (forall t :: Holds(after[pk], t) ==> Holds(devices[pk], t))
            && (forall t :: Holds(devices[pk], t) && t != gone ==> Holds(after[pk], t)))
  {
  }

  lemma ForgetKeepsExclusive(devices: Devices, scope: Tenant, pk: DevicePk, gone: Tenant)
    requires Exclusive(devices) && Slugged(devices)
    ensures Exclusive(Forget(devices, scope, pk, gone)) && Slugged(Forget(devices, scope, pk, gone))
  {
    ForgetRows(devices, scope, pk, gone);
  }

  lemma ForgetOwnOp(w: World, id: DeviceId, ok: bool)
    requires Ledger(w) && Enabled(w, ForgetIdentity(id, ok))
    ensures OpSound(NextForget(w, id, ok), id, NextForget(w, id, ok).ops[id])
  {
    var v, op := NextForget(w, id, ok), w.ops[id];
    assert OpSound(w, id, op);
    ForgetRows(w.devices, op.tenant, op.pk, op.phase.gone);
    assert forall t :: Listed(v.ops[id].phase, t) ==> Listed(op.phase, t);
    forall t | v.ops[id].current && Listed(v.ops[id].phase, t) ensures !HeldElsewhere(v.devices, t, id, op.pk) {
      assert !HeldElsewhere(w.devices, t, id, op.pk);
    }
  }

  /** What is forgotten had been let go, so it anchored no client. */
  lemma ForgetKeepsAnchors(w: World, id: DeviceId, ok: bool, p: DevicePk, t: Tenant, c: Client)
    requires Ledger(w) && Enabled(w, ForgetIdentity(id, ok)) && Anchors(w, p, t, c)
    ensures Anchors(NextForget(w, id, ok), p, t, c)
  {
    var op := w.ops[id];
    assert OpSound(w, id, op);
    ForgetRows(w.devices, op.tenant, op.pk, op.phase.gone);
  }

  lemma ForgetKeepsOthers(w: World, id: DeviceId, ok: bool, other: DeviceId)
    requires Ledger(w) && Enabled(w, ForgetIdentity(id, ok)) && other in w.ops && other != id
    ensures OpSound(NextForget(w, id, ok), other, w.ops[other])
  {
    var op := w.ops[id];
    assert OpSound(w, id, op);
    ForgetRows(w.devices, op.tenant, op.pk, op.phase.gone);
    OpFrame(w, NextForget(w, id, ok), other, w.ops[other]);
  }

  lemma ForgetStep(w: World, id: DeviceId, ok: bool)
    requires Ledger(w) && Enabled(w, ForgetIdentity(id, ok))
    ensures Ledger(NextForget(w, id, ok))
  {
    var v, op := NextForget(w, id, ok), w.ops[id];
    ForgetRows(w.devices, op.tenant, op.pk, op.phase.gone);
    ForgetKeepsExclusive(w.devices, op.tenant, op.pk, op.phase.gone);
    ForgetOwnOp(w, id, ok);
    forall c | c in v.clients ensures Recorded(v, c) {
      forall p, t | Anchors(w, p, t, c) ensures Anchors(v, p, t, c) { ForgetKeepsAnchors(w, id, ok, p, t, c); }
      RecordedFrame(w, v, c);
    }
    forall other | other in v.ops && other != id ensures OpSound(v, other, v.ops[other]) {
      ForgetKeepsOthers(w, id, ok, other);
    }
  }

  /** A row goes: its identities were let go, or the delete is on record as unclean. */
  lemma DeleteRowStep(w: World, id: DeviceId)
    requires Ledger(w) && Enabled(w, DeleteRow(id))
    ensures Ledger(NextDeleteRow(w, id))
  {
    var v, op := NextDeleteRow(w, id), w.ops[id];
    assert OpSound(w, id, op);
    forall c | c in v.clients ensures Recorded(v, c) {
      assert Recorded(w, c);
      if p, t :| Anchors(w, p, t, c) {
        if p == op.pk && p !in v.devices {
          assert !op.clean;
          assert LeftBehind(v, p, t, c);
        } else {
          assert Anchors(v, p, t, c);
        }
      } else {
        var p, t :| LeftBehind(w, p, t, c);
        assert LeftBehind(v, p, t, c);
      }
    }
    forall other | other in v.ops ensures OpSound(v, other, v.ops[other]) {
      assert OpSound(w, other, w.ops[other]);
      assert w.ops[other].pk != op.pk;
    }
  }

  lemma ElsewhereStep(w: World, devices: Devices)
    requires Ledger(w) && KeepsLedger(w, devices)
    ensures Ledger(w.(devices := devices))
  {
    var v := w.(devices := devices);
    assert forall p, t :: p in devices && Holds(devices[p], t) ==> p in w.devices && Holds(w.devices[p], t);
    forall c | c in v.clients ensures Recorded(v, c) {
      forall p, t | Anchors(w, p, t, c) ensures Anchors(v, p, t, c) {}
      RecordedFrame(w, v, c);
    }
    forall other | other in v.ops ensures OpSound(v, other, v.ops[other]) {
      assert OpSound(w, other, w.ops[other]);
    }
  }

  /** Every step of every operation, acted on or lost, keeps the ledger. */
  lemma LedgerStep(w: World, e: Event)
    requires Ledger(w) && Enabled(w, e)
    ensures Ledger(Next(w, e))
  {
    match e
    case ReserveIdentity(tenant, id) => ReserveStep(w, tenant, id);
    case WriteClient(id, acted, acked) => WriteStep(w, id, acted, acked);
    case StartTeardown(pk) => StartStep(w, pk);
    case LookUp(id, ok) => LookUpStep(w, id, ok);
    case DeleteClient(id, acted, gone) => DeleteStep(w, id, acted, gone);
    case ForgetIdentity(id, ok) => ForgetStep(w, id, ok);
    case DeleteRow(id) => DeleteRowStep(w, id);
    case Stop(id) =>
      var v := Next(w, e);
      forall c | c in v.clients ensures Recorded(v, c) { RecordedFrame(w, v, c); }
      forall other | other in v.ops ensures OpSound(v, other, v.ops[other]) { assert OpSound(w, other, w.ops[other]); }
    case Elsewhere(devices) => ElsewhereStep(w, devices);
  }

  // ----- Whole runs

  ghost predicate StepAt(ws: seq<World>, es: seq<Event>, i: nat)
    requires i < |es| < |ws|
  {
    Enabled(ws[i], es[i]) && ws[i + 1] == Next(ws[i], es[i])
  }

  /** A run starts with any ledger in order and nothing in progress. */
  ghost predicate Run(ws: seq<World>, es: seq<Event>) {
    && |ws| == |es| + 1
    && Ledger(ws[0]) && ws[0].ops == map[]
    && forall i {:trigger StepAt(ws, es, i)} :: 0 <= i < |es| ==> StepAt(ws, es, i)
  }

  lemma {:induction false} LedgerAlways(ws: seq<World>, es: seq<Event>, i: nat)
    requires Run(ws, es) && i < |ws|
    ensures Ledger(ws[i])
  {
    if i > 0 {
      LedgerAlways(ws, es, i - 1);
      assert StepAt(ws, es, i - 1);
      LedgerStep(ws[i - 1], es[i - 1]);
    }
  }

  /** In every state of every run: one identity has one row, no row's current is
      stale, and every client on the broker has the name of an identity some row
      holds, or that a row held whose delete was reported unclean. */
  lemma EveryClientIsRecorded(ws: seq<World>, es: seq<Event>, i: nat, c: Client)
    requires Run(ws, es) && i < |ws|
    ensures Exclusive(ws[i].devices)
    ensures c in ws[i].clients ==>
      (exists p, t :: p in ws[i].devices && Holds(ws[i].devices[p], t) && CertCN(t, ws[i].devices[p].id) == c)
      || (exists p, t :: LeftBehind(ws[i], p, t, c))
  {
    LedgerAlways(ws, es, i);
    if c in ws[i].clients {
      assert Recorded(ws[i], c);
    }
  }

  /** A row other than pk loses a live client of its own between two states. */
  ghost predicate TakesOther(w: World, v: World, pk: DevicePk) {
    exists p, u :: p in w.devices && p != pk && Holds(w.devices[p], u)
                   && CertCN(u, w.devices[p].id) in w.clients && CertCN(u, w.devices[p].id) !in v.clients
  }

  /** Deleting one listed identity takes another row's client exactly when the
      delete acted, the client was there, and another row holds that name. */
  lemma DeleteTakesOtherIff(w: World, id: DeviceId, acted: bool, gone: bool)
    requires Enabled(w, DeleteClient(id, acted, gone))
    ensures var op, v := w.ops[id], NextDelete(w, id, acted, gone);
      TakesOther(w, v, op.pk) <==>
        acted && CertCN(op.phase.todo[0], id) in w.clients && NameHeldElsewhere(w.devices, op.phase.todo[0], id, op.pk)
  {
  }

  /** When the operation's snapshot was current, a delete takes another row's
      client exactly when that row's identity overlaps the listed one, and so never
      where all ids have one length; a re-provision never deletes the client of the
      identity it just reserved. */
  lemma DeletesSpareOtherRows(ws: seq<World>, es: seq<Event>, i: nat)
    requires Run(ws, es) && i < |es| && es[i].DeleteClient?
    requires Enabled(ws[i], es[i]) && ws[i].ops[es[i].id].current
    ensures var w, id := ws[i], es[i].id;
      var op, t := w.ops[id], w.ops[id].phase.todo[0];
      && (TakesOther(w, ws[i + 1], op.pk) <==>
            es[i].acted && CertCN(t, id) in w.clients && OverlapsElsewhere(w.devices, t, id, op.pk))
      && ((forall p :: p in w.devices ==> |w.devices[p].id| == |id|) ==> !TakesOther(w, ws[i + 1], op.pk))
      && (op.kind.Provisioning? ==> CertCN(t, id) != CertCN(op.tenant, id))
  {
    LedgerAlways(ws, es, i);
    assert StepAt(ws, es, i);
    var w, id := ws[i], es[i].id;
    var op, t := w.ops[id], w.ops[id].phase.todo[0];
    assert OpSound(w, id, op) && Listed(op.phase, t);
    DeleteTakesOtherIff(w, id, es[i].acted, es[i].gone);
    NameHeldIff(w.devices, t, id, op.pk);
    if forall p :: p in w.devices ==> |w.devices[p].id| == |id| { OneLengthNeverOverlaps(w.devices, t, id, op.pk); }
    CertCNNamesOneIdentity(t, id, op.tenant, id);
  }

  // ----- Two identities with one name

  const OVERLAPPED: Client := CertCN("acme-lab", "owb")

  /** ("acme-lab", "owb") is provisioned, ("acme", "lab-owb") is not. */
  function OverlappingRows(): Devices {
    map[1 := Device("acme-lab", "owb", None, None, None, Some("acme-lab"), []),
        2 := Device("acme", "lab-owb", None, None, None, None, [])]
  }

  function Overlapping(clients: set<Client>, ops: map<DeviceId, Op>): World {
    World(OverlappingRows(), clients, ops, map[])
  }

  lemma OverlappingIsALedger()
    ensures Ledger(Overlapping({OVERLAPPED}, map[]))
  {
    var w := Overlapping({OVERLAPPED}, map[]);
    assert Anchors(w, 1, "acme-lab", OVERLAPPED);
  }

  lemma OverlappingLookUp()
    ensures CurrentIdentity(OverlappingRows(), 2, "acme") == Some("acme")
    ensures Tenants(Some("acme"), []) == ["acme"]
  {
    assert ["acme"] + [] == ["acme"] && [] + ["acme"] == ["acme"];
    assert AppendNew([], ["acme"]) == AppendNew(["acme"], []);
  }

  /** An overlap is reachable: a teardown of ("acme", "lab-owb"), whose snapshot is
      current, deletes the live client of ("acme-lab", "owb"). */
  lemma OverlapTakesLiveClient() returns (ws: seq<World>, es: seq<Event>)
    ensures Run(ws, es) && |es| == 3 && es[2].DeleteClient? && Enabled(ws[2], es[2])
    ensures ws[2].ops[es[2].id].current && TakesOther(ws[2], ws[3], ws[2].ops[es[2].id].pk)
  {
    var id := "lab-owb";
    var op := Op(TearingDown, 2, "acme", Looking, true, false);
    var listed := op.(phase := Deleting(["acme"]), current := true);
    var gone := listed.(phase := Forgetting("acme", []));
    ws := [Overlapping({OVERLAPPED}, map[]), Overlapping({OVERLAPPED}, map[id := op]),
           Overlapping({OVERLAPPED}, map[id := listed]), Overlapping({}, map[id := gone])];
    es := [StartTeardown(2), LookUp(id, true), DeleteClient(id, true, true)];
    OverlappingIsALedger();
    OverlappingLookUp();
    OverlapSteps(ws[0], ws[1], ws[2], ws[3], id, op, listed, gone);
    assert StepAt(ws, es, 0) && StepAt(ws, es, 1) && StepAt(ws, es, 2);
  }

  lemma OverlapSteps(w0: World, w1: World, w2: World, w3: World, id: DeviceId, op: Op, listed: Op, gone: Op)
    requires id == "lab-owb" && op == Op(TearingDown, 2, "acme", Looking, true, false)
    requires listed == op.(phase := Deleting(["acme"]), current := true)
      && gone == listed.(phase := Forgetting("acme", []))
    requires w0 == Overlapping({OVERLAPPED}, map[]) && w1 == Overlapping({OVERLAPPED}, map[id := op])
    requires w2 == Overlapping({OVERLAPPED}, map[id := listed]) && w3 == Overlapping({}, map[id := gone])
    ensures Enabled(w0, StartTeardown(2)) && w1 == Next(w0, StartTeardown(2))
    ensures Enabled(w1, LookUp(id, true)) && w2 == Next(w1, LookUp(id, true))
    ensures Enabled(w2, DeleteClient(id, true, true)) && w3 == Next(w2, DeleteClient(id, true, true))
    ensures TakesOther(w2, w3, 2)
  {
    OverlappingLookUp();
    CertCNCanCollide();
    assert w1.ops == w0.ops[id := op];
    assert w2.ops == w1.ops[id := listed];
    assert ["acme"][1..] == [] && w3.ops == w2.ops[id := gone];
    assert CertCN("acme", id) == OVERLAPPED && w2.clients - {OVERLAPPED} == {};
    assert Holds(w2.devices[1], "acme-lab");
  }

  /** A row deleted as clean leaves no client of its own: a client still there under
      the name of an identity it held belongs to another row that holds the name, or
      is on record from an unclean delete. */
  lemma CleanDeleteLeavesNoClient(ws: seq<World>, es: seq<Event>, i: nat, t: Tenant)
    requires Run(ws, es) && i < |es| && es[i].DeleteRow? && Enabled(ws[i], es[i])
    requires ws[i].ops[es[i].id].clean
    ensures var w, id, op := ws[i], es[i].id, ws[i].ops[es[i].id];
      && op.pk in w.devices
      && (Holds(w.devices[op.pk], t) && CertCN(t, id) in w.clients ==>
            OverlapsElsewhere(w.devices, t, id, op.pk) || exists p, u :: LeftBehind(w, p, u, CertCN(t, id)))
  {
    LedgerAlways(ws, es, i);
    var w, id, op := ws[i], es[i].id, ws[i].ops[es[i].id];
    assert OpSound(w, id, op);
    if Holds(w.devices[op.pk], t) && CertCN(t, id) in w.clients {
      assert Recorded(w, CertCN(t, id));
      if p, u :| Anchors(w, p, u, CertCN(t, id)) {
        assert p != op.pk;
        assert NameHeldElsewhere(w.devices, t, id, op.pk);
      }
      NameHeldIff(w.devices, t, id, op.pk);
    }
  }
}
