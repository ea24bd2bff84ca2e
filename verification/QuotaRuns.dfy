/** The device cap under interleaved transactions. An adder takes the target
    tenant's advisory lock, asks whether the id exists, counts, and then writes
    and commits; each of these is its own step, on what is committed at the time.
    Deletes take no lock, and a reassign locks only the tenant it moves into. */
module QuotaRuns {
  import opened Prelude
  import opened Schema

  type TxId = nat

  /** An upsert or claim of (tenant, id), or a reassign of row pk, whose id was
      read before the lock. */
  datatype Adder =
    | Upsert(tenant: Tenant, id: DeviceId, pk: DevicePk)
    | Move(tenant: Tenant, id: DeviceId, pk: DevicePk)

  datatype Phase = Waiting | Locked | Absent | Allowed

  datatype Tx = Tx(adder: Adder, phase: Phase)

  datatype World = World(devices: Devices, txs: map<TxId, Tx>, locks: map<Tenant, TxId>)

  datatype Event =
    | Begin(tx: TxId, adder: Adder)
    | Lock(tx: TxId)
    | CheckExists(tx: TxId)
    | CheckCount(tx: TxId)
    | Commit(tx: TxId, row: Device)
    | Abort(tx: TxId)
    | Remove(pk: DevicePk)
    | Edit(pk: DevicePk, row: Device)

  predicate InPhase(w: World, tx: TxId, phase: Phase) {
    tx in w.txs && w.txs[tx].phase == phase
  }

  /** A generated row key names no row, present or about to be moved. */
  predicate FreshKey(w: World, pk: DevicePk) {
    pk !in w.devices && forall tx :: tx in w.txs && w.txs[tx].adder.Move? ==> w.txs[tx].adder.pk != pk
  }

  /** A lock is granted only while nobody holds it; a new row's key is fresh; a
      reassign begins by reading the id of a row that is there; other edits leave
      tenant and id alone. */
  predicate Enabled(w: World, e: Event) {
    match e
    case Begin(tx, a) => tx !in w.txs && (a.Move? ==> a.pk in w.devices && w.devices[a.pk].id == a.id)
    case Lock(tx) => InPhase(w, tx, Waiting) && w.txs[tx].adder.tenant !in w.locks
    case CheckExists(tx) => InPhase(w, tx, Locked)
    case CheckCount(tx) => InPhase(w, tx, Absent)
    case Commit(tx, row) =>
      && InPhase(w, tx, Allowed)
      && var a := w.txs[tx].adder;
         row.tenant == a.tenant && row.id == a.id && (a.Upsert? ==> FreshKey(w, a.pk))
    case Abort(tx) => tx in w.txs
    case Remove(_) => true
    case Edit(pk, row) => pk in w.devices && row.tenant == w.devices[pk].tenant && row.id == w.devices[pk].id
  }

  /** The transaction is over; its locks go with it. */
  function Ended(w: World, tx: TxId): World {
    w.(txs := w.txs - {tx}, locks := map t | t in w.locks && w.locks[t] != tx :: w.locks[t])
  }

  /** INSERT ... ON CONFLICT DO UPDATE, or the UPDATE of a reassign: nothing when
      the row is gone, an error when the target has another row for the id. */
  ghost function Written(devices: Devices, a: Adder, row: Device): Devices {
    match a
    case Upsert(t, id, pk) =>
      if HasDevice(devices, t, id) then devices[TheDevice(devices, t, id) := row] else devices[pk := row]
    case Move(t, id, pk) =>
      if pk !in devices then devices
      else if HasDevice(devices, t, id) && TheDevice(devices, t, id) != pk then devices
      else devices[pk := devices[pk].(tenant := t)]
  }

  ghost function Next(w: World, cap: int, e: Event): World {
    if !Enabled(w, e) then w
    else match e
      case Begin(tx, a) => w.(txs := w.txs[tx := Tx(a, if cap <= 0 then Allowed else Waiting)])
      case Lock(tx) =>
        w.(txs := w.txs[tx := w.txs[tx].(phase := Locked)], locks := w.locks[w.txs[tx].adder.tenant := tx])
      case CheckExists(tx) =>
        var a := w.txs[tx].adder;
        w.(txs := w.txs[tx := Tx(a, if HasDevice(w.devices, a.tenant, a.id) then Allowed else Absent)])
      case CheckCount(tx) =>
        var a := w.txs[tx].adder;
        if QuotaFull(|OfTenant(w.devices, a.tenant)|, cap) then Ended(w, tx)
        else w.(txs := w.txs[tx := Tx(a, Allowed)])
      case Commit(tx, row) => Ended(w.(devices := Written(w.devices, w.txs[tx].adder, row)), tx)
      case Abort(tx) => Ended(w, tx)
      case Remove(pk) => w.(devices := w.devices - {pk})
      case Edit(pk, row) => w.(devices := w.devices[pk := row])
  }

  ghost predicate Initial(w: World) {
    w.txs == map[] && w.locks == map[] && UniqueDevices(w.devices)
  }

  ghost predicate StepAt(ws: seq<World>, cap: int, es: seq<Event>, i: nat)
    requires i < |es| < |ws|
  {
    Enabled(ws[i], es[i]) && ws[i + 1] == Next(ws[i], cap, es[i])
  }

  ghost predicate Run(ws: seq<World>, cap: int, es: seq<Event>) {
    && |ws| == |es| + 1
    && Initial(ws[0])
    && forall i {:trigger StepAt(ws, cap, es, i)} :: 0 <= i < |es| ==> StepAt(ws, cap, es, i)
  }

  // ----- The invariant

  function Count(devices: Devices, t: Tenant): nat {
    |OfTenant(devices, t)|
  }

  /** The tenant's rows, with room kept for the id. */
  ghost function CountWith(devices: Devices, t: Tenant, id: DeviceId): nat {
    if HasDevice(devices, t, id) then Count(devices, t) else Count(devices, t) + 1
  }

  /** The cap, or what the tenant already had when it was switched on. */
  function Limit(cap: int, start: Devices, t: Tenant): int {
    if Count(start, t) > cap then Count(start, t) else cap
  }

  /** Past the lock means holding it; past the checks means there is room. */
  ghost predicate TxSound(w: World, cap: int, start: Devices, tx: TxId)
    requires tx in w.txs
  {
    var a := w.txs[tx].adder;
    && (!w.txs[tx].phase.Waiting? ==> a.tenant in w.locks && w.locks[a.tenant] == tx)
    && (w.txs[tx].phase.Allowed? ==> CountWith(w.devices, a.tenant, a.id) <= Limit(cap, start, a.tenant))
    && (a.Move? && a.pk in w.devices ==> w.devices[a.pk].id == a.id)
  }

  ghost predicate Sound(w: World, cap: int, start: Devices) {
    && UniqueDevices(w.devices)
    && (forall t: Tenant {:trigger Count(w.devices, t)} :: Count(w.devices, t) <= Limit(cap, start, t))
    && (forall tx :: tx in w.txs ==> TxSound(w, cap, start, tx))
  }

  predicate Shrinks(was: Devices, now: Devices, t: Tenant) {
    OfTenant(now, t) <= OfTenant(was, t) && forall pk :: pk in OfTenant(now, t) ==> now[pk].id == was[pk].id
  }

  /** Losing rows never takes room away: if the id itself was lost, so was a row. */
  lemma ShrinkKeepsRoom(was: Devices, now: Devices, t: Tenant, id: DeviceId)
    requires Shrinks(was, now, t)
    ensures Count(now, t) <= Count(was, t) && CountWith(now, t, id) <= CountWith(was, t, id)
  {
    SubsetIsSmaller(OfTenant(now, t), OfTenant(was, t));
    if HasDevice(was, t, id) && !HasDevice(now, t, id) {
      var pk := TheDevice(was, t, id);
      SubsetIsSmaller(OfTenant(now, t), OfTenant(was, t) - {pk});
    }
  }

  /** What a commit may rely on. */
  predicate Fits(devices: Devices, a: Adder, row: Device) {
    && row.tenant == a.tenant && row.id == a.id
    && (a.Upsert? ==> a.pk !in devices)
    && (a.Move? && a.pk in devices ==> devices[a.pk].id == a.id)
  }

  /** Whichever row a commit writes, it writes at most one, and it is the target
      tenant's row for the id. */
  lemma WriteIsOneRow(devices: Devices, a: Adder, row: Device)
    requires UniqueDevices(devices) && Fits(devices, a, row)
    ensures var now := Written(devices, a, row);
      now == devices || exists pk: DevicePk, d: Device :: OneRow(devices, now, a, pk, d)
  {
    var now := Written(devices, a, row);
    if now != devices {
      var pk := if a.Upsert? && HasDevice(devices, a.tenant, a.id) then TheDevice(devices, a.tenant, a.id) else a.pk;
      assert OneRow(devices, now, a, pk, now[pk]);
    }
  }

  ghost predicate OneRow(devices: Devices, now: Devices, a: Adder, pk: DevicePk, d: Device) {
    && now == devices[pk := d] && d.tenant == a.tenant && d.id == a.id
    && (pk in devices ==> devices[pk].id == a.id)
    && (HasDevice(devices, a.tenant, a.id) ==> TheDevice(devices, a.tenant, a.id) == pk)
  }

  lemma WriteKeepsUnique(devices: Devices, a: Adder, row: Device)
    requires UniqueDevices(devices) && Fits(devices, a, row)
    ensures UniqueDevices(Written(devices, a, row))
  {
    WriteIsOneRow(devices, a, row);
  }

  /** A commit adds at most the one row the checks left room for. */
  lemma WriteFits(devices: Devices, a: Adder, row: Device)
    requires UniqueDevices(devices) && Fits(devices, a, row)
    ensures Count(Written(devices, a, row), a.tenant) <= CountWith(devices, a.tenant, a.id)
  {
    WriteIsOneRow(devices, a, row);
    var now := Written(devices, a, row);
    if now != devices {
      var pk, d :| OneRow(devices, now, a, pk, d);
      OneRowCounts(devices, now, a, pk, d);
    }
  }

  lemma OneRowCounts(devices: Devices, now: Devices, a: Adder, pk: DevicePk, d: Device)
    requires OneRow(devices, now, a, pk, d)
    ensures Count(now, a.tenant) <= CountWith(devices, a.tenant, a.id)
  {
    var rows := OfTenant(devices, a.tenant);
    SubsetIsSmaller(OfTenant(now, a.tenant), rows + {pk});
    if HasDevice(devices, a.tenant, a.id) {
      assert rows + {pk} == rows;
    } else {
      assert |rows + {pk}| <= |rows| + 1;
    }
  }

  /** It takes rows from every other tenant only. */
  lemma WriteShrinksOthers(devices: Devices, a: Adder, row: Device, t: Tenant)
    requires UniqueDevices(devices) && Fits(devices, a, row) && t != a.tenant
    ensures Shrinks(devices, Written(devices, a, row), t)
  {
    WriteIsOneRow(devices, a, row);
  }

  lemma TenantsStep(w: World, cap: int, start: Devices, e: Event)
    requires cap > 0 && Sound(w, cap, start) && Enabled(w, e)
    ensures var v := Next(w, cap, e);
      UniqueDevices(v.devices)
        && forall t: Tenant {:trigger Count(v.devices, t)} :: Count(v.devices, t) <= Limit(cap, start, t)
  {
    var v := Next(w, cap, e);
    if e.Commit? {
      var a := w.txs[e.tx].adder;
      assert TxSound(w, cap, start, e.tx);
      WriteKeepsUnique(w.devices, a, e.row);
      WriteFits(w.devices, a, e.row);
    }
    forall t: Tenant ensures Count(v.devices, t) <= Limit(cap, start, t) {
      assert Count(w.devices, t) <= Limit(cap, start, t);
      if e.Commit? && t != w.txs[e.tx].adder.tenant { WriteShrinksOthers(w.devices, w.txs[e.tx].adder, e.row, t); }
      if !e.Commit? || t != w.txs[e.tx].adder.tenant {
        ShrinkKeepsRoom(w.devices, v.devices, t, "");
      }
    }
  }

  /** A pending transaction that this event is not a step of. */
  lemma OthersStep(w: World, cap: int, start: Devices, e: Event, tx: TxId)
    requires cap > 0 && Sound(w, cap, start) && Enabled(w, e)
    requires tx in w.txs && tx in Next(w, cap, e).txs && Next(w, cap, e).txs[tx] == w.txs[tx]
    ensures TxSound(Next(w, cap, e), cap, start, tx)
  {
    var v, a := Next(w, cap, e), w.txs[tx].adder;
    assert TxSound(w, cap, start, tx);
    if e.Commit? {
      assert TxSound(w, cap, start, e.tx);
      if a.tenant != w.txs[e.tx].adder.tenant { WriteShrinksOthers(w.devices, w.txs[e.tx].adder, e.row, a.tenant); }
      WriteIsOneRow(w.devices, w.txs[e.tx].adder, e.row);
    }
    if w.txs[tx].phase.Allowed? {
      assert Shrinks(w.devices, v.devices, a.tenant);
      ShrinkKeepsRoom(w.devices, v.devices, a.tenant, a.id);
    }
  }

  lemma SoundStep(w: World, cap: int, start: Devices, e: Event)
    requires cap > 0 && Sound(w, cap, start) && Enabled(w, e)
    ensures Sound(Next(w, cap, e), cap, start)
  {
    TenantsStep(w, cap, start, e);
    var v := Next(w, cap, e);
    forall tx | tx in v.txs ensures TxSound(v, cap, start, tx) {
      if tx in w.txs {
        assert TxSound(w, cap, start, tx);
        if v.txs[tx] == w.txs[tx] { OthersStep(w, cap, start, e, tx); }
      }
    }
  }

  lemma {:induction false} SoundAlways(ws: seq<World>, cap: int, es: seq<Event>, i: nat)
    requires Run(ws, cap, es) && cap > 0 && i < |ws|
    ensures Sound(ws[i], cap, ws[0].devices)
  {
    if i > 0 {
      SoundAlways(ws, cap, es, i - 1);
      assert StepAt(ws, cap, es, i - 1);
      SoundStep(ws[i - 1], cap, ws[0].devices, es[i - 1]);
    }
  }

  /** The row an adder is after, once it has committed. */
  predicate Added(was: Devices, now: Devices, a: Adder, pk: DevicePk) {
    && pk in now && now[pk].tenant == a.tenant && now[pk].id == a.id
    && now.Keys == was.Keys + {pk} && forall p :: p in was && p != pk ==> now[p] == was[p]
  }

  /** The target tenant has another row for the id. */
  predicate HasOther(devices: Devices, a: Adder) {
    exists pk :: pk in devices && pk != a.pk && devices[pk].tenant == a.tenant && devices[pk].id == a.id
  }

  /** In every run with a positive cap, an adder that has the lock passes its checks
      exactly when its tenant has a row for the id, or fewer rows than the cap. */
  lemma ChecksPassIff(ws: seq<World>, cap: int, es: seq<Event>, i: nat)
    requires Run(ws, cap, es) && cap > 0 && i < |es| && (es[i].CheckExists? || es[i].CheckCount?)
    ensures es[i].tx in ws[i].txs
    ensures var w, v, a := ws[i], ws[i + 1], ws[i].txs[es[i].tx].adder;
      v.devices == w.devices
      && (InPhase(v, es[i].tx, Allowed) <==>
            if es[i].CheckExists? then exists pk :: pk in w.devices && w.devices[pk].tenant == a.tenant
                                                    && w.devices[pk].id == a.id
            else |set pk | pk in w.devices && w.devices[pk].tenant == a.tenant| < cap)
  {
    assert StepAt(ws, cap, es, i);
    var w, a := ws[i], ws[i].txs[es[i].tx].adder;
    assert OfTenant(w.devices, a.tenant) == set pk | pk in w.devices && w.devices[pk].tenant == a.tenant;
  }

  /** In every run a commit leaves its tenant with a row for the id and changes no other,
      except for a reassign whose row is gone or whose target already has one. */
  lemma CommitTakesEffectIff(ws: seq<World>, cap: int, es: seq<Event>, i: nat)
    requires Run(ws, cap, es) && cap > 0 && i < |es| && es[i].Commit?
    ensures es[i].tx in ws[i].txs && es[i].tx !in ws[i + 1].txs
    ensures var was, now, a := ws[i].devices, ws[i + 1].devices, ws[i].txs[es[i].tx].adder;
      if a.Move? && (a.pk !in was || HasOther(was, a)) then now == was else exists pk :: Added(was, now, a, pk)
  {
    assert StepAt(ws, cap, es, i);
    SoundAlways(ws, cap, es, i);
    assert TxSound(ws[i], cap, ws[0].devices, es[i].tx);
    var was, now, a := ws[i].devices, ws[i + 1].devices, ws[i].txs[es[i].tx].adder;
    var pk := if a.Upsert? && HasDevice(was, a.tenant, a.id) then TheDevice(was, a.tenant, a.id) else a.pk;
    if a.Move? && HasDevice(was, a.tenant, a.id) { assert TheDevice(was, a.tenant, a.id) in was; }
    if a.Upsert? || now != was || (a.pk in was && was[a.pk].tenant == a.tenant) {
      assert Added(was, now, a, pk);
    }
  }

  lemma Follow(ws: seq<World>, cap: int, es: seq<Event>, e: Event) returns (vs: seq<World>, fs: seq<Event>)
    requires Run(ws, cap, es) && Enabled(ws[|es|], e)
    ensures Run(vs, cap, fs) && fs == es + [e] && ws <= vs && vs[|fs|] == Next(ws[|es|], cap, e)
  {
    vs, fs := ws + [Next(ws[|es|], cap, e)], es + [e];
    forall i | 0 <= i < |fs| ensures StepAt(vs, cap, fs, i) {
      if i < |es| { assert StepAt(ws, cap, es, i); }
    }
  }

  /** An adder for a new id, and what it needs: room, and nobody in the way. */
  ghost predicate CanAdd(w: World, cap: int, tx: TxId, a: Adder, row: Device) {
    && a.Upsert? && tx !in w.txs && a.tenant !in w.locks && FreshKey(w, a.pk)
    && !HasDevice(w.devices, a.tenant, a.id) && row.tenant == a.tenant && row.id == a.id
    && (cap <= 0 || |set pk | pk in w.devices && w.devices[pk].tenant == a.tenant| < cap)
  }

  /** From every reachable state an adder for a new id with room gets its row in, with
      the lock and both checks under a cap and without them when there is none. */
  lemma AdderGetsThrough(ws: seq<World>, cap: int, es: seq<Event>, tx: TxId, a: Adder, row: Device)
    returns (vs: seq<World>, fs: seq<Event>)
    requires Run(ws, cap, es) && CanAdd(ws[|es|], cap, tx, a, row)
    ensures ws <= vs && Run(vs, cap, fs)
    ensures fs == es + (if cap <= 0 then [Begin(tx, a)]
                        else [Begin(tx, a), Lock(tx), CheckExists(tx), CheckCount(tx)]) + [Commit(tx, row)]
    ensures vs[|fs|].devices == ws[|es|].devices[a.pk := row]
  {
    var w := ws[|es|];
    assert OfTenant(w.devices, a.tenant) == set pk | pk in w.devices && w.devices[pk].tenant == a.tenant;
    vs, fs := Follow(ws, cap, es, Begin(tx, a));
    if cap > 0 {
      vs, fs := Follow(vs, cap, fs, Lock(tx));
      vs, fs := Follow(vs, cap, fs, CheckExists(tx));
      vs, fs := Follow(vs, cap, fs, CheckCount(tx));
    }
    assert vs[|fs|].devices == w.devices && vs[|fs|].txs == w.txs[tx := Tx(a, Allowed)];
    vs, fs := Follow(vs, cap, fs, Commit(tx, row));
  }

  /** With a positive cap, no interleaving takes a tenant's committed rows above
      the cap, or above what it had when the run began if that was more. */
  lemma CapIsNeverExceeded(ws: seq<World>, cap: int, es: seq<Event>, i: nat, t: Tenant)
    requires Run(ws, cap, es) && cap > 0 && i < |ws|
    ensures Count(ws[i].devices, t) <= (if Count(ws[0].devices, t) > cap then Count(ws[0].devices, t) else cap)
    ensures UniqueDevices(ws[i].devices)
  {
    SoundAlways(ws, cap, es, i);
    assert Count(ws[i].devices, t) <= Limit(cap, ws[0].devices, t);
  }
}
