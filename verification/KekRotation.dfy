/** Re-wrapping every tenant key under a new root key. */
module KekRotation {
  import opened Prelude
  import opened Aead
  import opened SecretStore

  datatype RotationResult = RotationResult(rotated: nat, alreadyNew: nat)

  predicate UnderKey(deks: Deks, key: Key, t: Tenant) {
    t in deks && UnwrapDEK(key, deks[t], DekAAD(t)).Some?
  }

  /** Every row unwraps under the old or the new key. */
  predicate Rotatable(deks: Deks, oldKey: Key, newKey: Key) {
    forall t :: t in deks ==> UnderKey(deks, oldKey, t) || UnderKey(deks, newKey, t)
  }

  function UnderOld(deks: Deks, oldKey: Key): set<Tenant> {
    set t | t in deks && UnderKey(deks, oldKey, t)
  }

  function Rewrapped(deks: Deks, oldKey: Key, newKey: Key, t: Tenant): Blob
    requires t in deks
  {
    if !UnderKey(deks, oldKey, t) then deks[t]
    else Sealed(newKey, DekAAD(t), UnwrapDEK(oldKey, deks[t], DekAAD(t)).value)
  }

  function Rotated(deks: Deks, oldKey: Key, newKey: Key): Deks {
    map t | t in deks :: Rewrapped(deks, oldKey, newKey, t)
  }

  /** The sweep commits as a whole or not at all. */
  function Sweep(deks: Deks, oldKey: Key, newKey: Key): Deks {
    if Rotatable(deks, oldKey, newKey) then Rotated(deks, oldKey, newKey) else deks
  }

  function SweepResult(deks: Deks, oldKey: Key, newKey: Key): Result<RotationResult, SecretError> {
    if Rotatable(deks, oldKey, newKey)
    then
      UnderOldIsSmaller(deks, oldKey);
      Ok(RotationResult(|UnderOld(deks, oldKey)|, |deks| - |UnderOld(deks, oldKey)|))
    else Err(KeyMismatch)
  }

  lemma UnderOldIsSmaller(deks: Deks, oldKey: Key)
    ensures |UnderOld(deks, oldKey)| <= |deks|
  {
    SubsetIsSmaller(UnderOld(deks, oldKey), deks.Keys);
  }

  // ----- The service at work between sweeps

  /** A set or clear at either level, a tenant's key made ahead of use, a sweep. */
  datatype Step = Do(command: Command) | Mint(tenant: Tenant, dek: Key) | SweepAll

  /** The tables and, as history, the key each tenant's row was created with, the
      plain map of the commands that succeeded, and the tenants whose row was
      created since the last sweep. */
  datatype Vault = Vault(store: Store, made: map<Tenant, Key>, plain: Plain, recent: set<Tenant>)

  function Moved(v: Vault, after: Store, plain: Plain, tenant: Tenant, minted: Key): Vault {
    if tenant in after.deks && tenant !in v.store.deks
    then Vault(after, v.made[tenant := minted], plain, v.recent + {tenant})
    else v.(store := after, plain := plain)
  }

  /** The service runs on the live key, which stays the old one. */
  function Next(v: Vault, oldKey: Key, newKey: Key, s: Step): Vault {
    match s
    case Do(c) =>
      if Apply(v.store, Some(oldKey), c).Err? then v
      else Moved(v, After(v.store, Some(oldKey), c), PlainAfter(v.plain, Some(oldKey), c), c.id.tenant,
                 if c.Set? then c.minted else "")
    case Mint(t, dek) => Moved(v, EnsureDek(v.store, oldKey, t, dek), v.plain, t, dek)
    case SweepAll => v.(store := v.store.(deks := Sweep(v.store.deks, oldKey, newKey)), recent := {})
  }

  const EMPTY: Vault := Vault(Store(map[], map[]), map[], map[], {})

  function Exec(oldKey: Key, newKey: Key, steps: seq<Step>): Vault {
    if steps == [] then EMPTY else Next(Exec(oldKey, newKey, steps[..|steps| - 1]), oldKey, newKey, steps[|steps| - 1])
  }

  /** Each tenant row is its own creation key, wrapped once: under the old key if it
      was created since the last sweep, else under the new. */
  predicate KeyCustody(v: Vault, oldKey: Key, newKey: Key) {
    && v.store.deks.Keys == v.made.Keys && v.recent <= v.made.Keys
    && forall t :: t in v.store.deks ==>
         (|v.made[t]| == KEY_LEN
          && v.store.deks[t] == Sealed(if t in v.recent then oldKey else newKey, DekAAD(t), v.made[t]))
  }

  /** Each secret row is its plain value, sealed under its tenant's creation key. */
  predicate RowCustody(v: Vault) {
    && v.store.rows.Keys == v.plain.Keys
    && forall id :: id in v.store.rows ==>
         (Storable(id) && id.tenant in v.made && v.store.rows[id] == Sealed(v.made[id.tenant], Bound(id), v.plain[id]))
  }

  lemma RowOpensOnce(v: Vault, oldKey: Key, newKey: Key, t: Tenant)
    requires oldKey != newKey && KeyCustody(v, oldKey, newKey) && t in v.store.deks
    ensures UnderKey(v.store.deks, oldKey, t) <==> t in v.recent
    ensures UnderKey(v.store.deks, newKey, t) <==> t !in v.recent
    ensures UnwrapDEK(if t in v.recent then oldKey else newKey, v.store.deks[t], DekAAD(t)) == Some(v.made[t])
  {
  }

  lemma SweepEndsUnderNew(v: Vault, oldKey: Key, newKey: Key)
    requires |oldKey| == KEY_LEN && |newKey| == KEY_LEN && oldKey != newKey && KeyCustody(v, oldKey, newKey)
    ensures Rotatable(v.store.deks, oldKey, newKey)
    ensures var after := Sweep(v.store.deks, oldKey, newKey);
      after.Keys == v.store.deks.Keys && forall t :: t in after ==> after[t] == Sealed(newKey, DekAAD(t), v.made[t])
  {
    forall t | t in v.store.deks
      ensures UnderKey(v.store.deks, oldKey, t) || UnderKey(v.store.deks, newKey, t)
      ensures Rewrapped(v.store.deks, oldKey, newKey, t) == Sealed(newKey, DekAAD(t), v.made[t])
    {
      RowOpensOnce(v, oldKey, newKey, t);
    }
  }

  /** A new key's row keeps custody; so does a change that makes none. */
  lemma MovedKeepsKeys(v: Vault, after: Store, plain: Plain, oldKey: Key, newKey: Key, t: Tenant, minted: Key)
    requires KeyCustody(v, oldKey, newKey)
    requires after.deks == v.store.deks
             || (t !in v.store.deks && |minted| == KEY_LEN
                 && after.deks == v.store.deks[t := Sealed(oldKey, DekAAD(t), minted)])
    ensures KeyCustody(Moved(v, after, plain, t, minted), oldKey, newKey)
    ensures forall u :: u in v.made ==>
      u in Moved(v, after, plain, t, minted).made && Moved(v, after, plain, t, minted).made[u] == v.made[u]
  {
  }

  lemma CommandKeepsKeys(v: Vault, oldKey: Key, newKey: Key, c: Command)
    requires |oldKey| == KEY_LEN && KeyCustody(v, oldKey, newKey)
    ensures KeyCustody(Next(v, oldKey, newKey, Do(c)), oldKey, newKey)
  {
    if Apply(v.store, Some(oldKey), c).Ok? {
      MovedKeepsKeys(v, After(v.store, Some(oldKey), c), PlainAfter(v.plain, Some(oldKey), c), oldKey, newKey,
                     c.id.tenant, if c.Set? then c.minted else "");
    }
  }

  /** A set that succeeds sealed its value under the tenant's creation key. */
  lemma SetSealsUnderMade(v: Vault, oldKey: Key, newKey: Key, c: Command)
    requires |oldKey| == KEY_LEN && oldKey != newKey && KeyCustody(v, oldKey, newKey)
    requires c.Set? && Apply(v.store, Some(oldKey), c).Ok?
    ensures var w := Next(v, oldKey, newKey, Do(c));
      && Storable(c.id) && c.id.tenant in w.made
      && w.store.rows == v.store.rows[c.id := Sealed(w.made[c.id.tenant], Bound(c.id), c.value)]
      && w.plain == v.plain[c.id := c.value]
      && forall t :: t in v.made ==> t in w.made && w.made[t] == v.made[t]
  {
    if c.id.tenant in v.store.deks { RowOpensOnce(v, oldKey, newKey, c.id.tenant); }
  }

  lemma CommandKeepsCustody(v: Vault, oldKey: Key, newKey: Key, c: Command)
    requires |oldKey| == KEY_LEN && oldKey != newKey && KeyCustody(v, oldKey, newKey) && RowCustody(v)
    ensures var w := Next(v, oldKey, newKey, Do(c)); KeyCustody(w, oldKey, newKey) && RowCustody(w)
  {
    CommandKeepsKeys(v, oldKey, newKey, c);
    CommandKeepsRows(v, oldKey, newKey, c);
  }

  lemma CommandKeepsRows(v: Vault, oldKey: Key, newKey: Key, c: Command)
    requires |oldKey| == KEY_LEN && oldKey != newKey && KeyCustody(v, oldKey, newKey) && RowCustody(v)
    ensures RowCustody(Next(v, oldKey, newKey, Do(c)))
  {
    if c.Set? && Apply(v.store, Some(oldKey), c).Ok? {
      SetSealsUnderMade(v, oldKey, newKey, c);
      SealedRowIsKept(v, Next(v, oldKey, newKey, Do(c)), c.id, c.value);
    }
  }

  lemma SealedRowIsKept(v: Vault, w: Vault, id: Identity, value: string)
    requires RowCustody(v) && Storable(id) && id.tenant in w.made
    requires w.store.rows == v.store.rows[id := Sealed(w.made[id.tenant], Bound(id), value)]
    requires w.plain == v.plain[id := value]
    requires forall t :: t in v.made ==> t in w.made && w.made[t] == v.made[t]
    ensures RowCustody(w)
  {
  }

  lemma MintKeepsCustody(v: Vault, oldKey: Key, newKey: Key, t: Tenant, dek: Key)
    requires |oldKey| == KEY_LEN && KeyCustody(v, oldKey, newKey) && RowCustody(v)
    ensures var w := Next(v, oldKey, newKey, Mint(t, dek)); KeyCustody(w, oldKey, newKey) && RowCustody(w)
  {
    var after := EnsureDek(v.store, oldKey, t, dek);
    assert after.rows == v.store.rows;
    MovedKeepsKeys(v, after, v.plain, oldKey, newKey, t, dek);
  }

  lemma {:induction false} CustodyAlways(oldKey: Key, newKey: Key, steps: seq<Step>)
    requires |oldKey| == KEY_LEN && |newKey| == KEY_LEN && oldKey != newKey
    ensures var v := Exec(oldKey, newKey, steps); KeyCustody(v, oldKey, newKey) && RowCustody(v)
  {
    if steps != [] {
      var front, last := steps[..|steps| - 1], steps[|steps| - 1];
      var v := Exec(oldKey, newKey, front);
      CustodyAlways(oldKey, newKey, front);
      match last
      case Do(c) => CommandKeepsCustody(v, oldKey, newKey, c);
      case Mint(t, dek) => MintKeepsCustody(v, oldKey, newKey, t, dek);
      case SweepAll => SweepEndsUnderNew(v, oldKey, newKey);
    }
  }

  lemma SweptIsFixed(deks: Deks, oldKey: Key, newKey: Key)
    requires oldKey != newKey
    requires forall t :: t in deks ==> deks[t].Sealed? && deks[t].key == newKey && UnderKey(deks, newKey, t)
    ensures Sweep(deks, oldKey, newKey) == deks && SweepResult(deks, oldKey, newKey) == Ok(RotationResult(0, |deks|))
  {
    assert UnderOld(deks, oldKey) == {};
    assert Rotated(deks, oldKey, newKey) == deks;
  }

  /** In every reachable table: each row unwraps under exactly one of the keys, to
      the key it was created with; a sweep never fails; it leaves every row under
      the new key and the created keys as they were; its counts add up to the
      rows; and an immediate rerun rotates nothing. */
  lemma SweepMovesEveryKeyOnce(oldKey: Key, newKey: Key, steps: seq<Step>)
    requires |oldKey| == KEY_LEN && |newKey| == KEY_LEN && oldKey != newKey
    ensures var v := Exec(oldKey, newKey, steps); var deks, after := v.store.deks, Sweep(v.store.deks, oldKey, newKey);
      && deks.Keys == v.made.Keys == after.Keys
      && (forall t :: t in deks ==>
            (UnderKey(deks, oldKey, t) != UnderKey(deks, newKey, t)
             && UnwrapDEK(if UnderKey(deks, oldKey, t) then oldKey else newKey, deks[t], DekAAD(t)) == Some(v.made[t])
             && UnwrapDEK(newKey, after[t], DekAAD(t)) == Some(v.made[t])))
    ensures var v := Exec(oldKey, newKey, steps);
      match SweepResult(v.store.deks, oldKey, newKey)
      case Ok(r) => r.rotated == |UnderOld(v.store.deks, oldKey)| && r.rotated + r.alreadyNew == |v.store.deks|
      case Err(_) => false
    ensures var v := Exec(oldKey, newKey, steps); var after := Sweep(v.store.deks, oldKey, newKey);
      Sweep(after, oldKey, newKey) == after
        && SweepResult(after, oldKey, newKey) == Ok(RotationResult(0, |v.store.deks|))
  {
    CustodyAlways(oldKey, newKey, steps);
    var v := Exec(oldKey, newKey, steps);
    var after := Sweep(v.store.deks, oldKey, newKey);
    forall t | t in v.store.deks
      ensures UnderKey(v.store.deks, oldKey, t) != UnderKey(v.store.deks, newKey, t)
      ensures UnwrapDEK(if UnderKey(v.store.deks, oldKey, t) then oldKey else newKey, v.store.deks[t], DekAAD(t)) ==
        Some(v.made[t])
    {
      RowOpensOnce(v, oldKey, newKey, t);
    }
    SweepEndsUnderNew(v, oldKey, newKey);
    SweptIsFixed(after, oldKey, newKey);
    assert |after.Keys| == |v.store.deks.Keys|;
  }

  /** A table with one row that opens under neither key is not touched at all. */
  lemma OneForeignRowStopsTheSweep(deks: Deks, oldKey: Key, newKey: Key, t: Tenant)
    requires t in deks && !UnderKey(deks, oldKey, t) && !UnderKey(deks, newKey, t)
    ensures Sweep(deks, oldKey, newKey) == deks && SweepResult(deks, oldKey, newKey).Err?
  {
  }

  /** What either key answers over tables in custody: the plain map's answer if the
      field is unset or the tenant's row is under that key, else an error. */
  lemma AnswersByKey(v: Vault, oldKey: Key, newKey: Key, useNew: bool, tenant: Tenant, pk: Uuid, field: Field)
    requires oldKey != newKey && KeyCustody(v, oldKey, newKey) && RowCustody(v) && ValidSecretField(field)
    ensures var key := if useNew then newKey else oldKey;
      var r, plain := Resolve(v.store, Some(key), tenant, pk, field), PlainResolve(v.plain, tenant, pk, field);
      && (r.Ok? <==> plain.origin == OriginUnset || (tenant in v.recent <==> !useNew))
      && (r.Ok? ==> r.value == plain)
  {
    var found := Effective(v.store, tenant, pk, field);
    if found.Some? {
      assert found.value in v.store.rows && found.value.tenant == tenant;
      RowOpensOnce(v, oldKey, newKey, tenant);
    }
  }

  /** The running service keeps the old key. Over any mix of sets, clears, mints and
      sweeps it answers a field exactly when the field is unset or the tenant's key
      was made since the last sweep, and then it answers what the plain map does. */
  lemma OldKeyIsShutOutBySweep(oldKey: Key, newKey: Key, steps: seq<Step>, tenant: Tenant, pk: Uuid, field: Field)
    requires |oldKey| == KEY_LEN && |newKey| == KEY_LEN && oldKey != newKey && ValidSecretField(field)
    ensures var v := Exec(oldKey, newKey, steps);
      var r, plain := Resolve(v.store, Some(oldKey), tenant, pk, field), PlainResolve(v.plain, tenant, pk, field);
      && (r.Ok? <==> plain.origin == OriginUnset || tenant in v.recent)
      && (r.Ok? ==> r.value == plain)
      && (tenant in v.store.deks ==> (tenant in v.recent <==> UnderKey(v.store.deks, oldKey, tenant)))
  {
    CustodyAlways(oldKey, newKey, steps);
    var v := Exec(oldKey, newKey, steps);
    AnswersByKey(v, oldKey, newKey, false, tenant, pk, field);
    if tenant in v.store.deks { RowOpensOnce(v, oldKey, newKey, tenant); }
  }

  /** On the write side, a set is refused for its own sake, or fails exactly when its
      tenant's key has been swept since it was made. */
  lemma OldKeyWritesIff(oldKey: Key, newKey: Key, steps: seq<Step>, c: Command)
    requires |oldKey| == KEY_LEN && |newKey| == KEY_LEN && oldKey != newKey && c.Set? && Mints(c)
    ensures var v := Exec(oldKey, newKey, steps);
      Apply(v.store, Some(oldKey), c).Ok? <==>
        TakesEffect(Some(oldKey), c) && (c.id.tenant !in v.store.deks || c.id.tenant in v.recent)
  {
    CustodyAlways(oldKey, newKey, steps);
    var v := Exec(oldKey, newKey, steps);
    if c.id.tenant in v.store.deks { RowOpensOnce(v, oldKey, newKey, c.id.tenant); }
  }

  /** After any such work, with sweeps and mints mixed in, one more sweep and the swap
      to the new key, every field answers what the plain map does. */
  lemma RotationKeepsEveryAnswer(oldKey: Key, newKey: Key, steps: seq<Step>, tenant: Tenant, pk: Uuid, field: Field)
    requires |oldKey| == KEY_LEN && |newKey| == KEY_LEN && oldKey != newKey && ValidSecretField(field)
    ensures var v := Exec(oldKey, newKey, steps);
      Resolve(v.store.(deks := Sweep(v.store.deks, oldKey, newKey)), Some(newKey), tenant, pk, field)
      == Ok(PlainResolve(v.plain, tenant, pk, field))
  {
    var v := Exec(oldKey, newKey, steps);
    var w := Next(v, oldKey, newKey, SweepAll);
    CustodyAlways(oldKey, newKey, steps);
    SweepEndsUnderNew(v, oldKey, newKey);
    AnswersByKey(w, oldKey, newKey, true, tenant, pk, field);
  }
}
