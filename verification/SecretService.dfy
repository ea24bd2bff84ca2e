/** SecretService's transactions, and the key-rotation sweep, on mutable tables. */
module SecretService {
  import opened Prelude
  import opened Aead
  import opened SecretStore
  import opened KekRotation

  class SecretService {
    var deks: Deks
    var rows: Rows
    const keyring: Option<Key>

    constructor (keyring: Option<Key>)
      ensures this.keyring == keyring && deks == map[] && rows == map[]
    {
      this.keyring, deks, rows := keyring, map[], map[];
    }

    function Tables(): Store
      reads this
    {
      Store(deks, rows)
    }

    /** The tenant's unwrapped key, created on first use. `minted` is what
        GenerateDEK would draw. */
    method TenantDEK(tenant: Tenant, minted: Key) returns (dek: Option<Key>)
      requires keyring.Some?
      modifies `deks
      ensures Tables() == EnsureDek(old(Tables()), keyring.value, tenant, minted)
      ensures dek == TenantDek(Tables(), keyring.value, tenant)
    {
      if tenant !in deks {
        var wrapped := WrapDEK(keyring.value, minted, DekAAD(tenant));
        if wrapped.None? { return None; }
        deks := deks[tenant := wrapped.value];
      }
      return UnwrapDEK(keyring.value, deks[tenant], DekAAD(tenant));
    }

    /** Encrypts and upserts an override or a default. An error rolls back. */
    method SetSecret(id: Identity, value: string, minted: Key) returns (r: Result<(), SecretError>)
      requires !id.TenantKey?
      modifies `deks, `rows
      ensures Tables() == After(old(Tables()), keyring, Set(id, value, minted))
      ensures r.Err? <==> Apply(old(Tables()), keyring, Set(id, value, minted)).Err?
      ensures r.Ok? || r == Err(KeyMismatch) <==> TakesEffect(keyring, Set(id, value, minted))
    {
      KnownIsValid(id.field);
      if keyring.None? { return Err(Disabled); }
      if !ValidSecretField(id.field) { return Err(UnknownField); }
      if id.Override? && id.pk == NIL_UUID { return Err(NoDevice); }
      if id.Default? && id.field == LEGACY_WIFI_PASSWORD { return Err(DeviceLevelOnly); }
      var begun := deks;
      var dek := TenantDEK(id.tenant, minted);
      if dek.None? {
        deks := begun;
        return Err(KeyMismatch);
      }
      var blob := Seal(dek.value, value,
                       if id.Override? then SecretAAD(id.tenant, id.pk, id.field)
                       else TenantSecretAAD(id.tenant, id.field));
      if blob.None? {
        deks := begun;
        return Err(KeyMismatch);
      }
      rows := rows[id := blob.value];
      return Ok(());
    }

    /** Deletes an override or a default; an absent row is not an error. */
    method ClearSecret(id: Identity) returns (r: Result<bool, SecretError>)
      requires !id.TenantKey?
      modifies `rows
      ensures Tables() == After(old(Tables()), keyring, Clear(id))
      ensures if TakesEffect(keyring, Clear(id)) then r == Ok(id in old(rows)) else r.Err?
    {
      KnownIsValid(id.field);
      if id.Override? && id.pk == NIL_UUID { return Err(NoDevice); }
      if !ValidSecretField(id.field) { return Err(UnknownField); }
      var deleted := id in rows;
      rows := rows - {id};
      return Ok(deleted);
    }

    /** The effective secret: one row is read, the override first. `minted` is what
        GenerateDEK would draw, a key no stored row was sealed under. */
    method ResolveSecret(tenant: Tenant, pk: Uuid, field: Field, minted: Key) returns (r: Result<Resolved, SecretError>)
      requires forall id :: id in rows && rows[id].Sealed? ==> rows[id].key != minted
      ensures r == Resolve(Tables(), keyring, tenant, pk, field)
    {
      if keyring.None? { return Err(Disabled); }
      if !ValidSecretField(field) { return Err(UnknownField); }
      var deviceOnly := field == LEGACY_WIFI_PASSWORD;
      var id := Override(tenant, pk, field);
      if id !in rows {
        id := Default(tenant, field);
        if deviceOnly || id !in rows {
          return Ok(Resolved("", OriginUnset));
        }
      }
      var dek := if tenant in deks then UnwrapDEK(keyring.value, deks[tenant], DekAAD(tenant)) else Some(minted);
      if dek.None? { return Err(KeyMismatch); }
      var plain := Open(dek.value, rows[id],
                        if id.Override? then SecretAAD(tenant, pk, field) else TenantSecretAAD(tenant, field));
      if plain.None? { return Err(DecryptFailed); }
      return Ok(Resolved(plain.value, if id.Override? then OriginOverride else OriginTenant));
    }

    /** The answer over the rows read so far. */
    static ghost predicate OriginsOf(out: map<Field, Origin>, seen: set<Identity>, tenant: Tenant, pk: Uuid) {
      && (forall f :: f in out ==>
            out[f] == (if Override(tenant, pk, f) in seen then OriginOverride
                       else if Default(tenant, f) in seen then OriginTenant else OriginUnset))
      && (forall f :: f !in out ==>
            Override(tenant, pk, f) !in seen && Default(tenant, f) !in seen && f !in SCALAR_SECRET_FIELDS)
    }

    static lemma OneMoreOrigin(out: map<Field, Origin>, seen: set<Identity>, tenant: Tenant, pk: Uuid, id: Identity)
      requires OriginsOf(out, seen, tenant, pk) && !id.TenantKey?
      requires id == Override(tenant, pk, id.field) || id == Default(tenant, id.field)
      ensures var kept := id.Default? && id.field in out && out[id.field] == OriginOverride;
        var next := if kept then out else out[id.field := if id.Override? then OriginOverride else OriginTenant];
        OriginsOf(next, seen + {id}, tenant, pk)
    {
    }

    /** Per field, where a device's value comes from. The rows may arrive in any
        order: a device row wins whatever the order. */
    method OriginStatus(tenant: Tenant, pk: Uuid) returns (out: map<Field, Origin>)
      ensures forall f :: f in out ==> out[f] == OriginOf(Tables(), tenant, pk, f)
      ensures forall f :: f !in out ==> OriginOf(Tables(), tenant, pk, f) == OriginUnset && f !in SCALAR_SECRET_FIELDS
    {
      out := map f | f in SCALAR_SECRET_FIELDS :: OriginUnset;
      var rest := set id | id in rows && !id.TenantKey? && id.tenant == tenant && (id.Default? || id.pk == pk);
      ghost var seen: set<Identity> := {};
      while rest != {}
        invariant forall id :: id in rows && !id.TenantKey? && id.tenant == tenant && (id.Default? || id.pk == pk) <==>
                                 id in rest || id in seen
        invariant OriginsOf(out, seen, tenant, pk)
        decreases rest
      {
        var id :| id in rest;
        OneMoreOrigin(out, seen, tenant, pk, id);
        rest, seen := rest - {id}, seen + {id};
        if id.Override? {
          out := out[id.field := OriginOverride];
        } else if id.field !in out || out[id.field] != OriginOverride {
          out := out[id.field := OriginTenant];
        }
      }
    }

    /** Re-wraps every tenant key under the new root key, in one transaction: a row
        that opens under neither key fails the whole sweep and changes nothing. */
    method RotateRootKEK(newKey: Key) returns (r: Result<RotationResult, SecretError>)
      requires |newKey| == KEY_LEN
      modifies `deks
      ensures keyring.None? ==> r == Err(Disabled) && deks == old(deks)
      ensures keyring.Some? ==> deks == Sweep(old(deks), keyring.value, newKey)
                                && r == SweepResult(old(deks), keyring.value, newKey)
    {
      if keyring.None? { return Err(Disabled); }
      var result, table := SweepTable(deks, keyring.value, newKey);
      deks := table;
      return result;
    }

    /** One row: re-wrapped, already under the new key, or under neither. */
    static method RewrapRow(row: Blob, t: Tenant, oldKey: Key, newKey: Key) returns (wrapped: Option<Blob>, moved: bool)
      requires |newKey| == KEY_LEN
      ensures var begun := map[t := row];
        && moved == UnderKey(begun, oldKey, t)
        && wrapped == if moved || UnderKey(begun, newKey, t) then Some(Rewrapped(begun, oldKey, newKey, t)) else None
    {
      var dek := UnwrapDEK(oldKey, row, DekAAD(t));
      if dek.None? {
        return if UnwrapDEK(newKey, row, DekAAD(t)).Some? then Some(row) else None, false;
      }
      return WrapDEK(newKey, dek.value, DekAAD(t)), true;
    }

    /** The transaction's view of the table: what it commits, or the table it began
        with when it rolls back. */
    static method SweepTable(begun: Deks, oldKey: Key, newKey: Key)
      returns (r: Result<RotationResult, SecretError>, table: Deks)
      requires |newKey| == KEY_LEN
      ensures table == Sweep(begun, oldKey, newKey)
      ensures r == SweepResult(begun, oldKey, newKey)
    {
      table := begun;
      var rotated, alreadyNew := 0, 0;
      var rest := begun.Keys;
      while rest != {}
        invariant SweptUpTo(begun, table, rest, oldKey, newKey)
        invariant rotated == |UnderOld(begun, oldKey) - rest|
        invariant rotated + alreadyNew + |rest| == |begun|
        decreases rest
      {
        var t :| t in rest;
        SweepCounts(begun, rest, t, oldKey);
        SweepRow(begun, table, rest, t, oldKey, newKey);
        var wrapped, moved := RewrapRow(begun[t], t, oldKey, newKey);
        if wrapped.None? {
          OneForeignRowStopsTheSweep(begun, oldKey, newKey, t);
          return Err(KeyMismatch), begun;
        }
        table := table[t := wrapped.value];
        if moved { rotated := rotated + 1; } else { alreadyNew := alreadyNew + 1; }
        rest := rest - {t};
      }
      SweepEnds(begun, table, oldKey, newKey);
      return Ok(RotationResult(rotated, alreadyNew)), table;
    }
  }

  /** The sweep has visited every tenant outside `rest`. */
  ghost predicate SweptUpTo(begun: Deks, deks: Deks, rest: set<Tenant>, oldKey: Key, newKey: Key) {
    && rest <= begun.Keys == deks.Keys
    && (forall t :: t in rest ==> deks[t] == begun[t])
    && forall t :: t in begun && t !in rest ==>
         deks[t] == Rewrapped(begun, oldKey, newKey, t) && (UnderKey(begun, oldKey, t) || UnderKey(begun, newKey, t))
  }

  lemma SweepRow(begun: Deks, deks: Deks, rest: set<Tenant>, t: Tenant, oldKey: Key, newKey: Key)
    requires SweptUpTo(begun, deks, rest, oldKey, newKey) && t in rest
    ensures (UnderKey(begun, oldKey, t) || UnderKey(begun, newKey, t)) ==>
              SweptUpTo(begun, deks[t := Rewrapped(begun, oldKey, newKey, t)], rest - {t}, oldKey, newKey)
  {
  }

  lemma SweepCounts(begun: Deks, rest: set<Tenant>, t: Tenant, oldKey: Key)
    requires rest <= begun.Keys && t in rest
    ensures |UnderOld(begun, oldKey) - (rest - {t})| ==
      |UnderOld(begun, oldKey) - rest| + (if UnderKey(begun, oldKey, t) then 1 else 0)
    ensures |rest - {t}| == |rest| - 1
  {
    var under := UnderOld(begun, oldKey);
    assert under - (rest - {t}) == under - rest + (if UnderKey(begun, oldKey, t) then {t} else {});
  }

  lemma SweepEnds(begun: Deks, deks: Deks, oldKey: Key, newKey: Key)
    requires SweptUpTo(begun, deks, {}, oldKey, newKey)
    ensures deks == Rotated(begun, oldKey, newKey) && Rotatable(begun, oldKey, newKey)
    ensures UnderOld(begun, oldKey) - {} == UnderOld(begun, oldKey)
  {
  }
}
