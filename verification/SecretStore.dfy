/** The encrypted secret tables as values, and the plain override/default map
    they stand for. A device has one tenant, so its rows carry it in their key. */
module SecretStore {
  import opened Prelude
  import opened Aead

  const LEGACY_WIFI_PASSWORD: Field := "wifi.password"
  const WIFI_PASSWORD_PREFIX: Field := "wifi.password:"
  const SCALAR_SECRET_FIELDS: seq<Field> := ["mqtt.password", "telegram.bot_token", "web.password", "wifi.ap_password"]
  const NIL_UUID: Uuid := "00000000-0000-0000-0000-000000000000"

  predicate IsWifiPasswordField(field: Field) {
    field == LEGACY_WIFI_PASSWORD || (WIFI_PASSWORD_PREFIX <= field && |field| > |WIFI_PASSWORD_PREFIX|)
  }

  predicate ValidSecretField(field: Field) {
    field in SCALAR_SECRET_FIELDS || IsWifiPasswordField(field)
  }

  datatype SecretError = Disabled | UnknownField | NoDevice | DeviceLevelOnly | KeyMismatch | DecryptFailed

  datatype Origin = OriginUnset | OriginOverride | OriginTenant

  datatype Resolved = Resolved(value: string, origin: Origin)

  type Deks = map<Tenant, Blob>
  type Rows = map<Identity, Blob>

  /** tenant_dek and device_config_secrets. */
  datatype Store = Store(deks: Deks, rows: Rows)

  /** Ensures the tenant's wrapped key exists; `minted` is what GenerateDEK drew. */
  function EnsureDek(s: Store, kek: Key, tenant: Tenant, minted: Key): Store {
    if tenant in s.deks || WrapDEK(kek, minted, DekAAD(tenant)).None? then s
    else s.(deks := s.deks[tenant := WrapDEK(kek, minted, DekAAD(tenant)).value])
  }

  function TenantDek(s: Store, kek: Key, tenant: Tenant): Option<Key> {
    if tenant in s.deks then UnwrapDEK(kek, s.deks[tenant], DekAAD(tenant)) else None
  }

  datatype Command =
    | Set(id: Identity, value: string, minted: Key)
    | Clear(id: Identity)

  /** What the service refuses before it opens a transaction. */
  function Refusal(keyring: Option<Key>, c: Command): Option<SecretError> {
    if c.Set? && keyring.None? then Some(Disabled)
    else if c.id.TenantKey? || !ValidSecretField(c.id.field) then Some(UnknownField)
    else if c.id.Override? && c.id.pk == NIL_UUID then Some(NoDevice)
    else if c.Set? && c.id.Default? && c.id.field == LEGACY_WIFI_PASSWORD then Some(DeviceLevelOnly)
    else None
  }

  /** Set and Clear at either level; an error leaves the tables as they were. */
  function Apply(s: Store, keyring: Option<Key>, c: Command): Result<Store, SecretError> {
    if Refusal(keyring, c).Some? then Err(Refusal(keyring, c).value)
    else match c
      case Clear(id) => Ok(s.(rows := s.rows - {id}))
      case Set(id, value, minted) =>
        var t := EnsureDek(s, keyring.value, id.tenant, minted);
        var dek := TenantDek(t, keyring.value, id.tenant);
        if dek.None? then Err(KeyMismatch)
        else if Seal(dek.value, value, Bound(id)).None? then Err(KeyMismatch)
        else Ok(t.(rows := t.rows[id := Seal(dek.value, value, Bound(id)).value]))
  }

  function After(s: Store, keyring: Option<Key>, c: Command): Store {
    match Apply(s, keyring, c) case Ok(t) => t case Err(_) => s
  }

  /** The row Resolve reads: the override, else the default unless the field is
      device-level only. */
  function Effective(s: Store, tenant: Tenant, pk: Uuid, field: Field): Option<Identity> {
    if Override(tenant, pk, field) in s.rows then Some(Override(tenant, pk, field))
    else if field != LEGACY_WIFI_PASSWORD && Default(tenant, field) in s.rows then Some(Default(tenant, field))
    else None
  }

  /** A tenant without a key gets one made on the spot; it opens no stored row, and
      the failed transaction takes it back. */
  function Resolve(s: Store, keyring: Option<Key>, tenant: Tenant, pk: Uuid,
                   field: Field): Result<Resolved, SecretError> {
    if keyring.None? then Err(Disabled)
    else if !ValidSecretField(field) then Err(UnknownField)
    else match Effective(s, tenant, pk, field)
      case None => Ok(Resolved("", OriginUnset))
      case Some(id) =>
        var dek := TenantDek(s, keyring.value, tenant);
        if tenant !in s.deks then Err(DecryptFailed)
        else if dek.None? then Err(KeyMismatch)
        else match Open(dek.value, s.rows[id], Bound(id))
          case None => Err(DecryptFailed)
          case Some(v) => Ok(Resolved(v, if id.Override? then OriginOverride else OriginTenant))
  }

  /** What OriginStatus reports: existence only, with no device-level-only rule. */
  function OriginOf(s: Store, tenant: Tenant, pk: Uuid, field: Field): Origin {
    if Override(tenant, pk, field) in s.rows then OriginOverride
    else if Default(tenant, field) in s.rows then OriginTenant
    else OriginUnset
  }

  // ----- The plain map

  type Plain = map<Identity, string>

  /** A secret the platform knows: four scalar ones, and the password of a network. */
  predicate Known(field: Field) {
    || field == "mqtt.password" || field == "telegram.bot_token" || field == "web.password"
    || field == "wifi.ap_password" || field == "wifi.password"
    || (|field| > 14 && field[..14] == "wifi.password:")
  }

  /** Which commands change the map: an override names a device, a default is never the
      device-level-only field, and only a set needs a key. */
  predicate TakesEffect(keyring: Option<Key>, c: Command) {
    && !c.id.TenantKey? && Known(c.id.field)
    && (c.id.Override? ==> c.id.pk != "00000000-0000-0000-0000-000000000000")
    && (c.Set? ==> keyring.Some? && (c.id.Default? ==> c.id.field != "wifi.password"))
  }

  lemma KnownIsValid(field: Field)
    ensures Known(field) <==> ValidSecretField(field)
  {
    assert |WIFI_PASSWORD_PREFIX| == 14;
  }

  /** The service refuses exactly the commands without effect. */
  lemma RefusedIffNoEffect(keyring: Option<Key>, c: Command)
    ensures Refusal(keyring, c).None? <==> TakesEffect(keyring, c)
  {
    if !c.id.TenantKey? { KnownIsValid(c.id.field); }
  }

  function PlainAfter(p: Plain, keyring: Option<Key>, c: Command): Plain {
    if !TakesEffect(keyring, c) then p
    else match c case Set(id, value, _) => p[id := value] case Clear(id) => p - {id}
  }

  /** Override, else default, else unset; the legacy field is device-level only. */
  function PlainResolve(p: Plain, tenant: Tenant, pk: Uuid, field: Field): Resolved {
    if Override(tenant, pk, field) in p then Resolved(p[Override(tenant, pk, field)], OriginOverride)
    else if field != LEGACY_WIFI_PASSWORD && Default(tenant, field) in p
    then Resolved(p[Default(tenant, field)], OriginTenant)
    else Resolved("", OriginUnset)
  }

  // ----- Refinement

  predicate DeksUnder(deks: Deks, kek: Key) {
    forall t :: t in deks ==> UnwrapDEK(kek, deks[t], DekAAD(t)).Some?
  }

  predicate Storable(id: Identity) {
    !id.TenantKey? && ValidSecretField(id.field) && !(id.Default? && id.field == LEGACY_WIFI_PASSWORD)
  }

  /** Every row holds its plain value, sealed under its own tenant's key for its
      own identity, and nothing else is stored. */
  predicate Refines(s: Store, kek: Key, p: Plain) {
    && |kek| == KEY_LEN && DeksUnder(s.deks, kek)
    && s.rows.Keys == p.Keys
    && forall id :: id in s.rows ==>
         (Storable(id) && id.tenant in s.deks
          && s.rows[id] == Sealed(TenantDek(s, kek, id.tenant).value, Bound(id), p[id]))
  }

  /** GenerateDEK draws KEY_LEN bytes. */
  predicate Mints(c: Command) {
    c.Set? ==> |c.minted| == KEY_LEN
  }

  lemma CommandRefines(s: Store, kek: Key, p: Plain, c: Command)
    requires Refines(s, kek, p) && Mints(c)
    ensures Refines(After(s, Some(kek), c), kek, PlainAfter(p, Some(kek), c))
    ensures Apply(s, Some(kek), c).Ok? <==> TakesEffect(Some(kek), c)
  {
    RefusedIffNoEffect(Some(kek), c);
  }

  function Exec(s: Store, keyring: Option<Key>, cs: seq<Command>): Store {
    if cs == [] then s else After(Exec(s, keyring, cs[..|cs| - 1]), keyring, cs[|cs| - 1])
  }

  function PlainExec(p: Plain, keyring: Option<Key>, cs: seq<Command>): Plain {
    if cs == [] then p else PlainAfter(PlainExec(p, keyring, cs[..|cs| - 1]), keyring, cs[|cs| - 1])
  }

  lemma {:induction false} ExecRefines(kek: Key, cs: seq<Command>)
    requires |kek| == KEY_LEN && forall i :: 0 <= i < |cs| ==> Mints(cs[i])
    ensures Refines(Exec(Store(map[], map[]), Some(kek), cs), kek, PlainExec(map[], Some(kek), cs))
  {
    if cs != [] {
      ExecRefines(kek, cs[..|cs| - 1]);
      CommandRefines(Exec(Store(map[], map[]), Some(kek), cs[..|cs| - 1]), kek,
                     PlainExec(map[], Some(kek), cs[..|cs| - 1]), cs[|cs| - 1]);
    }
  }

  lemma RefinedResolve(s: Store, kek: Key, p: Plain, tenant: Tenant, pk: Uuid, field: Field)
    requires Refines(s, kek, p) && ValidSecretField(field)
    ensures Resolve(s, Some(kek), tenant, pk, field) == Ok(PlainResolve(p, tenant, pk, field))
    ensures OriginOf(s, tenant, pk, field) == PlainResolve(p, tenant, pk, field).origin
  {
  }

  /** After any commands at either level, with keys made lazily along the way,
      Resolve answers what the plain map answers, and OriginStatus agrees. */
  lemma ResolveIsThePlainMap(kek: Key, cs: seq<Command>, tenant: Tenant, pk: Uuid, field: Field)
    requires |kek| == KEY_LEN && (forall i :: 0 <= i < |cs| ==> Mints(cs[i])) && ValidSecretField(field)
    ensures var s, p := Exec(Store(map[], map[]), Some(kek), cs), PlainExec(map[], Some(kek), cs);
      && Resolve(s, Some(kek), tenant, pk, field) == Ok(PlainResolve(p, tenant, pk, field))
      && OriginOf(s, tenant, pk, field) == PlainResolve(p, tenant, pk, field).origin
  {
    ExecRefines(kek, cs);
    RefinedResolve(Exec(Store(map[], map[]), Some(kek), cs), kek, PlainExec(map[], Some(kek), cs), tenant, pk, field);
  }

  // ----- What one command does to every answer

  ghost predicate Answers(s: Store, kek: Key, tenant: Tenant, pk: Uuid, field: Field, r: Resolved) {
    Resolve(s, Some(kek), tenant, pk, field) == Ok(r)
  }

  /** The device has an override of its own. */
  ghost predicate Overridden(s: Store, kek: Key, tenant: Tenant, pk: Uuid, field: Field) {
    exists v :: Answers(s, kek, tenant, pk, field, Resolved(v, OriginOverride))
  }

  ghost predicate SameAnswer(s: Store, t: Store, kek: Key, tenant: Tenant, pk: Uuid, field: Field) {
    Resolve(t, Some(kek), tenant, pk, field) == Resolve(s, Some(kek), tenant, pk, field)
  }

  /** The command is about this answer. */
  predicate Concerns(id: Identity, tenant: Tenant, pk: Uuid, field: Field) {
    id == Override(tenant, pk, field) || id == Default(tenant, field)
  }

  /** What a set in store s, leading to t, comes to for one answer. */
  ghost predicate SetComesTo(s: Store, t: Store, kek: Key, c: Command, tenant: Tenant, pk: Uuid, field: Field)
    requires c.Set?
  {
    if !TakesEffect(Some(kek), c) || !Concerns(c.id, tenant, pk, field) then SameAnswer(s, t, kek, tenant, pk, field)
    else if c.id.Override? then Answers(t, kek, tenant, pk, field, Resolved(c.value, OriginOverride))
    else if Overridden(s, kek, tenant, pk, field) then SameAnswer(s, t, kek, tenant, pk, field)
    else Answers(t, kek, tenant, pk, field, Resolved(c.value, OriginTenant))
  }

  /** In every reachable store, a set that takes effect is answered at once: an override
      to its device, a default to every device of the tenant without an override. Every
      other answer stays, and so do all after one without effect. */
  lemma SetIsAnswered(kek: Key, cs: seq<Command>, c: Command, tenant: Tenant, pk: Uuid, field: Field)
    requires |kek| == KEY_LEN && (forall i :: 0 <= i < |cs| ==> Mints(cs[i])) && Mints(c) && Known(field) && c.Set?
    ensures var s := Exec(Store(map[], map[]), Some(kek), cs);
      SetComesTo(s, After(s, Some(kek), c), kek, c, tenant, pk, field)
  {
    ExecRefines(kek, cs);
    SetOnRefined(Exec(Store(map[], map[]), Some(kek), cs), kek, PlainExec(map[], Some(kek), cs), c, tenant, pk, field);
  }

  lemma SetOnRefined(s: Store, kek: Key, p: Plain, c: Command, tenant: Tenant, pk: Uuid, field: Field)
    requires Refines(s, kek, p) && Mints(c) && Known(field) && c.Set?
    ensures SetComesTo(s, After(s, Some(kek), c), kek, c, tenant, pk, field)
  {
    var t, q := After(s, Some(kek), c), PlainAfter(p, Some(kek), c);
    assert Refines(t, kek, q) by { CommandRefines(s, kek, p, c); }
    KnownIsValid(field);
    OverriddenIff(s, kek, p, tenant, pk, field);
    OverriddenIff(t, kek, q, tenant, pk, field);
    PlainSet(p, kek, c, tenant, pk, field);
  }

  lemma PlainSet(p: Plain, kek: Key, c: Command, tenant: Tenant, pk: Uuid, field: Field)
    requires c.Set?
    ensures var q := PlainAfter(p, Some(kek), c);
      PlainResolve(q, tenant, pk, field) ==
        if !TakesEffect(Some(kek), c) || !Concerns(c.id, tenant, pk, field) then PlainResolve(p, tenant, pk, field)
        else if c.id.Override? then Resolved(c.value, OriginOverride)
        else if Override(tenant, pk, field) in p then PlainResolve(p, tenant, pk, field)
        else Resolved(c.value, OriginTenant)
  {
  }

  /** The same for a clear; `plain` is any other device of the tenant. */
  ghost predicate ClearComesTo(s: Store, t: Store, kek: Key, id: Identity, tenant: Tenant, pk: Uuid, field: Field,
                               plain: Uuid) {
    if !TakesEffect(Some(kek), Clear(id)) || !Concerns(id, tenant, pk, field) then
      SameAnswer(s, t, kek, tenant, pk, field)
    else if id.Override? then
      !Overridden(t, kek, tenant, pk, field)
      && (!Overridden(s, kek, tenant, plain, field) ==>
            Resolve(t, Some(kek), tenant, pk, field) == Resolve(s, Some(kek), tenant, plain, field))
    else if Overridden(s, kek, tenant, pk, field) then SameAnswer(s, t, kek, tenant, pk, field)
    else Answers(t, kek, tenant, pk, field, Resolved("", OriginUnset))
  }

  /** A clear that takes effect takes one level away: a device without its override
      answers what any device of the tenant without one does, and without the default
      those answer unset. Every other answer stays. */
  lemma ClearIsAnswered(kek: Key, cs: seq<Command>, id: Identity, tenant: Tenant, pk: Uuid, field: Field, plain: Uuid)
    requires |kek| == KEY_LEN && (forall i :: 0 <= i < |cs| ==> Mints(cs[i])) && Known(field)
    ensures var s := Exec(Store(map[], map[]), Some(kek), cs);
      ClearComesTo(s, After(s, Some(kek), Clear(id)), kek, id, tenant, pk, field, plain)
  {
    ExecRefines(kek, cs);
    ClearOnRefined(Exec(Store(map[], map[]), Some(kek), cs), kek, PlainExec(map[], Some(kek), cs), id,
                   tenant, pk, field, plain);
  }

  lemma ClearOnRefined(s: Store, kek: Key, p: Plain, id: Identity, tenant: Tenant, pk: Uuid, field: Field, plain: Uuid)
    requires Refines(s, kek, p) && Known(field)
    ensures ClearComesTo(s, After(s, Some(kek), Clear(id)), kek, id, tenant, pk, field, plain)
  {
    var t, q := After(s, Some(kek), Clear(id)), PlainAfter(p, Some(kek), Clear(id));
    assert Refines(t, kek, q) by { CommandRefines(s, kek, p, Clear(id)); }
    KnownIsValid(field);
    OverriddenIff(s, kek, p, tenant, pk, field);
    OverriddenIff(s, kek, p, tenant, plain, field);
    OverriddenIff(t, kek, q, tenant, pk, field);
    PlainClear(p, kek, id, tenant, pk, field);
  }

  lemma PlainClear(p: Plain, kek: Key, id: Identity, tenant: Tenant, pk: Uuid, field: Field)
    ensures var q := PlainAfter(p, Some(kek), Clear(id));
      PlainResolve(q, tenant, pk, field) ==
        if !TakesEffect(Some(kek), Clear(id)) || !Concerns(id, tenant, pk, field) then
          PlainResolve(p, tenant, pk, field)
        else if id.Override? then
          if field != LEGACY_WIFI_PASSWORD && Default(tenant, field) in p
          then Resolved(p[Default(tenant, field)], OriginTenant) else Resolved("", OriginUnset)
        else if Override(tenant, pk, field) in p then PlainResolve(p, tenant, pk, field)
        else Resolved("", OriginUnset)
  {
  }

  lemma OverriddenIff(s: Store, kek: Key, p: Plain, tenant: Tenant, pk: Uuid, field: Field)
    requires Refines(s, kek, p) && ValidSecretField(field)
    ensures Resolve(s, Some(kek), tenant, pk, field) == Ok(PlainResolve(p, tenant, pk, field))
    ensures Overridden(s, kek, tenant, pk, field) <==> Override(tenant, pk, field) in p
  {
    RefinedResolve(s, kek, p, tenant, pk, field);
    var r := PlainResolve(p, tenant, pk, field);
    if r.origin.OriginOverride? { assert Answers(s, kek, tenant, pk, field, Resolved(r.value, OriginOverride)); }
  }

  /** On any table, reachable or planted, the two reports part exactly on a
      tenant-level row for the legacy field that no override shadows. */
  lemma OriginsPartIff(s: Store, tenant: Tenant, pk: Uuid, field: Field)
    ensures OriginOf(s, tenant, pk, field) !=
              (match Effective(s, tenant, pk, field)
               case None => OriginUnset
               case Some(id) => if id.Override? then OriginOverride else OriginTenant)
            <==> field == LEGACY_WIFI_PASSWORD && Default(tenant, field) in s.rows
                 && Override(tenant, pk, field) !in s.rows
  {
  }

  /** A stored ciphertext opens for no identity but its own, whichever tenant's
      key is tried: relocating a row never decrypts. */
  lemma CiphertextIsBound(s: Store, kek: Key, p: Plain, id: Identity, other: Identity)
    requires Refines(s, kek, p) && id in s.rows && Proper(id) && Proper(other) && other.tenant in s.deks
    ensures Open(TenantDek(s, kek, other.tenant).value, s.rows[id], Bound(other)).Some? <==> other == id
  {
    if Bound(other) == Bound(id) {
      BoundIsInjective(other, id);
    }
  }
}
