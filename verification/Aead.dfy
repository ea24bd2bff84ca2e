/** The two-level envelope over an ideal AEAD, and the identities ciphertexts are
    bound to. A sealed blob opens only under its own key and associated data. */
module Aead {
  import opened Prelude

  type Key = string
  type Tenant = string
  type Uuid = string
  type Field = string

  const KEY_LEN: nat := 32

  datatype Blob = Sealed(key: Key, aad: string, plain: string) | Junk

  function Seal(key: Key, plain: string, aad: string): Option<Blob> {
    if |key| == KEY_LEN then Some(Sealed(key, aad, plain)) else None
  }

  function Open(key: Key, blob: Blob, aad: string): Option<string> {
    if blob.Sealed? && blob.key == key && blob.aad == aad then Some(blob.plain) else None
  }

  function WrapDEK(kek: Key, dek: Key, aad: string): Option<Blob> {
    if |dek| == KEY_LEN then Seal(kek, dek, aad) else None
  }

  function UnwrapDEK(kek: Key, wrapped: Blob, aad: string): Option<Key> {
    var dek := Open(kek, wrapped, aad);
    if dek.Some? && |dek.value| == KEY_LEN then dek else None
  }

  // ----- What a ciphertext is bound to

  datatype Identity =
    | TenantKey(tenant: Tenant)
    | Override(tenant: Tenant, pk: Uuid, field: Field)
    | Default(tenant: Tenant, field: Field)

  const NUL: string := "\0"
  const TENANT_DEFAULT_MARKER := "tenant-default"

  function DekAAD(tenant: Tenant): string { tenant }

  function SecretAAD(tenant: Tenant, pk: Uuid, field: Field): string {
    tenant + NUL + pk + NUL + field
  }

  function TenantSecretAAD(tenant: Tenant, field: Field): string {
    tenant + NUL + TENANT_DEFAULT_MARKER + NUL + field
  }

  function Bound(i: Identity): string {
    match i
    case TenantKey(t) => DekAAD(t)
    case Override(t, pk, f) => SecretAAD(t, pk, f)
    case Default(t, f) => TenantSecretAAD(t, f)
  }

  predicate NulFree(s: string) {
    forall i :: 0 <= i < |s| ==> s[i] != '\0'
  }

  /** uuid.UUID.String: 36 lower-case hex digits and dashes. */
  predicate IsUuid(s: string) {
    |s| == 36 && forall i :: 0 <= i < |s| ==> '0' <= s[i] <= '9' || 'a' <= s[i] <= 'f' || s[i] == '-'
  }

  /** Tenant slugs carry no NUL and device keys are UUIDs; fields are anything. */
  predicate Proper(i: Identity) {
    NulFree(i.tenant) && (i.Override? ==> IsUuid(i.pk))
  }

  lemma SplitAtNul(a: string, x: string, b: string, y: string)
    requires NulFree(a) && NulFree(b) && a + NUL + x == b + NUL + y
    ensures a == b && x == y
  {
    var s := a + NUL + x;
    assert s[|a|] == '\0' && s[|b|] == '\0';
    assert forall i :: 0 <= i < |a| ==> s[i] == a[i];
    assert forall i :: 0 <= i < |b| ==> s[i] == b[i];
    assert s[..|a|] == a && s[..|b|] == b;
    assert s[|a| + 1..] == x && s[|b| + 1..] == y;
  }

  /** The part of an identity's data after its tenant, if any. */
  function AfterTenant(i: Identity): string
    requires !i.TenantKey?
  {
    (if i.Override? then i.pk else TENANT_DEFAULT_MARKER) + NUL + i.field
  }

  lemma BoundSplits(i: Identity)
    requires !i.TenantKey?
    ensures Bound(i) == i.tenant + NUL + AfterTenant(i) && !NulFree(Bound(i))
  {
    assert Bound(i)[|i.tenant|] == '\0';
  }

  /** One string binds one identity: the three builders are injective and their
      ranges are disjoint. */
  lemma BoundIsInjective(i: Identity, j: Identity)
    requires Proper(i) && Proper(j) && Bound(i) == Bound(j)
    ensures i == j
  {
    if !i.TenantKey? { BoundSplits(i); }
    if !j.TenantKey? { BoundSplits(j); }
    if !i.TenantKey? && !j.TenantKey? {
      SplitAtNul(i.tenant, AfterTenant(i), j.tenant, AfterTenant(j));
      assert NulFree(TENANT_DEFAULT_MARKER) && |TENANT_DEFAULT_MARKER| == 14;
      var p := if i.Override? then i.pk else TENANT_DEFAULT_MARKER;
      var q := if j.Override? then j.pk else TENANT_DEFAULT_MARKER;
      SplitAtNul(p, i.field, q, j.field);
    }
  }

  /** A NUL in a slug would let one tenant's key data be another's secret data. */
  lemma NulInSlugBreaksBinding()
    ensures Bound(TenantKey("acme" + NUL + TENANT_DEFAULT_MARKER + NUL + "f")) == Bound(Default("acme", "f"))
  {
  }
}
