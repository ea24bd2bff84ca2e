/** Every interleaving of the enrollment transactions. A Verify call is two
    events: Burnt commits the burn, Judged checks the signature and commits the
    verified mark, and anything may happen between them. Elsewhere is any
    transaction of another service on the device and certificate tables. */
module EnrollmentRuns {
  import opened Prelude
  import opened Schema
  import opened EnrollmentPolicy
  import opened EnrollmentTables

  type AttemptId = nat

  /** A Verify call after its burn committed. */
  datatype Attempt = Attempt(key: EnrollKey, burned: Burned, wasVerified: bool)

  /** What was announced together with a challenge. */
  datatype Announcement = Announcement(key: EnrollKey, digest: Digest)

  /** The tables, the Verify calls past their burn, and the history: which
      challenges were issued for what, which were burned, and the burned
      challenge whose proof last marked a key verified. */
  datatype World = World(
    rows: Enrollments,
    devices: Devices,
    certs: Certs,
    attempts: map<AttemptId, Attempt>,
    issued: map<Nonce, Announcement>,
    spent: set<Nonce>,
    proofs: map<EnrollKey, Nonce>)

  datatype Event =
    | Announced(key: EnrollKey, claimKey: string, token: string, nonce: Nonce, now: Time)
    | Burnt(attempt: AttemptId, key: EnrollKey, now: Time)
    | Judged(attempt: AttemptId, sig: Signature, now: Time)
    | Looked(id: DeviceId, claimKey: string, token: string)
    | Claimed(request: ClaimRequest)
    | Delivered(key: EnrollKey, claimKey: string, token: string, now: Time)
    | WasReset(id: DeviceId, tenant: Tenant, seesAll: bool)
    | OwnerReset(id: DeviceId, tenant: Tenant)
    | Swept(seesAll: bool)
    | Pruned(now: Time)
    | Elsewhere(devices: Devices, certs: Certs)

  /** Nonces are fresh, and every Verify call is its own. */
  predicate Enabled(w: World, e: Event) {
    match e
    case Announced(_, _, _, nonce, _) => nonce !in w.issued
    case Burnt(a, _, _) => a !in w.attempts
    case Judged(a, _, _) => a in w.attempts
    case Claimed(r) => r.newPk !in w.devices
    case _ => true
  }

  ghost function NextRows(w: World, e: Event): Enrollments {
    match e
    case Announced(k, claimKey, token, nonce, now) => Announce(w.rows, k, claimKey, token, nonce, now)
    case Burnt(_, k, now) => Burn(w.rows, k, now)
    case Judged(a, sig, now) =>
      if a in w.attempts then Judge(w.rows, w.attempts[a].key, w.attempts[a].burned, sig, now) else w.rows
    case Looked(id, claimKey, token) => ClaimLookup(w.rows, id, claimKey, token)
    case Claimed(r) => ClaimRows(w.rows, w.devices, r)
    case Delivered(k, claimKey, token, now) => Deliver(w.rows, k, claimKey, token, now)
    case WasReset(id, tenant, seesAll) => Reset(w.rows, w.devices, w.certs, id, tenant, seesAll)
    case OwnerReset(id, tenant) => ResetForTenant(w.rows, id, tenant)
    case Swept(seesAll) => SweepOrphans(w.rows, w.devices, w.certs, seesAll)
    case Pruned(now) => Prune(w.rows, now)
    case Elsewhere(_, _) => w.rows
  }

  ghost function NextDevices(w: World, e: Event): Devices {
    match e
    case Claimed(r) => ClaimDevices(w.rows, w.devices, r)
    case Elsewhere(devices, _) => devices
    case _ => w.devices
  }

  ghost predicate BurnsChallenge(w: World, e: Event) {
    e.Burnt? && BurnVerdict(w.rows, e.key, e.now).Ok?
  }

  ghost predicate MarksVerified(w: World, e: Event) {
    e.Judged? && e.attempt in w.attempts
    && Proves(w.rows, w.attempts[e.attempt].key, w.attempts[e.attempt].burned, e.sig)
  }

  ghost function Next(w: World, e: Event): World {
    World(
      NextRows(w, e),
      NextDevices(w, e),
      if e.Elsewhere? then e.certs else w.certs,
      if BurnsChallenge(w, e)
      then w.attempts[e.attempt := Attempt(e.key, BurnVerdict(w.rows, e.key, e.now).value,
                                           w.rows[e.key].verifiedAt.Some?)]
      else w.attempts,
      if e.Announced? && WellFormed(e.key)
      then w.issued[e.nonce := Announcement(e.key, ClaimTokenDigest(e.claimKey, e.token))]
      else w.issued,
      if BurnsChallenge(w, e) then w.spent + {w.rows[e.key].challenge.value} else w.spent,
      if MarksVerified(w, e)
      then w.proofs[w.attempts[e.attempt].key := w.attempts[e.attempt].burned.challenge]
      else w.proofs)
  }

  ghost predicate Initial(w: World) {
    w.rows == map[] && w.attempts == map[] && w.issued == map[] && w.spent == {} && w.proofs == map[]
  }

  ghost predicate StepAt(ws: seq<World>, es: seq<Event>, i: nat)
    requires i < |es| < |ws|
  {
    Enabled(ws[i], es[i]) && ws[i + 1] == Next(ws[i], es[i])
  }

  /** `ws` are the states a run goes through, `es` the events between them. */
  ghost predicate Run(ws: seq<World>, es: seq<Event>) {
    && |ws| == |es| + 1
    && Initial(ws[0])
    && forall i {:trigger StepAt(ws, es, i)} :: 0 <= i < |es| ==> StepAt(ws, es, i)
  }

  // ----- The invariant

  /** Delivered implies claimed implies verified; a claim has a tenant. */
  predicate InOrder(e: Enrollment) {
    && (e.deliveredAt.Some? ==> e.claimedAt.Some?)
    && (e.claimedAt.Some? ==> e.verifiedAt.Some?)
    && (e.claimedAt.Some? <==> e.claimedBy.Some?)
  }

  predicate ChallengeSound(w: World, k: EnrollKey, e: Enrollment) {
    e.challenge.Some? ==>
      var n := e.challenge.value;
      n in w.issued && n !in w.spent && w.issued[n].key == k
      && (e.verifiedAt.None? ==> w.issued[n].digest == e.tokenHash)
  }

  predicate ProofSound(w: World, k: EnrollKey, e: Enrollment) {
    e.verifiedAt.Some? ==> k in w.proofs
  }

  predicate HistorySound(w: World) {
    && w.spent <= w.issued.Keys
    && (forall a :: a in w.attempts ==>
          var t := w.attempts[a];
          t.burned.challenge in w.spent && w.issued[t.burned.challenge].key == t.key
          && (!t.wasVerified ==> w.issued[t.burned.challenge].digest == t.burned.tokenHash))
    && (forall k :: k in w.proofs ==> w.proofs[k] in w.spent && w.issued[w.proofs[k]].key == k)
  }

  predicate RowSound(w: World, k: EnrollKey, e: Enrollment) {
    InOrder(e) && ChallengeSound(w, k, e) && ProofSound(w, k, e)
  }

  predicate Sound(w: World) {
    HistorySound(w) && forall k :: k in w.rows ==> RowSound(w, k, w.rows[k])
  }

  /** Two states of a row that differ only in columns the invariant ignores. */
  predicate SameIdentity(e: Enrollment, f: Enrollment) {
    e.tokenHash == f.tokenHash && e.challenge == f.challenge && e.verifiedAt == f.verifiedAt
    && e.claimedAt == f.claimedAt && e.claimedBy == f.claimedBy && e.deliveredAt == f.deliveredAt
  }

  /** How one event may change one row that survives it. */
  lemma RowStep(w: World, e: Event, k: EnrollKey)
    requires Enabled(w, e) && k in w.rows && k in NextRows(w, e)
    ensures var r, s := w.rows[k], NextRows(w, e)[k];
      || SameIdentity(r, s)
      || (e.Announced? && e.key == k && WellFormed(k) && s.challenge == Some(e.nonce)
          && s.tokenHash == (if r.verifiedAt.Some? then r.tokenHash else ClaimTokenDigest(e.claimKey, e.token))
          && SameIdentity(r.(tokenHash := s.tokenHash, challenge := s.challenge), s))
      || (BurnsChallenge(w, e) && e.key == k && SameIdentity(r.(challenge := None), s))
      || (MarksVerified(w, e) && w.attempts[e.attempt].key == k && r.challenge.None? && s.verifiedAt.Some?
          && SameIdentity(r.(verifiedAt := s.verifiedAt), s))
      || (e.Claimed? && ClaimAllowed(r.verifiedAt, r.claimedAt) && s.claimedAt.Some? && s.claimedBy.Some?
          && SameIdentity(r.(claimedAt := s.claimedAt, claimedBy := s.claimedBy), s))
      || (e.Delivered? && DeliverAllowed(r.verifiedAt, r.claimedAt, r.deliveredAt)
          && SameIdentity(r.(deliveredAt := s.deliveredAt), s))
  {
  }

  /** The only row an event can create is the one a first announce writes. */
  lemma RowCreated(w: World, e: Event, k: EnrollKey)
    requires Enabled(w, e) && k !in w.rows && k in NextRows(w, e)
    ensures e.Announced? && e.key == k && WellFormed(k)
    ensures NextRows(w, e)[k] == FirstRow(ClaimTokenDigest(e.claimKey, e.token), e.nonce, e.now)
  {
  }

  lemma HistoryStep(w: World, e: Event)
    requires Sound(w) && Enabled(w, e)
    ensures HistorySound(Next(w, e))
  {
  }

  lemma SoundStep(w: World, e: Event)
    requires Sound(w) && Enabled(w, e)
    ensures Sound(Next(w, e))
  {
    HistoryStep(w, e);
    var v := Next(w, e);
    forall k | k in v.rows ensures RowSound(v, k, v.rows[k]) {
      if k in w.rows {
        RowStep(w, e, k);
        if BurnsChallenge(w, e) && e.key != k && w.rows[k].challenge.Some? {
          assert w.issued[w.rows[e.key].challenge.value].key == e.key;
        }
      } else {
        RowCreated(w, e, k);
      }
    }
  }

  /** Every state of every run satisfies the invariant. */
  lemma {:induction false} SoundAlways(ws: seq<World>, es: seq<Event>, i: nat)
    requires Run(ws, es) && i < |ws|
    ensures Sound(ws[i])
  {
    if i > 0 {
      SoundAlways(ws, es, i - 1);
      assert StepAt(ws, es, i - 1);
      SoundStep(ws[i - 1], es[i - 1]);
    }
  }
}
