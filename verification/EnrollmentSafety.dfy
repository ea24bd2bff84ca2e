/** What every run of the enrollment protocol keeps. */
module EnrollmentSafety {
  import opened Prelude
  import opened Schema
  import opened EnrollmentPolicy
  import opened EnrollmentTables
  import opened EnrollmentRuns

  /** The row for k is never missing between states i and j. */
  ghost predicate Present(ws: seq<World>, k: EnrollKey, i: nat, j: nat)
    requires i <= j < |ws|
  {
    forall m :: i <= m <= j ==> k in ws[m].rows
  }

  predicate Announces(e: Event, k: EnrollKey, nonce: Nonce, digest: Digest) {
    e.Announced? && e.key == k && e.nonce == nonce && ClaimTokenDigest(e.claimKey, e.token) == digest
  }

  /** A recorded announcement really was an announce event of this run. */
  lemma {:induction false} IssuedWasAnnounced(ws: seq<World>, es: seq<Event>, i: nat, n: Nonce)
    requires Run(ws, es) && i < |ws| && n in ws[i].issued
    ensures exists m :: 0 <= m < i && Announces(es[m], ws[i].issued[n].key, n, ws[i].issued[n].digest)
  {
    var w := ws[i - 1];
    assert StepAt(ws, es, i - 1);
    if n in w.issued {
      IssuedWasAnnounced(ws, es, i - 1, n);
      var m :| 0 <= m < i - 1 && Announces(es[m], w.issued[n].key, n, w.issued[n].digest);
      assert Announces(es[m], ws[i].issued[n].key, n, ws[i].issued[n].digest);
    } else {
      assert Announces(es[i - 1], ws[i].issued[n].key, n, ws[i].issued[n].digest);
    }
  }

  lemma {:induction false} AttemptKept(ws: seq<World>, es: seq<Event>, i: nat, j: nat, a: AttemptId)
    requires Run(ws, es) && i <= j < |ws| && a in ws[i].attempts
    ensures a in ws[j].attempts && ws[j].attempts[a] == ws[i].attempts[a]
  {
    if i < j {
      AttemptKept(ws, es, i, j - 1, a);
      assert StepAt(ws, es, j - 1);
    }
  }

  /** Token binding. When the Verify that burned at step i commits at step j,
      whatever happened in between, the row carries the token hash it had at the
      burn; and if it was unverified then, that is the token announced together
      with the very challenge the device signed. */
  lemma VerifyBindsTheSignedToken(ws: seq<World>, es: seq<Event>, i: nat, j: nat)
    requires Run(ws, es) && i < j < |es|
    requires BurnsChallenge(ws[i], es[i])
    requires MarksVerified(ws[j], es[j]) && es[j].attempt == es[i].attempt
    ensures var k, r := es[i].key, ws[i].rows[es[i].key];
      && es[j].sig == Signature(k.pub, r.challenge.value)
      && k in ws[j + 1].rows && ws[j + 1].rows[k].verifiedAt.Some?
      && ws[j + 1].rows[k].tokenHash == r.tokenHash
      && (r.verifiedAt.None? ==>
            exists m :: 0 <= m < i && Announces(es[m], k, r.challenge.value, r.tokenHash))
  {
    SoundAlways(ws, es, i);
    assert StepAt(ws, es, i) && StepAt(ws, es, j);
    AttemptKept(ws, es, i + 1, j, es[i].attempt);
    var k, r := es[i].key, ws[i].rows[es[i].key];
    assert RowSound(ws[i], k, r);
    IssuedWasAnnounced(ws, es, i, r.challenge.value);
  }

  predicate Freezes(r: Enrollment, s: Enrollment) {
    && s.verifiedAt.Some? && s.tokenHash == r.tokenHash
    && (r.claimedBy.Some? ==> s.claimedBy == r.claimedBy)
    && (r.deliveredAt.Some? ==> s.deliveredAt.Some?)
  }

  lemma FrozenStep(w: World, e: Event, k: EnrollKey)
    requires Sound(w) && Enabled(w, e) && k in w.rows && k in NextRows(w, e)
    requires w.rows[k].verifiedAt.Some?
    ensures Freezes(w.rows[k], NextRows(w, e)[k])
  {
    RowStep(w, e, k);
    assert RowSound(w, k, w.rows[k]);
  }

  /** Once verified, a row keeps its token hash and its verified mark; once
      claimed, its tenant; once sealed, its seal. Until the row is removed. */
  lemma {:induction false} VerifiedRowIsFrozen(ws: seq<World>, es: seq<Event>, i: nat, j: nat, k: EnrollKey)
    requires Run(ws, es) && i <= j < |ws| && Present(ws, k, i, j)
    requires ws[i].rows[k].verifiedAt.Some?
    ensures Freezes(ws[i].rows[k], ws[j].rows[k])
  {
    if i < j {
      VerifiedRowIsFrozen(ws, es, i, j - 1, k);
      SoundAlways(ws, es, j - 1);
      assert StepAt(ws, es, j - 1);
      FrozenStep(ws[j - 1], es[j - 1], k);
    }
  }

  /** A sealed row is never burned again while it stays. */
  lemma SealedRowIsNeverBurned(ws: seq<World>, es: seq<Event>, i: nat, j: nat, k: EnrollKey)
    requires Run(ws, es) && i <= j < |es| && Present(ws, k, i, j)
    requires ws[i].rows[k].deliveredAt.Some?
    ensures !(BurnsChallenge(ws[j], es[j]) && es[j].key == k)
  {
    SoundAlways(ws, es, i);
    assert RowSound(ws[i], k, ws[i].rows[k]);
    VerifiedRowIsFrozen(ws, es, i, j, k);
  }

  lemma {:induction false} SpentGrows(ws: seq<World>, es: seq<Event>, i: nat, j: nat)
    requires Run(ws, es) && i <= j < |ws|
    ensures ws[i].spent <= ws[j].spent
  {
    if i < j {
      SpentGrows(ws, es, i, j - 1);
      assert StepAt(ws, es, j - 1);
    }
  }

  /** Single use: two burns of one run never burn the same challenge. */
  lemma EachChallengeBurnsOnce(ws: seq<World>, es: seq<Event>, i: nat, j: nat)
    requires Run(ws, es) && i < j < |es|
    requires BurnsChallenge(ws[i], es[i]) && BurnsChallenge(ws[j], es[j])
    ensures ws[i].rows[es[i].key].challenge != ws[j].rows[es[j].key].challenge
  {
    assert StepAt(ws, es, i);
    SpentGrows(ws, es, i + 1, j);
    SoundAlways(ws, es, j);
    assert RowSound(ws[j], es[j].key, ws[j].rows[es[j].key]);
  }

  predicate BurnedBy(w: World, e: Event, k: EnrollKey, n: Nonce) {
    e.Burnt? && e.key == k && k in w.rows && w.rows[k].challenge == Some(n) && BurnVerdict(w.rows, k, e.now).Ok?
  }

  lemma {:induction false} AttemptWasBurned(ws: seq<World>, es: seq<Event>, j: nat, a: AttemptId)
    requires Run(ws, es) && j < |ws| && a in ws[j].attempts
    ensures exists i :: 0 <= i < j && es[i].Burnt? && es[i].attempt == a
                    && BurnedBy(ws[i], es[i], ws[j].attempts[a].key, ws[j].attempts[a].burned.challenge)
  {
    assert StepAt(ws, es, j - 1);
    if a in ws[j - 1].attempts {
      AttemptWasBurned(ws, es, j - 1, a);
    } else {
      assert BurnedBy(ws[j - 1], es[j - 1], ws[j].attempts[a].key, ws[j].attempts[a].burned.challenge);
    }
  }

  /** Step j marked k verified on a signature by k's own key over a challenge
      that step i < j burned off k's own row. */
  ghost predicate ProvedAt(ws: seq<World>, es: seq<Event>, k: EnrollKey, i: int, j: int)
    requires Run(ws, es)
  {
    0 <= i < j < |es| && es[j].Judged? && es[j].sig.signer == k.pub
    && BurnedBy(ws[i], es[i], k, es[j].sig.message)
  }

  lemma {:induction false} ProofWasMade(ws: seq<World>, es: seq<Event>, t: nat, k: EnrollKey)
    requires Run(ws, es) && t < |ws| && k in ws[t].proofs
    ensures exists i, j :: j < t && ProvedAt(ws, es, k, i, j)
  {
    assert StepAt(ws, es, t - 1);
    if MarksVerified(ws[t - 1], es[t - 1]) && ws[t - 1].attempts[es[t - 1].attempt].key == k {
      AttemptWasBurned(ws, es, t - 1, es[t - 1].attempt);
      var i :| 0 <= i < t - 1 && BurnedBy(ws[i], es[i], k, ws[t - 1].attempts[es[t - 1].attempt].burned.challenge);
      assert ProvedAt(ws, es, k, i, t - 1);
    } else {
      ProofWasMade(ws, es, t - 1, k);
    }
  }

  /** In every state of every run: delivered implies claimed implies verified,
      and a verified row's own key signed a challenge burned off that row. */
  lemma EnrollmentOrder(ws: seq<World>, es: seq<Event>, t: nat, k: EnrollKey)
    requires Run(ws, es) && t < |ws| && k in ws[t].rows
    ensures InOrder(ws[t].rows[k])
    ensures ws[t].rows[k].verifiedAt.Some? ==> exists i, j :: j < t && ProvedAt(ws, es, k, i, j)
  {
    SoundAlways(ws, es, t);
    assert RowSound(ws[t], k, ws[t].rows[k]);
    if ws[t].rows[k].verifiedAt.Some? { ProofWasMade(ws, es, t, k); }
  }
}
