/** What the enrollment protocol does, and when: each transaction's effect over
    whole runs, and an honest device that gets all the way through. */
module EnrollmentProgress {
  import opened Prelude
  import opened Schema
  import opened EnrollmentPolicy
  import opened EnrollmentTables
  import opened EnrollmentRuns
  import opened EnrollmentSafety
  import ClaimLock

  // ----- How long a challenge lives

  predicate AnnouncesFor(e: Event, k: EnrollKey) {
    e.Announced? && e.key == k
  }

  /** No announce and no burn of k happens from step i up to step j. */
  predicate Undisturbed(es: seq<Event>, k: EnrollKey, i: nat, j: nat)
    requires i <= j <= |es|
  {
    forall m :: i <= m < j ==> !AnnouncesFor(es[m], k) && !(es[m].Burnt? && es[m].key == k)
  }

  predicate NotAnnounced(es: seq<Event>, k: EnrollKey, i: nat, j: nat)
    requires i <= j <= |es|
  {
    forall m :: i <= m < j ==> !AnnouncesFor(es[m], k)
  }

  lemma ChallengeStep(w: World, e: Event, k: EnrollKey)
    requires Enabled(w, e) && k in w.rows && k in NextRows(w, e)
    requires !AnnouncesFor(e, k) && !(e.Burnt? && e.key == k)
    ensures var r, s := w.rows[k], NextRows(w, e)[k];
      s.challenge == r.challenge && s.expires == r.expires && (r.claimedAt.None? ==> s.lastSeen == r.lastSeen)
  {
  }

  /** What an announce left in its row is still there. */
  lemma {:induction false} ChallengeStands(ws: seq<World>, es: seq<Event>, i: nat, j: nat)
    requires Run(ws, es) && i < j <= |es| && es[i].Announced? && WellFormed(es[i].key)
    requires Present(ws, es[i].key, i + 1, j) && Undisturbed(es, es[i].key, i + 1, j)
    ensures var r := ws[j].rows[es[i].key];
      && r.challenge == Some(es[i].nonce) && r.expires == Some(es[i].now + 300)
      && (r.claimedAt.None? ==> r.lastSeen == es[i].now)
  {
    assert StepAt(ws, es, j - 1);
    if i + 1 < j {
      ChallengeStands(ws, es, i, j - 1);
      SoundAlways(ws, es, j - 1);
      assert RowSound(ws[j - 1], es[i].key, ws[j - 1].rows[es[i].key]);
      ChallengeStep(ws[j - 1], es[j - 1], es[i].key);
      RowStep(ws[j - 1], es[j - 1], es[i].key);
    }
  }

  /** A challenge is burned by the first Verify that comes for it exactly when that
      comes within 300 seconds of its announce, whatever else went on. */
  lemma ChallengeLivesItsTime(ws: seq<World>, es: seq<Event>, i: nat, j: nat)
    requires Run(ws, es) && i < j < |es| && es[i].Announced? && WellFormed(es[i].key)
    requires es[j].Burnt? && es[j].key == es[i].key
    requires Present(ws, es[i].key, i + 1, j) && Undisturbed(es, es[i].key, i + 1, j)
    requires ws[j].rows[es[i].key].deliveredAt.None?
    ensures es[i].nonce in ws[j + 1].spent <==> es[j].now < es[i].now + 300
  {
    ChallengeStands(ws, es, i, j);
    SoundAlways(ws, es, j);
    assert RowSound(ws[j], es[i].key, ws[j].rows[es[i].key]);
    assert StepAt(ws, es, j);
  }

  /** "thesada-" and twelve lower-case hex digits; 64 of them for the key. */
  predicate Spelled(k: EnrollKey) {
    && |k.id| == 20 && k.id[..8] == "thesada-" && (forall i :: 8 <= i < 20 ==> HexDigit(k.id[i]))
    && |k.pub| == 64 && forall i :: 0 <= i < 64 ==> HexDigit(k.pub[i])
  }

  lemma SpelledIsWellFormed(k: EnrollKey)
    ensures Spelled(k) <==> WellFormed(k)
  {
    if |k.id| == 20 {
      forall i | 8 <= i < 20 ensures k.id[8..][i - 8] == k.id[i] {}
      if LowerHex(k.id[8..]) {
        forall i | 8 <= i < 20 ensures HexDigit(k.id[i]) { assert HexDigit(k.id[8..][i - 8]); }
      }
    }
  }

  /** In every run an announce leaves its key's row with a fresh challenge, and with the
      announced token unless the row was verified, exactly when id and key are well
      spelled; it only ever touches the failure counters of other rows. */
  lemma AnnounceTakesEffectIff(ws: seq<World>, es: seq<Event>, i: nat)
    requires Run(ws, es) && i < |es| && es[i].Announced?
    ensures var w, v, e := ws[i], ws[i + 1], es[i];
      if !Spelled(e.key) then v.rows == w.rows
      else v.rows.Keys == w.rows.Keys + {e.key}
           && (forall k :: k in w.rows && k != e.key ==> v.rows[k] == w.rows[k].(failures := v.rows[k].failures))
           && v.rows[e.key].challenge == Some(e.nonce)
           && (v.rows[e.key].tokenHash ==
                 if e.key in w.rows && w.rows[e.key].verifiedAt.Some? then w.rows[e.key].tokenHash
                 else if e.claimKey == "" then Sha256(e.token) else Hmac(e.claimKey, e.token))
           && (e.key !in w.rows ==> v.rows[e.key].verifiedAt.None? && v.rows[e.key].claimedAt.None?)
  {
    SpelledIsWellFormed(es[i].key);
    assert StepAt(ws, es, i);
    if Spelled(es[i].key) { AnnounceLeaves(ws[i].rows, es[i]); }
  }

  lemma AnnounceLeaves(rows: Enrollments, e: Event)
    requires e.Announced? && WellFormed(e.key)
    ensures var after := Announce(rows, e.key, e.claimKey, e.token, e.nonce, e.now);
      && after.Keys == rows.Keys + {e.key}
      && (forall k :: k in rows && k != e.key ==> after[k] == rows[k].(failures := after[k].failures))
      && after[e.key].challenge == Some(e.nonce)
      && (after[e.key].tokenHash ==
            if e.key in rows && rows[e.key].verifiedAt.Some? then rows[e.key].tokenHash
            else if e.claimKey == "" then Sha256(e.token) else Hmac(e.claimKey, e.token))
      && (e.key !in rows ==> after[e.key].verifiedAt.None? && after[e.key].claimedAt.None?)
  {
  }

  // ----- What a signature does

  lemma {:induction false} BurnStands(ws: seq<World>, es: seq<Event>, j: nat, l: nat)
    requires Run(ws, es) && j < l <= |es| && BurnsChallenge(ws[j], es[j])
    requires Present(ws, es[j].key, j, l) && NotAnnounced(es, es[j].key, j + 1, l)
    ensures var r := ws[l].rows[es[j].key]; r.challenge.None? && r.tokenHash == ws[j].rows[es[j].key].tokenHash
  {
    assert StepAt(ws, es, l - 1);
    if j + 1 < l {
      BurnStands(ws, es, j, l - 1);
      RowStep(ws[l - 1], es[l - 1], es[j].key);
    }
  }

  /** Step j burned challenge n. While the row stays and is not announced again, that
      Verify marks it verified exactly on the key's own signature over n. */
  lemma SignatureIsJudged(ws: seq<World>, es: seq<Event>, j: nat, l: nat, n: Nonce)
    requires Run(ws, es) && j < l < |es| && es[j].Burnt? && n !in ws[j].spent && n in ws[j + 1].spent
    requires es[l].Judged? && es[l].attempt == es[j].attempt
    requires Present(ws, es[j].key, j, l) && NotAnnounced(es, es[j].key, j + 1, l)
    ensures var k := es[j].key;
      ws[l + 1].rows == if es[l].sig != Signature(k.pub, n) then ws[l].rows
                        else ws[l].rows[k := ws[l].rows[k].(verifiedAt := Some(es[l].now))]
  {
    assert StepAt(ws, es, j) && StepAt(ws, es, l);
    assert BurnsChallenge(ws[j], es[j]);
    BurnStands(ws, es, j, l);
    AttemptKept(ws, es, j + 1, l, es[j].attempt);
  }

  // ----- Which code a row answers to

  /** Only announces that find the row verified, and so do not touch its token. */
  ghost predicate TokenKept(ws: seq<World>, es: seq<Event>, k: EnrollKey, i: nat, j: nat)
    requires i <= j <= |es| <= |ws|
  {
    forall m :: i <= m < j && AnnouncesFor(es[m], k) ==> k in ws[m].rows && ws[m].rows[k].verifiedAt.Some?
  }

  /** Step i announced the row's present token. */
  ghost predicate TokenFrom(ws: seq<World>, es: seq<Event>, i: nat, j: nat) {
    && Run(ws, es) && i < j <= |es| && es[i].Announced? && WellFormed(es[i].key)
    && (es[i].key in ws[i].rows ==> ws[i].rows[es[i].key].verifiedAt.None?)
    && Present(ws, es[i].key, i + 1, j) && TokenKept(ws, es, es[i].key, i + 1, j)
  }

  lemma {:induction false} TokenStands(ws: seq<World>, es: seq<Event>, i: nat, j: nat)
    requires TokenFrom(ws, es, i, j)
    ensures ws[j].rows[es[i].key].tokenHash ==
              if es[i].claimKey == "" then Sha256(es[i].token) else Hmac(es[i].claimKey, es[i].token)
  {
    assert StepAt(ws, es, j - 1);
    if i + 1 < j {
      TokenStands(ws, es, i, j - 1);
      RowStep(ws[j - 1], es[j - 1], es[i].key);
    }
  }

  /** The token announced at step i, read under a claim key that covers it. */
  predicate Right(e: Event, claimKey: string, code: string)
    requires e.Announced?
  {
    code != "" && code == e.token && (e.claimKey == "" || e.claimKey == claimKey)
  }

  /** A row answers to exactly the code announced for it: under the claim key of the
      announce, or under any if there was none then. */
  lemma CodeMatchesIff(ws: seq<World>, es: seq<Event>, i: nat, j: nat, claimKey: string, code: string)
    requires TokenFrom(ws, es, i, j)
    ensures es[i].key in Matches(ws[j].rows, es[i].key.id, claimKey, code) <==> Right(es[i], claimKey, code)
  {
    TokenStands(ws, es, i, j);
  }

  /** The form's answer where one row has the id: the row for the announced code, while
      fewer than ten wrong ones were judged since the last clear. */
  lemma FormAnswers(ws: seq<World>, es: seq<Event>, i: nat, j: nat, claimKey: string, code: string)
    requires TokenFrom(ws, es, i, j)
    requires forall k :: k in ws[j].rows && k.id == es[i].key.id ==> k == es[i].key
    ensures var k := es[i].key; var tries := ws[j].rows[k].failures;
      ClaimLookupAnswer(ws[j].rows, k.id, claimKey, code) ==
        if code == "" then Err(NotFound)
        else if tries >= 10 then Err(ClaimLocked)
        else if Right(es[i], claimKey, code) then Ok(k)
        else if tries == 9 then Err(ClaimLocked) else Err(NotFound)
  {
    var k, rows := es[i].key, ws[j].rows;
    CodeMatchesIff(ws, es, i, j, claimKey, code);
    OneRowForId(rows, k, claimKey, code);
  }

  lemma OneRowForId(rows: Enrollments, k: EnrollKey, claimKey: string, code: string)
    requires k in rows && ValidDeviceID(k.id) && forall o :: o in rows && o.id == k.id ==> o == k
    ensures var found := k in Matches(rows, k.id, claimKey, code);
      ClaimLookupAnswer(rows, k.id, claimKey, code) ==
        if code == "" then Err(NotFound)
        else if rows[k].failures >= 10 then Err(ClaimLocked)
        else if found then Ok(k)
        else if rows[k].failures == 9 then Err(ClaimLocked) else Err(NotFound)
  {
    var matches, bumped := Matches(rows, k.id, claimKey, code), WithFailures(rows, k.id, true);
    assert k in Candidates(rows, k.id) && bumped[k].failures == rows[k].failures + 1;
    assert LockedOut(rows, k.id) <==> rows[k].failures >= 10;
    assert LockedOut(bumped, k.id) <==> rows[k].failures >= 9;
    if k in matches { assert matches == {k}; } else { assert matches == {}; }
  }

  // ----- When a claim and an acknowledgement take effect

  ghost predicate HeldByForeignRow(devices: Devices, tenant: Tenant, id: DeviceId) {
    exists pk :: pk in devices && devices[pk].id == id && devices[pk].tenant != tenant
                 && (devices[pk].current == Some(tenant) || tenant in devices[pk].stale)
  }

  ghost predicate OpenTo(w: World, r: ClaimRequest) {
    && r.owner != NO_USER && r.key in w.rows
    && w.rows[r.key].verifiedAt.Some? && w.rows[r.key].claimedAt.None?
    && HasRoom(w.devices, r.tenant, r.key.id, r.quota) && !HeldByForeignRow(w.devices, r.tenant, r.key.id)
  }

  /** The tenant's row pk is the owner's, with the prefix, and otherwise as it was or
      new; no other row changed. */
  predicate TookRow(was: Devices, now: Devices, r: ClaimRequest, pk: DevicePk) {
    && now.Keys == was.Keys + {pk} && (forall p :: p in was && p != pk ==> now[p] == was[p])
    && now[pk].tenant == r.tenant && now[pk].id == r.key.id
    && now[pk].owner == Some(r.owner) && now[pk].prefix == Some(r.prefix)
    && if pk in was then now[pk] == was[pk].(owner := now[pk].owner, prefix := now[pk].prefix)
       else now[pk].pairedAt.None? && now[pk].current.None? && now[pk].stale == []
  }

  /** In every run a claim marks the row and gives the tenant its device row exactly
      when the row is verified and unclaimed, there is an owner, room, and no foreign
      row on the identity; otherwise it changes nothing. */
  lemma ClaimTakesEffectIff(ws: seq<World>, es: seq<Event>, i: nat)
    requires Run(ws, es) && i < |es| && es[i].Claimed?
    ensures var r, w, v := es[i].request, ws[i], ws[i + 1];
      if !OpenTo(w, r) then v.rows == w.rows && v.devices == w.devices
      else v.rows == w.rows[r.key := w.rows[r.key].(claimedBy := Some(r.tenant), claimedAt := Some(r.now))]
           && exists pk :: TookRow(w.devices, v.devices, r, pk)
  {
    assert StepAt(ws, es, i);
    SoundAlways(ws, es, i);
    var r, w, v := es[i].request, ws[i], ws[i + 1];
    if r.key in w.rows { assert RowSound(w, r.key, w.rows[r.key]); }
    assert OfTenant(w.devices, r.tenant) == set pk | pk in w.devices && w.devices[pk].tenant == r.tenant;
    assert QuotaAllows(w.devices, r.tenant, r.key.id, r.quota) <==>
             HasRoom(w.devices, r.tenant, r.key.id, r.quota);
    assert IdentityHeldOutside(w.devices, r.tenant, r.key.id) <==> HeldByForeignRow(w.devices, r.tenant, r.key.id);
    assert MakesClaim(w.rows, w.devices, r) <==> OpenTo(w, r);
    if OpenTo(w, r) { assert TookRow(w.devices, v.devices, r, ClaimDevicePk(w.devices, r)); }
  }

  /** Right after a claim, every repeat of it is answered as a replay, and every claim
      by another owner or tenant is refused. */
  lemma ReplayIsAnsweredIff(ws: seq<World>, es: seq<Event>, i: nat, again: ClaimRequest)
    requires Run(ws, es) && i < |es| && es[i].Claimed? && OpenTo(ws[i], es[i].request)
    requires UniqueDevices(ws[i + 1].devices) && again.key == es[i].request.key && again.owner != NO_USER
    ensures ClaimVerdict(ws[i + 1].rows, ws[i + 1].devices, again) ==
              if again.tenant == es[i].request.tenant != "" && again.owner == es[i].request.owner
              then Ok(false) else Err(NotReady)
  {
    ClaimTakesEffectIff(ws, es, i);
    var r, v := es[i].request, ws[i + 1];
    var pk :| TookRow(ws[i].devices, v.devices, r, pk);
    assert HasDevice(v.devices, r.tenant, r.key.id);
    assert TheDevice(v.devices, r.tenant, r.key.id) == pk;
  }

  /** An acknowledgement seals the row exactly when it is claimed, unsealed, and the
      code is the announced one; otherwise it changes nothing. */
  lemma SealTakesEffectIff(ws: seq<World>, es: seq<Event>, i: nat, j: nat)
    requires TokenFrom(ws, es, i, j) && j < |es| && es[j].Delivered? && es[j].key == es[i].key
    ensures var k := es[i].key; var r := ws[j].rows[k];
      ws[j + 1].rows ==
        if r.claimedAt.Some? && r.deliveredAt.None? && Right(es[i], es[j].claimKey, es[j].token)
        then ws[j].rows[k := r.(deliveredAt := Some(es[j].now), lastSeen := es[j].now)]
        else ws[j].rows
  {
    TokenStands(ws, es, i, j);
    SoundAlways(ws, es, j);
    assert RowSound(ws[j], es[i].key, ws[j].rows[es[i].key]);
    assert StepAt(ws, es, j);
  }

  /** An unclaimed row that has heard nothing since its announce goes with a prune
      exactly when that was more than a day ago. */
  lemma PrunedAfterADay(ws: seq<World>, es: seq<Event>, i: nat, j: nat)
    requires Run(ws, es) && i < j < |es| && es[i].Announced? && WellFormed(es[i].key) && es[j].Pruned?
    requires Present(ws, es[i].key, i + 1, j) && Undisturbed(es, es[i].key, i + 1, j)
    ensures es[i].key in ws[j + 1].rows <==>
              ws[j].rows[es[i].key].claimedAt.Some? || es[j].now - es[i].now <= 86400
  {
    ChallengeStands(ws, es, i, j);
    assert StepAt(ws, es, j);
  }

  // ----- An honest device

  /** What the device, the form and the operator bring to one enrollment. */
  datatype Script = Script(k: EnrollKey, claimKey: string, token: string, nonce: Nonce, attempt: AttemptId,
                           request: ClaimRequest, at: Time, took: nat)

  function Steps(s: Script): seq<Event> {
    [Announced(s.k, s.claimKey, s.token, s.nonce, s.at), Burnt(s.attempt, s.k, s.at + s.took),
     Judged(s.attempt, Signature(s.k.pub, s.nonce), s.at + s.took), Looked(s.k.id, s.claimKey, s.token),
     Claimed(s.request), Delivered(s.k, s.claimKey, s.token, s.request.now)]
  }

  /** The id is new here, the draws are fresh, and the tenant can take a device. */
  ghost predicate CanEnroll(w: World, s: Script) {
    && WellFormed(s.k) && s.token != "" && s.took < 300
    && (forall o :: o in w.rows ==> o.id != s.k.id)
    && s.nonce !in w.issued && s.attempt !in w.attempts && s.request.newPk !in w.devices
    && s.request.key == s.k && s.request.owner != NO_USER
    && HasRoom(w.devices, s.request.tenant, s.k.id, s.request.quota)
    && !HeldByForeignRow(w.devices, s.request.tenant, s.k.id)
  }

  /** The row the script has made of the id so far, the only one for it. */
  ghost predicate Reached(w: World, s: Script, r: Enrollment) {
    && s.k in w.rows && w.rows[s.k] == r && forall o :: o in w.rows && o.id == s.k.id ==> o == s.k
  }

  function AnnouncedRow(s: Script): Enrollment {
    FirstRow(ClaimTokenDigest(s.claimKey, s.token), s.nonce, s.at)
  }

  function VerifiedRow(s: Script): Enrollment {
    AnnouncedRow(s).(challenge := None, expires := None, lastSeen := s.at + s.took, verifiedAt := Some(s.at + s.took))
  }

  function ClaimedRow(s: Script): Enrollment {
    VerifiedRow(s).(claimedBy := Some(s.request.tenant), claimedAt := Some(s.request.now))
  }

  /** Announce, burn and proof. */
  lemma DeviceProves(w: World, s: Script)
    requires CanEnroll(w, s)
    ensures var es := Steps(s); var w1 := Next(w, es[0]); var w2 := Next(w1, es[1]); var w3 := Next(w2, es[2]);
      && Enabled(w, es[0]) && Enabled(w1, es[1]) && Enabled(w2, es[2])
      && Reached(w3, s, VerifiedRow(s)) && w3.devices == w.devices
  {
    var es := Steps(s);
    var w1 := Next(w, es[0]);
    assert Reached(w1, s, AnnouncedRow(s)) && w1.attempts == w.attempts;
    var w2 := Next(w1, es[1]);
    assert BurnsChallenge(w1, es[1]);
    assert Reached(w2, s, AnnouncedRow(s).(challenge := None, expires := None, lastSeen := s.at + s.took));
    assert w2.attempts[s.attempt].burned == Burned(s.nonce, AnnouncedRow(s).tokenHash);
  }

  /** Look-up, claim and acknowledgement. */
  lemma OperatorClaims(w: World, s: Script)
    requires Reached(w, s, VerifiedRow(s)) && s.request.newPk !in w.devices && WellFormed(s.k) && s.token != ""
    requires OpenTo(w, s.request) && s.request.key == s.k
    ensures ClaimLookupAnswer(w.rows, s.k.id, s.claimKey, s.token) == Ok(s.k)
    ensures var es := Steps(s); var w4 := Next(w, es[3]); var w5 := Next(w4, es[4]); var w6 := Next(w5, es[5]);
      && Enabled(w, es[3]) && Enabled(w4, es[4]) && Enabled(w5, es[5])
      && Reached(w6, s, ClaimedRow(s).(deliveredAt := Some(s.request.now), lastSeen := s.request.now))
      && HasDevice(w6.devices, s.request.tenant, s.k.id)
  {
    var es := Steps(s);
    var w4 := Next(w, es[3]);
    assert s.k in Matches(w.rows, s.k.id, s.claimKey, s.token);
    OneRowForId(w.rows, s.k, s.claimKey, s.token);
    assert w4 == w;
    var t := s.request.tenant;
    assert OfTenant(w.devices, t) == set pk | pk in w.devices && w.devices[pk].tenant == t;
    assert MakesClaim(w.rows, w.devices, s.request);
    var w5 := Next(w4, es[4]);
    assert Reached(w5, s, ClaimedRow(s));
    var pk := ClaimDevicePk(w.devices, s.request);
    assert w5.devices[pk].tenant == s.request.tenant && w5.devices[pk].id == s.k.id;
  }

  lemma Follow(ws: seq<World>, es: seq<Event>, e: Event) returns (vs: seq<World>)
    requires Run(ws, es) && Enabled(ws[|es|], e)
    ensures Run(vs, es + [e]) && ws <= vs && vs[|es| + 1] == Next(ws[|es|], e)
  {
    var fs;
    vs, fs := ClaimLock.Extend(ws, es, e);
  }

  lemma Follow3(ws: seq<World>, es: seq<Event>, a: Event, b: Event, c: Event) returns (vs: seq<World>)
    requires Run(ws, es)
    requires var w := ws[|es|]; Enabled(w, a) && Enabled(Next(w, a), b) && Enabled(Next(Next(w, a), b), c)
    ensures Run(vs, es + [a, b, c]) && ws <= vs && vs[|es| + 3] == Next(Next(Next(ws[|es|], a), b), c)
  {
    vs := Follow(ws, es, a);
    vs := Follow(vs, es + [a], b);
    vs := Follow(vs, es + [a] + [b], c);
    assert es + [a] + [b] + [c] == es + [a, b, c];
  }

  /** From every reachable state, a device that announces, signs in time and shows its
      code to a tenant with room ends up claimed there and sealed. */
  lemma HonestDeviceEnrolls(ws: seq<World>, es: seq<Event>, s: Script) returns (vs: seq<World>)
    requires Run(ws, es) && CanEnroll(ws[|es|], s)
    ensures Run(vs, es + Steps(s)) && ws <= vs
    ensures ClaimLookupAnswer(vs[|es| + 3].rows, s.k.id, s.claimKey, s.token) == Ok(s.k)
    ensures var w := vs[|es| + 6];
      && s.k in w.rows && w.rows[s.k].claimedBy == Some(s.request.tenant) && w.rows[s.k].deliveredAt.Some?
      && HasDevice(w.devices, s.request.tenant, s.k.id)
  {
    var fs := Steps(s);
    DeviceProves(ws[|es|], s);
    var mid := Follow3(ws, es, fs[0], fs[1], fs[2]);
    OperatorClaims(mid[|es| + 3], s);
    vs := Follow3(mid, es + [fs[0], fs[1], fs[2]], fs[3], fs[4], fs[5]);
    assert es + [fs[0], fs[1], fs[2]] + [fs[3], fs[4], fs[5]] == es + fs;
  }
}
