/** What every run of the certificate lifecycle keeps. */
module CertSafety {
  import opened Prelude
  import opened Schema
  import opened CertSerial
  import opened CertTables
  import opened CertRuns

  ghost predicate HasLiveCert(w: World, pk: DevicePk) {
    exists c :: c in w.certs && w.certs[c].device == pk && !w.certs[c].revoked && w.certs[c].status == Active
  }

  predicate Unrevoked(w: World, c: CertId) {
    c in w.certs && !w.certs[c].revoked
  }

  /** Two certificates of one device, or with one name. */
  predicate ShareOwner(w: World, c: CertId, d: CertId)
    requires c in w.certs && d in w.certs
  {
    w.certs[c].device == w.certs[d].device || w.certs[c].cn == w.certs[d].cn
  }

  /** At every moment a device has at most one unrevoked certificate, no two
      devices have unrevoked ones of one name, and a device reads as paired
      exactly while it has an unrevoked active one. */
  lemma OneLiveCertAndPairingFollowsIt(ws: seq<World>, es: seq<Event>, i: nat)
    requires Run(ws, es) && i < |ws|
    ensures forall c, d :: Unrevoked(ws[i], c) && Unrevoked(ws[i], d) && ShareOwner(ws[i], c, d) ==> c == d
    ensures forall pk :: pk in ws[i].devices ==> (ws[i].devices[pk].pairedAt.Some? <==> HasLiveCert(ws[i], pk))
  {
    SoundAlways(ws, es, i);
    var w := ws[i];
    forall pk | pk in w.devices ensures NewestIsLive(w, pk) <==> HasLiveCert(w, pk) {
      if c :| c in w.certs && w.certs[c].device == pk && !w.certs[c].revoked && w.certs[c].status == Active {
        assert RowSound(w, c, w.certs[c]);
      }
      if NewestIsLive(w, pk) {
        assert w.certs[w.newest[pk]].device == pk;
      }
    }
    forall c, d | c in w.certs && d in w.certs && !w.certs[c].revoked && !w.certs[d].revoked
                  && w.certs[c].device == w.certs[d].device ensures c == d {
      assert RowSound(w, c, w.certs[c]) && RowSound(w, d, w.certs[d]);
    }
  }

  // ----- Only the newest issue can be flipped

  ghost predicate IssuedAt(ws: seq<World>, es: seq<Event>, i: nat, device: DevicePk, cert: CertId)
    requires i < |es| < |ws|
  {
    Issues(ws[i], es[i]) && es[i].request.device == device && es[i].request.certId == cert
  }

  /** `cert` was issued to the device and is not its last issue. */
  predicate Past(w: World, cert: CertId, device: DevicePk) {
    && cert in w.ids && device in w.newest && w.newest[device] != cert
    && (cert in w.certs ==> w.certs[cert].device == device)
  }

  lemma {:induction false} IssuedRowKeepsItsDevice(ws: seq<World>, es: seq<Event>, i: nat, j: nat, device: DevicePk,
                                                   cert: CertId)
    requires Run(ws, es) && i < j < |ws| && i < |es| && IssuedAt(ws, es, i, device, cert)
    ensures cert in ws[j].ids && (cert in ws[j].certs ==> ws[j].certs[cert].device == device)
  {
    assert StepAt(ws, es, j - 1);
    if i < j - 1 {
      IssuedRowKeepsItsDevice(ws, es, i, j - 1, device, cert);
      SoundAlways(ws, es, j - 1);
      if cert in ws[j].certs { CertStep(ws[j - 1], es[j - 1], cert); }
    }
  }

  lemma {:induction false} PastStaysPast(ws: seq<World>, es: seq<Event>, i: nat, k: nat, j: nat, device: DevicePk,
                                         cert: CertId, later: CertId)
    requires Run(ws, es) && i < k < j < |ws| && k < |es|
    requires IssuedAt(ws, es, i, device, cert) && IssuedAt(ws, es, k, device, later)
    ensures Past(ws[j], cert, device)
  {
    IssuedRowKeepsItsDevice(ws, es, i, j, device, cert);
    IssuedRowKeepsItsDevice(ws, es, i, j - 1, device, cert);
    assert StepAt(ws, es, j - 1);
    if k < j - 1 {
      PastStaysPast(ws, es, i, k, j - 1, device, cert, later);
    }
  }

  /** Once a later Issue for the device committed, an Activate or MarkFailed that
      still carries the earlier row changes nothing, whatever happened since. */
  lemma SupersededRowNeverFlips(ws: seq<World>, es: seq<Event>, i: nat, k: nat, j: nat, device: DevicePk, cert: CertId,
                                later: CertId)
    requires Run(ws, es) && i < k < j < |es|
    requires IssuedAt(ws, es, i, device, cert) && IssuedAt(ws, es, k, device, later)
    requires (es[j].Activating? || es[j].Failing?) && es[j].cert == cert
    ensures ws[j + 1] == ws[j]
  {
    PastStaysPast(ws, es, i, k, j, device, cert, later);
    assert StepAt(ws, es, j);
    SoundAlways(ws, es, j);
    if cert in ws[j].certs { assert RowSound(ws[j], cert, ws[j].certs[cert]); }
  }

  /** An Activate that commits makes its row the device's one live certificate. */
  lemma ActivatedRowIsTheLiveOne(ws: seq<World>, es: seq<Event>, i: nat)
    requires Run(ws, es) && i < |es| && es[i].Activating?
    requires Activates(ws[i].devices, ws[i].certs, es[i].tenant, es[i].cert, es[i].device)
    ensures var v := ws[i + 1];
      && es[i].device in v.devices && v.devices[es[i].device].pairedAt == Some(es[i].now)
      && es[i].cert in v.certs && v.certs[es[i].cert].status == Active && !v.certs[es[i].cert].revoked
      && forall c :: c in v.certs && v.certs[c].device == es[i].device && !v.certs[c].revoked ==> c == es[i].cert
  {
    assert StepAt(ws, es, i);
    SoundAlways(ws, es, i);
    var w, v := ws[i], ws[i + 1];
    assert RowSound(w, es[i].cert, w.certs[es[i].cert]);
    forall c | c in v.certs && v.certs[c].device == es[i].device && !v.certs[c].revoked ensures c == es[i].cert {
      assert RowSound(w, c, w.certs[c]);
    }
  }

  // ----- Revocation answers

  ghost function Ask(w: World, id: DeviceId, pub: Pubkey, s: Serial): Answer {
    Answered(w.devices, w.certs, w.tombs, id, pub, s)
  }

  predicate BoundTo(w: World, s: Serial, id: DeviceId, pub: Pubkey) {
    s in w.issued && w.issued[s] == Issuance(id, Some(pub))
  }

  /** The serial's row is gone with its device, or revoked. */
  predicate GoneOrRevoked(w: World, s: Serial) {
    forall c :: c in w.certs && w.certs[c].serial == s ==> w.certs[c].revoked
  }

  /** The answer to the very identity a serial is bound to is revoked exactly when
      the row is revoked or was deleted, and otherwise active; every other
      identity, and every serial bound to none, gets unknown. */
  lemma AnswerIsExact(w: World, id: DeviceId, pub: Pubkey, s: Serial)
    requires Sound(w)
    ensures Ask(w, id, pub, s) ==
              if !BoundTo(w, s, id, pub) then AnswerUnknown
              else if GoneOrRevoked(w, s) then AnswerRevoked else AnswerActive
  {
    if HasRow(w.devices, w.certs, s) {
      var c := TheRow(w.devices, w.certs, s);
      assert RowSound(w, c, w.certs[c]);
      assert GoneOrRevoked(w, s) <==> w.certs[c].revoked;
    } else {
      forall c | c in w.certs ensures w.certs[c].serial != s { assert RowSound(w, c, w.certs[c]); }
      if s in w.tombs { assert TombSound(w, s); }
    }
  }

  lemma BindingStep(w: World, e: Event, s: Serial)
    requires Sound(w) && Enabled(w, e) && s in w.issued
    ensures s in Next(w, e).issued && Next(w, e).issued[s] == w.issued[s]
    ensures GoneOrRevoked(w, s) ==> GoneOrRevoked(Next(w, e), s)
  {
    var v := Next(w, e);
    forall c | c in v.certs && v.certs[c].serial == s && GoneOrRevoked(w, s) ensures v.certs[c].revoked {
      CertStep(w, e, c);
    }
  }

  /** Over a whole run, device deletes included: a serial answered revoked stays
      revoked, and one answered active is only ever active or revoked. */
  lemma {:induction false} RevokedIsFinal(ws: seq<World>, es: seq<Event>, i: nat, j: nat, id: DeviceId, pub: Pubkey,
                                          s: Serial)
    requires Run(ws, es) && i <= j < |ws|
    ensures Ask(ws[i], id, pub, s) == AnswerRevoked ==> Ask(ws[j], id, pub, s) == AnswerRevoked
    ensures Ask(ws[i], id, pub, s) == AnswerActive ==> Ask(ws[j], id, pub, s) != AnswerUnknown
  {
    if i < j {
      RevokedIsFinal(ws, es, i, j - 1, id, pub, s);
      SoundAlways(ws, es, j - 1);
      assert StepAt(ws, es, j - 1);
      var w, e := ws[j - 1], es[j - 1];
      SoundStep(w, e);
      AnswerNeverRegresses(w, e, id, pub, s);
    }
  }

  lemma AnswerNeverRegresses(w: World, e: Event, id: DeviceId, pub: Pubkey, s: Serial)
    requires Sound(w) && Enabled(w, e) && Sound(Next(w, e))
    ensures Ask(w, id, pub, s) == AnswerRevoked ==> Ask(Next(w, e), id, pub, s) == AnswerRevoked
    ensures Ask(w, id, pub, s) != AnswerUnknown ==> Ask(Next(w, e), id, pub, s) != AnswerUnknown
  {
    AnswerIsExact(w, id, pub, s);
    AnswerIsExact(Next(w, e), id, pub, s);
    if BoundTo(w, s, id, pub) { BindingStep(w, e, s); }
  }

  /** In every reachable state the answer is exact. */
  lemma AnswerIsExactAlways(ws: seq<World>, es: seq<Event>, i: nat, id: DeviceId, pub: Pubkey, s: Serial)
    requires Run(ws, es) && i < |ws|
    ensures Ask(ws[i], id, pub, s) == AnswerRevoked <==> BoundTo(ws[i], s, id, pub) && GoneOrRevoked(ws[i], s)
    ensures Ask(ws[i], id, pub, s) == AnswerActive <==> BoundTo(ws[i], s, id, pub) && !GoneOrRevoked(ws[i], s)
  {
    SoundAlways(ws, es, i);
    AnswerIsExact(ws[i], id, pub, s);
  }

  /** What RevocationStatus looks up for a raw serial. */
  ghost function AskRaw(w: World, id: DeviceId, pub: Pubkey, raw: string): Option<Answer> {
    match CanonicalCertSerial(raw)
    case None => None
    case Some(s) => Some(Ask(w, id, pub, s))
  }

  predicate SameNumber(a: string, b: string) {
    LowerHex(a) && LowerHex(b) && HexValue(a) == HexValue(b)
  }

  /** In a run that issues canonical serials only, every spelling of a bound serial's
      number gets the exact answer, and a number never issued gets unknown. */
  lemma AnySpellingIsAnswered(ws: seq<World>, es: seq<Event>, i: nat, id: DeviceId, pub: Pubkey, s: Serial, raw: string)
    requires Run(ws, es) && i < |ws| && CanonicalCertSerial(raw).Some?
    requires forall t :: t in ws[i].issued ==> CanonicalCertSerial(t) == Some(t)
    ensures BoundTo(ws[i], s, id, pub) && SameNumber(raw, s) ==>
              AskRaw(ws[i], id, pub, raw) == Some(if GoneOrRevoked(ws[i], s) then AnswerRevoked else AnswerActive)
    ensures (forall t :: t in ws[i].issued ==> !SameNumber(raw, t)) ==>
      AskRaw(ws[i], id, pub, raw) == Some(AnswerUnknown)
  {
    SoundAlways(ws, es, i);
    var canonical := CanonicalCertSerial(raw).value;
    CanonicalKeepsTheValue(raw);
    AnswerIsExact(ws[i], id, pub, canonical);
    if BoundTo(ws[i], s, id, pub) { CanonicalIsTheNumber(raw, s); }
    assert SameNumber(raw, canonical);
  }
}
