/** What each certificate transaction does, and when: its whole effect in every
    reachable state. */
module CertProgress {
  import opened Prelude
  import opened Schema
  import opened CertTables
  import opened CertRuns
  import opened CertSafety

  predicate Owns(w: World, tenant: Tenant, device: DevicePk) {
    device in w.devices && w.devices[device].tenant == tenant
  }

  /** Every certificate of the device is revoked; those of others are as they were. */
  predicate AllRevoked(was: Certs, now: Certs, device: DevicePk) {
    forall c :: c in was ==>
      c in now && now[c] == if was[c].device == device then was[c].(revoked := true) else was[c]
  }

  /** A status check on each identity-bound serial the device had answers revoked. */
  ghost predicate BoundReadRevoked(w: World, v: World, device: DevicePk)
    requires device in w.devices
  {
    forall c :: c in w.certs && w.certs[c].device == device && w.certs[c].pub.Some? ==>
      Ask(v, w.devices[device].id, w.certs[c].pub.value, w.certs[c].serial) == AnswerRevoked
  }

  /** The bound serials of a device read revoked once no unrevoked row has them. */
  lemma BoundSerialsRead(w: World, e: Event, device: DevicePk)
    requires Sound(w) && Enabled(w, e) && device in w.devices
    requires forall c :: c in w.certs && w.certs[c].device == device ==> GoneOrRevoked(Next(w, e), w.certs[c].serial)
    ensures BoundReadRevoked(w, Next(w, e), device)
  {
    SoundStep(w, e);
    forall c | c in w.certs && w.certs[c].device == device && w.certs[c].pub.Some?
      ensures Ask(Next(w, e), w.devices[device].id, w.certs[c].pub.value, w.certs[c].serial) == AnswerRevoked
    {
      assert RowSound(w, c, w.certs[c]);
      BindingStep(w, e, w.certs[c].serial);
      AnswerIsExact(Next(w, e), w.devices[device].id, w.certs[c].pub.value, w.certs[c].serial);
    }
  }

  /** In every run a revoke of a row the tenant owns leaves none of its certificates
      unrevoked, unpairs it and has its bound serials read revoked; no other row or
      certificate changes. A revoke of any other row changes nothing. */
  lemma RevokeTakesEffectIff(ws: seq<World>, es: seq<Event>, i: nat)
    requires Run(ws, es) && i < |es| && es[i].Revoking?
    ensures var w, v, d := ws[i], ws[i + 1], es[i].device;
      if !Owns(w, es[i].tenant, d) then v == w
      else v.certs.Keys == w.certs.Keys && AllRevoked(w.certs, v.certs, d)
           && v.devices == w.devices[d := w.devices[d].(pairedAt := None)] && v.tombs == w.tombs
           && BoundReadRevoked(w, v, d)
  {
    assert StepAt(ws, es, i);
    SoundAlways(ws, es, i);
    var w, d := ws[i], es[i].device;
    if Owns(w, es[i].tenant, d) {
      forall c | c in w.certs && w.certs[c].device == d ensures GoneOrRevoked(Next(w, es[i]), w.certs[c].serial) {}
      BoundSerialsRead(w, es[i], d);
    }
  }

  /** In every run a delete of a row the tenant owns takes the row and exactly its
      certificates, and its bound serials read revoked; any other changes nothing. */
  lemma DeleteTakesEffectIff(ws: seq<World>, es: seq<Event>, i: nat)
    requires Run(ws, es) && i < |es| && es[i].Deleting?
    ensures var w, v, d := ws[i], ws[i + 1], es[i].device;
      if !Owns(w, es[i].tenant, d) then v == w
      else v.devices == w.devices - {d}
           && v.certs == (map c | c in w.certs && w.certs[c].device != d :: w.certs[c])
           && BoundReadRevoked(w, v, d)
  {
    assert StepAt(ws, es, i);
    SoundAlways(ws, es, i);
    var w, d := ws[i], es[i].device;
    if Owns(w, es[i].tenant, d) {
      forall c | c in w.certs && w.certs[c].device == d ensures GoneOrRevoked(Next(w, es[i]), w.certs[c].serial) {}
      BoundSerialsRead(w, es[i], d);
    }
  }

  /** Another device has an unrevoked certificate of this name. */
  predicate NameTaken(w: World, device: DevicePk, cn: string) {
    exists c :: c in w.certs && w.certs[c].device != device && !w.certs[c].revoked && w.certs[c].cn == cn
  }

  /** The request's certificate is there, the device's others are revoked, and the
      device is paired exactly if the new one is active. */
  predicate NewestOf(w: World, v: World, r: IssueRequest)
    requires r.device in w.devices
  {
    && v.certs.Keys == w.certs.Keys + {r.certId} && AllRevoked(w.certs, v.certs, r.device)
    && v.certs[r.certId] == Cert(r.device, r.serial, r.cn, r.status, false, r.pub)
    && v.devices == w.devices[r.device := w.devices[r.device].(
         pairedAt := if r.status == Active then Some(r.now) else None)]
  }

  ghost predicate IssueComesTo(w: World, v: World, r: IssueRequest) {
    if !Owns(w, r.tenant, r.device) || NameTaken(w, r.device, r.cn) then v == w
    else NewestOf(w, v, r)
         && (r.pub.Some? ==> Ask(v, w.devices[r.device].id, r.pub.value, r.serial) == AnswerActive)
  }

  /** In every run an issue to a row the tenant owns, under a name no other device has
      live, adds the one unrevoked certificate of the device and pairs it exactly if it
      is born active; a bound serial then reads active. Any other issue fails and
      changes nothing. */
  lemma IssueTakesEffectIff(ws: seq<World>, es: seq<Event>, i: nat)
    requires Run(ws, es) && i < |es| && es[i].Issuing?
    ensures IssueComesTo(ws[i], ws[i + 1], es[i].request)
  {
    assert IssueComesTo(ws[i], ws[i + 1], es[i].request) by {
      assert StepAt(ws, es, i);
      SoundAlways(ws, es, i);
      SoundAlways(ws, es, i + 1);
      IssueEffect(ws[i], ws[i + 1], es[i]);
    }
  }

  lemma IssueEffect(w: World, v: World, e: Event)
    requires Sound(w) && Enabled(w, e) && e.Issuing? && v == Next(w, e) && Sound(v)
    ensures IssueComesTo(w, v, e.request)
  {
    IssueStep(w, e);
    if Issues(w, e) && e.request.pub.Some? { IssuedReadsActive(w, e); }
  }

  lemma IssueStep(w: World, e: Event)
    requires Sound(w) && Enabled(w, e) && e.Issuing?
    ensures var r := e.request; Issues(w, e) <==> Owns(w, r.tenant, r.device) && !NameTaken(w, r.device, r.cn)
    ensures var v, r := Next(w, e), e.request;
      if !Issues(w, e) then v == w else NewestOf(w, v, r)
  {
    assert CNHeldElsewhere(w.certs, e.request.device, e.request.cn) <==> NameTaken(w, e.request.device, e.request.cn);
    forall c | c in w.certs ensures c != e.request.certId { assert RowSound(w, c, w.certs[c]); }
  }

  lemma IssuedReadsActive(w: World, e: Event)
    requires Sound(w) && Enabled(w, e) && Issues(w, e) && Sound(Next(w, e)) && e.request.pub.Some?
    ensures var r := e.request; Ask(Next(w, e), w.devices[r.device].id, r.pub.value, r.serial) == AnswerActive
  {
    var v, r := Next(w, e), e.request;
    IssueStep(w, e);
    assert !v.certs[r.certId].revoked && v.certs[r.certId].serial == r.serial;
    AnswerIsExact(v, w.devices[r.device].id, r.pub.value, r.serial);
  }

  /** Nothing from step i up to step j touches the device's certificates. */
  ghost predicate LeavesCerts(ws: seq<World>, es: seq<Event>, device: DevicePk, cert: CertId, i: nat, j: nat)
    requires i <= j <= |es| <= |ws|
  {
    forall m :: i <= m < j ==>
      match es[m]
      case Issuing(r) => r.device != device
      case Activating(_, c, _, _) => c != cert
      case Failing(_, c) => c != cert
      case Revoking(_, d) => d != device
      case Deleting(_, d) => d != device
      case Elsewhere(_) => true
  }

  /** Step i issued the row, pending. */
  ghost predicate IssuedPending(ws: seq<World>, es: seq<Event>, i: nat) {
    i < |es| < |ws| && es[i].Issuing? && es[i].request.status == Pending
    && Owns(ws[i], es[i].request.tenant, es[i].request.device)
    && !NameTaken(ws[i], es[i].request.device, es[i].request.cn)
  }

  lemma {:induction false} PendingStands(ws: seq<World>, es: seq<Event>, i: nat, j: nat)
    requires Run(ws, es) && i < j <= |es| && IssuedPending(ws, es, i)
    requires LeavesCerts(ws, es, es[i].request.device, es[i].request.certId, i + 1, j)
    ensures var r := es[i].request;
      && r.device in ws[j].devices && r.certId in ws[j].certs
      && ws[j].certs[r.certId] == Cert(r.device, r.serial, r.cn, Pending, false, r.pub)
  {
    if i + 1 == j {
      IssueTakesEffectIff(ws, es, i);
    } else {
      PendingStands(ws, es, i, j - 1);
      assert StepAt(ws, es, j - 1);
      SoundAlways(ws, es, j - 1);
      var r := es[i].request;
      assert RowSound(ws[j - 1], r.certId, ws[j - 1].certs[r.certId]);
    }
  }

  /** A pending issue that nothing has touched since is settled by the first Activate
      or MarkFailed for it from the row's tenant, as long as it names the device: one
      pairs the device, the other leaves it unpaired. From elsewhere neither does
      anything. */
  lemma PendingIsSettledIff(ws: seq<World>, es: seq<Event>, i: nat, j: nat)
    requires Run(ws, es) && i < j < |es| && IssuedPending(ws, es, i)
    requires LeavesCerts(ws, es, es[i].request.device, es[i].request.certId, i + 1, j)
    requires (es[j].Activating? || es[j].Failing?) && es[j].cert == es[i].request.certId
    ensures es[i].request.certId in ws[j].certs && es[i].request.device in ws[j].devices
    ensures var w, v, e, r := ws[j], ws[j + 1], es[j], es[i].request;
      if !Owns(w, e.tenant, r.device) || (e.Activating? && e.device != r.device) then v == w
      else v.certs == w.certs[r.certId := w.certs[r.certId].(status := if e.Activating? then Active else Failed)]
           && v.devices == if e.Failing? then w.devices
                           else w.devices[r.device := w.devices[r.device].(pairedAt := Some(e.now))]
  {
    PendingStands(ws, es, i, j);
    assert StepAt(ws, es, j);
  }

  lemma Follow(ws: seq<World>, es: seq<Event>, e: Event) returns (vs: seq<World>, fs: seq<Event>)
    requires Run(ws, es) && Enabled(ws[|es|], e)
    ensures Run(vs, fs) && fs == es + [e] && ws <= vs && vs[|fs|] == Next(ws[|es|], e)
  {
    vs, fs := ws + [Next(ws[|es|], e)], es + [e];
    forall i | 0 <= i < |fs| ensures StepAt(vs, fs, i) {
      if i < |es| { assert StepAt(ws, es, i); }
    }
  }

  /** The device is paired since then, and this is its one unrevoked certificate. */
  ghost predicate PairedOn(w: World, device: DevicePk, cert: CertId, at: Time) {
    && device in w.devices && w.devices[device].pairedAt == Some(at)
    && forall c :: c in w.certs && w.certs[c].device == device && !w.certs[c].revoked <==> c == cert
  }

  predicate Unpaired(w: World, device: DevicePk) {
    && device in w.devices && w.devices[device].pairedAt.None?
    && forall c :: c in w.certs && w.certs[c].device == device ==> w.certs[c].revoked
  }

  lemma ActivatePairs(w: World, r: IssueRequest, now: Time)
    requires Sound(w) && Owns(w, r.tenant, r.device) && r.certId in w.certs
    requires w.certs[r.certId] == Cert(r.device, r.serial, r.cn, Pending, false, r.pub)
    ensures var v := Next(w, Activating(r.tenant, r.certId, r.device, now));
      PairedOn(v, r.device, r.certId, now) && Owns(v, r.tenant, r.device)
  {
    var v := Next(w, Activating(r.tenant, r.certId, r.device, now));
    forall c | c in v.certs && v.certs[c].device == r.device && !v.certs[c].revoked ensures c == r.certId {
      assert RowSound(w, c, w.certs[c]) && RowSound(w, r.certId, w.certs[r.certId]);
    }
  }

  lemma RevokeUnpairs(w: World, tenant: Tenant, device: DevicePk)
    requires Owns(w, tenant, device)
    ensures Unpaired(Next(w, Revoking(tenant, device)), device)
  {
  }

  /** From every reachable state, a fresh pending issue and its Activate leave the device
      paired on exactly that certificate; a revoke after it unpairs the device. */
  lemma DeviceIsPairedAndRevoked(ws: seq<World>, es: seq<Event>, r: IssueRequest, now: Time)
    returns (vs: seq<World>, fs: seq<Event>)
    requires Run(ws, es) && Enabled(ws[|es|], Issuing(r)) && r.status == Pending
    requires Owns(ws[|es|], r.tenant, r.device) && !NameTaken(ws[|es|], r.device, r.cn)
    ensures ws <= vs && Run(vs, fs)
    ensures fs == es + [Issuing(r)] + [Activating(r.tenant, r.certId, r.device, now)] + [Revoking(r.tenant, r.device)]
    ensures PairedOn(vs[|fs| - 1], r.device, r.certId, now) && Unpaired(vs[|fs|], r.device)
  {
    var w := ws[|es|];
    SoundAlways(ws, es, |es|);
    IssueStep(w, Issuing(r));
    vs, fs := Follow(ws, es, Issuing(r));
    SoundAlways(vs, fs, |fs|);
    ActivatePairs(vs[|fs|], r, now);
    vs, fs := Follow(vs, fs, Activating(r.tenant, r.certId, r.device, now));
    RevokeUnpairs(vs[|fs|], r.tenant, r.device);
    vs, fs := Follow(vs, fs, Revoking(r.tenant, r.device));
  }
}
