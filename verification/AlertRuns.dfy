/** Every interleaving of inline dispatches, sweeper dispatches, lost writes,
    panics and process deaths over the alert table. */
module AlertRuns {
  import opened Prelude
  import opened AlertRules

  /** A dispatch that holds the alert's claim and has loaded its row. */
  datatype Round = Round(row: Row, recipients: seq<Recipient>, sent0: set<SubId>, next: nat, progress: Progress)

  /** The table, the webhook record, the rounds in flight, and per alert how many
      send rounds began and how many of them ended with nothing written. */
  datatype World = World(
    rows: seq<Row>,
    recorded: set<Delivery>,
    rounds: map<AlertId, Round>,
    began: seq<nat>,
    lost: seq<nat>)

  datatype Event =
    | Insert(due: Time)
    | Begin(alert: AlertId, recipients: seq<Recipient>, written: bool)
    | SendNext(alert: AlertId, result: Send)
    | Finish(alert: AlertId, now: Time, written: bool)
    | Panic(alert: AlertId, now: Time, written: bool)
    | Abandon(alert: AlertId)

  predicate Enabled(w: World, e: Event) {
    match e
    case Insert(_) => true
    case Begin(a, _, _) => a < |w.rows| && a !in w.rounds
    case SendNext(a, _) => a in w.rounds && w.rounds[a].next < |w.rounds[a].recipients|
    case Finish(a, _, _) => a in w.rounds && w.rounds[a].next == |w.rounds[a].recipients|
    case Panic(a, _, _) => a in w.rounds
    case Abandon(a) => a in w.rounds
  }

  function SentFor(recorded: set<Delivery>, a: AlertId): set<SubId> {
    set d | d in recorded && d.alert == a :: d.sub
  }

  /** Ends a round: its claim is released, and either the row is written or the
      round is lost. */
  function End(w: World, a: AlertId, row: Row, written: bool): World
    requires a < |w.rows| && a < |w.lost|
  {
    w.(rows := if written then w.rows[a := row] else w.rows,
       rounds := w.rounds - {a},
       lost := if written then w.lost else w.lost[a := w.lost[a] + 1])
  }

  predicate Shaped(w: World) {
    |w.began| == |w.rows| == |w.lost| && forall a :: a in w.rounds ==> a < |w.rows|
  }

  function Next(cfg: Config, w: World, e: Event): World
    requires Shaped(w) && Enabled(w, e)
  {
    match e
    case Insert(due) =>
      w.(rows := w.rows + [Row(Pending, 0, false, false, false, due)], began := w.began + [0], lost := w.lost + [0])
    case Begin(a, recipients, written) =>
      var row := w.rows[a];
      if row.status != Pending then w
      else if recipients == [] then
        if !written then w
        else w.(rows := w.rows[a := Recorded(row, false, false, false, Nobody, row.attempts, row.due)])
      else
        var sent := SentFor(w.recorded, a);
        w.(rounds := w.rounds[a := Round(row, recipients, sent, 0, Progress(false, false, sent))],
           began := w.began[a := w.began[a] + 1])
    case SendNext(a, result) =>
      var t := w.rounds[a];
      var r := t.recipients[t.next];
      var p := After(t.row, t.progress, r, result);
      w.(rounds := w.rounds[a := t.(next := t.next + 1, progress := p)],
         recorded := if Posts(w, e) && result == Sent then w.recorded + {Delivery(a, r.sub)} else w.recorded)
    case Finish(a, now, written) =>
      var t := w.rounds[a];
      End(w, a, Outcome(cfg, t.row, t.sent0, t.progress, t.recipients, now), written)
    case Panic(a, now, written) =>
      End(w, a, PanicOutcome(cfg, w.rounds[a].row, w.rounds[a].progress, now), written)
    case Abandon(a) =>
      End(w, a, w.rows[a], false)
  }

  /** This event posts to a webhook. */
  predicate Posts(w: World, e: Event) {
    e.SendNext? && Enabled(w, e)
    && var t := w.rounds[e.alert]; var r := t.recipients[t.next];
       r.channel == Webhook && !Skips(t.row, t.progress, r)
  }

  // ----- The invariant

  predicate RoundSound(w: World, a: AlertId, t: Round)
    requires a < |w.rows|
  {
    && t.row == w.rows[a] && t.row.status == Pending && t.recipients != [] && t.next <= |t.recipients|
    && t.progress.sent == SentFor(w.recorded, a) && t.sent0 <= t.progress.sent
  }

  predicate RowSound(cfg: Config, w: World, a: AlertId)
    requires Shaped(w) && a < |w.rows|
  {
    && w.rows[a].attempts <= cfg.Max()
    && (w.rows[a].status == Pending ==> w.rows[a].attempts < cfg.Max())
    && w.began[a] == w.rows[a].attempts + w.lost[a] + (if a in w.rounds then 1 else 0)
  }

  predicate Sound(cfg: Config, w: World) {
    && Shaped(w)
    && (forall a :: a in w.rounds ==> RoundSound(w, a, w.rounds[a]))
    && (forall a :: 0 <= a < |w.rows| ==> RowSound(cfg, w, a))
    && (forall d :: d in w.recorded ==> d.alert < |w.rows|)
  }

  lemma SentForAdds(recorded: set<Delivery>, a: AlertId, d: Delivery)
    ensures SentFor(recorded + {d}, a) == if d.alert == a then SentFor(recorded, a) + {d.sub} else SentFor(recorded, a)
  {
    assert forall s :: s in SentFor(recorded, a) <==> Delivery(a, s) in recorded;
    assert forall s :: s in SentFor(recorded + {d}, a) <==> Delivery(a, s) in recorded + {d};
  }

  lemma SendStep(cfg: Config, w: World, e: Event)
    requires Sound(cfg, w) && Enabled(w, e) && e.SendNext?
    ensures Sound(cfg, Next(cfg, w, e))
  {
    var v, t := Next(cfg, w, e), w.rounds[e.alert];
    assert RoundSound(w, e.alert, t);
    forall a | a in v.rounds ensures RoundSound(v, a, v.rounds[a]) {
      assert RoundSound(w, a, w.rounds[a]);
      SentForAdds(w.recorded, a, Delivery(e.alert, t.recipients[t.next].sub));
    }
    forall a | 0 <= a < |v.rows| ensures RowSound(cfg, v, a) { assert RowSound(cfg, w, a); }
  }

  lemma EndStep(cfg: Config, w: World, a: AlertId, row: Row, written: bool)
    requires Sound(cfg, w) && a in w.rounds
    requires written ==> row.attempts == w.rows[a].attempts + 1 && (row.status == Pending ==> row.attempts < cfg.Max())
    ensures Sound(cfg, End(w, a, row, written))
  {
    var v := End(w, a, row, written);
    assert RoundSound(w, a, w.rounds[a]);
    forall b | b in v.rounds ensures RoundSound(v, b, v.rounds[b]) { assert RoundSound(w, b, w.rounds[b]); }
    forall b | 0 <= b < |v.rows| ensures RowSound(cfg, v, b) { assert RowSound(cfg, w, b); }
  }

  lemma OpenStep(cfg: Config, w: World, e: Event)
    requires Sound(cfg, w) && Enabled(w, e) && (e.Insert? || e.Begin?)
    ensures Sound(cfg, Next(cfg, w, e))
  {
    var v := Next(cfg, w, e);
    forall a | a in v.rounds ensures RoundSound(v, a, v.rounds[a]) {
      if a in w.rounds { assert RoundSound(w, a, w.rounds[a]); }
    }
    forall a | 0 <= a < |v.rows| ensures RowSound(cfg, v, a) {
      if a < |w.rows| { assert RowSound(cfg, w, a); }
    }
  }

  lemma SoundStep(cfg: Config, w: World, e: Event)
    requires Sound(cfg, w) && Enabled(w, e)
    ensures Sound(cfg, Next(cfg, w, e))
  {
    match e
    case Insert(_) => OpenStep(cfg, w, e);
    case Begin(_, _, _) => OpenStep(cfg, w, e);
    case SendNext(_, _) => SendStep(cfg, w, e);
    case Finish(a, now, written) =>
      var t := w.rounds[a];
      assert RoundSound(w, a, t);
      EndStep(cfg, w, a, Outcome(cfg, t.row, t.sent0, t.progress, t.recipients, now), written);
    case Panic(a, now, written) =>
      assert RoundSound(w, a, w.rounds[a]);
      EndStep(cfg, w, a, PanicOutcome(cfg, w.rounds[a].row, w.rounds[a].progress, now), written);
    case Abandon(a) => EndStep(cfg, w, a, w.rows[a], false);
  }

  predicate Initial(w: World) {
    w == World([], {}, map[], [], [])
  }

  ghost predicate StepAt(cfg: Config, ws: seq<World>, es: seq<Event>, i: nat)
    requires i < |es| < |ws|
  {
    Shaped(ws[i]) && Enabled(ws[i], es[i]) && ws[i + 1] == Next(cfg, ws[i], es[i])
  }

  ghost predicate Run(cfg: Config, ws: seq<World>, es: seq<Event>) {
    && |ws| == |es| + 1
    && Initial(ws[0])
    && forall i {:trigger StepAt(cfg, ws, es, i)} :: 0 <= i < |es| ==> StepAt(cfg, ws, es, i)
  }

  lemma {:induction false} SoundAlways(cfg: Config, ws: seq<World>, es: seq<Event>, i: nat)
    requires Run(cfg, ws, es) && i < |ws|
    ensures Sound(cfg, ws[i])
  {
    if i > 0 {
      SoundAlways(cfg, ws, es, i - 1);
      assert StepAt(cfg, ws, es, i - 1);
      SoundStep(cfg, ws[i - 1], es[i - 1]);
    }
  }

  /** The budget: send rounds never outnumber maxAttempts by more than the rounds
      that ended with nothing written; a pending row has an attempt left, and a
      round in flight is always for a pending row. */
  lemma SendRoundsAreBounded(cfg: Config, ws: seq<World>, es: seq<Event>, i: nat, a: AlertId)
    requires Run(cfg, ws, es) && i < |ws| && a < |ws[i].rows|
    ensures Shaped(ws[i])
    ensures ws[i].began[a] <= cfg.Max() + ws[i].lost[a]
    ensures ws[i].rows[a].status == Pending ==> ws[i].rows[a].attempts < cfg.Max()
    ensures a in ws[i].rounds ==> ws[i].rows[a].status == Pending
  {
    SoundAlways(cfg, ws, es, i);
    assert RowSound(cfg, ws[i], a);
    if a in ws[i].rounds { assert RoundSound(ws[i], a, ws[i].rounds[a]); }
  }

  lemma RowStep(cfg: Config, w: World, e: Event, a: AlertId)
    requires Sound(cfg, w) && Enabled(w, e) && a < |w.rows|
    ensures var v := Next(cfg, w, e);
      && a < |v.rows| && FlagsRise(w.rows[a], v.rows[a]) && w.recorded <= v.recorded
      && (w.rows[a].status != Pending ==> v.rows[a] == w.rows[a] && v.began[a] == w.began[a])
  {
    if a in w.rounds { assert RoundSound(w, a, w.rounds[a]); }
  }

  /** A finished row is never sent for and never rewritten; flags only rise. */
  lemma {:induction false} TerminalRowsStay(cfg: Config, ws: seq<World>, es: seq<Event>, i: nat, j: nat, a: AlertId)
    requires Run(cfg, ws, es) && i <= j < |ws| && a < |ws[i].rows|
    ensures a < |ws[j].rows| && a < |ws[i].began| && a < |ws[j].began|
    ensures FlagsRise(ws[i].rows[a], ws[j].rows[a]) && ws[i].recorded <= ws[j].recorded
    ensures ws[i].rows[a].status != Pending ==> ws[j].rows[a] == ws[i].rows[a] && ws[j].began[a] == ws[i].began[a]
  {
    SoundAlways(cfg, ws, es, i);
    if i < j {
      TerminalRowsStay(cfg, ws, es, i, j - 1, a);
      SoundAlways(cfg, ws, es, j - 1);
      assert StepAt(cfg, ws, es, j - 1);
      RowStep(cfg, ws[j - 1], es[j - 1], a);
      SoundStep(cfg, ws[j - 1], es[j - 1]);
    }
  }

  /** A webhook delivery on record at step i is never posted again. */
  lemma RecordedHookIsNeverReposted(cfg: Config, ws: seq<World>, es: seq<Event>, i: nat, j: nat, d: Delivery)
    requires Run(cfg, ws, es) && i <= j < |es| && d in ws[i].recorded
    ensures Posts(ws[j], es[j]) && es[j].alert == d.alert ==>
              ws[j].rounds[d.alert].recipients[ws[j].rounds[d.alert].next].sub != d.sub
  {
    RecordGrows(cfg, ws, es, i, j);
    SoundAlways(cfg, ws, es, j);
    if d.alert in ws[j].rounds {
      assert RoundSound(ws[j], d.alert, ws[j].rounds[d.alert]);
      assert d.sub in SentFor(ws[j].recorded, d.alert);
    }
  }

  lemma {:induction false} RecordGrows(cfg: Config, ws: seq<World>, es: seq<Event>, i: nat, j: nat)
    requires Run(cfg, ws, es) && i <= j < |ws|
    ensures ws[i].recorded <= ws[j].recorded
  {
    if i < j {
      RecordGrows(cfg, ws, es, i, j - 1);
      assert StepAt(cfg, ws, es, j - 1);
    }
  }

  // ----- Every mark was earned

  /** This event sends to a recipient of the channel, who takes it. */
  predicate Takes(w: World, e: Event, a: AlertId, c: Channel) {
    e.SendNext? && e.alert == a && Enabled(w, e) && e.result == Sent
    && var t := w.rounds[a]; var r := t.recipients[t.next];
       r.channel == c && !Skips(t.row, t.progress, r)
  }

  ghost predicate Earned(ws: seq<World>, es: seq<Event>, a: AlertId, c: Channel, i: nat)
    requires i <= |es| <= |ws|
  {
    exists m :: 0 <= m < i && Takes(ws[m], es[m], a, c)
  }

  /** The flags and marks a world shows for an alert. */
  predicate Shows(w: World, a: AlertId, c: Channel) {
    && a < |w.rows|
    && match c
       case Email => w.rows[a].email || (a in w.rounds && w.rounds[a].progress.email)
       case Telegram => w.rows[a].telegram || (a in w.rounds && w.rounds[a].progress.telegram)
       case Webhook => w.rows[a].webhook || SentFor(w.recorded, a) != {}
  }

  lemma ShowsStep(cfg: Config, w: World, e: Event, a: AlertId, c: Channel)
    requires Sound(cfg, w) && Enabled(w, e) && Shows(Next(cfg, w, e), a, c) && !Shows(w, a, c)
    ensures Takes(w, e, a, c)
  {
    if a in w.rounds { assert RoundSound(w, a, w.rounds[a]); }
    if e.SendNext? {
      var t := w.rounds[e.alert];
      SentForAdds(w.recorded, a, Delivery(e.alert, t.recipients[t.next].sub));
    }
  }

  /** Over every run: an alert's email or telegram flag, or the mark of a round in
      flight, was raised by a send of that alert on that channel that was taken; its
      webhook flag and record by a webhook post that was. */
  lemma {:induction false} MarksAreEarned(cfg: Config, ws: seq<World>, es: seq<Event>, i: nat, a: AlertId, c: Channel)
    requires Run(cfg, ws, es) && i <= |es| && Shows(ws[i], a, c)
    ensures Earned(ws, es, a, c, i)
  {
    if i > 0 {
      SoundAlways(cfg, ws, es, i - 1);
      assert StepAt(cfg, ws, es, i - 1);
      if Shows(ws[i - 1], a, c) {
        MarksAreEarned(cfg, ws, es, i - 1, a, c);
        var m :| 0 <= m < i - 1 && Takes(ws[m], es[m], a, c);
        assert Takes(ws[m], es[m], a, c);
      } else {
        ShowsStep(cfg, ws[i - 1], es[i - 1], a, c);
      }
    }
  }

  /** Step f ended the alert's last round: by then each of its recipients' channels had
      a send that was taken, and each webhook target was on record unless an earlier
      round had raised the webhook flag. */
  ghost predicate Settled(ws: seq<World>, es: seq<Event>, a: AlertId, f: nat)
    requires f < |es| <= |ws|
  {
    && es[f].Finish? && es[f].alert == a && a in ws[f].rounds && a < |ws[f].rows|
    && forall r :: r in ws[f].rounds[a].recipients ==>
         && Earned(ws, es, a, r.channel, f)
         && (r.channel == Webhook && !ws[f].rows[a].webhook ==> Delivery(a, r.sub) in ws[f].recorded)
  }

  lemma FinishSettles(cfg: Config, ws: seq<World>, es: seq<Event>, f: nat, a: AlertId)
    requires Run(cfg, ws, es) && f < |es| && es[f].Finish? && es[f].alert == a && a < |ws[f].rows|
    requires ws[f + 1].rows != ws[f].rows && a < |ws[f + 1].rows| && ws[f + 1].rows[a].status == Delivered
    ensures Settled(ws, es, a, f)
  {
    SoundAlways(cfg, ws, es, f);
    assert StepAt(cfg, ws, es, f);
    var t := ws[f].rounds[a];
    assert RoundSound(ws[f], a, t);
    assert AllDone(t.row, t.sent0, t.progress, t.recipients);
    forall r | r in t.recipients
      ensures Earned(ws, es, a, r.channel, f)
      ensures r.channel == Webhook && !ws[f].rows[a].webhook ==> Delivery(a, r.sub) in ws[f].recorded
    {
      var n :| 0 <= n < |t.recipients| && t.recipients[n] == r;
      if r.channel == Webhook && !t.row.webhook {
        assert r.sub in t.progress.sent;
        assert r.sub in SentFor(ws[f].recorded, a);
      }
      MarksAreEarned(cfg, ws, es, f, a, r.channel);
    }
  }

  /** Over every run, an alert reads delivered only after such a round. */
  lemma {:induction false} DeliveredWasEarned(cfg: Config, ws: seq<World>, es: seq<Event>, i: nat, a: AlertId)
    requires Run(cfg, ws, es) && i <= |es| && a < |ws[i].rows| && ws[i].rows[a].status == Delivered
    ensures exists f :: 0 <= f < i && Settled(ws, es, a, f)
  {
    var w, e := ws[i - 1], es[i - 1];
    SoundAlways(cfg, ws, es, i - 1);
    assert StepAt(cfg, ws, es, i - 1);
    if a < |w.rows| && w.rows[a].status == Delivered {
      DeliveredWasEarned(cfg, ws, es, i - 1, a);
    } else {
      FinishSettles(cfg, ws, es, i - 1, a);
    }
  }

  // ----- When an alert is dead

  /** This event ends a round of the alert and writes its row. */
  predicate EndsRound(e: Event, a: AlertId) {
    (e.Finish? || e.Panic?) && e.alert == a && e.written
  }

  function RoundsWritten(es: seq<Event>, a: AlertId, i: nat): nat
    requires i <= |es|
  {
    if i == 0 then 0 else RoundsWritten(es, a, i - 1) + (if EndsRound(es[i - 1], a) then 1 else 0)
  }

  /** How one event may change one row. */
  lemma RoundStep(cfg: Config, w: World, e: Event, a: AlertId)
    requires Sound(cfg, w) && Enabled(w, e) && a < |w.rows|
    ensures var was, now := w.rows[a], Next(cfg, w, e).rows[a];
      if EndsRound(e, a) then was.status == Pending && Settles(cfg, was, now, e.now)
      else now == was || (was.status == Pending && now == was.(status := Nobody))
  {
    if a in w.rounds {
      var t := w.rounds[a];
      assert RoundSound(w, a, t);
      if EndsRound(e, a) { RoundsSettle(cfg, t.row, t.sent0, t.progress, t.recipients, e.now); }
    }
  }

  /** A row's attempts are the rounds written for it, and it is dead only with all of
      them spent. */
  lemma {:induction false} AttemptsAreRounds(cfg: Config, ws: seq<World>, es: seq<Event>, i: nat, a: AlertId)
    requires Run(cfg, ws, es) && i <= |es|
    ensures a >= |ws[i].rows| ==> RoundsWritten(es, a, i) == 0
    ensures a < |ws[i].rows| ==>
              ws[i].rows[a].attempts == RoundsWritten(es, a, i)
              && (ws[i].rows[a].status == Dead ==> RoundsWritten(es, a, i) >= cfg.maxAttempts)
  {
    if i > 0 {
      AttemptsAreRounds(cfg, ws, es, i - 1, a);
      SoundAlways(cfg, ws, es, i - 1);
      assert StepAt(cfg, ws, es, i - 1);
      if a < |ws[i - 1].rows| { RoundStep(cfg, ws[i - 1], es[i - 1], a); }
    }
  }

  /** Over every run, an alert that was not delivered and has recipients reads dead
      exactly once maxAttempts rounds of it, or one if that is less, were written. */
  lemma DeadIffSpent(cfg: Config, ws: seq<World>, es: seq<Event>, i: nat, a: AlertId)
    requires Run(cfg, ws, es) && i <= |es| && a < |ws[i].rows|
    requires ws[i].rows[a].status == Pending || ws[i].rows[a].status == Dead
    ensures ws[i].rows[a].status == Dead <==>
              RoundsWritten(es, a, i) == if cfg.maxAttempts < 1 then 1 else cfg.maxAttempts
  {
    AttemptsAreRounds(cfg, ws, es, i, a);
    SoundAlways(cfg, ws, es, i);
    assert RowSound(cfg, ws[i], a);
    if ws[i].rows[a].status == Dead { DeadHasTried(cfg, ws, es, i, a); }
  }

  lemma {:induction false} DeadHasTried(cfg: Config, ws: seq<World>, es: seq<Event>, i: nat, a: AlertId)
    requires Run(cfg, ws, es) && i <= |es| && a < |ws[i].rows| && ws[i].rows[a].status == Dead
    ensures ws[i].rows[a].attempts >= 1
  {
    var w, e := ws[i - 1], es[i - 1];
    SoundAlways(cfg, ws, es, i - 1);
    assert StepAt(cfg, ws, es, i - 1);
    if a < |w.rows| {
      RoundStep(cfg, w, e, a);
      if w.rows[a].status == Dead { DeadHasTried(cfg, ws, es, i - 1, a); }
    }
  }

  /** Step m wrote the alert's last round so far, and this is when it is due again. */
  predicate DueSince(cfg: Config, es: seq<Event>, a: AlertId, m: nat, row: Row) {
    m < |es| && EndsRound(es[m], a)
    && row.due == es[m].now
                  + DelayFactor(row.attempts) * (if cfg.retryBase <= 0 then 60 else cfg.retryBase)
  }

  /** Over every run, a pending alert that was tried before is due the backoff for its
      failures after its last written round. */
  lemma {:induction false} RetryIsDue(cfg: Config, ws: seq<World>, es: seq<Event>, i: nat, a: AlertId)
    requires Run(cfg, ws, es) && i <= |es| && a < |ws[i].rows|
    requires ws[i].rows[a].status == Pending && ws[i].rows[a].attempts > 0
    ensures exists m :: 0 <= m < i && DueSince(cfg, es, a, m, ws[i].rows[a])
                        && RoundsWritten(es, a, m + 1) == RoundsWritten(es, a, i)
  {
    SoundAlways(cfg, ws, es, i - 1);
    assert StepAt(cfg, ws, es, i - 1);
    if a < |ws[i - 1].rows| { RoundStep(cfg, ws[i - 1], es[i - 1], a); }
    if EndsRound(es[i - 1], a) {
      assert DueSince(cfg, es, a, i - 1, ws[i].rows[a]);
    } else {
      RetryIsDue(cfg, ws, es, i - 1, a);
    }
  }

  // ----- A round in which everyone answers

  lemma Follow(cfg: Config, ws: seq<World>, es: seq<Event>, e: Event) returns (vs: seq<World>, fs: seq<Event>)
    requires Run(cfg, ws, es) && Enabled(ws[|es|], e)
    ensures Shaped(ws[|es|])
    ensures Run(cfg, vs, fs) && fs == es + [e] && ws <= vs && vs[|fs|] == Next(cfg, ws[|es|], e)
  {
    SoundAlways(cfg, ws, es, |es|);
    vs, fs := ws + [Next(cfg, ws[|es|], e)], es + [e];
    forall i | 0 <= i < |fs| ensures StepAt(cfg, vs, fs, i) {
      if i < |es| { assert StepAt(cfg, ws, es, i); }
    }
  }

  function Takens(n: nat): seq<Send> {
    seq(n, i => Sent)
  }

  function Sends(a: AlertId, n: nat): seq<Event> {
    seq(n, i => SendNext(a, Sent))
  }

  /** The round has n sends behind it, all taken. */
  predicate Halfway(w: World, a: AlertId, row: Row, rs: seq<Recipient>, sent0: set<SubId>, n: nat) {
    && n <= |rs| && a in w.rounds && a < |w.rows| && w.rows[a] == row
    && w.rounds[a] == Round(row, rs, sent0, n, Fold(row, Progress(false, false, sent0), rs[..n], Takens(n)))
  }

  lemma {:induction false} AllTake(cfg: Config, ws: seq<World>, es: seq<Event>, a: AlertId, row: Row,
                                   rs: seq<Recipient>, sent0: set<SubId>, n: nat)
    returns (vs: seq<World>, fs: seq<Event>)
    requires Run(cfg, ws, es) && n <= |rs| && Halfway(ws[|es|], a, row, rs, sent0, 0)
    ensures Run(cfg, vs, fs) && fs == es + Sends(a, n) && ws <= vs && Halfway(vs[|fs|], a, row, rs, sent0, n)
  {
    if n == 0 {
      vs, fs := ws, es;
    } else {
      vs, fs := AllTake(cfg, ws, es, a, row, rs, sent0, n - 1);
      vs, fs := Follow(cfg, vs, fs, SendNext(a, Sent));
      assert rs[..n][..n - 1] == rs[..n - 1] && Takens(n)[..n - 1] == Takens(n - 1);
      assert Sends(a, n) == Sends(a, n - 1) + [SendNext(a, Sent)];
    }
  }

  /** From every reachable state, a round of a pending alert nobody has in hand, in which
      every recipient takes its message and the outcome is written, delivers it exactly
      if telegram is not asked for, was done before, or has an address. */
  lemma SmoothRoundDelivers(cfg: Config, ws: seq<World>, es: seq<Event>, a: AlertId, rs: seq<Recipient>, now: Time)
    returns (vs: seq<World>, fs: seq<Event>)
    requires Run(cfg, ws, es) && a < |ws[|es|].rows| && ws[|es|].rows[a].status == Pending
    requires a !in ws[|es|].rounds && rs != []
    ensures Run(cfg, vs, fs) && ws <= vs
    ensures fs == es + [Begin(a, rs, true)] + Sends(a, |rs|) + [Finish(a, now, true)] && a < |vs[|fs|].rows|
    ensures vs[|fs|].rows[a].status == Delivered <==> TelegramCan(ws[|es|].rows[a], rs)
  {
    SoundAlways(cfg, ws, es, |es|);
    var row, sent0 := ws[|es|].rows[a], SentFor(ws[|es|].recorded, a);
    vs, fs := Follow(cfg, ws, es, Begin(a, rs, true));
    assert Halfway(vs[|fs|], a, row, rs, sent0, 0);
    vs, fs := AllTake(cfg, vs, fs, a, row, rs, sent0, |rs|);
    assert rs[..|rs|] == rs;
    AllReachedDelivers(cfg, row, sent0, rs, now);
    vs, fs := Follow(cfg, vs, fs, Finish(a, now, true));
  }

  lemma AllReachedDelivers(cfg: Config, row: Row, sent0: set<SubId>, rs: seq<Recipient>, now: Time)
    ensures var p := Fold(row, Progress(false, false, sent0), rs, Takens(|rs|));
      Outcome(cfg, row, sent0, p, rs, now).status == Delivered <==> TelegramCan(row, rs)
  {
    var ss := Takens(|rs|);
    DeliveredWasSent(cfg, row, sent0, rs, ss, now);
    if i :| 0 <= i < |rs| && rs[i].channel == Email { assert ss[i] == Sent; }
    if i :| 0 <= i < |rs| && rs[i].channel == Telegram && rs[i].addressed { assert ss[i] == Sent; }
    forall i | 0 <= i < |rs| && rs[i].channel == Webhook ensures ReachedHook(rs, ss, rs[i].sub) {
      assert ss[i] == Sent;
    }
  }

  // ----- The termination measure

  function Left(cfg: Config, r: Row): nat {
    if r.status == Pending && r.attempts < cfg.Max() then cfg.Max() - r.attempts else 0
  }

  function Budget(cfg: Config, rows: seq<Row>): nat {
    if rows == [] then 0 else Left(cfg, rows[0]) + Budget(cfg, rows[1..])
  }

  lemma {:induction false} BudgetUpdate(cfg: Config, rows: seq<Row>, a: nat, row: Row)
    requires a < |rows|
    ensures Budget(cfg, rows[a := row]) == Budget(cfg, rows) - Left(cfg, rows[a]) + Left(cfg, row)
  {
    if a == 0 {
      assert rows[a := row][1..] == rows[1..];
    } else {
      assert rows[a := row][1..] == rows[1..][a - 1 := row];
      BudgetUpdate(cfg, rows[1..], a - 1, row);
    }
  }

  predicate Writes(w: World, e: Event) {
    Enabled(w, e)
    && match e
       case Begin(a, recipients, written) => w.rows[a].status == Pending && recipients == [] && written
       case Finish(_, _, written) => written
       case Panic(_, _, written) => written
       case _ => false
  }

  /** Every written outcome spends budget, and only a new alert adds any. */
  lemma OutcomesSpendBudget(cfg: Config, w: World, e: Event)
    requires Sound(cfg, w) && Enabled(w, e) && !e.Insert?
    ensures var v := Next(cfg, w, e);
      if Writes(w, e) then Budget(cfg, v.rows) < Budget(cfg, w.rows) else v.rows == w.rows
  {
    var v := Next(cfg, w, e);
    if Writes(w, e) {
      var a := e.alert;
      if a in w.rounds { assert RoundSound(w, a, w.rounds[a]); }
      assert RowSound(cfg, w, a);
      BudgetUpdate(cfg, w.rows, a, v.rows[a]);
    }
  }

  /** Alerts inserted, and outcomes written, before state i of a run. */
  function Inserted(es: seq<Event>, i: nat): nat
    requires i <= |es|
  {
    if i == 0 then 0 else Inserted(es, i - 1) + (if es[i - 1].Insert? then 1 else 0)
  }

  function OutcomesWritten(ws: seq<World>, es: seq<Event>, i: nat): nat
    requires i <= |es| <= |ws|
  {
    if i == 0 then 0 else OutcomesWritten(ws, es, i - 1) + (if Writes(ws[i - 1], es[i - 1]) then 1 else 0)
  }

  lemma {:induction false} BudgetAppend(cfg: Config, rows: seq<Row>, row: Row)
    ensures Budget(cfg, rows + [row]) == Budget(cfg, rows) + Left(cfg, row)
  {
    if rows == [] {
      assert rows + [row] == [row] && [row][1..] == [];
    } else {
      assert (rows + [row])[1..] == rows[1..] + [row];
      BudgetAppend(cfg, rows[1..], row);
    }
  }

  lemma StepSpends(cfg: Config, w: World, e: Event)
    requires Sound(cfg, w) && Enabled(w, e)
    ensures (if Writes(w, e) then 1 else 0) + Budget(cfg, Next(cfg, w, e).rows) <=
              Budget(cfg, w.rows) + (if e.Insert? then cfg.Max() else 0)
  {
    if e.Insert? {
      BudgetAppend(cfg, w.rows, Row(Pending, 0, false, false, false, e.due));
    } else {
      OutcomesSpendBudget(cfg, w, e);
    }
  }

  /** maxAttempts for each alert inserted before state i. */
  function Allowance(max: nat, es: seq<Event>, i: nat): nat
    requires i <= |es|
  {
    if i == 0 then 0 else Allowance(max, es, i - 1) + (if es[i - 1].Insert? then max else 0)
  }

  lemma {:induction false} AllowanceIsAProduct(max: nat, es: seq<Event>, i: nat)
    requires i <= |es|
    ensures Allowance(max, es, i) == max * Inserted(es, i)
  {
    if i > 0 {
      AllowanceIsAProduct(max, es, i - 1);
      var n := Inserted(es, i - 1);
      assert max * (n + 1) == max * n + max;
    }
  }

  lemma {:induction false} SpendingStaysAllowed(cfg: Config, ws: seq<World>, es: seq<Event>, i: nat)
    requires Run(cfg, ws, es) && i <= |es|
    ensures OutcomesWritten(ws, es, i) + Budget(cfg, ws[i].rows) <= Allowance(cfg.Max(), es, i)
  {
    if i > 0 {
      SpendingStaysAllowed(cfg, ws, es, i - 1);
      SoundAlways(cfg, ws, es, i - 1);
      assert StepAt(cfg, ws, es, i - 1);
      StepSpends(cfg, ws[i - 1], es[i - 1]);
    }
  }

  /** Over a whole run, the outcomes written and the attempts still left never add up
      to more than maxAttempts for each alert inserted; so every run writes at most
      that many outcomes, and one that keeps writing ends with nothing pending. */
  lemma OutcomesAreBounded(cfg: Config, ws: seq<World>, es: seq<Event>, i: nat)
    requires Run(cfg, ws, es) && i <= |es|
    ensures OutcomesWritten(ws, es, i) + Budget(cfg, ws[i].rows) <= cfg.Max() * Inserted(es, i)
  {
    SpendingStaysAllowed(cfg, ws, es, i);
    AllowanceIsAProduct(cfg.Max(), es, i);
  }
}
