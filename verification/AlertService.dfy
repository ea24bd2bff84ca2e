/** Notifier.Dispatch and Notifier.Sweep. Sends may succeed, fail, succeed and go
    unrecorded, or panic; the outcome write may fail. */
module AlertService {
  import opened Prelude
  import opened AlertRules
  import opened AlertRuns

  const SWEEP_BATCH_LIMIT: nat := 100

  datatype Needs = Needs(email: bool, telegram: bool, hook: bool)

  predicate Needed(row: Row, sent: set<SubId>, rs: seq<Recipient>, n: Needs) {
    && (n.email <==> Has(rs, Email) && !row.email)
    && (n.telegram <==> Has(rs, Telegram) && !row.telegram)
    && (n.hook <==> NeedsHook(row, sent, rs))
  }

  /** The channels a round needs: a matching subscription, not yet delivered. */
  method NeededChannels(row: Row, sent: set<SubId>, rs: seq<Recipient>) returns (n: Needs)
    ensures Needed(row, sent, rs, n)
  {
    n := Needs(false, false, false);
    for i := 0 to |rs|
      invariant n.email <==> Has(rs[..i], Email) && !row.email
      invariant n.telegram <==> Has(rs[..i], Telegram) && !row.telegram
      invariant n.hook <==> NeedsHook(row, sent, rs[..i])
    {
      assert forall j :: 0 <= j < i ==> rs[..i + 1][j] == rs[..i][j];
      assert rs[..i + 1][i] == rs[i];
      match rs[i].channel
      case Email => n := n.(email := n.email || !row.email);
      case Telegram => n := n.(telegram := n.telegram || !row.telegram);
      case Webhook => if !row.webhook && rs[i].sub !in sent { n := n.(hook := true); }
    }
    assert rs[..|rs|] == rs;
  }

  /** Counts the webhook targets and those on record. */
  method AllHooksDone(row: Row, p: Progress, rs: seq<Recipient>) returns (done: bool)
    ensures done == HooksDone(row, p, rs)
  {
    var targets, doneN := 0, 0;
    for i := 0 to |rs|
      invariant 0 <= doneN <= targets
      invariant targets > 0 <==> exists j :: 0 <= j < i && rs[j].channel == Webhook
      invariant doneN == targets <==>
        forall j :: 0 <= j < i && rs[j].channel == Webhook ==> rs[j].sub in p.sent || row.webhook
    {
      if rs[i].channel != Webhook { continue; }
      targets := targets + 1;
      if rs[i].sub in p.sent || row.webhook {
        doneN := doneN + 1;
      }
    }
    done := targets > 0 && doneN == targets;
  }

  /** A message that reached a subscription on its channel. */
  datatype Message = Message(alert: AlertId, sub: SubId, channel: Channel)

  /** Some message after the first n is the alert's on that channel. */
  predicate TakenSince(taken: seq<Message>, n: nat, a: AlertId, c: Channel) {
    exists i :: n <= i < |taken| && taken[i].alert == a && taken[i].channel == c
  }

  /** The same, for one webhook subscription. */
  predicate HookTakenSince(taken: seq<Message>, n: nat, a: AlertId, sub: SubId) {
    exists i :: n <= i < |taken| && taken[i] == Message(a, sub, Webhook)
  }

  lemma TakenSnoc(taken: seq<Message>, m: Message, n: nat, a: AlertId, c: Channel)
    requires n <= |taken|
    ensures TakenSince(taken + [m], n, a, c) <==> TakenSince(taken, n, a, c) || (m.alert == a && m.channel == c)
    ensures forall s :: HookTakenSince(taken + [m], n, a, s) <==>
      HookTakenSince(taken, n, a, s) || m == Message(a, s, Webhook)
  {
    assert (taken + [m])[|taken|] == m;
    forall i | n <= i < |taken| ensures (taken + [m])[i] == taken[i] {}
  }

  /** What entitles a written row to its flags and status, given what was taken after
      the first n messages. */
  predicate Warranted(was: Row, now: Row, a: AlertId, rs: seq<Recipient>, recorded: set<Delivery>, taken: seq<Message>,
                      n: nat) {
    && (now.email <==> was.email || TakenSince(taken, n, a, Email))
    && (now.telegram <==> was.telegram || TakenSince(taken, n, a, Telegram))
    && (now.status == Delivered ==>
          && (Has(rs, Email) ==> now.email) && (Has(rs, Telegram) ==> now.telegram)
          && forall i :: 0 <= i < |rs| && rs[i].channel == Webhook ==>
            was.webhook || Delivery(a, rs[i].sub) in recorded)
  }

  /** This recipient's channel came through: by a flag or mark the row had, by one of
      the round, or there is nowhere to send to. */
  predicate Came(row: Row, p: Progress, r: Recipient) {
    match r.channel
    case Email => row.email || p.email
    case Telegram => row.telegram || p.telegram || !r.addressed
    case Webhook => row.webhook || r.sub in p.sent
  }

  predicate Grows(p: Progress, q: Progress) {
    (p.email ==> q.email) && (p.telegram ==> q.telegram) && p.sent <= q.sent
  }

  /** A round whose every recipient came through delivers exactly if telegram could. */
  lemma CameDelivers(cfg: Config, row: Row, sent0: set<SubId>, rs: seq<Recipient>, ss: seq<Send>, now: Time)
    requires |rs| == |ss|
    requires var p := Fold(row, Progress(false, false, sent0), rs, ss);
      forall i :: 0 <= i < |rs| ==> Came(row, p, rs[i])
    ensures Outcome(cfg, row, sent0, Fold(row, Progress(false, false, sent0), rs, ss), rs, now).status == Delivered
            <==> TelegramCan(row, rs)
  {
    var p0 := Progress(false, false, sent0);
    var p := Fold(row, p0, rs, ss);
    DeliveredWasSent(cfg, row, sent0, rs, ss, now);
    MarksAreSends(row, p0, rs, ss);
    if Has(rs, Telegram) && !row.telegram && TelegramCan(row, rs) {
      var i :| 0 <= i < |rs| && rs[i].channel == Telegram && rs[i].addressed;
      assert Came(row, p, rs[i]);
    }
    if i :| 0 <= i < |rs| && rs[i].channel == Email { assert Came(row, p, rs[i]); }
  }

  lemma OutcomeIsWarranted(cfg: Config, was: Row, sent0: set<SubId>, p: Progress, a: AlertId, rs: seq<Recipient>,
                           now: Time, recorded: set<Delivery>, taken: seq<Message>, n: nat)
    requires sent0 <= p.sent == SentFor(recorded, a)
    requires p.email <==> TakenSince(taken, n, a, Email)
    requires p.telegram <==> TakenSince(taken, n, a, Telegram)
    ensures Warranted(was, Outcome(cfg, was, sent0, p, rs, now), a, rs, recorded, taken, n)
    ensures Warranted(was, PanicOutcome(cfg, was, p, now), a, rs, recorded, taken, n)
  {
    DeliveredIffEveryChannel(cfg, was, sent0, p, rs, now);
    assert forall s :: s in SentFor(recorded, a) ==> Delivery(a, s) in recorded;
  }

  class Notifier {
    const cfg: Config
    var rows: seq<Row>
    var recorded: set<Delivery>
    var inflight: set<AlertId>
    /** Webhook posts made, and messages a recipient took, in order. */
    ghost var posts: seq<Delivery>
    ghost var taken: seq<Message>
    /** How often the surroundings let a dispatch down: a read, a write or a payload that
        failed, a panic; and how many messages their recipients refused. */
    ghost var faults: nat
    ghost var refusals: nat

    constructor (cfg: Config)
      ensures this.cfg == cfg && rows == [] && recorded == {} && inflight == {} && posts == [] && taken == []
      ensures faults == refusals == 0
    {
      this.cfg, rows, recorded, inflight, posts, taken := cfg, [], {}, {}, [], [];
      faults, refusals := 0, 0;
    }

    /** One thing outside the notifier's hands. */
    method Fails() returns (f: bool)
      modifies `faults
      ensures faults == if f then old(faults) + 1 else old(faults)
    {
      f := *;
      if f { faults := faults + 1; }
    }

    method Claim(a: AlertId) returns (ok: bool)
      modifies `inflight
      ensures ok <==> a !in old(inflight)
      ensures inflight == old(inflight) + {a}
    {
      ok := a !in inflight;
      inflight := inflight + {a};
    }

    method Release(a: AlertId)
      modifies `inflight
      ensures inflight == old(inflight) - {a}
    {
      inflight := inflight - {a};
    }

    /** Persists one run's outcome, or fails and leaves the row as it was. */
    method RecordOutcome(a: AlertId, row: Row) returns (written: bool)
      requires a < |rows|
      modifies `rows, `faults
      ensures rows == if written then old(rows)[a := row] else old(rows)
      ensures faults == if written then old(faults) else old(faults) + 1
    {
      var failed := Fails();
      written := !failed;
      if written { rows := rows[a := row]; }
    }

    /** One email or telegram message, which its recipient may take or refuse. */
    method SendMessage(a: AlertId, r: Recipient) returns (ok: bool)
      modifies `taken, `refusals
      ensures taken == if ok then old(taken) + [Message(a, r.sub, r.channel)] else old(taken)
      ensures refusals == if ok then old(refusals) else old(refusals) + 1
    {
      ok := *;
      if ok { taken := taken + [Message(a, r.sub, r.channel)]; } else { refusals := refusals + 1; }
    }

    /** One webhook post. */
    method SendWebhook(a: AlertId, r: Recipient) returns (ok: bool)
      modifies `taken, `posts, `refusals
      ensures posts == old(posts) + [Delivery(a, r.sub)]
      ensures refusals == if ok then old(refusals) else old(refusals) + 1
      ensures taken == if ok then old(taken) + [Message(a, r.sub, r.channel)] else old(taken)
    {
      posts := posts + [Delivery(a, r.sub)];
      ok := SendMessage(a, r);
    }

    /** Writes a delivered webhook down, or fails to. */
    method MarkWebhookSent(a: AlertId, sub: SubId) returns (ok: bool)
      modifies `recorded, `faults
      ensures recorded == if ok then old(recorded) + {Delivery(a, sub)} else old(recorded)
      ensures faults == if ok then old(faults) else old(faults) + 1
    {
      var failed := Fails();
      ok := !failed;
      if ok { recorded := recorded + {Delivery(a, sub)}; }
    }

    /** One recipient's turn in the send loop, by channel. */
    method SendOne(a: AlertId, row: Row, p: Progress, r: Recipient) returns (q: Progress, ghost s: Send)
      requires p.sent == SentFor(recorded, a)
      modifies `recorded, `posts, `taken, `faults, `refusals
      ensures faults >= old(faults) && refusals >= old(refusals)
      // With nothing in the way, this recipient's channel came through.
      ensures faults == old(faults) && refusals == old(refusals) ==> Came(row, q, r)
      ensures Grows(p, q)
      ensures q == After(row, p, r, s) && q.sent == SentFor(recorded, a)
      ensures recorded == old(recorded) || recorded == old(recorded) + {Delivery(a, r.sub)}
      ensures posts == old(posts)
        || (posts == old(posts) + [Delivery(a, r.sub)] && Delivery(a, r.sub) !in old(recorded))
      ensures taken == old(taken) || taken == old(taken) + [Message(a, r.sub, r.channel)]
      // A mark appears exactly when the message was taken, a webhook's once it is written down too.
      ensures q.email == (p.email || (taken != old(taken) && r.channel == Email))
      ensures q.telegram == (p.telegram || (taken != old(taken) && r.channel == Telegram))
      ensures recorded != old(recorded) ==> taken != old(taken) && r.channel == Webhook
    {
      q, s := p, Refused;
      match r.channel {
        case Email =>
          if row.email { return; }
          var ok := SendMessage(a, r);
          if !ok { return; }
          q, s := p.(email := true), Sent;
        case Telegram =>
          if row.telegram || !r.addressed { return; }
          var ok := SendMessage(a, r);
          if !ok { return; }
          q, s := p.(telegram := true), Sent;
        case Webhook =>
          if row.webhook || r.sub in p.sent { return; }
          assert Delivery(a, r.sub) in recorded ==> r.sub in SentFor(recorded, a);
          var ok := SendWebhook(a, r);
          if !ok { return; }
          SentForAdds(recorded, a, Delivery(a, r.sub));
          var written := MarkWebhookSent(a, r.sub);
          if !written { return p, Unrecorded; }
          q, s := p.(sent := p.sent + {r.sub}), Sent;
      }
    }

    /** The send loop. Stops early on a panic; otherwise every recipient had its turn.
        A channel is marked exactly when a message on it was taken in this round, and a
        webhook delivery is newly on record only if its own post was. */
    method SendAll(a: AlertId, row: Row, rs: seq<Recipient>)
      returns (p: Progress, panicked: bool, ghost sends: seq<Send>)
      modifies `recorded, `posts, `taken, `faults, `refusals
      ensures faults >= old(faults) && refusals >= old(refusals) && (panicked ==> faults > old(faults))
      // With nothing in the way, every recipient's channel came through.
      ensures faults == old(faults) && refusals == old(refusals) ==> forall i :: 0 <= i < |rs| ==> Came(row, p, rs[i])
      ensures |sends| <= |rs| && (!panicked ==> |sends| == |rs|)
      ensures p == Fold(row, Progress(false, false, SentFor(old(recorded), a)), rs[..|sends|], sends)
      ensures p.sent == SentFor(recorded, a) && old(recorded) <= recorded
      ensures forall d :: d in recorded && d.alert != a ==> d in old(recorded)
      ensures old(taken) <= taken
      ensures p.email <==> TakenSince(taken, |old(taken)|, a, Email)
      ensures p.telegram <==> TakenSince(taken, |old(taken)|, a, Telegram)
      ensures forall s :: Delivery(a, s) in recorded && Delivery(a, s) !in old(recorded) ==>
                HookTakenSince(taken, |old(taken)|, a, s)
      ensures old(posts) <= posts
      ensures forall i :: |old(posts)| <= i < |posts| ==> posts[i].alert == a && posts[i] !in old(recorded)
    {
      p, panicked, sends := Progress(false, false, set d | d in recorded && d.alert == a :: d.sub), false, [];
      for i := 0 to |rs|
        invariant |sends| == i && !panicked
        invariant faults >= old(faults) && refusals >= old(refusals)
        invariant faults == old(faults) && refusals == old(refusals) ==> forall j :: 0 <= j < i ==> Came(row, p, rs[j])
        invariant p == Fold(row, Progress(false, false, SentFor(old(recorded), a)), rs[..i], sends)
        invariant p.sent == SentFor(recorded, a) && old(recorded) <= recorded
        invariant forall d :: d in recorded && d.alert != a ==> d in old(recorded)
        invariant old(taken) <= taken
        invariant p.email <==> TakenSince(taken, |old(taken)|, a, Email)
        invariant p.telegram <==> TakenSince(taken, |old(taken)|, a, Telegram)
        invariant forall s :: Delivery(a, s) in recorded && Delivery(a, s) !in old(recorded) ==>
                    HookTakenSince(taken, |old(taken)|, a, s)
        invariant old(posts) <= posts
        invariant forall j :: |old(posts)| <= j < |posts| ==> posts[j].alert == a && posts[j] !in old(recorded)
      {
        var panics := Fails();
        if panics { return p, true, sends; }
        TakenSnoc(taken, Message(a, rs[i].sub, rs[i].channel), |old(taken)|, a, Email);
        TakenSnoc(taken, Message(a, rs[i].sub, rs[i].channel), |old(taken)|, a, Telegram);
        var q, s := SendOne(a, row, p, rs[i]);
        assert rs[..i + 1][..i] == rs[..i] && (sends + [s])[..i] == sends;
        p, sends := q, sends + [s];
      }
      assert rs[..|rs|] == rs;
    }

    /** One whole round of an alert: claim, load, send, settle, release.
        `loaded`: the row, recipients and webhook record could be read. */
    method Dispatch(a: AlertId, rs: seq<Recipient>, loaded: bool, now: Time)
      returns (written: bool, ghost sends: seq<Send>, ghost panicked: bool)
      requires a < |rows|
      modifies `rows, `recorded, `inflight, `posts, `taken, `faults, `refusals
      ensures inflight == old(inflight)
      ensures faults >= old(faults) && refusals >= old(refusals) && |rows| == |old(rows)|
      ensures !written ==> rows == old(rows)
      // A pending alert nobody else has in hand gets its outcome unless something failed.
      ensures loaded && a !in old(inflight) && old(rows)[a].status == Pending && faults == old(faults) ==> written
      // With nothing in the way and every message taken, it is delivered exactly if telegram could be.
      ensures written && rs != [] && faults == old(faults) && refusals == old(refusals) ==>
                (rows[a].status == Delivered <==> TelegramCan(old(rows)[a], rs))
      // Undelivered, it is due again after the backoff, or dead with its last attempt.
      ensures written && rs != [] ==> Settles(cfg, old(rows)[a], rows[a], now)
      ensures written && rs == [] ==> rows[a] == old(rows)[a].(status := Nobody)
      ensures written ==> rows == old(rows)[a := rows[a]]
      ensures written ==> a !in old(inflight) && old(rows)[a].status == Pending && |sends| <= |rs|
      ensures written ==>
                var row := old(rows)[a];
                rows == old(rows)[a :=
                  if rs == [] then Recorded(row, false, false, false, Nobody, row.attempts, row.due)
                  else RoundRow(row, SentFor(old(recorded), a), rs, sends, panicked, now)]
      ensures written && !panicked ==> |sends| == |rs|
      // A flag is raised exactly by a message taken in this round, and a delivered row had
      // one, now or before, on each channel with a recipient, each webhook target its own.
      ensures old(taken) <= taken
      ensures written ==> Warranted(old(rows)[a], rows[a], a, rs, recorded, taken, |old(taken)|)
      ensures forall s :: Delivery(a, s) in recorded && Delivery(a, s) !in old(recorded) ==>
                HookTakenSince(taken, |old(taken)|, a, s)
      // Nothing is sent while the alert is claimed elsewhere or no longer pending.
      ensures a in old(inflight) || old(rows)[a].status != Pending ==>
                !written && recorded == old(recorded) && posts == old(posts) && taken == old(taken)
      // No recorded webhook is posted again.
      ensures old(posts) <= posts && old(recorded) <= recorded
      ensures forall i :: |old(posts)| <= i < |posts| ==> posts[i].alert == a && posts[i] !in old(recorded)
    {
      written, sends, panicked := false, [], false;
      var ok := a !in inflight;
      if !ok { return; }
      inflight := inflight + {a};
      if !loaded || rows[a].status != Pending {
        Release(a);
        return;
      }
      var row := rows[a];
      if |rs| == 0 {
        written := RecordOutcome(a, Recorded(row, false, false, false, Nobody, row.attempts, row.due));
        Release(a);
        return;
      }
      var sent0 := set d | d in recorded && d.alert == a :: d.sub;
      var needs := NeededChannels(row, sent0, rs);
      if needs.hook {
        var payloadFails := Fails();
        if payloadFails {
          Release(a);
          return;
        }
      }
      written, sends, panicked := SendRound(a, row, rs, needs, now);
      Release(a);
    }

    /** What a round of the row writes, given what its sends came to. */
    ghost function RoundRow(row: Row, sent0: set<SubId>, rs: seq<Recipient>, sends: seq<Send>, panicked: bool,
                            now: Time): Row
      requires |sends| <= |rs|
    {
      var p := Fold(row, Progress(false, false, sent0), rs[..|sends|], sends);
      if panicked then PanicOutcome(cfg, row, p, now) else Outcome(cfg, row, sent0, p, rs, now)
    }

    /** The sends of a round and the outcome it writes, a panic's included. */
    method SendRound(a: AlertId, row: Row, rs: seq<Recipient>, needs: Needs, now: Time)
      returns (written: bool, ghost sends: seq<Send>, ghost panicked: bool)
      requires a < |rows| && Needed(row, SentFor(recorded, a), rs, needs)
      modifies `rows, `recorded, `posts, `taken, `faults, `refusals
      ensures faults >= old(faults) && refusals >= old(refusals) && (faults == old(faults) ==> written)
      ensures |rows| == |old(rows)|
      ensures written && faults == old(faults) && refusals == old(refusals) ==>
                (rows[a].status == Delivered <==> TelegramCan(row, rs))
      ensures written ==> Settles(cfg, row, rows[a], now)
      ensures |sends| <= |rs| && (!panicked ==> |sends| == |rs|)
      ensures rows == if written then old(rows)[a := RoundRow(row, SentFor(old(recorded), a), rs, sends, panicked, now)]
                      else old(rows)
      ensures old(taken) <= taken
      ensures written ==> Warranted(row, rows[a], a, rs, recorded, taken, |old(taken)|)
      ensures forall s :: Delivery(a, s) in recorded && Delivery(a, s) !in old(recorded) ==>
                HookTakenSince(taken, |old(taken)|, a, s)
      ensures old(posts) <= posts && old(recorded) <= recorded
      ensures forall i :: |old(posts)| <= i < |posts| ==> posts[i].alert == a && posts[i] !in old(recorded)
    {
      ghost var sent0 := SentFor(recorded, a);
      var p, broke, results := SendAll(a, row, rs);
      sends, panicked := results, broke;
      assert sent0 <= SentFor(recorded, a);
      OutcomeIsWarranted(cfg, row, sent0, p, a, rs, now, recorded, taken, |old(taken)|);
      RoundsSettle(cfg, row, sent0, p, rs, now);
      if broke {
        written := RecordOutcome(a, PanicOutcome(cfg, row, p, now));
        return;
      }
      assert rs[..|rs|] == rs;
      if forall i :: 0 <= i < |rs| ==> Came(row, p, rs[i]) {
        CameDelivers(cfg, row, sent0, rs, sends, now);
      }
      written := Settle(a, row, p, rs, needs, now);
    }

    /** What a round that ran to its end comes to. */
    method Settle(a: AlertId, row: Row, p: Progress, rs: seq<Recipient>, needs: Needs, now: Time)
      returns (written: bool)
      requires a < |rows|
      modifies `rows, `faults
      ensures faults == if written then old(faults) else old(faults) + 1
      ensures forall sent0 :: Needed(row, sent0, rs, needs) ==>
                rows == if written then old(rows)[a := Outcome(cfg, row, sent0, p, rs, now)] else old(rows)
    {
      var attempts := row.attempts + 1;
      var hookOK := AllHooksDone(row, p, rs);
      var emailDone := !needs.email || p.email;
      var tgDone := !needs.telegram || p.telegram;
      var hookDone := !needs.hook || hookOK;
      if emailDone && tgDone && hookDone {
        written := RecordOutcome(a, Recorded(row, p.email, p.telegram, hookOK, Delivered, attempts, row.due));
      } else if attempts >= cfg.Max() {
        written := RecordOutcome(a, Recorded(row, p.email, p.telegram, hookOK, Dead, attempts, row.due));
      } else {
        var next := now + RetryBackoff(cfg.Base(), attempts);
        written := RecordOutcome(a, Recorded(row, p.email, p.telegram, hookOK, Pending, attempts, next));
      }
    }

    predicate Due(a: AlertId, now: Time)
      reads `rows
      requires a < |rows|
    {
      IsDue(rows[a], now)
    }

    /** Pending rows have an attempt left. */
    ghost predicate Valid()
      reads this
    {
      forall a :: 0 <= a < |rows| && rows[a].status == Pending ==> rows[a].attempts < cfg.Max()
    }

    /** Scans the first SWEEP_BATCH_LIMIT due rows. */
    method Scan(now: Time) returns (batch: seq<AlertId>)
      ensures forall a :: a in batch <==> 0 <= a < |rows| && Due(a, now) && DueBefore(rows, a, now) < SWEEP_BATCH_LIMIT
      ensures forall i, j :: 0 <= i < j < |batch| ==> batch[i] < batch[j]
    {
      batch := [];
      for a := 0 to |rows|
        invariant |batch| == DueBefore(rows, a, now) <= SWEEP_BATCH_LIMIT
        invariant forall b :: b in batch <==> 0 <= b < a && Due(b, now)
        invariant forall i :: 0 <= i < |batch| ==> batch[i] < a
        invariant forall b :: b in batch ==> DueBefore(rows, b, now) < SWEEP_BATCH_LIMIT
        invariant forall i, j :: 0 <= i < j < |batch| ==> batch[i] < batch[j]
      {
        if |batch| == SWEEP_BATCH_LIMIT {
          forall b | a <= b < |rows| ensures DueBefore(rows, b, now) >= SWEEP_BATCH_LIMIT {
            DueBeforeGrows(rows, a, b, now);
          }
          return;
        }
        if Due(a, now) { batch := batch + [a]; }
      }
    }

    /** One sweep: it takes the first hundred due rows but those in flight elsewhere, and
        leaves none of them due unless something failed. Every outcome it writes spends
        budget, so one whose writes all succeeded leaves strictly less. */
    method Sweep(recipients: AlertId -> seq<Recipient>, now: Time) returns (found: nat, written: nat)
      requires Valid()
      modifies `rows, `recorded, `inflight, `posts, `taken, `faults, `refusals
      ensures Valid() && inflight == old(inflight)
      ensures forall a :: a in old(inflight) && a < |old(rows)| ==> a < |rows| && rows[a] == old(rows)[a]
      ensures written <= found && Budget(cfg, rows) + written <= Budget(cfg, old(rows))
      ensures found == 0 <==> forall a :: 0 <= a < |old(rows)| ==> !old(Due(a, now))
      ensures |rows| == |old(rows)|
      ensures forall a :: 0 <= a < |rows| ==> FlagsRise(old(rows)[a], rows[a])
      ensures forall a :: 0 <= a < |rows| && !(old(Due(a, now)) && DueBefore(old(rows), a, now) < 100) ==>
                rows[a] == old(rows)[a]
      ensures faults >= old(faults)
      ensures faults == old(faults) ==>
                forall a :: 0 <= a < |rows| && DueBefore(old(rows), a, now) < 100 && a !in inflight ==> !Due(a, now)
    {
      var batch := Scan(now);
      found, written := |batch|, 0;
      if |batch| == 0 {
        NoneDue(rows, |rows|, now);
        return;
      }
      assert batch[0] in batch && old(Due(batch[0], now));
      ghost var was := rows;
      written := SweepBatch(batch, recipients, now);
      forall a | 0 <= a < |rows| && a !in batch ensures rows[a] == was[a] {}
    }

    method SweepBatch(batch: seq<AlertId>, recipients: AlertId -> seq<Recipient>, now: Time) returns (written: nat)
      requires Valid()
      requires forall i, j :: 0 <= i < j < |batch| ==> batch[i] < batch[j]
      requires forall a :: a in batch ==> a < |rows| && rows[a].status == Pending
      modifies `rows, `recorded, `inflight, `posts, `taken, `faults, `refusals
      ensures inflight == old(inflight) && written <= |batch| && faults >= old(faults)
      ensures SweptSoFar(cfg, old(rows), rows, batch, inflight, written, faults == old(faults), now)
    {
      written := 0;
      ghost var was := rows;
      for i := 0 to |batch|
        invariant inflight == old(inflight) && written <= i && faults >= old(faults)
        invariant SweptSoFar(cfg, was, rows, batch[..i], inflight, written, faults == old(faults), now)
      {
        ghost var before, smooth := rows, faults == old(faults);
        assert batch[..i + 1] == batch[..i] + [batch[i]];
        assert batch[i] in batch && batch[i] !in batch[..i];
        var done := Redispatch(batch[i], recipients(batch[i]), now);
        if done {
          SweptOne(cfg, was, before, batch[..i], inflight, batch[i], rows[batch[i]], written, smooth, now);
          written := written + 1;
        }
      }
      assert batch[..|batch|] == batch;
    }

    /** One alert of a sweep; an outcome it writes spends budget and is not due. */
    method Redispatch(a: AlertId, rs: seq<Recipient>, now: Time) returns (done: bool)
      requires a < |rows| && (rows[a].status == Pending ==> rows[a].attempts < cfg.Max())
      modifies `rows, `recorded, `inflight, `posts, `taken, `faults, `refusals
      ensures inflight == old(inflight) && |rows| == |old(rows)| && faults >= old(faults)
      ensures rows == if done then old(rows)[a := rows[a]] else old(rows)
      ensures done ==> a !in inflight && Spends(cfg, old(rows)[a], rows[a]) && !Due(a, now)
      ensures faults == old(faults) && a !in inflight && old(rows)[a].status == Pending ==> done
    {
      ghost var was := rows[a];
      var unread := Fails();
      var written, sends, panicked := Dispatch(a, rs, !unread, now);
      done := written;
      if done {
        RoundSpends(was, rs, sends, panicked, now);
        SettledIsNotDue(cfg, was, rows[a], now);
      }
    }

    /** Whatever a round comes to, its row's flags rise and its budget falls. */
    lemma RoundSpends(row: Row, rs: seq<Recipient>, sends: seq<Send>, panicked: bool, now: Time)
      requires |sends| <= |rs| && row.status == Pending && row.attempts < cfg.Max()
      ensures forall s0 :: Spends(cfg, row, RoundRow(row, s0, rs, sends, panicked, now))
      ensures Spends(cfg, row, Recorded(row, false, false, false, Nobody, row.attempts, row.due))
    {
    }
  }

  predicate IsDue(row: Row, now: Time) {
    row.status == Pending && row.due <= now
  }

  /** How many of the first n rows are due. */
  function DueBefore(rows: seq<Row>, n: nat, now: Time): nat
    requires n <= |rows|
  {
    if n == 0 then 0 else DueBefore(rows, n - 1, now) + (if IsDue(rows[n - 1], now) then 1 else 0)
  }

  lemma {:induction false} DueBeforeGrows(rows: seq<Row>, m: nat, n: nat, now: Time)
    requires m <= n <= |rows|
    ensures DueBefore(rows, m, now) <= DueBefore(rows, n, now)
  {
    if m < n { DueBeforeGrows(rows, m, n - 1, now); }
  }

  /** The first due row, if there is one, has none before it. */
  lemma {:induction false} NoneDue(rows: seq<Row>, n: nat, now: Time)
    requires n <= |rows| && forall a :: 0 <= a < n && IsDue(rows[a], now) ==> DueBefore(rows, a, now) > 0
    ensures DueBefore(rows, n, now) == 0 && forall a :: 0 <= a < n ==> !IsDue(rows[a], now)
  {
    if n > 0 { NoneDue(rows, n - 1, now); }
  }

  lemma SettledIsNotDue(cfg: Config, was: Row, now: Row, at: Time)
    ensures Settles(cfg, was, now, at) ==> !IsDue(now, at)
  {
    if Settles(cfg, was, now, at) { FactorIsPositive(now.attempts); }
  }

  lemma {:induction false} FactorIsPositive(failures: nat)
    ensures DelayFactor(failures) >= 1
  {
    if 1 < failures < 7 { FactorIsPositive(failures - 1); }
  }

  predicate Spends(cfg: Config, was: Row, now: Row) {
    FlagsRise(was, now) && Left(cfg, now) < Left(cfg, was) && (now.status == Pending ==> now.attempts < cfg.Max())
  }

  /** A sweep has dispatched the alerts of `done`: no other row changed nor one in flight
      elsewhere, each written outcome spent budget, and if nothing failed the rest of
      them are not due. */
  predicate SweptSoFar(cfg: Config, was: seq<Row>, now: seq<Row>, done: seq<AlertId>, busy: set<AlertId>,
                       written: nat, smooth: bool, at: Time) {
    && |now| == |was|
    && (forall a :: 0 <= a < |was| && (a !in done || a in busy) ==> now[a] == was[a])
    && (forall a :: 0 <= a < |was| ==> FlagsRise(was[a], now[a]))
    && (forall a :: 0 <= a < |now| && now[a].status == Pending ==> now[a].attempts < cfg.Max())
    && (smooth ==> forall a :: 0 <= a < |now| && a in done && a !in busy ==> !IsDue(now[a], at))
    && Budget(cfg, now) + written <= Budget(cfg, was)
  }

  lemma SweptOne(cfg: Config, was: seq<Row>, now: seq<Row>, done: seq<AlertId>, busy: set<AlertId>, a: AlertId,
                 row: Row, written: nat, smooth: bool, at: Time)
    requires SweptSoFar(cfg, was, now, done, busy, written, smooth, at)
    requires a < |now| && a !in busy && Spends(cfg, now[a], row) && !IsDue(row, at)
    ensures SweptSoFar(cfg, was, now[a := row], done + [a], busy, written + 1, smooth, at)
  {
    BudgetUpdate(cfg, now, a, row);
  }
}
