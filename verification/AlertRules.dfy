/** One alert's delivery: what a send does to a round in progress, and what the
    round comes to. */
module AlertRules {
  import opened Prelude

  type AlertId = nat
  type SubId = nat
  type Time = int

  datatype Channel = Email | Telegram | Webhook

  /** A matching subscription; `addressed`: a telegram chat id is on file. */
  datatype Recipient = Recipient(sub: SubId, channel: Channel, addressed: bool)

  datatype Status = Pending | Delivered | Nobody | Dead

  datatype Row = Row(status: Status, attempts: nat, email: bool, telegram: bool, webhook: bool, due: Time)

  /** A webhook delivery on record. */
  datatype Delivery = Delivery(alert: AlertId, sub: SubId)

  /** Unrecorded: the webhook took the post but writing that down failed. */
  datatype Send = Sent | Refused | Unrecorded

  datatype Progress = Progress(email: bool, telegram: bool, sent: set<SubId>)

  const MAX_DOUBLINGS: nat := 6

  /** base << shift. */
  function Shifted(base: nat, shift: nat): nat {
    if shift == 0 then base else 2 * Shifted(base, shift - 1)
  }

  function RetryBackoff(base: nat, attempts: int): nat {
    var shift := attempts - 1;
    Shifted(base, if shift > MAX_DOUBLINGS then MAX_DOUBLINGS else if shift < 0 then 0 else shift)
  }

  /** Each completed attempt doubles the delay until 64 times the base. */
  lemma BackoffDoublesThenStays(base: nat, attempts: nat)
    requires attempts >= 1
    ensures RetryBackoff(base, attempts + 1) ==
              if attempts <= MAX_DOUBLINGS then 2 * RetryBackoff(base, attempts) else RetryBackoff(base, attempts)
    ensures base <= RetryBackoff(base, attempts) <= 64 * base
  {
    forall n: nat | n <= 6 ensures base <= Shifted(base, n) <= 64 * base {
      assert Shifted(base, 0) == base && Shifted(base, 1) == 2 * base && Shifted(base, 2) == 4 * base;
      assert Shifted(base, 3) == 8 * base && Shifted(base, 4) == 16 * base;
      assert Shifted(base, 5) == 32 * base && Shifted(base, 6) == 64 * base;
    }
  }

  /** Nothing is sent to this recipient in this round. */
  predicate Skips(row: Row, p: Progress, r: Recipient) {
    match r.channel
    case Email => row.email
    case Telegram => row.telegram || !r.addressed
    case Webhook => row.webhook || r.sub in p.sent
  }

  function After(row: Row, p: Progress, r: Recipient, s: Send): Progress {
    if Skips(row, p, r) || s != Sent then p
    else match r.channel
      case Email => p.(email := true)
      case Telegram => p.(telegram := true)
      case Webhook => p.(sent := p.sent + {r.sub})
  }

  function Fold(row: Row, p: Progress, rs: seq<Recipient>, ss: seq<Send>): Progress
    requires |rs| == |ss|
  {
    if rs == [] then p
    else After(row, Fold(row, p, rs[..|rs| - 1], ss[..|ss| - 1]), rs[|rs| - 1], ss[|ss| - 1])
  }

  predicate Has(rs: seq<Recipient>, c: Channel) {
    exists i :: 0 <= i < |rs| && rs[i].channel == c
  }

  predicate NeedsHook(row: Row, sent: set<SubId>, rs: seq<Recipient>) {
    !row.webhook && exists i :: 0 <= i < |rs| && rs[i].channel == Webhook && rs[i].sub !in sent
  }

  /** Every webhook target is on record, and there is one. */
  predicate HooksDone(row: Row, p: Progress, rs: seq<Recipient>) {
    Has(rs, Webhook)
    && forall i :: 0 <= i < |rs| && rs[i].channel == Webhook ==> rs[i].sub in p.sent || row.webhook
  }

  /** Every channel the round needed came through. */
  predicate AllDone(row: Row, sent0: set<SubId>, p: Progress, rs: seq<Recipient>) {
    && (Has(rs, Email) && !row.email ==> p.email)
    && (Has(rs, Telegram) && !row.telegram ==> p.telegram)
    && (NeedsHook(row, sent0, rs) ==> HooksDone(row, p, rs))
  }

  datatype Config = Config(maxAttempts: int, retryBase: int) {
    function Max(): nat { if maxAttempts < 1 then 1 else maxAttempts }
    function Base(): nat { if retryBase <= 0 then 60 else retryBase }
  }

  /** recordOutcome: flags are ORed, never cleared. */
  function Recorded(row: Row, email: bool, telegram: bool, webhook: bool, status: Status, attempts: nat,
                    due: Time): Row {
    Row(status, attempts, row.email || email, row.telegram || telegram, row.webhook || webhook, due)
  }

  function Outcome(cfg: Config, row: Row, sent0: set<SubId>, p: Progress, rs: seq<Recipient>, now: Time): Row {
    var attempts := row.attempts + 1;
    var hookOK := HooksDone(row, p, rs);
    if AllDone(row, sent0, p, rs) then Recorded(row, p.email, p.telegram, hookOK, Delivered, attempts, row.due)
    else if attempts >= cfg.Max() then Recorded(row, p.email, p.telegram, hookOK, Dead, attempts, row.due)
    else Recorded(row, p.email, p.telegram, hookOK, Pending, attempts, now + RetryBackoff(cfg.Base(), attempts))
  }

  function PanicOutcome(cfg: Config, row: Row, p: Progress, now: Time): Row {
    var attempts := row.attempts + 1;
    if attempts >= cfg.Max() then Recorded(row, p.email, p.telegram, false, Dead, attempts, row.due)
    else Recorded(row, p.email, p.telegram, false, Pending, attempts, now + RetryBackoff(cfg.Base(), attempts))
  }

  /** 1 for the first failure, doubled by each one more, and 64 from the seventh on. */
  function DelayFactor(failures: nat): nat {
    if failures <= 1 then 1 else if failures >= 7 then 64 else 2 * DelayFactor(failures - 1)
  }

  /** What a written round at time `at` makes of a row: one attempt more, and unless it
      delivered, dead with the last attempt, or pending until the backoff has passed. */
  predicate Settles(cfg: Config, was: Row, now: Row, at: Time) {
    && now.attempts == was.attempts + 1
    && (now.status == Delivered
        || (was.attempts + 1 >= cfg.maxAttempts && now.status == Dead && now.due == was.due)
        || (was.attempts + 1 < cfg.maxAttempts && now.status == Pending
            && now.due == at + DelayFactor(now.attempts) * (if cfg.retryBase <= 0 then 60 else cfg.retryBase)))
  }

  lemma BackoffIsTheFactor(base: nat, failures: nat)
    requires failures >= 1
    ensures RetryBackoff(base, failures) == DelayFactor(failures) * base
  {
    if failures >= 2 {
      BackoffIsTheFactor(base, failures - 1);
      BackoffDoublesThenStays(base, failures - 1);
    }
  }

  /** Every round, a panic's included, either delivers or leaves the row due after the
      backoff, until its last attempt leaves it dead. */
  lemma RoundsSettle(cfg: Config, row: Row, sent0: set<SubId>, p: Progress, rs: seq<Recipient>, now: Time)
    ensures Settles(cfg, row, Outcome(cfg, row, sent0, p, rs, now), now)
    ensures Settles(cfg, row, PanicOutcome(cfg, row, p, now), now) && PanicOutcome(cfg, row, p, now).status != Delivered
  {
    BackoffIsTheFactor(cfg.Base(), row.attempts + 1);
  }

  predicate FlagsRise(r: Row, s: Row) {
    (r.email ==> s.email) && (r.telegram ==> s.telegram) && (r.webhook ==> s.webhook)
  }

  /** A row reads delivered exactly when every channel with a recipient carries
      its flag, and the webhook flag means every webhook target is on record. */
  lemma DeliveredIffEveryChannel(cfg: Config, row: Row, sent0: set<SubId>, p: Progress, rs: seq<Recipient>, now: Time)
    requires sent0 <= p.sent
    ensures var s := Outcome(cfg, row, sent0, p, rs, now);
      && (s.status == Delivered <==>
            (Has(rs, Email) ==> s.email) && (Has(rs, Telegram) ==> s.telegram) && (Has(rs, Webhook) ==> s.webhook))
      && (s.webhook && !row.webhook ==>
            forall i :: 0 <= i < |rs| && rs[i].channel == Webhook ==> rs[i].sub in p.sent)
      && FlagsRise(row, s)
  {
    if Has(rs, Webhook) && !NeedsHook(row, sent0, rs) {
      assert HooksDone(row, p, rs);
    }
  }

  /** Some recipient of the channel was sent to and took it. */
  predicate Reached(rs: seq<Recipient>, ss: seq<Send>, c: Channel)
    requires |rs| == |ss|
  {
    exists i :: 0 <= i < |rs| && rs[i].channel == c && ss[i] == Sent && (c == Telegram ==> rs[i].addressed)
  }

  predicate ReachedHook(rs: seq<Recipient>, ss: seq<Send>, sub: SubId)
    requires |rs| == |ss|
  {
    exists i :: 0 <= i < |rs| && rs[i].channel == Webhook && rs[i].sub == sub && ss[i] == Sent
  }

  lemma ReachedSnoc(rs: seq<Recipient>, ss: seq<Send>, c: Channel)
    requires |rs| == |ss| > 0
    ensures var r, s := rs[|rs| - 1], ss[|ss| - 1];
      Reached(rs, ss, c) <==> Reached(rs[..|rs| - 1], ss[..|ss| - 1], c)
                              || (r.channel == c && s == Sent && (c == Telegram ==> r.addressed))
  {
    var front, sends := rs[..|rs| - 1], ss[..|ss| - 1];
    if i :| 0 <= i < |front| && front[i].channel == c && sends[i] == Sent && (c == Telegram ==> front[i].addressed) {
      assert rs[i] == front[i] && ss[i] == sends[i];
    }
  }

  lemma ReachedHookSnoc(rs: seq<Recipient>, ss: seq<Send>, sub: SubId)
    requires |rs| == |ss| > 0
    ensures var r, s := rs[|rs| - 1], ss[|ss| - 1];
      ReachedHook(rs, ss, sub) <==> ReachedHook(rs[..|rs| - 1], ss[..|ss| - 1], sub)
                                    || (r.channel == Webhook && r.sub == sub && s == Sent)
  {
    var front, sends := rs[..|rs| - 1], ss[..|ss| - 1];
    if i :| 0 <= i < |front| && front[i].channel == Webhook && front[i].sub == sub && sends[i] == Sent {
      assert rs[i] == front[i] && ss[i] == sends[i];
    }
  }

  /** A mark the round makes is a message that was taken: email or telegram is marked
      exactly when the row lacked the flag and some recipient took it, a webhook
      exactly when its own post was taken and written down. */
  lemma {:induction false} MarksAreSends(row: Row, p: Progress, rs: seq<Recipient>, ss: seq<Send>)
    requires |rs| == |ss|
    ensures Fold(row, p, rs, ss).email <==> p.email || (!row.email && Reached(rs, ss, Email))
    ensures Fold(row, p, rs, ss).telegram <==> p.telegram || (!row.telegram && Reached(rs, ss, Telegram))
    ensures forall s :: s in Fold(row, p, rs, ss).sent <==> s in p.sent || (!row.webhook && ReachedHook(rs, ss, s))
  {
    if rs != [] {
      MarksAreSends(row, p, rs[..|rs| - 1], ss[..|ss| - 1]);
      ReachedSnoc(rs, ss, Email);
      ReachedSnoc(rs, ss, Telegram);
      forall s ensures s in Fold(row, p, rs, ss).sent <==> s in p.sent || (!row.webhook && ReachedHook(rs, ss, s)) {
        ReachedHookSnoc(rs, ss, s);
      }
    }
  }

  /** Telegram is not asked for, already flagged, or has somewhere to go. */
  predicate TelegramCan(row: Row, rs: seq<Recipient>) {
    Has(rs, Telegram) ==> row.telegram || exists i :: 0 <= i < |rs| && rs[i].channel == Telegram && rs[i].addressed
  }

  /** A round that delivers reached, now or by a flag the row already had, every
      channel with a recipient, and every webhook target unless the row had that flag. */
  lemma DeliveredWasSent(cfg: Config, row: Row, sent0: set<SubId>, rs: seq<Recipient>, ss: seq<Send>, now: Time)
    requires |rs| == |ss|
    ensures var s := Outcome(cfg, row, sent0, Fold(row, Progress(false, false, sent0), rs, ss), rs, now);
      && (s.email <==> row.email || Reached(rs, ss, Email))
      && (s.telegram <==> row.telegram || Reached(rs, ss, Telegram))
      && (s.status == Delivered <==>
            && (Has(rs, Email) ==> row.email || Reached(rs, ss, Email))
            && (Has(rs, Telegram) ==> row.telegram || Reached(rs, ss, Telegram))
            && (forall i :: 0 <= i < |rs| && rs[i].channel == Webhook ==>
                  row.webhook || rs[i].sub in sent0 || ReachedHook(rs, ss, rs[i].sub)))
  {
    var p := Fold(row, Progress(false, false, sent0), rs, ss);
    MarksAreSends(row, Progress(false, false, sent0), rs, ss);
    FoldGrows(row, Progress(false, false, sent0), rs, ss);
    DeliveredIffEveryChannel(cfg, row, sent0, p, rs, now);
  }

  lemma {:induction false} FoldGrows(row: Row, p: Progress, rs: seq<Recipient>, ss: seq<Send>)
    requires |rs| == |ss|
    ensures p.sent <= Fold(row, p, rs, ss).sent
  {
    if rs != [] { FoldGrows(row, p, rs[..|rs| - 1], ss[..|ss| - 1]); }
  }
}
