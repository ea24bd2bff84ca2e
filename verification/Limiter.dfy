/** The limiter itself, and the mail gate that spends hits on two of them. */
module Limiter {
  import opened Prelude
  import opened LimiterRules

  /** kept := h[:0]; kept = append(kept, t) for each live t. The result shares its
      backing with the list being read; the writes never overtake the reads. */
  method Compact(h: seq<Time>, cutoff: Time) returns (kept: seq<Time>)
    ensures kept == Live(h, cutoff)
  {
    var backing, n := h, 0;
    for i := 0 to |h|
      invariant n <= i && |backing| == |h|
      invariant backing[..n] == Live(h[..i], cutoff)
      invariant forall j :: i <= j < |h| ==> backing[j] == h[j]
    {
      assert h[..i + 1][..i] == h[..i];
      var t := backing[i];
      if t > cutoff {
        backing := backing[n := t];
        n := n + 1;
      }
    }
    assert h[..|h|] == h;
    return backing[..n];
  }

  class Limiter {
    const window: Time
    const max: int
    var hits: Hits

    constructor (window: Time, max: int)
      ensures this.window == window && this.max == max && hits == map[]
    {
      this.window, this.max, hits := window, max, map[];
    }

    /** Reports whether Allow would record a hit; records nothing. */
    method WouldAllow(key: string, now: Time) returns (ok: bool)
      ensures ok == Admits(hits, key, now, window, max)
    {
      var h, n := if key in hits then hits[key] else [], 0;
      for i := 0 to |h|
        invariant n == |Live(h[..i], now - window)|
      {
        assert h[..i + 1][..i] == h[..i];
        if h[i] > now - window { n := n + 1; }
      }
      assert h[..|h|] == h;
      return n < max;
    }

    /** Records a hit if the key is under its cap. */
    method Allow(key: string, now: Time) returns (ok: bool)
      modifies `hits
      ensures ok == Admits(old(hits), key, now, window, max)
      ensures hits == AllowHits(old(hits), key, now, window, max)
    {
      var kept := Compact(if key in hits then hits[key] else [], now - window);
      if |kept| >= max {
        hits := hits[key := kept];
        return false;
      }
      kept := kept + [now];
      hits := hits[key := kept];
      return true;
    }

    /** Trims every key and drops those left empty. `tick` is the ticker's time. */
    method Sweep(tick: Time) returns (deleted: nat)
      modifies `hits
      ensures hits == SweepHits(old(hits), tick, window)
      ensures deleted == |old(hits).Keys| - |hits.Keys|
    {
      ghost var was := hits;
      deleted := 0;
      var rest := hits.Keys;
      while rest != {}
        invariant SweptUpTo(was, hits, rest, tick - window)
        invariant deleted == |was.Keys| - |hits.Keys|
        decreases rest
      {
        var k :| k in rest;
        ghost var before := hits;
        SweepStep(was, before, rest, k, tick - window);
        var kept := Compact(hits[k], tick - window);
        if kept == [] {
          hits := hits - {k};
          deleted := deleted + 1;
        } else {
          hits := hits[k := kept];
        }
        assert hits == Trimmed(before, k, tick - window);
        rest := rest - {k};
      }
      SweepEnds(was, hits, tick, window);
    }
  }

  /** Every key outside `rest` has been trimmed, or dropped if nothing was left. */
  ghost predicate SweptUpTo(was: Hits, now: Hits, rest: set<string>, cutoff: Time) {
    && rest <= now.Keys <= was.Keys
    && (forall k :: k in rest ==> now[k] == was[k])
    && (forall k :: k in was && k !in rest ==> (k in now <==> Live(was[k], cutoff) != []))
    && (forall k :: k in now && k !in rest ==> now[k] == Live(was[k], cutoff))
  }

  /** The table after one key's turn. */
  ghost function Trimmed(now: Hits, k: string, cutoff: Time): Hits
    requires k in now
  {
    if Live(now[k], cutoff) == [] then now - {k} else now[k := Live(now[k], cutoff)]
  }

  lemma SweepStep(was: Hits, now: Hits, rest: set<string>, k: string, cutoff: Time)
    requires SweptUpTo(was, now, rest, cutoff) && k in rest
    ensures SweptUpTo(was, Trimmed(now, k, cutoff), rest - {k}, cutoff)
    ensures |Trimmed(now, k, cutoff).Keys| == |now.Keys| - (if k in Trimmed(now, k, cutoff) then 0 else 1)
  {
    var after := Trimmed(now, k, cutoff);
    assert after.Keys == if Live(now[k], cutoff) == [] then now.Keys - {k} else now.Keys;
  }

  lemma SweepEnds(was: Hits, now: Hits, tick: Time, window: Time)
    requires SweptUpTo(was, now, {}, tick - window)
    ensures now == SweepHits(was, tick, window)
  {
  }

  // ----- The mail gate

  const MAX_PER_IP: int := 5
  const MAX_PER_EMAIL: int := MAX_PER_IP * 4
  const WINDOW: Time := 3_600_000_000_000

  /** The list lost hits to trimming, if any, and gained none. */
  ghost predicate TrimOf(now: seq<Time>, was: seq<Time>) {
    now == was || exists cutoff :: now == Live(was, cutoff)
  }

  lemma TrimOfTrim(now: seq<Time>, mid: seq<Time>, was: seq<Time>)
    requires TrimOf(now, mid) && TrimOf(mid, was)
    ensures TrimOf(now, was)
  {
    if now != mid && mid != was {
      var b :| now == Live(mid, b);
      var a :| mid == Live(was, a);
      LiveTwice(was, a, b);
    }
  }

  ghost predicate NoneAdded(was: Hits, now: Hits) {
    forall k :: TrimOf(HitsOf(now, k), HitsOf(was, k))
  }

  /** The key gained the one hit, at the end; nobody gained another. */
  ghost predicate OneAdded(was: Hits, now: Hits, key: string, at: Time) {
    && (exists kept :: TrimOf(kept, HitsOf(was, key)) && HitsOf(now, key) == kept + [at])
    && forall k :: k != key ==> TrimOf(HitsOf(now, k), HitsOf(was, k))
  }

  lemma NoneAddedTwice(was: Hits, mid: Hits, now: Hits)
    requires NoneAdded(was, mid) && NoneAdded(mid, now)
    ensures NoneAdded(was, now)
  {
    forall k ensures TrimOf(HitsOf(now, k), HitsOf(was, k)) {
      TrimOfTrim(HitsOf(now, k), HitsOf(mid, k), HitsOf(was, k));
    }
  }

  lemma SweepAddsNone(hits: Hits, tick: Time, window: Time)
    ensures NoneAdded(hits, SweepHits(hits, tick, window))
  {
    forall k ensures TrimOf(HitsOf(SweepHits(hits, tick, window), k), HitsOf(hits, k)) {
      StepOfKey(hits, Sweep(tick), window, 0, k);
    }
  }

  /** What a call records, over a table that others may have trimmed meanwhile. */
  lemma CallAdds(was: Hits, hits: Hits, key: string, at: Time, window: Time, max: int)
    requires NoneAdded(was, hits)
    ensures var now := AllowHits(hits, key, at, window, max);
      if Admits(hits, key, at, window, max) then OneAdded(was, now, key, at) else NoneAdded(was, now)
  {
    var now, kept := AllowHits(hits, key, at, window, max), Live(HitsOf(hits, key), at - window);
    assert TrimOf(kept, HitsOf(hits, key)) && TrimOf(HitsOf(hits, key), HitsOf(was, key));
    TrimOfTrim(kept, HitsOf(hits, key), HitsOf(was, key));
    forall k | k != key ensures TrimOf(HitsOf(now, k), HitsOf(was, k)) {
      assert HitsOf(now, k) == HitsOf(hits, k);
    }
  }

  predicate NoneAhead(ticks: seq<Time>, now: Time) {
    forall i :: 0 <= i < |ticks| ==> ticks[i] <= now
  }

  /** Ticks never take an answer away, and add one only by running ahead of it. */
  ghost predicate AnswersAfter(was: Hits, now: Hits, ticks: seq<Time>, window: Time, max: int) {
    && (forall key, t :: Admits(was, key, t, window, max) ==> Admits(now, key, t, window, max))
    && (forall key, t :: NoneAhead(ticks, t) && Admits(now, key, t, window, max) ==> Admits(was, key, t, window, max))
  }

  lemma TickAnswers(was: Hits, mid: Hits, ticks: seq<Time>, tick: Time, window: Time, max: int)
    requires AnswersAfter(was, mid, ticks, window, max)
    ensures AnswersAfter(was, SweepHits(mid, tick, window), ticks + [tick], window, max)
  {
    var now := SweepHits(mid, tick, window);
    forall key, t | Admits(was, key, t, window, max) ensures Admits(now, key, t, window, max) {
      SweepChangesAnswerIff(mid, key, t, tick, window, max);
    }
    forall key, t | NoneAhead(ticks + [tick], t) && Admits(now, key, t, window, max)
      ensures Admits(was, key, t, window, max)
    {
      assert (ticks + [tick])[|ticks|] == tick;
      assert forall i :: 0 <= i < |ticks| ==> (ticks + [tick])[i] == ticks[i];
      SweepChangesAnswerIff(mid, key, t, tick, window, max);
    }
  }

  class Mail {
    const byEmail: Limiter
    const byIP: Limiter
    const toLower: string -> string

    constructor (toLower: string -> string)
      ensures fresh(byEmail) && fresh(byIP) && byEmail != byIP && this.toLower == toLower
      ensures byEmail.max == MAX_PER_EMAIL && byIP.max == MAX_PER_IP
      ensures byEmail.window == WINDOW && byIP.window == WINDOW && byEmail.hits == map[] && byIP.hits == map[]
    {
      this.toLower := toLower;
      byEmail := new Limiter(WINDOW, MAX_PER_EMAIL);
      byIP := new Limiter(WINDOW, MAX_PER_IP);
    }

    /** The sweeper's runs on one limiter, which the gate's own lock does not exclude. */
    method Sweeper(l: Limiter, ticks: seq<Time>)
      modifies l`hits
      ensures NoneAdded(old(l.hits), l.hits) && AnswersAfter(old(l.hits), l.hits, ticks, l.window, l.max)
    {
      ghost var was := l.hits;
      for i := 0 to |ticks|
        invariant NoneAdded(was, l.hits) && AnswersAfter(was, l.hits, ticks[..i], l.window, l.max)
      {
        assert ticks[..i + 1] == ticks[..i] + [ticks[i]];
        SweepAddsNone(l.hits, ticks[i], l.window);
        NoneAddedTwice(was, l.hits, SweepHits(l.hits, ticks[i], l.window));
        TickAnswers(was, l.hits, ticks[..i], ticks[i], l.window, l.max);
        var deleted := l.Sweep(ticks[i]);
      }
      assert ticks[..|ticks|] == ticks;
    }

    /** One request's three looks at the clock are t1 <= t2 <= t3; the sweepers may run
        before each. A refusal adds a hit nowhere; an acceptance adds exactly one to each
        limiter used. It is let through if both limiters had room, and, as long as no
        tick is ahead of the look it precedes, only then. The third refusal never
        happens: what WouldAllow saw still holds at t3. */
    method Allow(email: string, ip: string, t1: Time, t2: Time, t3: Time,
                 ticks1: seq<Time>, ticks2: seq<Time>, ticks3: seq<Time>) returns (ok: bool)
      requires byEmail != byIP && t1 <= t2 <= t3
      modifies byEmail`hits, byIP`hits
      ensures HadRoom(old(byIP.hits), old(byEmail.hits), email, ip, t1, t2) ==> ok
      ensures ok && NoneAhead(ticks1, t1) && NoneAhead(ticks2, t2) ==>
                HadRoom(old(byIP.hits), old(byEmail.hits), email, ip, t1, t2)
      ensures !ok ==> NoneAdded(old(byIP.hits), byIP.hits) && NoneAdded(old(byEmail.hits), byEmail.hits)
      ensures ok ==> OneAdded(old(byEmail.hits), byEmail.hits, "email:" + toLower(email), t2)
      ensures ok ==> if ip == "" then NoneAdded(old(byIP.hits), byIP.hits)
                     else OneAdded(old(byIP.hits), byIP.hits, "ip:" + ip, t3)
    {
      var emailKey, ipKey := "email:" + toLower(email), "ip:" + ip;
      ghost var ip0, email0 := byIP.hits, byEmail.hits;
      Sweeper(byIP, ticks1);
      if ip != "" {
        var may := byIP.WouldAllow(ipKey, t1);
        if !may { return false; }
      }
      Sweeper(byEmail, ticks2);
      CallAdds(email0, byEmail.hits, emailKey, t2, byEmail.window, byEmail.max);
      var byAddress := byEmail.Allow(emailKey, t2);
      if !byAddress { return false; }
      if ip != "" {
        ghost var looked := byIP.hits;
        Sweeper(byIP, ticks3);
        NoneAddedTwice(ip0, looked, byIP.hits);
        LaterStillAdmits(byIP.hits, byIP.hits, ipKey, t1, t3, t1, byIP.window, byIP.max);
        CallAdds(ip0, byIP.hits, ipKey, t3, byIP.window, byIP.max);
        var byClient := byIP.Allow(ipKey, t3);
        if !byClient {
          assert false;
          return false;
        }
      }
      return true;
    }

    /** Both limiters had room when they were looked at. */
    predicate HadRoom(ipHits: Hits, emailHits: Hits, email: string, ip: string, t1: Time, t2: Time) {
      && (ip == "" || Admits(ipHits, "ip:" + ip, t1, byIP.window, byIP.max))
      && Admits(emailHits, "email:" + toLower(email), t2, byEmail.window, byEmail.max)
    }
  }
}
