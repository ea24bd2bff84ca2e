/** The sliding window on values: what one call does, and what any run of calls
    and sweeps lets through. A call reads the clock before it takes the lock, so
    calls can take effect in another order than that of their readings. */
module LimiterRules {
  import opened Prelude

  type Time = int
  type Hits = map<string, seq<Time>>

  /** The timestamps after the cutoff, in order. */
  function Live(h: seq<Time>, cutoff: Time): seq<Time> {
    if h == [] then []
    else if h[|h| - 1] > cutoff then Live(h[..|h| - 1], cutoff) + [h[|h| - 1]]
    else Live(h[..|h| - 1], cutoff)
  }

  function HitsOf(hits: Hits, key: string): seq<Time> {
    if key in hits then hits[key] else []
  }

  predicate Admits(hits: Hits, key: string, now: Time, window: Time, max: int) {
    |Live(HitsOf(hits, key), now - window)| < max
  }

  function AllowHits(hits: Hits, key: string, now: Time, window: Time, max: int): Hits {
    var kept := Live(HitsOf(hits, key), now - window);
    hits[key := if |kept| < max then kept + [now] else kept]
  }

  function SweepHits(hits: Hits, now: Time, window: Time): Hits {
    map k | k in hits && Live(hits[k], now - window) != [] :: Live(hits[k], now - window)
  }

  function Later(a: Time, b: Time): Time {
    if a < b then b else a
  }

  lemma LiveAppend(h: seq<Time>, t: Time, cutoff: Time)
    ensures Live(h + [t], cutoff) == if t > cutoff then Live(h, cutoff) + [t] else Live(h, cutoff)
  {
    assert (h + [t])[..|h|] == h;
  }

  lemma {:induction false} LiveTwice(h: seq<Time>, a: Time, b: Time)
    ensures Live(Live(h, a), b) == Live(h, Later(a, b))
  {
    if h != [] {
      var front, t := h[..|h| - 1], h[|h| - 1];
      LiveTwice(front, a, b);
      LiveAppend(Live(front, a), t, b);
    }
  }

  lemma {:induction false} LiveIsShorter(h: seq<Time>, cutoff: Time)
    ensures |Live(h, cutoff)| <= |h|
  {
    if h != [] { LiveIsShorter(h[..|h| - 1], cutoff); }
  }

  lemma LiveShrinks(h: seq<Time>, a: Time, b: Time)
    requires a <= b
    ensures |Live(h, b)| <= |Live(h, a)|
  {
    LiveTwice(h, a, b);
    LiveIsShorter(Live(h, a), b);
  }

  // ----- Runs

  /** A call takes effect with the reading `at` it brought to the lock. */
  datatype Event = Allow(key: string, at: Time) | Sweep(at: Time)

  function Step(hits: Hits, e: Event, window: Time, max: int): Hits {
    if e.Allow? then AllowHits(hits, e.key, e.at, window, max) else SweepHits(hits, e.at, window)
  }

  function After(es: seq<Event>, window: Time, max: int): Hits {
    if es == [] then map[] else Step(After(es[..|es| - 1], window, max), es[|es| - 1], window, max)
  }

  /** One key's share of a step: whether it records a hit, and its list after it. */
  predicate Passes(h: seq<Time>, e: Event, window: Time, max: int, key: string) {
    e.Allow? && e.key == key && |Live(h, e.at - window)| < max
  }

  function StepOf(h: seq<Time>, e: Event, window: Time, max: int, key: string): seq<Time> {
    if e.Allow? && e.key != key then h
    else if Passes(h, e, window, max, key) then Live(h, e.at - window) + [e.at]
    else Live(h, e.at - window)
  }

  function AfterOf(es: seq<Event>, window: Time, max: int, key: string): seq<Time> {
    if es == [] then [] else StepOf(AfterOf(es[..|es| - 1], window, max, key), es[|es| - 1], window, max, key)
  }

  lemma StepOfKey(hits: Hits, e: Event, window: Time, max: int, key: string)
    ensures HitsOf(Step(hits, e, window, max), key) == StepOf(HitsOf(hits, key), e, window, max, key)
  {
  }

  /** No key sees another. */
  lemma {:induction false} KeysAreApart(es: seq<Event>, window: Time, max: int, key: string)
    ensures HitsOf(After(es, window, max), key) == AfterOf(es, window, max, key)
  {
    if es != [] {
      KeysAreApart(es[..|es| - 1], window, max, key);
      StepOfKey(After(es[..|es| - 1], window, max), es[|es| - 1], window, max, key);
    }
  }

  /** The readings of the key's calls that were let through, in lock order. */
  function Accepted(es: seq<Event>, window: Time, max: int, key: string): seq<Time> {
    if es == [] then []
    else
      var front, e := es[..|es| - 1], es[|es| - 1];
      if Passes(AfterOf(front, window, max, key), e, window, max, key)
      then Accepted(front, window, max, key) + [e.at] else Accepted(front, window, max, key)
  }

  predicate NoLaterThan(es: seq<Event>, now: Time) {
    forall i :: 0 <= i < |es| ==> es[i].at <= now
  }

  /** Nothing that took effect before a call has a reading more than `skew` ahead of
      the call's own. Zero is a lock that keeps the order of the clock. */
  predicate Skewed(es: seq<Event>, skew: nat) {
    es == []
    || (Skewed(es[..|es| - 1], skew)
        && (es[|es| - 1].Allow? ==> NoLaterThan(es[..|es| - 1], es[|es| - 1].at + skew)))
  }

  /** What a later question sees of a key's list after one step. */
  lemma StepSeen(h: seq<Time>, e: Event, window: Time, max: int, key: string, cutoff: Time)
    ensures Live(StepOf(h, e, window, max, key), cutoff) ==
              if e.Allow? && e.key != key then Live(h, cutoff)
              else if Passes(h, e, window, max, key) && e.at > cutoff then
                Live(h, Later(e.at - window, cutoff)) + [e.at]
              else Live(h, Later(e.at - window, cutoff))
  {
    LiveTwice(h, e.at - window, cutoff);
    LiveAppend(Live(h, e.at - window), e.at, cutoff);
  }

  /** The record after one step. */
  function Noted(log: seq<Time>, h: seq<Time>, e: Event, window: Time, max: int, key: string): seq<Time> {
    if Passes(h, e, window, max, key) then log + [e.at] else log
  }

  /** One step keeps a list as good as its record for a cutoff not yet trimmed past. */
  lemma StepKeepsRecord(h: seq<Time>, log: seq<Time>, e: Event, window: Time, max: int, key: string, cutoff: Time)
    requires Live(h, cutoff) == Live(log, cutoff) && e.at - window <= cutoff
    ensures Live(StepOf(h, e, window, max, key), cutoff) == Live(Noted(log, h, e, window, max, key), cutoff)
  {
    StepSeen(h, e, window, max, key, cutoff);
    LiveAppend(log, e.at, cutoff);
  }

  /** For any other cutoff it stays no richer. */
  lemma StepStaysWithin(h: seq<Time>, log: seq<Time>, e: Event, window: Time, max: int, key: string, cutoff: Time)
    requires |Live(h, cutoff)| <= |Live(log, cutoff)|
    ensures |Live(StepOf(h, e, window, max, key), cutoff)| <= |Live(Noted(log, h, e, window, max, key), cutoff)|
  {
    StepSeen(h, e, window, max, key, cutoff);
    LiveShrinks(h, cutoff, Later(e.at - window, cutoff));
    LiveAppend(log, e.at, cutoff);
  }

  /** A question whose cutoff no trim so far has passed is answered from what is
      stored as from the full record. */
  lemma {:induction false} StoreIsTheRecord(es: seq<Event>, window: Time, max: int, key: string, cutoff: Time)
    requires NoLaterThan(es, cutoff + window)
    ensures Live(AfterOf(es, window, max, key), cutoff) == Live(Accepted(es, window, max, key), cutoff)
  {
    if es != [] {
      var front, e := es[..|es| - 1], es[|es| - 1];
      assert e.at <= cutoff + window;
      StoreIsTheRecord(front, window, max, key, cutoff);
      StepKeepsRecord(AfterOf(front, window, max, key), Accepted(front, window, max, key), e, window, max, key, cutoff);
    }
  }

  /** Any other question sees at most what the record holds. */
  lemma {:induction false} StoreIsWithinTheRecord(es: seq<Event>, window: Time, max: int, key: string, cutoff: Time)
    ensures |Live(AfterOf(es, window, max, key), cutoff)| <= |Live(Accepted(es, window, max, key), cutoff)|
  {
    if es != [] {
      var front, e := es[..|es| - 1], es[|es| - 1];
      StoreIsWithinTheRecord(front, window, max, key, cutoff);
      StepStaysWithin(AfterOf(front, window, max, key), Accepted(front, window, max, key), e, window, max, key, cutoff);
    }
  }

  /** A call with fewer than max hits on record in the window that ends with it is let
      through; one that is let through has fewer than max in the window less the
      skew. Without skew, that is one exact condition, and sweeps have no say in it. */
  lemma AnswerIsTheRecord(es: seq<Event>, window: Time, max: int, key: string, now: Time, skew: nat)
    requires NoLaterThan(es, now + skew)
    ensures |Live(Accepted(es, window, max, key), now - window)| < max ==>
      Admits(After(es, window, max), key, now, window, max)
    ensures Admits(After(es, window, max), key, now, window, max) ==>
              |Live(Accepted(es, window, max, key), now + skew - window)| < max
  {
    var hits, log := After(es, window, max), Accepted(es, window, max, key);
    assert HitsOf(hits, key) == AfterOf(es, window, max, key) by { KeysAreApart(es, window, max, key); }
    assert |Live(HitsOf(hits, key), now - window)| <= |Live(log, now - window)| by {
      StoreIsWithinTheRecord(es, window, max, key, now - window);
    }
    assert Live(HitsOf(hits, key), now + skew - window) == Live(log, now + skew - window) by {
      StoreIsTheRecord(es, window, max, key, now + skew - window);
    }
    AnswerByRecord(hits, log, window, max, key, now, skew);
  }

  lemma AnswerByRecord(hits: Hits, log: seq<Time>, window: Time, max: int, key: string, now: Time, skew: nat)
    requires |Live(HitsOf(hits, key), now - window)| <= |Live(log, now - window)|
    requires Live(HitsOf(hits, key), now + skew - window) == Live(log, now + skew - window)
    ensures |Live(log, now - window)| < max ==> Admits(hits, key, now, window, max)
    ensures Admits(hits, key, now, window, max) ==> |Live(log, now + skew - window)| < max
  {
    LiveShrinks(HitsOf(hits, key), now - window, now + skew - window);
  }

  /** The j-th hit found fewer than max of those before it in the window less the skew. */
  predicate SpacedAt(log: seq<Time>, window: Time, max: int, skew: nat, j: nat)
    requires j < |log|
  {
    |Live(log[..j], log[j] + skew - window)| < max
  }

  lemma SpacedAtPrefix(log: seq<Time>, longer: seq<Time>, window: Time, max: int, skew: nat, j: nat)
    requires j < |log| && log <= longer
    ensures SpacedAt(longer, window, max, skew, j) == SpacedAt(log, window, max, skew, j)
  {
    assert longer[..j] == log[..j];
  }

  lemma {:induction false} AcceptedAreSpaced(es: seq<Event>, window: Time, max: int, key: string, skew: nat, j: nat)
    requires Skewed(es, skew) && j < |Accepted(es, window, max, key)|
    ensures SpacedAt(Accepted(es, window, max, key), window, max, skew, j)
  {
    var front, e := es[..|es| - 1], es[|es| - 1];
    var was, log := Accepted(front, window, max, key), Accepted(es, window, max, key);
    if j < |was| {
      AcceptedAreSpaced(front, window, max, key, skew, j);
      SpacedAtPrefix(was, log, window, max, skew, j);
    } else {
      KeysAreApart(front, window, max, key);
      AnswerIsTheRecord(front, window, max, key, e.at, skew);
      assert log[..j] == was && log[j] == e.at;
    }
  }

  /** How many of the readings lie at or after lo and before hi. */
  function CountWithin(log: seq<Time>, lo: Time, hi: Time): nat {
    if log == [] then 0
    else CountWithin(log[..|log| - 1], lo, hi) + (if lo <= log[|log| - 1] < hi then 1 else 0)
  }

  lemma {:induction false} WithinIsLive(log: seq<Time>, lo: Time, hi: Time, cutoff: Time)
    requires cutoff < lo
    ensures CountWithin(log, lo, hi) <= |Live(log, cutoff)|
  {
    if log != [] { WithinIsLive(log[..|log| - 1], lo, hi, cutoff); }
  }

  lemma {:induction false} SpacedLogIsBounded(log: seq<Time>, window: Time, max: int, skew: nat, lo: Time)
    requires forall j: nat {:trigger SpacedAt(log, window, max, skew, j)} :: j < |log| ==>
      SpacedAt(log, window, max, skew, j)
    ensures var n := CountWithin(log, lo, lo + window - skew); n == 0 || n <= max
  {
    if log != [] {
      var front, t := log[..|log| - 1], log[|log| - 1];
      forall j: nat | j < |front| ensures SpacedAt(front, window, max, skew, j) {
        assert SpacedAt(log, window, max, skew, j);
        SpacedAtPrefix(front, log, window, max, skew, j);
      }
      SpacedLogIsBounded(front, window, max, skew, lo);
      assert SpacedAt(log, window, max, skew, |front|);
      if lo <= t < lo + window - skew { WithinIsLive(front, lo, lo + window - skew, t + skew - window); }
    }
  }

  /** When no reading runs more than `skew` ahead of a later call's, any half-open
      stretch as long as the window less the skew lets through at most max calls of
      a key. With a lock that keeps the clock's order the stretch is the window. */
  lemma AtMostMaxPerWindow(es: seq<Event>, window: Time, max: int, key: string, skew: nat, lo: Time)
    requires Skewed(es, skew)
    ensures var n := CountWithin(Accepted(es, window, max, key), lo, lo + window - skew); n == 0 || n <= max
  {
    var log := Accepted(es, window, max, key);
    forall j: nat | j < |log| ensures SpacedAt(log, window, max, skew, j) {
      AcceptedAreSpaced(es, window, max, key, skew, j);
    }
    SpacedLogIsBounded(log, window, max, skew, lo);
  }

  // ----- Calls that reach the lock out of order

  lemma Snoc(es: seq<Event>, e: Event, window: Time, max: int, key: string)
    ensures AfterOf(es + [e], window, max, key) == StepOf(AfterOf(es, window, max, key), e, window, max, key)
    ensures Accepted(es + [e], window, max, key) ==
              Noted(Accepted(es, window, max, key), AfterOf(es, window, max, key), e, window, max, key)
  {
    assert (es + [e])[..|es + [e]| - 1] == es;
  }

  lemma CallStep(es: seq<Event>, at: Time, stored: seq<Time>, log: seq<Time>)
    requires AfterOf(es, 100, 2, "k") == stored && Accepted(es, 100, 2, "k") == log
    ensures var kept, now := Live(stored, at - 100), es + [Allow("k", at)];
      if |kept| < 2
      then AfterOf(now, 100, 2, "k") == kept + [at] && Accepted(now, 100, 2, "k") == log + [at]
      else AfterOf(now, 100, 2, "k") == kept && Accepted(now, 100, 2, "k") == log
  {
    Snoc(es, Allow("k", at), 100, 2, "k");
  }

  lemma LiveOfTwo(a: Time, b: Time, cutoff: Time)
    ensures Live([a], cutoff) == if a > cutoff then [a] else []
    ensures Live([a, b], cutoff) == if b > cutoff then Live([a], cutoff) + [b] else Live([a], cutoff)
  {
    assert [a][..0] == [] && [a, b][..1] == [a];
  }

  const ONE: seq<Event> := [Allow("k", 1)]
  const TWO: seq<Event> := ONE + [Allow("k", 1)]
  const THREE: seq<Event> := TWO + [Allow("k", 102)]
  const OUT_OF_ORDER: seq<Event> := THREE + [Allow("k", 100)]

  /** The clock never runs back, but the call that read 100 enters after the one that
      read 102: with a window of 100 and a cap of 2 all four calls pass, three of them
      in [1, 101). They are skewed by 2 and no less. */
  lemma OutOfOrderExceedsTheCap()
    ensures Accepted(OUT_OF_ORDER, 100, 2, "k") == [1, 1, 102, 100]
    ensures CountWithin([1, 1, 102, 100], 1, 1 + 100) == 3
    ensures forall skew: nat :: Skewed(OUT_OF_ORDER, skew) <==> skew >= 2
  {
    FirstThreePass();
    LiveOfTwo(102, 102, 0);
    CallStep(THREE, 100, [102], [1, 1, 102]);
    OutOfOrderCount();
    forall skew: nat { OutOfOrderSkew(skew); }
  }

  lemma OnePasses()
    ensures AfterOf(ONE, 100, 2, "k") == [1] == Accepted(ONE, 100, 2, "k")
  {
    CallStep([], 1, [], []);
    assert [] + [Allow("k", 1)] == ONE && Live([], 1 - 100) == [] && [] + [1] == [1];
  }

  lemma TwoPass()
    ensures AfterOf(TWO, 100, 2, "k") == [1, 1] == Accepted(TWO, 100, 2, "k")
  {
    OnePasses();
    LiveOfTwo(1, 1, 1 - 100);
    CallStep(ONE, 1, [1], [1]);
    assert [1] + [1] == [1, 1];
  }

  lemma FirstThreePass()
    ensures AfterOf(THREE, 100, 2, "k") == [102] && Accepted(THREE, 100, 2, "k") == [1, 1, 102]
  {
    TwoPass();
    LiveOfTwo(1, 1, 102 - 100);
    CallStep(TWO, 102, [1, 1], [1, 1]);
    assert [] + [102] == [102] && [1, 1] + [102] == [1, 1, 102];
  }

  lemma OutOfOrderCount()
    ensures CountWithin([1, 1, 102, 100], 1, 1 + 100) == 3
  {
    assert [1, 1, 102, 100][..3] == [1, 1, 102] && [1, 1, 102][..2] == [1, 1] && [1, 1][..1] == [1] && [1][..0] == [];
  }

  lemma SkewSnoc(es: seq<Event>, e: Event, skew: nat)
    ensures Skewed(es + [e], skew) <==> Skewed(es, skew) && (e.Allow? ==> NoLaterThan(es, e.at + skew))
  {
    assert (es + [e])[..|es + [e]| - 1] == es;
  }

  lemma OutOfOrderSkew(skew: nat)
    ensures Skewed(OUT_OF_ORDER, skew) <==> skew >= 2
  {
    SkewSnoc([], Allow("k", 1), skew);
    assert [] + [Allow("k", 1)] == ONE;
    SkewSnoc(ONE, Allow("k", 1), skew);
    SkewSnoc(TWO, Allow("k", 102), skew);
    SkewSnoc(THREE, Allow("k", 100), skew);
    assert NoLaterThan(THREE, 102) && THREE[2].at == 102;
  }

  // ----- The bound under skew is tight

  predicate AllOnes(h: seq<Time>) {
    forall i :: 0 <= i < |h| ==> h[i] == 1
  }

  lemma {:induction false} LiveOnes(h: seq<Time>, cutoff: Time)
    requires AllOnes(h)
    ensures Live(h, cutoff) == if cutoff < 1 then h else []
  {
    if h != [] {
      LiveOnes(h[..|h| - 1], cutoff);
      assert h == h[..|h| - 1] + [1];
    }
  }

  lemma {:induction false} CountOnes(h: seq<Time>, lo: Time, hi: Time)
    requires AllOnes(h) && lo <= 1 < hi
    ensures CountWithin(h, lo, hi) == |h|
  {
    if h != [] { CountOnes(h[..|h| - 1], lo, hi); }
  }

  lemma CountSnoc(log: seq<Time>, t: Time, lo: Time, hi: Time)
    ensures CountWithin(log + [t], lo, hi) == CountWithin(log, lo, hi) + (if lo <= t < hi then 1 else 0)
  {
    assert (log + [t])[..|log|] == log;
  }

  lemma CallPasses(es: seq<Event>, hits: seq<Time>, key: string, t: Time, window: Time, max: int)
    requires AfterOf(es, window, max, key) == hits && |Live(hits, t - window)| < max
    ensures AfterOf(es + [Allow(key, t)], window, max, key) == Live(hits, t - window) + [t]
    ensures Accepted(es + [Allow(key, t)], window, max, key) == Accepted(es, window, max, key) + [t]
  {
    Snoc(es, Allow(key, t), window, max, key);
  }

  /** n calls that all read 1. */
  lemma {:induction false} OnesPass(n: nat, window: Time, max: int) returns (es: seq<Event>, hits: seq<Time>)
    requires window > 0 && n <= max
    ensures AfterOf(es, window, max, "k") == hits == Accepted(es, window, max, "k")
    ensures |hits| == n && AllOnes(hits) && NoLaterThan(es, 1) && forall skew: nat :: Skewed(es, skew)
  {
    if n == 0 {
      es, hits := [], [];
    } else {
      var front, was := OnesPass(n - 1, window, max);
      LiveOnes(was, 1 - window);
      es, hits := OneMore(front, was, window, max);
    }
  }

  lemma OneMore(front: seq<Event>, was: seq<Time>, window: Time, max: int) returns (es: seq<Event>, hits: seq<Time>)
    requires AfterOf(front, window, max, "k") == was == Accepted(front, window, max, "k")
    requires Live(was, 1 - window) == was && |was| < max && AllOnes(was)
    requires NoLaterThan(front, 1) && forall skew: nat :: Skewed(front, skew)
    ensures AfterOf(es, window, max, "k") == hits == Accepted(es, window, max, "k")
    ensures |hits| == |was| + 1 && AllOnes(hits) && NoLaterThan(es, 1) && forall skew: nat :: Skewed(es, skew)
  {
    var e := Allow("k", 1);
    es, hits := front + [e], was + [1];
    CallPasses(front, was, e.key, e.at, window, max);
    OneMoreInStep(front, e);
  }

  lemma OneMoreInStep(front: seq<Event>, e: Event)
    requires NoLaterThan(front, e.at) && forall skew: nat :: Skewed(front, skew)
    ensures NoLaterThan(front + [e], e.at) && forall skew: nat :: Skewed(front + [e], skew)
  {
    forall skew: nat ensures Skewed(front + [e], skew) { SkewSnoc(front, e, skew); }
  }

  /** Two calls in a row pass once the earlier hits have left the window, whichever of
      the two read first. */
  lemma TwoMorePass(es: seq<Event>, hits: seq<Time>, key: string, late: Time, early: Time, window: Time, max: int)
    requires AfterOf(es, window, max, key) == hits && Live(hits, late - window) == [] && max >= 2
    ensures Accepted(es + [Allow(key, late)] + [Allow(key, early)], window, max, key)
            == Accepted(es, window, max, key) + [late] + [early]
  {
    CallPasses(es, hits, key, late, window, max);
    var next, one := es + [Allow(key, late)], Live(hits, late - window) + [late];
    LiveIsShorter(one, early - window);
    CallPasses(next, one, key, early, window, max);
  }

  /** One tick more than the bound allows is too much: with any skew of at least 1 and a
      cap of at least 2, some run lets max + 1 calls through in window - skew + 1. */
  lemma SkewBoundIsTight(window: Time, max: nat, skew: nat) returns (es: seq<Event>)
    requires 1 <= skew <= window && max >= 2
    ensures Skewed(es, skew)
    ensures CountWithin(Accepted(es, window, max, "k"), 1, 1 + window - skew + 1) == max + 1
  {
    var late, early := Allow("k", window + 1), Allow("k", window + 1 - skew);
    var ones, hits := OnesPass(max, window, max);
    es := ones + [late] + [early];
    SkewSnoc(ones, late, skew);
    SkewSnoc(ones + [late], early, skew);
    LiveOnes(hits, 1);
    TwoMorePass(ones, hits, "k", late.at, early.at, window, max);
    CountOnes(hits, 1, 1 + window - skew + 1);
    CountSnoc(hits, late.at, 1, 1 + window - skew + 1);
    CountSnoc(hits + [late.at], early.at, 1, 1 + window - skew + 1);
  }

  // ----- Sweeps

  /** One sweep changes the answer of the next call exactly when its tick is ahead of
      the call's reading and trims it below the cap. */
  lemma SweepChangesAnswerIff(hits: Hits, key: string, now: Time, tick: Time, window: Time, max: int)
    ensures var h := HitsOf(hits, key);
      Admits(SweepHits(hits, tick, window), key, now, window, max) != Admits(hits, key, now, window, max)
      <==> tick > now && |Live(h, tick - window)| < max <= |Live(h, now - window)|
  {
    var h := HitsOf(hits, key);
    StepOfKey(hits, Sweep(tick), window, max, key);
    StepSeen(h, Sweep(tick), window, max, key, now - window);
    LiveShrinks(h, now - window, Later(tick - window, now - window));
  }

  function Unswept(es: seq<Event>): seq<Event> {
    if es == [] then []
    else if es[|es| - 1].Allow? then Unswept(es[..|es| - 1]) + [es[|es| - 1]]
    else Unswept(es[..|es| - 1])
  }

  predicate SweptBy(es: seq<Event>, now: Time) {
    forall i :: 0 <= i < |es| && es[i].Sweep? ==> es[i].at <= now
  }

  /** No sweep's tick is ahead of a call that takes effect after it; the calls
      themselves may come in any order. */
  predicate TicksBehind(es: seq<Event>) {
    es == []
    || (TicksBehind(es[..|es| - 1]) && (es[|es| - 1].Allow? ==> SweptBy(es[..|es| - 1], es[|es| - 1].at)))
  }

  /** Two lists that agree on a call's question, and on another, still do after it. */
  lemma AgreeAfterCall(a: seq<Time>, b: seq<Time>, e: Event, window: Time, max: int, key: string, cutoff: Time)
    requires e.Allow? && Live(a, cutoff) == Live(b, cutoff) && Live(a, e.at - window) == Live(b, e.at - window)
    ensures Passes(a, e, window, max, key) == Passes(b, e, window, max, key)
    ensures Live(StepOf(a, e, window, max, key), cutoff) == Live(StepOf(b, e, window, max, key), cutoff)
  {
    StepSeen(a, e, window, max, key, cutoff);
    StepSeen(b, e, window, max, key, cutoff);
  }

  lemma SweepSeesNothing(h: seq<Time>, e: Event, window: Time, max: int, key: string, cutoff: Time)
    requires e.Sweep? && e.at - window <= cutoff
    ensures Live(StepOf(h, e, window, max, key), cutoff) == Live(h, cutoff)
  {
    StepSeen(h, e, window, max, key, cutoff);
  }

  /** What a question sees that no tick has passed is the same without the sweeps. */
  lemma {:induction false} SweepsAreInvisible(es: seq<Event>, window: Time, max: int, key: string, cutoff: Time)
    requires TicksBehind(es) && SweptBy(es, cutoff + window)
    ensures Live(AfterOf(es, window, max, key), cutoff) == Live(AfterOf(Unswept(es), window, max, key), cutoff)
    ensures Accepted(es, window, max, key) == Accepted(Unswept(es), window, max, key)
  {
    if es != [] {
      var front, e := es[..|es| - 1], es[|es| - 1];
      var a, b := AfterOf(front, window, max, key), AfterOf(Unswept(front), window, max, key);
      assert SweptBy(front, cutoff + window);
      SweepsAreInvisible(front, window, max, key, cutoff);
      if e.Allow? {
        SweepsAreInvisible(front, window, max, key, e.at - window);
        AgreeAfterCall(a, b, e, window, max, key, cutoff);
        Snoc(Unswept(front), e, window, max, key);
      } else {
        assert e.at <= cutoff + window;
        SweepSeesNothing(a, e, window, max, key, cutoff);
      }
    }
  }

  /** Taking every sweep out of a run changes neither what was let through nor what the
      next call is told, in whatever order the calls came, as long as no tick is ahead
      of a call that follows it. */
  lemma SweepsChangeNoAnswer(es: seq<Event>, window: Time, max: int, key: string, now: Time)
    requires TicksBehind(es) && SweptBy(es, now)
    ensures Accepted(Unswept(es), window, max, key) == Accepted(es, window, max, key)
    ensures Admits(After(Unswept(es), window, max), key, now, window, max)
            <==> Admits(After(es, window, max), key, now, window, max)
  {
    SweepsAreInvisible(es, window, max, key, now - window);
    SameAnswer(es, Unswept(es), key, now, window, max);
  }

  lemma SameAnswer(es: seq<Event>, us: seq<Event>, key: string, now: Time, window: Time, max: int)
    requires Live(AfterOf(es, window, max, key), now - window) == Live(AfterOf(us, window, max, key), now - window)
    ensures Admits(After(us, window, max), key, now, window, max) <==>
      Admits(After(es, window, max), key, now, window, max)
  {
    KeysAreApart(es, window, max, key);
    KeysAreApart(us, window, max, key);
  }

  /** A key that would be let through is still let through later, with any sweep in
      between, as long as nothing was recorded for it. */
  lemma LaterStillAdmits(hits: Hits, swept: Hits, key: string, now: Time, later: Time, tick: Time, window: Time,
                         max: int)
    requires Admits(hits, key, now, window, max) && now <= later
    requires swept == hits || swept == SweepHits(hits, tick, window)
    ensures Admits(swept, key, later, window, max)
  {
    LiveShrinks(HitsOf(hits, key), now - window, later - window);
    assert Admits(hits, key, later, window, max);
    if swept != hits { SweepChangesAnswerIff(hits, key, later, tick, window, max); }
  }
}
