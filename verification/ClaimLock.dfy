/** The claim form's lock: ten wrong codes per device id between two clears. */
module ClaimLock {
  import opened Prelude
  import opened Schema
  import opened EnrollmentPolicy
  import opened EnrollmentTables
  import opened EnrollmentRuns

  ghost predicate JudgesWrong(w: World, e: Event, id: DeviceId) {
    e.Looked? && e.id == id && WrongCode(w.rows, id, e.claimKey, e.token)
  }

  ghost predicate Clears(w: World, e: Event, id: DeviceId) {
    e.Announced? && e.key.id == id && WellFormed(e.key) && ClearsLock(w.rows, e.key, e.claimKey, e.token)
  }

  /** A verified row for the id that no other verified row beats. */
  ghost predicate Earliest(rows: Enrollments, k: EnrollKey) {
    k in rows && rows[k].verifiedAt.Some? && !OlderVerified(rows, k, rows[k].verifiedAt.value)
  }

  lemma EarliestIsUnique(rows: Enrollments, k: EnrollKey, l: EnrollKey)
    requires Earliest(rows, k) && Earliest(rows, l) && k.id == l.id
    ensures k == l
  {
    if k != l {
      assert k.pub != l.pub;
      ClaimLockOrderIsStrictTotal(rows[k].verifiedAt.value, k.pub, rows[l].verifiedAt.value, l.pub, 0, k.pub);
    }
  }

  lemma {:induction false} EarliestAmong(rows: Enrollments, id: DeviceId, some: set<EnrollKey>) returns (k: EnrollKey)
    requires some != {} && forall o :: o in some ==> o in rows && o.id == id && rows[o].verifiedAt.Some?
    ensures k in some
    ensures forall o :: o in some && o != k ==>
              !ClaimLockOlder(rows[k].verifiedAt.value, rows[o].verifiedAt.value, k.pub, o.pub)
    decreases |some|
  {
    var x :| x in some;
    if some == {x} { return x; }
    var y := EarliestAmong(rows, id, some - {x});
    var at, bt := rows[x].verifiedAt.value, rows[y].verifiedAt.value;
    k := if ClaimLockOlder(bt, at, y.pub, x.pub) then x else y;
    forall o | o in some && o != k
      ensures !ClaimLockOlder(rows[k].verifiedAt.value, rows[o].verifiedAt.value, k.pub, o.pub)
    {
      ClaimLockOrderIsStrictTotal(bt, y.pub, at, x.pub, rows[o].verifiedAt.value, o.pub);
      if k == x && o != y {
        ClaimLockOrderIsStrictTotal(bt, y.pub, at, x.pub, rows[o].verifiedAt.value, o.pub);
      }
    }
  }

  /** Exactly one verified row per device id can clear the counter, and it does
      so exactly when it announces a token it already owns. */
  lemma ExactlyOneRowClears(rows: Enrollments, id: DeviceId)
    requires exists v :: v in rows && v.id == id && rows[v].verifiedAt.Some?
    ensures exists k: EnrollKey :: k.id == id && Earliest(rows, k)
    ensures forall k: EnrollKey, l: EnrollKey :: Earliest(rows, k) && Earliest(rows, l) && k.id == id && l.id == id ==>
      k == l
    ensures forall k, claimKey, token :: ClearsLock(rows, k, claimKey, token) <==>
              Earliest(rows, k) && ClaimTokenAccepts(claimKey, token, rows[k].tokenHash)
  {
    var verified := set v | v in rows && v.id == id && rows[v].verifiedAt.Some?;
    var v :| v in rows && v.id == id && rows[v].verifiedAt.Some?;
    assert v in verified;
    var k := EarliestAmong(rows, id, verified);
    assert Earliest(rows, k);
    forall a: EnrollKey, b: EnrollKey | Earliest(rows, a) && Earliest(rows, b) && a.id == id && b.id == id
      ensures a == b {
      EarliestIsUnique(rows, a, b);
    }
  }

  /** A counter moves by one for a wrong code, drops to zero for a clear, and
      moves for nothing else. */
  lemma CounterStep(w: World, e: Event, k: EnrollKey)
    requires Enabled(w, e) && k in w.rows && k in NextRows(w, e)
    ensures NextRows(w, e)[k].failures ==
              if JudgesWrong(w, e, k.id) then w.rows[k].failures + 1
              else if Clears(w, e, k.id) then 0
              else w.rows[k].failures
  {
  }

  /** Wrong codes judged for the id from step i up to step j. */
  ghost function WrongCodes(ws: seq<World>, es: seq<Event>, id: DeviceId, i: nat, j: nat): nat
    requires i <= j <= |es| <= |ws|
  {
    if i == j then 0
    else WrongCodes(ws, es, id, i, j - 1) + if JudgesWrong(ws[j - 1], es[j - 1], id) then 1 else 0
  }

  ghost predicate NoClears(ws: seq<World>, es: seq<Event>, id: DeviceId, i: nat, j: nat)
    requires i <= j <= |es| <= |ws|
  {
    forall m :: i <= m < j ==> !Clears(ws[m], es[m], id)
  }

  /** The row is there in every state from i to j. */
  ghost predicate Stays(ws: seq<World>, k: EnrollKey, i: nat, j: nat)
    requires i <= j < |ws|
  {
    forall m :: i <= m <= j ==> k in ws[m].rows
  }

  /** A row that stays counts every wrong code for its id. */
  lemma {:induction false} CounterCounts(ws: seq<World>, es: seq<Event>, k: EnrollKey, i: nat, j: nat)
    requires Run(ws, es) && i <= j <= |es| && NoClears(ws, es, k.id, i, j) && Stays(ws, k, i, j)
    ensures ws[j].rows[k].failures == ws[i].rows[k].failures + WrongCodes(ws, es, k.id, i, j)
  {
    if i < j {
      CounterCounts(ws, es, k, i, j - 1);
      assert StepAt(ws, es, j - 1);
      CounterStep(ws[j - 1], es[j - 1], k);
    }
  }

  lemma {:induction false} WrongCodesFromFirst(ws: seq<World>, es: seq<Event>, id: DeviceId, i: nat, j: nat)
    requires i < j <= |es| <= |ws| && !JudgesWrong(ws[i], es[i], id)
    ensures WrongCodes(ws, es, id, i, j) == WrongCodes(ws, es, id, i + 1, j)
  {
    if i + 1 < j { WrongCodesFromFirst(ws, es, id, i, j - 1); }
  }

  /** The row is there whenever it could matter: from the first wrong code judged for
      its id in the stretch to the last. */
  ghost predicate SpansWrongCodes(ws: seq<World>, es: seq<Event>, k: EnrollKey, i: nat, j: nat)
    requires i <= j <= |es| <= |ws|
  {
    forall m, q, n :: i <= m <= q <= n < j && JudgesWrong(ws[m], es[m], k.id) && JudgesWrong(ws[n], es[n], k.id) ==>
                        k in ws[q].rows
  }

  /** At most CLAIM_FAILURE_CAP wrong codes are judged for a device id between two
      clears, over any interleaving in which one row for the id is there throughout;
      the others may come and go. */
  lemma {:induction false} AtMostCapWrongCodes(ws: seq<World>, es: seq<Event>, k: EnrollKey, i: nat, j: nat)
    requires Run(ws, es) && i <= j <= |es| && NoClears(ws, es, k.id, i, j) && SpansWrongCodes(ws, es, k, i, j)
    ensures WrongCodes(ws, es, k.id, i, j) <= CLAIM_FAILURE_CAP
    decreases j - i
  {
    if i < j {
      if !JudgesWrong(ws[i], es[i], k.id) {
        WrongCodesFromFirst(ws, es, k.id, i, j);
        AtMostCapWrongCodes(ws, es, k, i + 1, j);
      } else if !JudgesWrong(ws[j - 1], es[j - 1], k.id) {
        AtMostCapWrongCodes(ws, es, k, i, j - 1);
      } else {
        CounterCounts(ws, es, k, i, j - 1);
      }
    }
  }

  // ----- What a prune leaves of the budget

  /** The rows after n lookups that each judged a wrong code. */
  ghost function Tries(rows: Enrollments, id: DeviceId, n: nat): Enrollments {
    if n == 0 then rows else WithFailures(Tries(rows, id, n - 1), id, true)
  }

  lemma {:induction false} TriesCount(rows: Enrollments, id: DeviceId, n: nat)
    ensures Tries(rows, id, n).Keys == rows.Keys
    ensures forall k :: k in rows ==>
      Tries(rows, id, n)[k] == if k.id == id then rows[k].(failures := rows[k].failures + n) else rows[k]
  {
    if n > 0 { TriesCount(rows, id, n - 1); }
  }

  /** A code that matches nothing is judged once more after n times exactly when there
      is a row for the id and every one of them still has that many tries left. */
  lemma TryIsJudgedIff(rows: Enrollments, id: DeviceId, claimKey: string, token: string, n: nat)
    requires ValidDeviceID(id) && token != "" && Matches(rows, id, claimKey, token) == {}
    ensures WrongCode(Tries(rows, id, n), id, claimKey, token) <==>
              Candidates(rows, id) != {} && forall k :: k in rows && k.id == id ==>
                rows[k].failures + n < CLAIM_FAILURE_CAP
    ensures ClaimLookup(Tries(rows, id, n), id, claimKey, token) ==
              if WrongCode(Tries(rows, id, n), id, claimKey, token) then Tries(rows, id, n + 1) else Tries(rows, id, n)
  {
    TriesCount(rows, id, n);
    var tried := Tries(rows, id, n);
    assert Candidates(tried, id) == Candidates(rows, id);
    forall k | k in tried && k.id == id ensures !ClaimTokenAccepts(claimKey, token, tried[k].tokenHash) {
      assert k !in Matches(rows, id, claimKey, token);
    }
  }

  predicate SurvivesPrune(rows: Enrollments, k: EnrollKey, now: Time) {
    k in rows && (rows[k].claimedAt.Some? || rows[k].lastSeen >= now - ENROLLMENT_TTL)
  }

  /** After a prune the form judges one wrong code after another for as long as the
      worst surviving row has tries left, whatever the rows that went had used up. */
  lemma PruneLeavesBudget(rows: Enrollments, id: DeviceId, claimKey: string, token: string, now: Time, n: nat)
    requires ValidDeviceID(id) && token != "" && Matches(rows, id, claimKey, token) == {}
    ensures WrongCode(Tries(Prune(rows, now), id, n), id, claimKey, token) <==>
              (exists k: EnrollKey :: k.id == id && SurvivesPrune(rows, k, now))
              && forall k: EnrollKey :: k.id == id && SurvivesPrune(rows, k, now) ==>
                rows[k].failures + n < CLAIM_FAILURE_CAP
  {
    var left := Prune(rows, now);
    forall k | k in left && k.id == id ensures !ClaimTokenAccepts(claimKey, token, left[k].tokenHash) {
      assert k !in Matches(rows, id, claimKey, token);
    }
    TryIsJudgedIff(left, id, claimKey, token, n);
    assert forall k :: k in left <==> SurvivesPrune(rows, k, now);
    if k: EnrollKey :| k.id == id && SurvivesPrune(rows, k, now) { assert k in Candidates(left, id); }
  }

  // ----- A run in which a prune lifts the lock

  const SOME_ID: DeviceId := DEVICE_ID_PREFIX + seq(12, i => '0')
  const FIRST: EnrollKey := EnrollKey(SOME_ID, seq(64, i => 'a'))
  const SECOND: EnrollKey := EnrollKey(SOME_ID, seq(64, i => 'b'))

  function Stale(failures: nat): Enrollment {
    FirstRow(Sha256("12345678"), 1, 0).(failures := failures)
  }

  lemma KeysAreWellFormed()
    ensures WellFormed(FIRST) && WellFormed(SECOND) && FIRST != SECOND && ValidDeviceID(SOME_ID)
  {
    assert SOME_ID[8..] == seq(12, i => '0');
    assert FIRST.pub[0] == 'a' && SECOND.pub[0] == 'b';
  }

  lemma Extend(ws: seq<World>, es: seq<Event>, e: Event) returns (vs: seq<World>, fs: seq<Event>)
    requires Run(ws, es) && Enabled(ws[|es|], e)
    ensures Run(vs, fs) && fs == es + [e] && vs == ws + [Next(ws[|es|], e)]
  {
    vs, fs := ws + [Next(ws[|es|], e)], es + [e];
    forall i | 0 <= i < |fs| ensures StepAt(vs, fs, i) {
      if i < |es| { assert StepAt(ws, es, i); }
    }
  }

  /** One announce and n wrong codes. */
  lemma {:induction false} WrongRun(n: nat) returns (ws: seq<World>, es: seq<Event>)
    requires n <= CLAIM_FAILURE_CAP
    ensures Run(ws, es) && |es| == n + 1 && ws[n + 1].rows == map[FIRST := Stale(n)] && ws[n + 1].issued.Keys == {1}
  {
    KeysAreWellFormed();
    if n == 0 {
      ws, es := [World(map[], map[], map[], map[], map[], {}, map[])], [];
      ws, es := Extend(ws, es, Announced(FIRST, "", "12345678", 1, 0));
    } else {
      ws, es := WrongRun(n - 1);
      var w := ws[n];
      assert Candidates(w.rows, SOME_ID) == {FIRST};
      assert WrongCode(w.rows, SOME_ID, "", "87654321");
      ws, es := Extend(ws, es, Looked(SOME_ID, "", "87654321"));
      assert ws[n + 1].rows == map[FIRST := Stale(n)];
    }
  }

  /** Ten wrong codes lock the id; a day later another key announces for it, and the
      prune that takes the first row lifts the lock. */
  lemma PruneCanLiftLock() returns (ws: seq<World>, es: seq<Event>)
    ensures Run(ws, es) && |es| > 0 && es[|es| - 1].Pruned?
    ensures LockedOut(ws[|es| - 1].rows, SOME_ID)
    ensures !LockedOut(ws[|es|].rows, SOME_ID) && Candidates(ws[|es|].rows, SOME_ID) != {}
  {
    var now := ENROLLMENT_TTL + 1;
    KeysAreWellFormed();
    ws, es := WrongRun(CLAIM_FAILURE_CAP);
    ws, es := Extend(ws, es, Announced(SECOND, "", "11111111", 2, now));
    var recent := FirstRow(Sha256("11111111"), 2, now);
    assert ws[|es|].rows == map[FIRST := Stale(CLAIM_FAILURE_CAP), SECOND := recent];
    assert FIRST in ws[|es|].rows && ClaimFailuresExhausted(ws[|es|].rows[FIRST].failures);
    ws, es := Extend(ws, es, Pruned(now));
    assert ws[|es|].rows == map[SECOND := recent];
    assert SECOND in Candidates(ws[|es|].rows, SOME_ID);
  }

  /** The form answers with a row exactly when that row is the one match, or the
      one claimable match; it never picks among several. */
  lemma ClaimLookupNeverPicks(rows: Enrollments, id: DeviceId, claimKey: string, token: string, k: EnrollKey)
    ensures ClaimLookupAnswer(rows, id, claimKey, token) == Ok(k) <==>
              ValidDeviceID(id) && !LockedOut(rows, id) && k in Matches(rows, id, claimKey, token)
              && ((forall l :: l in Matches(rows, id, claimKey, token) ==> l == k)
                  || (k in Claimable(rows, id, claimKey, token)
                      && forall l :: l in Claimable(rows, id, claimKey, token) ==> l == k))
  {
    var matches, claimable := Matches(rows, id, claimKey, token), Claimable(rows, id, claimKey, token);
    if k in matches {
      assert k in Candidates(rows, id);
      if forall l :: l in matches ==> l == k { assert matches == {k}; }
      if k in claimable && forall l :: l in claimable ==> l == k { assert claimable == {k}; }
    }
  }
}
