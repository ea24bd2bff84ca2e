/** Assembling one CLI response from pages that arrive in any order. */
module PagedReply {
  import opened Prelude

  /** A parsed cli_response. `meta` is every field the assembly passes through. */
  datatype Reply = Reply(page: Option<int>, more: Option<bool>, output: seq<string>, meta: string)

  datatype Message = Garbled | Parsed(reply: Reply)

  datatype Outcome = Assembled(reply: Reply) | ParseError | Cancelled

  predicate IsFinal(r: Reply) {
    r.more != Some(true)
  }

  function PageIndex(r: Reply): int {
    if r.page.Some? then r.page.value else 0
  }

  // ----- What has arrived, as functions of the messages

  /** Each page's latest output. */
  function PagesOf(ms: seq<Message>): map<int, seq<string>> {
    if ms == [] then map[]
    else
      var front, m := PagesOf(ms[..|ms| - 1]), ms[|ms| - 1];
      if m.Parsed? then front[PageIndex(m.reply) := m.reply.output] else front
  }

  /** The latest message without a More flag set. */
  function FinalOf(ms: seq<Message>): Option<Reply> {
    if ms == [] then None
    else if ms[|ms| - 1].Parsed? && IsFinal(ms[|ms| - 1].reply) then Some(ms[|ms| - 1].reply)
    else FinalOf(ms[..|ms| - 1])
  }

  predicate Has(pages: map<int, seq<string>>, upTo: int) {
    forall i :: 0 <= i <= upTo ==> i in pages
  }

  /** The final page and every lower-indexed one have arrived. */
  predicate Complete(ms: seq<Message>) {
    FinalOf(ms).Some? && Has(PagesOf(ms), PageIndex(FinalOf(ms).value))
  }

  /** The outputs of pages 0 up to, not including, n. */
  function Joined(pages: map<int, seq<string>>, n: int): seq<string>
    requires Has(pages, n - 1)
    decreases n
  {
    if n <= 0 then [] else Joined(pages, n - 1) + pages[n - 1]
  }

  predicate AllParsed(ms: seq<Message>) {
    forall i :: 0 <= i < |ms| ==> ms[i].Parsed?
  }

  function AssembledFrom(ms: seq<Message>): Reply
    requires Complete(ms)
  {
    var final := FinalOf(ms).value;
    final.(output := Joined(PagesOf(ms), PageIndex(final) + 1), page := None, more := None)
  }

  /** Reads messages until one completes the reply, one does not parse, or the
      context ends after the last of them. `used` counts the messages read. */
  method AwaitPagedCLIResponse(ms: seq<Message>) returns (r: Outcome, used: nat)
    ensures used <= |ms| && forall n :: 0 < n < used ==> AllParsed(ms[..n]) && !Complete(ms[..n])
    ensures r.Assembled? ==> AllParsed(ms[..used]) && Complete(ms[..used]) && r.reply == AssembledFrom(ms[..used])
    ensures r.ParseError? ==> used > 0 && ms[used - 1].Garbled?
    ensures r.Cancelled? ==> used == |ms| && AllParsed(ms) && (ms != [] ==> !Complete(ms))
  {
    var pages: map<int, seq<string>> := map[];
    var final: Option<Reply> := None;
    used := 0;
    while used < |ms|
      invariant used <= |ms| && AllParsed(ms[..used])
      invariant forall n :: 0 < n <= used ==> !Complete(ms[..n])
      invariant pages == PagesOf(ms[..used]) && final == FinalOf(ms[..used])
    {
      var m := ms[used];
      assert ms[..used + 1][..used] == ms[..used] && ms[..used + 1][used] == m;
      used := used + 1;
      if m.Garbled? { return ParseError, used; }
      pages := pages[PageIndex(m.reply) := m.reply.output];
      if IsFinal(m.reply) { final := Some(m.reply); }
      if final.None? { continue; }
      var finalIdx := PageIndex(final.value);
      var combined, i, complete := [], 0, true;
      while i <= finalIdx && complete
        invariant 0 <= i && (i <= finalIdx + 1 || i == 0)
        invariant complete ==> Has(pages, i - 1) && combined == Joined(pages, i)
        invariant !complete ==> !Has(pages, finalIdx)
        decreases if complete then 1 else 0, finalIdx - i
      {
        if i !in pages {
          complete := false;
        } else {
          combined := combined + pages[i];
          i := i + 1;
        }
      }
      if !complete { continue; }
      assert combined == Joined(pages, finalIdx + 1);
      return Assembled(final.value.(output := combined, page := None, more := None)), used;
    }
    assert ms[..|ms|] == ms;
    return Cancelled, used;
  }

  // ----- A reply split into pages

  /** Message m is a page of the reply: only the last page is final, and every
      copy of a page is the same. */
  predicate PageOf(m: Message, outputs: seq<seq<string>>, meta: string) {
    m.Parsed? && m.reply.page.Some? && 0 <= m.reply.page.value < |outputs|
    && m.reply == Reply(m.reply.page, Some(m.reply.page.value < |outputs| - 1), outputs[m.reply.page.value], meta)
  }

  predicate Stream(ms: seq<Message>, outputs: seq<seq<string>>, meta: string) {
    forall i :: 0 <= i < |ms| ==> PageOf(ms[i], outputs, meta)
  }

  predicate Arrived(ms: seq<Message>, page: nat) {
    exists i :: 0 <= i < |ms| && ms[i].Parsed? && ms[i].reply.page == Some(page)
  }

  predicate AllArrived(ms: seq<Message>, pages: nat) {
    forall p: nat :: p < pages ==> Arrived(ms, p)
  }

  function Concat(outputs: seq<seq<string>>): seq<string> {
    if outputs == [] then [] else Concat(outputs[..|outputs| - 1]) + outputs[|outputs| - 1]
  }

  lemma {:induction false} PagesOfStream(ms: seq<Message>, outputs: seq<seq<string>>, meta: string)
    requires Stream(ms, outputs, meta)
    ensures forall p: nat :: p < |outputs| ==> (p in PagesOf(ms) <==> Arrived(ms, p))
    ensures forall p :: p in PagesOf(ms) ==> 0 <= p < |outputs| && PagesOf(ms)[p] == outputs[p]
    ensures FinalOf(ms) == if |outputs| > 0 && Arrived(ms, |outputs| - 1)
                           then Some(Reply(Some(|outputs| - 1), Some(false), outputs[|outputs| - 1], meta)) else None
  {
    if ms != [] {
      var front, m := ms[..|ms| - 1], ms[|ms| - 1];
      PagesOfStream(front, outputs, meta);
      forall p: nat | p < |outputs| ensures Arrived(ms, p) <==> Arrived(front, p) || m.reply.page == Some(p) {
        if Arrived(front, p) {
          var i :| 0 <= i < |front| && front[i].Parsed? && front[i].reply.page == Some(p);
          assert ms[i].reply.page == Some(p);
        }
      }
    }
  }

  lemma {:induction false} JoinedIsConcat(pages: map<int, seq<string>>, outputs: seq<seq<string>>, n: nat)
    requires n <= |outputs| && Has(pages, n - 1)
    requires forall p :: p in pages ==> 0 <= p < |outputs| && pages[p] == outputs[p]
    ensures Joined(pages, n) == Concat(outputs[..n])
  {
    if n > 0 {
      JoinedIsConcat(pages, outputs, n - 1);
      assert outputs[..n][..n - 1] == outputs[..n - 1];
    }
  }

  /** For pages of one reply in any order, with any repeats: a prefix is complete
      exactly when every page has arrived, and then reads as all the outputs in
      page order. */
  lemma StreamCompletes(ms: seq<Message>, outputs: seq<seq<string>>, meta: string)
    requires Stream(ms, outputs, meta) && outputs != []
    ensures AllParsed(ms)
    ensures Complete(ms) <==> AllArrived(ms, |outputs|)
    ensures Complete(ms) ==> AssembledFrom(ms) == Reply(None, None, Concat(outputs), meta)
  {
    PagesOfStream(ms, outputs, meta);
    assert AllArrived(ms, |outputs|) ==> Arrived(ms, |outputs| - 1);
    if Complete(ms) {
      JoinedIsConcat(PagesOf(ms), outputs, |outputs|);
      assert outputs[..|outputs|] == outputs;
      forall p: nat | p < |outputs| ensures Arrived(ms, p) { assert p in PagesOf(ms); }
    }
  }

  /** So the assembly returns on the very message that brings the last missing
      page, and waits for ever when one never comes. */
  method ReplyArrivesWithItsLastPage(ms: seq<Message>, outputs: seq<seq<string>>, meta: string)
    returns (r: Outcome, used: nat)
    requires Stream(ms, outputs, meta) && outputs != []
    ensures used <= |ms| && forall n :: 0 < n < used ==> !AllArrived(ms[..n], |outputs|)
    ensures r == if !AllArrived(ms[..used], |outputs|) then Cancelled
                 else Assembled(Reply(None, None, Concat(outputs), meta))
    ensures r.Cancelled? ==> used == |ms|
  {
    r, used := AwaitPagedCLIResponse(ms);
    forall n | 0 <= n <= |ms|
      ensures Stream(ms[..n], outputs, meta) && (Complete(ms[..n]) <==> AllArrived(ms[..n], |outputs|)) {
      StreamCompletes(ms[..n], outputs, meta);
    }
    StreamCompletes(ms[..used], outputs, meta);
    assert ms[..|ms|] == ms;
  }

  // ----- What a finished reply contains

  lemma {:induction false} JoinedIgnores(pages: map<int, seq<string>>, n: int, p: int, o: seq<string>)
    requires Has(pages, n - 1) && !(0 <= p < n)
    ensures Has(pages[p := o], n - 1) && Joined(pages[p := o], n) == Joined(pages, n)
    decreases n
  {
    if n > 0 { JoinedIgnores(pages, n - 1, p, o); }
  }

  lemma {:induction false} JoinedMeasures(pages: map<int, seq<string>>, n: int, p: int, o: seq<string>)
    requires Has(pages, n - 1) && 0 <= p < n
    ensures Has(pages[p := o], n - 1) && |Joined(pages[p := o], n)| == |Joined(pages, n)| - |pages[p]| + |o|
    ensures exists before, after :: Joined(pages, n) == before + pages[p] + after
    decreases n
  {
    if p == n - 1 {
      JoinedIgnores(pages, n - 1, p, o);
      assert Joined(pages, n) == Joined(pages, n - 1) + pages[p] + [];
    } else {
      JoinedMeasures(pages, n - 1, p, o);
      var before, after :| Joined(pages, n - 1) == before + pages[p] + after;
      assert Joined(pages, n) == before + pages[p] + (after + pages[n - 1]);
    }
  }

  /** The reply as it would have been had page p carried another output. */
  function WithPage(ms: seq<Message>, p: int, o: seq<string>): seq<string>
    requires Complete(ms)
  {
    JoinedWith(PagesOf(ms), PageIndex(FinalOf(ms).value) + 1, p, o)
  }

  function JoinedWith(pages: map<int, seq<string>>, n: int, p: int, o: seq<string>): seq<string>
    requires Has(pages, n - 1)
  {
    assert Has(pages[p := o], n - 1);
    Joined(pages[p := o], n)
  }

  /** Of any finished reply, an arrived page is in the output exactly when its index
      lies between 0 and the final one: then its output stands in it, and otherwise
      the reply is the same whatever the page carried. */
  lemma PageCountsIff(ms: seq<Message>, p: int)
    requires Complete(ms) && p in PagesOf(ms)
    ensures var final, output := PageIndex(FinalOf(ms).value), AssembledFrom(ms).output;
      && ((forall o :: WithPage(ms, p, o) == output) <==> !(0 <= p <= final))
      && (0 <= p <= final ==> exists before, after :: output == before + PagesOf(ms)[p] + after)
  {
    var pages, n := PagesOf(ms), PageIndex(FinalOf(ms).value) + 1;
    if 0 <= p < n {
      var longer := pages[p] + ["more"];
      JoinedMeasures(pages, n, p, longer);
      assert |WithPage(ms, p, longer)| == |AssembledFrom(ms).output| + 1;
    } else {
      forall o ensures WithPage(ms, p, o) == AssembledFrom(ms).output { JoinedIgnores(pages, n, p, o); }
    }
  }

  /** So a finished reply drops no arrived page exactly when every arrived index lies
      there; a negative final index drops them all. */
  lemma NothingDroppedIff(ms: seq<Message>)
    requires Complete(ms)
    ensures var final := PageIndex(FinalOf(ms).value);
      && ((forall p :: p in PagesOf(ms) ==> !IsDropped(ms, p)) <==> (forall p :: p in PagesOf(ms) ==> 0 <= p <= final))
      && (final < 0 ==> AssembledFrom(ms).output == [] && forall p :: p in PagesOf(ms) ==> IsDropped(ms, p))
  {
    forall p | p in PagesOf(ms) ensures IsDropped(ms, p) <==> !(0 <= p <= PageIndex(FinalOf(ms).value)) {
      PageCountsIff(ms, p);
    }
  }

  ghost predicate IsDropped(ms: seq<Message>, p: int)
    requires Complete(ms)
  {
    forall o :: WithPage(ms, p, o) == AssembledFrom(ms).output
  }

  /** And such a final page completes the reply at once, whatever else arrived. */
  lemma NegativeFinalIsEmpty(front: seq<Message>, last: Reply)
    requires IsFinal(last) && last.page.Some? && last.page.value < 0
    ensures Complete(front + [Parsed(last)]) && AssembledFrom(front + [Parsed(last)]).output == []
  {
    assert (front + [Parsed(last)])[..|front|] == front;
  }
}
