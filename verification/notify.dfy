/** The body of `main_loop`: for every watched query, the items found are
    compared with the threshold, keyed, checked against the set of keys
    already notified, sent, and recorded only when the send succeeded. The
    network is an oracle: the decoded search answer and the messaging API's
    verdict are parameters. */
module Notify {
  import opened Wrappers
  import opened Json
  import opened PyText
  import opened Seqs
  import opened Extract

  /** A watched search phrase and its threshold in whole roubles. */
  datatype QuerySpec = QuerySpec(text: string, threshold: int)

  /** The watch list the bot is configured with. */
  const Queries: seq<QuerySpec> := [QuerySpec("Iphone 16", 50000), QuerySpec("Айфон 16", 50000)]

  /** `item['price'] <= threshold`, where the price is `kopecks / 100`. */
  predicate AtOrBelow(item: PricedItem, threshold: int) {
    item.kopecks <= 100 * threshold
  }

  /** The kopeck comparison is the rouble comparison, exactly. */
  lemma AtOrBelowIsRoubleComparison(item: PricedItem, threshold: int)
    ensures AtOrBelow(item, threshold) <==> (item.kopecks as real) / 100.0 <= threshold as real
  {
  }

  /** `int(item['price'])`: the whole roubles, truncated toward zero. */
  lemma WholeRoublesIsPythonInt(k: int)
    ensures TruncDiv100(k) == TruncReal((k as real) / 100.0)
  {
    var q := TruncDiv100(k);
    var x := (k as real) / 100.0;
    if k >= 0 {
      assert q as real <= x < q as real + 1.0;
    } else {
      assert q as real - 1.0 < x <= q as real;
    }
  }

  /** `item.get('url')`: the link, or None. */
  function UrlValue(url: Option<string>): Json {
    match url
    case Some(u) => Str(u)
    case None => Null
  }

  /** The middle part of the key: `str()` of
      `item.get('id') or item.get('url') or item.get('name')`. */
  function Identity(item: PricedItem): string {
    if item.id != [] then item.id
    else if item.url.Some? && item.url.value != [] then item.url.value
    else PyStr(item.name)
  }

  /** The identity is `str()` of the first truthy of id, url and name, or of
      the name when none is truthy, exactly as Python's `or` chain gives. */
  lemma IdentityIsOrChain(item: PricedItem)
    ensures Identity(item) == PyStr(OrChain([Str(item.id), UrlValue(item.url), item.name]))
  {
    var vs := [Str(item.id), UrlValue(item.url), item.name];
    assert vs[1..] == [vs[1], vs[2]] && vs[1..][1..] == [vs[2]];
  }

  /** For items the extractor makes, the url never decides the identity: the
      id is empty only when there is no url. */
  lemma IdentityIgnoresUrl(p: Json)
    requires ToItem(p).Some?
    ensures Identity(ToItem(p).value) ==
              if Pid(p) != Str([]) then PyStr(Pid(p)) else PyStr(Name(p))
  {
    ItemIdEmptyOnlyWithoutUrl(p);
  }

  /** `parts` joined by `__`. */
  function JoinKey(parts: seq<string>): string {
    if parts == [] then []
    else if |parts| == 1 then parts[0]
    else JoinKey(parts[..|parts| - 1]) + "__" + parts[|parts| - 1]
  }

  lemma JoinKeyThree(a: string, b: string, c: string)
    ensures JoinKey([a, b, c]) == a + "__" + b + "__" + c
  {
    assert [a, b, c][..2] == [a, b];
    assert [a, b][..1] == [a];
    assert JoinKey([a]) == a;
    assert JoinKey([a, b]) == a + "__" + b;
  }

  /** The notification identifier `query__identity__roubles`. */
  function DedupKey(query: string, item: PricedItem): string {
    JoinKey([query, Identity(item), IntText(TruncDiv100(item.kopecks))])
  }

  /** The key splits back into its parts: the query before the first `__`,
      the whole-rouble price after the last `__` (it reads back as a number),
      and the identity between them. */
  lemma DedupKeySplits(query: string, item: PricedItem)
    ensures var r := DedupKey(query, item);
            && |r| >= |query| + 4 + TailLength(r)
            && r[..|query| + 2] == query + "__"
            && r[|query| + 2..|r| - TailLength(r) - 2] == Identity(item)
            && r[|r| - TailLength(r) - 2..|r| - TailLength(r)] == "__"
            && r[|r| - TailLength(r)..] == IntText(TruncDiv100(item.kopecks))
            && ParseIntText(r[|r| - TailLength(r)..]) == TruncDiv100(item.kopecks)
  {
    var d := IntText(TruncDiv100(item.kopecks));
    var x := query + "__" + Identity(item);
    JoinKeyThree(query, Identity(item), d);
    TailLengthAfterSeparator(x, d);
    IntTextRoundTrip(TruncDiv100(item.kopecks));
    var r := x + "__" + d;
    assert r == DedupKey(query, item);
    assert r[|r| - |d|..] == d;
    assert r[..|query| + 2] == query + "__";
    assert r[|query| + 2..|r| - |d| - 2] == Identity(item);
    assert r[|r| - |d| - 2..|r| - |d|] == "__";
  }

  /** Length of the longest suffix of `s` free of `_`. */
  function TailLength(s: string): (n: nat)
    ensures n <= |s|
  {
    if s == [] || s[|s| - 1] == '_' then 0 else 1 + TailLength(s[..|s| - 1])
  }

  lemma {:induction false} TailLengthAfterSeparator(x: string, d: string)
    requires forall i :: 0 <= i < |d| ==> d[i] != '_'
    ensures TailLength(x + "__" + d) == |d|
  {
    if d != [] {
      var s := x + "__" + d;
      assert s[..|s| - 1] == x + "__" + d[..|d| - 1];
      TailLengthAfterSeparator(x, d[..|d| - 1]);
    }
  }

  /** Splitting at the last `__` is unambiguous when the tail has no `_`. */
  lemma SplitAtLastSeparator(x1: string, d1: string, x2: string, d2: string)
    requires forall i :: 0 <= i < |d1| ==> d1[i] != '_'
    requires forall i :: 0 <= i < |d2| ==> d2[i] != '_'
    requires x1 + "__" + d1 == x2 + "__" + d2
    ensures x1 == x2 && d1 == d2
  {
    var s := x1 + "__" + d1;
    var t := x2 + "__" + d2;
    TailLengthAfterSeparator(x1, d1);
    TailLengthAfterSeparator(x2, d2);
    assert d1 == s[|s| - |d1|..] == t[|t| - |d2|..] == d2;
    assert x1 + "__" == s[..|s| - |d1|] == t[..|t| - |d2|] == x2 + "__";
    assert x1 == (x1 + "__")[..|x1|];
    assert x2 == (x2 + "__")[..|x2|];
  }

  /** For one query, equal identifiers mean the same identity at the same
      whole-rouble price: distinct items never suppress each other. */
  lemma DedupKeyInjective(query: string, a: PricedItem, b: PricedItem)
    requires DedupKey(query, a) == DedupKey(query, b)
    ensures Identity(a) == Identity(b)
    ensures TruncDiv100(a.kopecks) == TruncDiv100(b.kopecks)
  {
    var ia := query + "__" + Identity(a);
    var ib := query + "__" + Identity(b);
    JoinKeyThree(query, Identity(a), IntText(TruncDiv100(a.kopecks)));
    JoinKeyThree(query, Identity(b), IntText(TruncDiv100(b.kopecks)));
    SplitAtLastSeparator(ia, IntText(TruncDiv100(a.kopecks)), ib, IntText(TruncDiv100(b.kopecks)));
    IntTextInjective(TruncDiv100(a.kopecks), TruncDiv100(b.kopecks));
    assert Identity(a) == ia[|query| + 2..];
    assert Identity(b) == ib[|query| + 2..];
  }

  // ---------------------------------------------------------------------------
  // One item

  /** What handling one item came to. `Delivered` and `SendFailed` are the
      two outcomes in which a message was sent. */
  datatype Outcome = AboveThreshold | AlreadyNotified | Delivered | SendFailed

  datatype StepResult = StepResult(notified: set<string>, outcome: Outcome)

  /** One pass of the item loop. `sendOk` is what the messaging API would
      answer; it is consulted only when a message is sent. */
  function Step(notified: set<string>, q: QuerySpec, item: PricedItem, sendOk: bool): (r: StepResult)
    ensures r.outcome.AboveThreshold? <==> (item.kopecks as real) / 100.0 > q.threshold as real
    ensures r.outcome.AlreadyNotified? <==>
              AtOrBelow(item, q.threshold) && DedupKey(q.text, item) in notified
    ensures r.outcome.Delivered? <==>
              AtOrBelow(item, q.threshold) && DedupKey(q.text, item) !in notified && sendOk
    ensures r.outcome.Delivered? ==>
              r.notified - notified == {DedupKey(q.text, item)} && |r.notified| == |notified| + 1
    ensures !r.outcome.Delivered? ==> r.notified == notified
  {
    if !AtOrBelow(item, q.threshold) then StepResult(notified, AboveThreshold)
    else
      var uid := DedupKey(q.text, item);
      if uid in notified then StepResult(notified, AlreadyNotified)
      else if sendOk then StepResult(notified + {uid}, Delivered)
      else StepResult(notified, SendFailed)
  }

  /** An item priced exactly at the threshold qualifies. */
  lemma ThresholdIsInclusive(notified: set<string>, q: QuerySpec, item: PricedItem, sendOk: bool)
    requires item.kopecks == 100 * q.threshold
    ensures !Step(notified, q, item, sendOk).outcome.AboveThreshold?
  {
  }

  /** Once delivered, the same item is never sent again, whatever the API
      would answer, and the set stays put. */
  lemma StepAtMostOnce(notified: set<string>, q: QuerySpec, item: PricedItem, ok1: bool, ok2: bool)
    requires Step(notified, q, item, ok1).outcome.Delivered?
    ensures var after := Step(notified, q, item, ok1).notified;
            Step(after, q, item, ok2) == StepResult(after, AlreadyNotified)
  {
  }

  /** A failed send leaves the item eligible: the next attempt behaves as
      this one would have with the API's new answer. */
  lemma StepFailureRetries(notified: set<string>, q: QuerySpec, item: PricedItem, ok2: bool)
    requires Step(notified, q, item, false).outcome.SendFailed?
    ensures Step(Step(notified, q, item, false).notified, q, item, ok2) == Step(notified, q, item, ok2)
  {
  }

  // ---------------------------------------------------------------------------
  // All the items of one query

  datatype RunResult = RunResult(notified: set<string>, outcomes: seq<Outcome>)

  /** The item loop from position `i` on; `sendOk(j)` is the API's answer for
      item `j`. */
  function ProcessFrom(notified: set<string>, q: QuerySpec, items: seq<PricedItem>,
                       sendOk: nat -> bool, i: nat): (r: RunResult)
    requires i <= |items|
    ensures |r.outcomes| == |items| - i
    ensures notified <= r.notified
    decreases |items| - i
  {
    if i == |items| then RunResult(notified, [])
    else
      var s := Step(notified, q, items[i], sendOk(i));
      var rest := ProcessFrom(s.notified, q, items, sendOk, i + 1);
      RunResult(rest.notified, [s.outcome] + rest.outcomes)
  }

  /** The item loop of one query over the items its search returned. */
  function ProcessItems(notified: set<string>, q: QuerySpec, items: seq<PricedItem>,
                        sendOk: nat -> bool): (r: RunResult)
    ensures |r.outcomes| == |items|
    ensures notified <= r.notified
  {
    ProcessFrom(notified, q, items, sendOk, 0)
  }

  /** A delivery of item `j` in the loop started at `i`: the item qualified,
      its send succeeded, and its key was new then and is recorded at the end. */
  lemma {:induction false} ProcessDelivered(notified: set<string>, q: QuerySpec, items: seq<PricedItem>,
                                            sendOk: nat -> bool, i: nat, j: nat)
    requires i <= j < |items|
    requires ProcessFrom(notified, q, items, sendOk, i).outcomes[j - i].Delivered?
    ensures AtOrBelow(items[j], q.threshold) && sendOk(j)
    ensures DedupKey(q.text, items[j]) !in notified
    ensures DedupKey(q.text, items[j]) in ProcessFrom(notified, q, items, sendOk, i).notified
    decreases j - i
  {
    var s := Step(notified, q, items[i], sendOk(i));
    var rest := ProcessFrom(s.notified, q, items, sendOk, i + 1);
    if j > i {
      assert rest.outcomes[j - (i + 1)].Delivered?;
      ProcessDelivered(s.notified, q, items, sendOk, i + 1, j);
    }
  }

  lemma {:induction false} ProcessDeliveredOnce(notified: set<string>, q: QuerySpec, items: seq<PricedItem>,
                                                sendOk: nat -> bool, i: nat, j: nat, k: nat)
    requires i <= j < k < |items|
    requires ProcessFrom(notified, q, items, sendOk, i).outcomes[j - i].Delivered?
    requires ProcessFrom(notified, q, items, sendOk, i).outcomes[k - i].Delivered?
    ensures DedupKey(q.text, items[j]) != DedupKey(q.text, items[k])
    decreases j - i
  {
    var s := Step(notified, q, items[i], sendOk(i));
    var rest := ProcessFrom(s.notified, q, items, sendOk, i + 1);
    if j > i {
      assert rest.outcomes[k - (i + 1)].Delivered?;
      assert rest.outcomes[j - (i + 1)].Delivered?;
      ProcessDeliveredOnce(s.notified, q, items, sendOk, i + 1, j, k);
    } else {
      FirstDeliveryNotRepeated(notified, q, items, sendOk, i, k);
    }
  }

  /** A delivery at the start of the loop is not repeated later in it. */
  lemma FirstDeliveryNotRepeated(notified: set<string>, q: QuerySpec, items: seq<PricedItem>,
                                 sendOk: nat -> bool, i: nat, k: nat)
    requires i < k < |items|
    requires ProcessFrom(notified, q, items, sendOk, i).outcomes[0].Delivered?
    requires ProcessFrom(notified, q, items, sendOk, i).outcomes[k - i].Delivered?
    ensures DedupKey(q.text, items[i]) != DedupKey(q.text, items[k])
  {
    var s := Step(notified, q, items[i], sendOk(i));
    var rest := ProcessFrom(s.notified, q, items, sendOk, i + 1);
    assert s.outcome.Delivered?;
    assert DedupKey(q.text, items[i]) in s.notified;
    assert rest.outcomes[k - (i + 1)].Delivered?;
    ProcessDelivered(s.notified, q, items, sendOk, i + 1, k);
  }

  lemma {:induction false} ProcessRecordsDeliveries(notified: set<string>, q: QuerySpec, items: seq<PricedItem>,
                                                    sendOk: nat -> bool, i: nat, u: string)
    returns (j: nat)
    requires i <= |items|
    requires u in ProcessFrom(notified, q, items, sendOk, i).notified && u !in notified
    ensures i <= j < |items| && ProcessFrom(notified, q, items, sendOk, i).outcomes[j - i].Delivered?
    ensures u == DedupKey(q.text, items[j])
    decreases |items| - i
  {
    var s := Step(notified, q, items[i], sendOk(i));
    var rest := ProcessFrom(s.notified, q, items, sendOk, i + 1);
    assert ProcessFrom(notified, q, items, sendOk, i).outcomes == [s.outcome] + rest.outcomes;
    if u in s.notified {
      j := i;
    } else {
      j := ProcessRecordsDeliveries(s.notified, q, items, sendOk, i + 1, u);
      assert ProcessFrom(notified, q, items, sendOk, i).outcomes[j - i] == rest.outcomes[j - (i + 1)];
    }
  }

  /** At most one notification per identifier: a delivered item qualified,
      its key was not known before and is known after, and two deliveries
      never share a key. */
  lemma ProcessItemsAtMostOnce(notified: set<string>, q: QuerySpec, items: seq<PricedItem>,
                               sendOk: nat -> bool, j: nat, k: nat)
    requires j < k < |items|
    requires ProcessItems(notified, q, items, sendOk).outcomes[j].Delivered?
    ensures AtOrBelow(items[j], q.threshold) && sendOk(j)
    ensures DedupKey(q.text, items[j]) !in notified
    ensures DedupKey(q.text, items[j]) in ProcessItems(notified, q, items, sendOk).notified
    ensures ProcessItems(notified, q, items, sendOk).outcomes[k].Delivered? ==>
              DedupKey(q.text, items[j]) != DedupKey(q.text, items[k])
  {
    var run := ProcessFrom(notified, q, items, sendOk, 0);
    assert ProcessItems(notified, q, items, sendOk) == run;
    ProcessDelivered(notified, q, items, sendOk, 0, j);
    if run.outcomes[k].Delivered? {
      ProcessDeliveredOnce(notified, q, items, sendOk, 0, j, k);
    }
  }

  /** Every identifier the loop adds is that of a delivered item that
      qualified. */
  lemma ProcessItemsOnlyRecordsDeliveries(notified: set<string>, q: QuerySpec, items: seq<PricedItem>,
                                          sendOk: nat -> bool, u: string)
    requires u in ProcessItems(notified, q, items, sendOk).notified && u !in notified
    ensures exists j :: 0 <= j < |items| && ProcessItems(notified, q, items, sendOk).outcomes[j].Delivered?
                        && u == DedupKey(q.text, items[j]) && AtOrBelow(items[j], q.threshold)
  {
    var j := ProcessRecordsDeliveries(notified, q, items, sendOk, 0, u);
    ProcessDelivered(notified, q, items, sendOk, 0, j);
  }

  /** The same qualifying item met twice in one run is sent once and grows
      the set by one, however often the API succeeds. */
  lemma SameItemTwiceNotifiedOnce(notified: set<string>, q: QuerySpec, item: PricedItem)
    requires AtOrBelow(item, q.threshold) && DedupKey(q.text, item) !in notified
    ensures var r := ProcessItems(notified, q, [item, item], _ => true);
            r.outcomes == [Delivered, AlreadyNotified] && |r.notified| == |notified| + 1
  {
    var ok: nat -> bool := _ => true;
    var s0 := Step(notified, q, item, true);
    var s1 := Step(s0.notified, q, item, true);
    assert s1 == StepResult(s0.notified, AlreadyNotified);
    var r1 := ProcessFrom(s0.notified, q, [item, item], ok, 1);
    assert ProcessFrom(s1.notified, q, [item, item], ok, 2) == RunResult(s1.notified, []);
    assert r1 == RunResult(s1.notified, [AlreadyNotified]);
  }

  /** Running the loop up to position `j` and then on from `j` is running it
      in one go. */
  lemma {:induction false} ProcessFromSplit(notified: set<string>, q: QuerySpec, items: seq<PricedItem>,
                                            sendOk: nat -> bool, i: nat, j: nat)
    requires i <= j <= |items|
    ensures var head := ProcessFrom(notified, q, items[..j], sendOk, i);
            var tail := ProcessFrom(head.notified, q, items, sendOk, j);
            ProcessFrom(notified, q, items, sendOk, i) == RunResult(tail.notified, head.outcomes + tail.outcomes)
    decreases j - i
  {
    if i < j {
      assert items[..j][i] == items[i];
      var s := Step(notified, q, items[i], sendOk(i));
      var head := ProcessFrom(s.notified, q, items[..j], sendOk, i + 1);
      assert ProcessFrom(notified, q, items[..j], sendOk, i) == RunResult(head.notified, [s.outcome] + head.outcomes);
      ProcessFromSplit(s.notified, q, items, sendOk, i + 1, j);
    }
  }

  /** Item `j` is handled by exactly one step, taken with the set the items
      before it left behind; that step's set is what the items up to `j`
      leave behind. Together these fix the whole run. */
  lemma ProcessStepAt(notified: set<string>, q: QuerySpec, items: seq<PricedItem>, sendOk: nat -> bool, j: nat)
    requires j < |items|
    ensures var before := ProcessItems(notified, q, items[..j], sendOk).notified;
            var s := Step(before, q, items[j], sendOk(j));
            && ProcessItems(notified, q, items, sendOk).outcomes[j] == s.outcome
            && ProcessItems(notified, q, items[..j + 1], sendOk).notified == s.notified
  {
    var head := ProcessFrom(notified, q, items[..j], sendOk, 0);
    ProcessFromSplit(notified, q, items, sendOk, 0, j);
    var prefix := items[..j + 1];
    assert prefix[..j] == items[..j];
    assert prefix[j] == items[j];
    ProcessFromSplit(notified, q, prefix, sendOk, 0, j);
  }

  // ---------------------------------------------------------------------------
  // One cycle over the watch list

  /** `search_wb`: the items of a decoded answer, or none when the request,
      the status or the decoding failed. */
  function SearchItems(answer: Option<Json>): (r: seq<PricedItem>)
    ensures r != [] ==> answer.Some?
    ensures forall it :: it in r <==>
              answer.Some? && exists c :: c in Candidates(answer.value) && ToItem(c) == Some(it)
  {
    match answer
    case None => []
    case Some(data) => ParseSearchResults(data)
  }

  /** The API's answers for the items of query `i`. */
  function PassAnswers(sendOk: (nat, nat) -> bool, i: nat): nat -> bool {
    (j: nat) => sendOk(i, j)
  }

  /** One pass of the outer `for q in QUERIES` loop from query `i` on.
      `answer(i)` is the decoded answer of the search for query `i` and
      `sendOk(i, j)` the API's answer for its item `j`. */
  function CycleFrom(notified: set<string>, queries: seq<QuerySpec>, answer: nat -> Option<Json>,
                     sendOk: (nat, nat) -> bool, i: nat): (r: set<string>)
    ensures notified <= r
    ensures forall u :: u in r && u !in notified ==>
              exists qi, item :: i <= qi < |queries| && item in SearchItems(answer(qi))
                                 && AtOrBelow(item, queries[qi].threshold)
                                 && u == DedupKey(queries[qi].text, item)
    decreases |queries| - i
  {
    if i >= |queries| then notified
    else
      var items := SearchItems(answer(i));
      var run := ProcessItems(notified, queries[i], items, PassAnswers(sendOk, i));
      forall u | u in run.notified && u !in notified
        ensures exists item :: item in items && AtOrBelow(item, queries[i].threshold)
                               && u == DedupKey(queries[i].text, item)
      {
        ProcessItemsOnlyRecordsDeliveries(notified, queries[i], items, PassAnswers(sendOk, i), u);
      }
      CycleFrom(run.notified, queries, answer, sendOk, i + 1)
  }

  /** Running the queries before `j` and then those from `j` on is running
      them in one go. */
  lemma {:induction false} CycleFromSplit(notified: set<string>, queries: seq<QuerySpec>, answer: nat -> Option<Json>,
                                          sendOk: (nat, nat) -> bool, i: nat, j: nat)
    requires i <= j <= |queries|
    ensures CycleFrom(notified, queries, answer, sendOk, i)
            == CycleFrom(CycleFrom(notified, queries[..j], answer, sendOk, i), queries, answer, sendOk, j)
    decreases j - i
  {
    if i < j {
      assert queries[..j][i] == queries[i];
      var run := ProcessItems(notified, queries[i], SearchItems(answer(i)), PassAnswers(sendOk, i));
      CycleFromSplit(run.notified, queries, answer, sendOk, i + 1, j);
    }
  }

  /** Query `qi` gets its full pass, with the set the earlier queries left
      behind; everything that pass records is still there at the end of the
      round. */
  lemma CyclePassRecorded(notified: set<string>, queries: seq<QuerySpec>, answer: nat -> Option<Json>,
                          sendOk: (nat, nat) -> bool, qi: nat)
    requires qi < |queries|
    ensures var before := CycleFrom(notified, queries[..qi], answer, sendOk, 0);
            var pass := ProcessItems(before, queries[qi], SearchItems(answer(qi)), PassAnswers(sendOk, qi));
            && CycleFrom(notified, queries[..qi + 1], answer, sendOk, 0) == pass.notified
            && pass.notified <= CycleFrom(notified, queries, answer, sendOk, 0)
  {
    var prefix := queries[..qi + 1];
    assert prefix[..qi] == queries[..qi];
    assert prefix[qi] == queries[qi];
    CycleFromSplit(notified, prefix, answer, sendOk, 0, qi);
    CycleFromSplit(notified, queries, answer, sendOk, 0, qi + 1);
  }
}
