/**
Matching items with transactions (src/services/matcher.py) and the date window in
which transactions are fetched for it (src/services/firefly_enrichment_service.py).
*/
module Matching {
  import opened Wrappers
  import opened Calendar
  import opened Text
  import opened Ledger
  import opened Filters
  import opened Metrics
  import opened Evidence

  const FUTURE_DAYS := 7

  datatype MatchStatus = NewMatch | AlreadyProcessed

  datatype MatchResult = MatchResult(tx: Transaction, matches: seq<Item>, status: MatchStatus)

  // ----- what matching means -----

  predicate Fits(txs: seq<Transaction>, item: Item) {
    exists tx | tx in txs :: Compare(item, tx)
  }

  function FitsTransaction(tx: Transaction): Item -> bool {
    (item: Item) => Compare(item, tx)
  }

  function FitsNothing(txs: seq<Transaction>): Item -> bool {
    (item: Item) => !Fits(txs, item)
  }

  function ResultFor(tx: Transaction, items: seq<Item>, tagDone: string): MatchResult {
    MatchResult(tx, Filter(FitsTransaction(tx), items), if tagDone in tx.tags then AlreadyProcessed else NewMatch)
  }

  /** One result per transaction, in order. */
  function ResultsFor(txs: seq<Transaction>, items: seq<Item>, tagDone: string): (r: seq<MatchResult>)
    ensures |r| == |txs| && forall i | 0 <= i < |txs| :: r[i].tx == txs[i]
  {
    if txs == [] then [] else [ResultFor(txs[0], items, tagDone)] + ResultsFor(txs[1..], items, tagDone)
  }

  function Unmatched(txs: seq<Transaction>, items: seq<Item>): seq<Item> {
    Filter(FitsNothing(txs), items)
  }

  lemma {:induction false} OneMoreResult(txs: seq<Transaction>, tx: Transaction, items: seq<Item>, tagDone: string)
    ensures ResultsFor(txs + [tx], items, tagDone) == ResultsFor(txs, items, tagDone) + [ResultFor(tx, items, tagDone)]
  {
    if txs == [] {
      assert [] + [tx] == [tx];
    } else {
      assert (txs + [tx])[1..] == txs[1..] + [tx];
      OneMoreResult(txs[1..], tx, items, tagDone);
    }
  }

  /** The indexes that the code remembers: those whose item fits some transaction seen so far. */
  ghost predicate Remembers(matchedIndexes: set<nat>, txs: seq<Transaction>, items: seq<Item>) {
    forall i: nat :: i in matchedIndexes <==> i < |items| && Fits(txs, items[i])
  }

  /** The indexes marked after looking at the first n items. */
  ghost predicate Marked(after: set<nat>, before: set<nat>, fits: Item -> bool, items: seq<Item>, n: nat) {
    n <= |items| && forall k: nat :: k in after <==> k in before || (k < n && fits(items[k]))
  }

  lemma MarkedOneMore(after: set<nat>, before: set<nat>, fits: Item -> bool, items: seq<Item>, n: nat)
    requires n < |items| && Marked(after, before, fits, items, n)
    ensures Marked(if fits(items[n]) then after + {n} else after, before, fits, items, n + 1)
  {
  }

  lemma FilterSoFar(fits: Item -> bool, items: seq<Item>, n: nat)
    requires n < |items|
    ensures Filter(fits, items[..n + 1]) == Filter(fits, items[..n]) + (if fits(items[n]) then [items[n]] else [])
  {
    FilterOneMore(fits, items[..n], items[n]);
    assert items[..n + 1] == items[..n] + [items[n]];
  }

  /** One pass over the items for one transaction; `fits` says which items compare true with it. */
  method MatchOne(fits: Item -> bool, items: seq<Item>, matchedBefore: set<nat>)
    returns (txMatches: seq<Item>, matchedIndexes: set<nat>)
    ensures txMatches == Filter(fits, items)
    ensures Marked(matchedIndexes, matchedBefore, fits, items, |items|)
  {
    txMatches, matchedIndexes := [], matchedBefore;
    for i := 0 to |items|
      invariant txMatches == Filter(fits, items[..i])
      invariant Marked(matchedIndexes, matchedBefore, fits, items, i)
    {
      FilterSoFar(fits, items, i);
      MarkedOneMore(matchedIndexes, matchedBefore, fits, items, i);
      if fits(items[i]) {
        txMatches := txMatches + [items[i]];
        matchedIndexes := matchedIndexes + {i};
      }
    }
    assert items[..|items|] == items;
  }

  lemma RemembersOneMore(before: set<nat>, after: set<nat>, txs: seq<Transaction>, tx: Transaction, items: seq<Item>)
    requires Remembers(before, txs, items)
    requires Marked(after, before, FitsTransaction(tx), items, |items|)
    ensures Remembers(after, txs + [tx], items)
  {
    forall i: nat ensures i in after <==> i < |items| && Fits(txs + [tx], items[i]) {
      if i < |items| {
        OneMoreFits(txs, tx, items[i]);
      }
    }
  }

  /** `match_transactions`. */
  method MatchTransactions(txs: seq<Transaction>, items: seq<Item>, tagDone: string)
    returns (results: seq<MatchResult>, unmatchedItems: seq<Item>)
    ensures results == ResultsFor(txs, items, tagDone)
    ensures unmatchedItems == Unmatched(txs, items)
  {
    results := [];
    var matchedIndexes: set<nat> := {};
    for t := 0 to |txs|
      invariant results == ResultsFor(txs[..t], items, tagDone)
      invariant Remembers(matchedIndexes, txs[..t], items)
    {
      var txMatches;
      ghost var before := matchedIndexes;
      txMatches, matchedIndexes := MatchOne(FitsTransaction(txs[t]), items, matchedIndexes);
      assert txs[..t + 1] == txs[..t] + [txs[t]];
      RemembersOneMore(before, matchedIndexes, txs[..t], txs[t], items);
      OneMoreResult(txs[..t], txs[t], items, tagDone);
      var status := if tagDone in txs[t].tags then AlreadyProcessed else NewMatch;
      results := results + [MatchResult(txs[t], txMatches, status)];
    }
    assert txs[..|txs|] == txs;
    unmatchedItems := NotRemembered(txs, items, matchedIndexes);
  }

  lemma OneMoreFits(txs: seq<Transaction>, tx: Transaction, item: Item)
    ensures Fits(txs + [tx], item) <==> Fits(txs, item) || Compare(item, tx)
  {
    if Fits(txs, item) {
      var t :| t in txs && Compare(item, t);
      assert t in txs + [tx];
    }
    assert tx in txs + [tx];
  }

  method NotRemembered(ghost txs: seq<Transaction>, items: seq<Item>, matchedIndexes: set<nat>)
    returns (unmatchedItems: seq<Item>)
    requires Remembers(matchedIndexes, txs, items)
    ensures unmatchedItems == Unmatched(txs, items)
  {
    unmatchedItems := [];
    for i := 0 to |items|
      invariant unmatchedItems == Unmatched(txs, items[..i])
    {
      FilterSoFar(FitsNothing(txs), items, i);
      if i !in matchedIndexes {
        unmatchedItems := unmatchedItems + [items[i]];
      }
    }
    assert items[..|items|] == items;
  }

  // ----- what a match is -----

  /**
  Same amount up to the sign; a record must be of the transaction's day, a payment of that day or one of the six days
  before it.
  */
  predicate BelongTogether(item: Item, tx: Transaction) {
    && (item.amount.value == tx.amount || item.amount.value == -tx.amount)
    && match item
       case BankRecord(date, _, _, _, _, _, _, _, _, _) => date == tx.date
       case OrderPayment(date, _, _, _, _) => 0 <= Ordinal(tx.date) - Ordinal(date) <= 6
  }

  function BelongsTo(tx: Transaction): Item -> bool {
    (item: Item) => BelongTogether(item, tx)
  }

  function BelongsToNone(txs: seq<Transaction>): Item -> bool {
    (item: Item) => forall tx | tx in txs :: !BelongTogether(item, tx)
  }

  /** The i-th result holds, in order, exactly the items that belong to the i-th transaction. */
  lemma MatchesAreExact(txs: seq<Transaction>, items: seq<Item>, tagDone: string, i: nat) returns (at: seq<nat>)
    requires i < |txs|
    ensures var r := ResultsFor(txs, items, tagDone)[i];
            && r.tx == txs[i]
            && KeptAt(at, r.matches, BelongsTo(txs[i]), items)
            && (r.status == AlreadyProcessed <==> tagDone in txs[i].tags)
  {
    ResultAt(txs, items, tagDone, i);
    FiltersAgree(FitsTransaction(txs[i]), BelongsTo(txs[i]), items);
    at := FilterKeepsPositions(BelongsTo(txs[i]), items);
  }

  lemma {:induction false} ResultAt(txs: seq<Transaction>, items: seq<Item>, tagDone: string, i: nat)
    requires i < |txs|
    ensures ResultsFor(txs, items, tagDone)[i] == ResultFor(txs[i], items, tagDone)
  {
    if i == 0 {
    } else {
      ResultAt(txs[1..], items, tagDone, i - 1);
    }
  }

  /** The unmatched items are, in order, exactly those that belong to no transaction. */
  lemma UnmatchedAreExact(txs: seq<Transaction>, items: seq<Item>) returns (at: seq<nat>)
    ensures KeptAt(at, Unmatched(txs, items), BelongsToNone(txs), items)
  {
    FiltersAgree(FitsNothing(txs), BelongsToNone(txs), items);
    at := FilterKeepsPositions(BelongsToNone(txs), items);
  }

  /** Every item is either in some transaction's result or unmatched, and never both. */
  lemma EveryItemIsAccountedFor(txs: seq<Transaction>, items: seq<Item>, tagDone: string, item: Item)
    requires item in items
    ensures item in Unmatched(txs, items) <==> forall r | r in ResultsFor(txs, items, tagDone) :: item !in r.matches
  {
    forall r | r in ResultsFor(txs, items, tagDone)
      ensures r.tx in txs && (item in r.matches <==> Compare(item, r.tx))
    {
      ResultsComeFrom(txs, items, tagDone, r);
    }
    if tx :| tx in txs && Compare(item, tx) {
      ResultIsPresent(txs, items, tagDone, tx);
    }
  }

  lemma {:induction false} ResultsComeFrom(txs: seq<Transaction>, items: seq<Item>, tagDone: string, r: MatchResult)
    requires r in ResultsFor(txs, items, tagDone)
    ensures r.tx in txs && r == ResultFor(r.tx, items, tagDone)
  {
    if r != ResultFor(txs[0], items, tagDone) {
      ResultsComeFrom(txs[1..], items, tagDone, r);
    }
  }

  lemma {:induction false} ResultIsPresent(txs: seq<Transaction>, items: seq<Item>, tagDone: string, tx: Transaction)
    requires tx in txs
    ensures ResultFor(tx, items, tagDone) in ResultsFor(txs, items, tagDone)
  {
    if tx != txs[0] {
      ResultIsPresent(txs[1..], items, tagDone, tx);
    }
  }

  // ----- the window -----

  datatype Firefly = Down(message: string) | Up(ledger: seq<Transaction>)

  datatype MatchError = NoCandidates | FireflyServiceError(message: string)

  datatype Matched = Matched(results: seq<MatchResult>, unmatched: seq<Item>)

  function MinDay(items: seq<Item>): (r: int)
    requires items != []
    ensures forall item | item in items :: r <= Ordinal(item.date)
    ensures exists item | item in items :: r == Ordinal(item.date)
  {
    if |items| == 1 then
      assert items[0] in items;
      Ordinal(items[0].date)
    else
      var rest, first := MinDay(items[1..]), Ordinal(items[0].date);
      assert items == [items[0]] + items[1..] && items[0] in items;
      assert forall item | item in items[1..] :: item in items;
      if first <= rest then first else rest
  }

  function MaxDay(items: seq<Item>): (r: int)
    requires items != []
    ensures forall item | item in items :: Ordinal(item.date) <= r
    ensures exists item | item in items :: r == Ordinal(item.date)
  {
    if |items| == 1 then
      assert items[0] in items;
      Ordinal(items[0].date)
    else
      var rest, first := MaxDay(items[1..]), Ordinal(items[0].date);
      assert items == [items[0]] + items[1..] && items[0] in items;
      assert forall item | item in items[1..] :: item in items;
      if first >= rest then first else rest
  }

  /** The transactions the service looks at when it fetches `futureDays` beyond the last candidate. */
  function Fetched(ledger: seq<Transaction>, items: seq<Item>, filterText: string, futureDays: int): seq<Transaction>
    requires items != []
  {
    FilterByDescription(InRange(ledger, MinDay(items), MaxDay(items) + futureDays), filterText, false, false)
  }

  method FetchWindow(ledger: seq<Transaction>, candidates: seq<Item>, filterText: string)
    returns (filtered: seq<Transaction>)
    requires candidates != []
    ensures filtered == Fetched(ledger, candidates, filterText, FUTURE_DAYS)
  {
    var minDate, maxDate := MinDay(candidates), MaxDay(candidates) + FUTURE_DAYS;
    var domainTxs := InRange(ledger, minDate, maxDate);
    filtered := FilterByDescription(domainTxs, filterText, false, false);
  }

  function MatchedAgainst(txs: seq<Transaction>, candidates: seq<Item>, tagDone: string): Matched {
    Matched(ResultsFor(txs, candidates, tagDone), Unmatched(txs, candidates))
  }

  /** `match_with_unmatched`: `min()` of no candidates raises, and so does a failing Firefly. */
  method MatchWithUnmatched(firefly: Firefly, candidates: seq<Item>, filterText: string, tagDone: string)
    returns (r: Result<Matched, MatchError>)
    ensures r == if candidates == [] then Err(NoCandidates)
                 else if firefly.Down? then Err(FireflyServiceError(firefly.message))
                 else Ok(MatchedAgainst(Fetched(firefly.ledger, candidates, filterText, FUTURE_DAYS),
                                        candidates, tagDone))
  {
    if candidates == [] {
      return Err(NoCandidates);
    }
    if firefly.Down? {
      return Err(FireflyServiceError(firefly.message));
    }
    var filtered := FetchWindow(firefly.ledger, candidates, filterText);
    var results, unmatched := MatchTransactions(filtered, candidates, tagDone);
    r := Ok(Matched(results, unmatched));
  }

  function TransactionId(): Transaction -> int {
    (tx: Transaction) => tx.id
  }

  // ----- the window loses nothing -----

  function SomeMatch(): MatchResult -> bool {
    (r: MatchResult) => r.matches != []
  }

  lemma NothingFits(tx: Transaction, items: seq<Item>)
    requires forall item | item in items :: !Compare(item, tx)
    ensures Filter(FitsTransaction(tx), items) == []
  {
    assert forall item :: item !in Filter(FitsTransaction(tx), items);
  }

  /** Leaving out transactions that fit no item changes no result that matches something. */
  lemma {:induction false} UselessTransactionsDoNotMatter(
    keep: Transaction -> bool, txs: seq<Transaction>, items: seq<Item>, tagDone: string)
    requires forall tx, item | tx in txs && item in items && Compare(item, tx) :: keep(tx)
    ensures Filter(SomeMatch(), ResultsFor(Filter(keep, txs), items, tagDone)) ==
            Filter(SomeMatch(), ResultsFor(txs, items, tagDone))
  {
    if txs == [] {
    } else {
      UselessTransactionsDoNotMatter(keep, txs[1..], items, tagDone);
      var rest := Filter(keep, txs[1..]);
      assert ([txs[0]] + rest)[1..] == rest;
      var head := ResultFor(txs[0], items, tagDone);
      assert ([head] + ResultsFor(rest, items, tagDone))[1..] == ResultsFor(rest, items, tagDone);
      assert ([head] + ResultsFor(txs[1..], items, tagDone))[1..] == ResultsFor(txs[1..], items, tagDone);
      if !keep(txs[0]) {
        assert txs[0] in txs;
        NothingFits(txs[0], items);
      }
    }
  }

  lemma UselessTransactionsMatchNothing(keep: Transaction -> bool, txs: seq<Transaction>, items: seq<Item>)
    requires forall tx, item | tx in txs && item in items && Compare(item, tx) :: keep(tx)
    ensures Unmatched(Filter(keep, txs), items) == Unmatched(txs, items)
  {
    forall item | item in items ensures Fits(Filter(keep, txs), item) == Fits(txs, item) {
      if tx :| tx in txs && Compare(item, tx) {
        assert tx in Filter(keep, txs);
      }
    }
    FiltersAgree(FitsNothing(Filter(keep, txs)), FitsNothing(txs), items);
  }

  /** Whether fetching `futureDays` past the last candidate finds everything the whole ledger would. */
  ghost predicate FindsEverything(futureDays: int) {
    forall ledger: seq<Transaction>, items: seq<Item>, filterText: string, tagDone: string | items != [] ::
      SameFindings(Fetched(ledger, items, filterText, futureDays),
                   FilterByDescription(ledger, filterText, false, false), items, tagDone)
  }

  ghost predicate SameFindings(some: seq<Transaction>, all: seq<Transaction>, items: seq<Item>, tagDone: string) {
    && Unmatched(some, items) == Unmatched(all, items)
    && Filter(SomeMatch(), ResultsFor(some, items, tagDone)) == Filter(SomeMatch(), ResultsFor(all, items, tagDone))
  }

  lemma MatchIsInTime(item: Item, tx: Transaction)
    requires Compare(item, tx)
    ensures Ordinal(item.date) <= Ordinal(tx.date) <= Ordinal(item.date) + TOLERANCE_DAYS
  {
  }

  lemma MatchIsInWindow(start: int, end: int, futureDays: int, item: Item, tx: Transaction)
    requires TOLERANCE_DAYS <= futureDays && Compare(item, tx)
    requires start <= Ordinal(item.date) && Ordinal(item.date) + futureDays <= end
    ensures InWindow(start, end)(tx)
  {
    MatchIsInTime(item, tx);
  }

  /** Filtering by `keep` before or after filtering by `named` finds the same, if `keep` keeps whatever fits. */
  lemma RestrictionFindsEverything(
    named: Transaction -> bool, keep: Transaction -> bool, ledger: seq<Transaction>, items: seq<Item>, tagDone: string)
    requires forall tx, item | item in items && Compare(item, tx) :: keep(tx)
    ensures SameFindings(Filter(named, Filter(keep, ledger)), Filter(named, ledger), items, tagDone)
  {
    FiltersCommute(named, keep, ledger);
    UselessTransactionsDoNotMatter(keep, Filter(named, ledger), items, tagDone);
    UselessTransactionsMatchNothing(keep, Filter(named, ledger), items);
  }

  /** A window that spans the dates of the items. */
  ghost predicate Spans(start: int, end: int, futureDays: int, items: seq<Item>) {
    forall item | item in items :: start <= Ordinal(item.date) && Ordinal(item.date) + futureDays <= end
  }

  lemma WindowHoldsEveryMatch(start: int, end: int, futureDays: int, items: seq<Item>)
    requires TOLERANCE_DAYS <= futureDays && Spans(start, end, futureDays, items)
    ensures forall tx, item | item in items && Compare(item, tx) :: InWindow(start, end)(tx)
  {
    forall tx, item | item in items && Compare(item, tx) ensures InWindow(start, end)(tx) {
      MatchIsInWindow(start, end, futureDays, item, tx);
    }
  }

  lemma FetchedWindowSpans(futureDays: int, items: seq<Item>)
    requires items != []
    ensures Spans(MinDay(items), MaxDay(items) + futureDays, futureDays, items)
  {
  }

  lemma WideWindowFindsEverything(
    futureDays: int, ledger: seq<Transaction>, items: seq<Item>, filterText: string, tagDone: string)
    requires TOLERANCE_DAYS <= futureDays && items != []
    ensures SameFindings(Fetched(ledger, items, filterText, futureDays),
                         FilterByDescription(ledger, filterText, false, false), items, tagDone)
  {
    FetchedWindowSpans(futureDays, items);
    WindowHoldsEveryMatch(MinDay(items), MaxDay(items) + futureDays, futureDays, items);
    RestrictionFindsEverything(KeepDescription(filterText, false, false),
                               InWindow(MinDay(items), MaxDay(items) + futureDays), ledger, items, tagDone);
  }

  /** A payment and the transaction booked six days later, the last day it tolerates. */
  const LATE_PAYMENT: Item := OrderPayment(RawDate.Date(2024, 1, 1), Money(5.0, "5.00"), ["x"], ALLEGRO_DONE, "p")
  const LATE_TX: Transaction := Transaction(1, RawDate.Date(2024, 1, 7), -5.0, "", {}, None, None)

  lemma NarrowWindowLosesAMatch(futureDays: int)
    requires futureDays < TOLERANCE_DAYS
    ensures !FindsEverything(futureDays)
  {
    var ledger, items := [LATE_TX], [LATE_PAYMENT];
    assert Ordinal(LATE_TX.date) == Ordinal(LATE_PAYMENT.date) + 6 && Compare(LATE_PAYMENT, LATE_TX);
    assert items[0] == LATE_PAYMENT && MaxDay(items) == Ordinal(LATE_PAYMENT.date);
    assert OccursAt(Lower(""), Lower(""), 0);
    assert ledger[0] == LATE_TX && LATE_TX in FilterByDescription(ledger, "", false, false);
    assert !exists tx :: tx in Fetched(ledger, items, "", futureDays);
    assert LATE_PAYMENT in Unmatched(Fetched(ledger, items, "", futureDays), items);
    assert LATE_PAYMENT !in Unmatched(FilterByDescription(ledger, "", false, false), items);
    assert !SameFindings(Fetched(ledger, items, "", futureDays), FilterByDescription(ledger, "", false, false),
                         items, "");
  }

  /** The window loses no match, whatever it is asked for, exactly when it reaches six days past the last candidate. */
  lemma WindowIsTight(futureDays: int)
    ensures FindsEverything(futureDays) <==> futureDays >= TOLERANCE_DAYS
  {
    if futureDays >= TOLERANCE_DAYS {
      forall ledger: seq<Transaction>, items: seq<Item>, filterText: string, tagDone: string | items != []
        ensures SameFindings(Fetched(ledger, items, filterText, futureDays),
                             FilterByDescription(ledger, filterText, false, false), items, tagDone)
      {
        WideWindowFindsEverything(futureDays, ledger, items, filterText, tagDone);
      }
    } else {
      NarrowWindowLosesAMatch(futureDays);
    }
  }

  lemma FetchedIff(ledger: seq<Transaction>, items: seq<Item>, filterText: string, tx: Transaction)
    requires items != []
    ensures tx in Fetched(ledger, items, filterText, FUTURE_DAYS) <==>
            && tx in ledger && Contains(Lower(tx.description), Lower(filterText))
            && MinDay(items) <= Ordinal(tx.date) <= MaxDay(items) + 7
  {
  }

  /** A day is within the extremes exactly when some item is before it and some item is after it. */
  lemma BetweenTheExtremes(items: seq<Item>, day: int)
    requires items != []
    ensures MinDay(items) <= day <==> exists item | item in items :: Ordinal(item.date) <= day
    ensures day <= MaxDay(items) <==> exists item | item in items :: day <= Ordinal(item.date)
  {
    var earliest, latest := MinDay(items), MaxDay(items);
    var first :| first in items && earliest == Ordinal(first.date);
    var last :| last in items && latest == Ordinal(last.date);
  }

  /** The service looks at the named transactions from the day of some candidate to seven days after some candidate. */
  lemma FetchedTransactions(ledger: seq<Transaction>, items: seq<Item>, filterText: string, tx: Transaction)
    requires items != []
    ensures tx in Fetched(ledger, items, filterText, FUTURE_DAYS) <==>
            && tx in ledger && Contains(Lower(tx.description), Lower(filterText))
            && (exists item | item in items :: Ordinal(item.date) <= Ordinal(tx.date))
            && (exists item | item in items :: Ordinal(tx.date) - 7 <= Ordinal(item.date))
  {
    FetchedIff(ledger, items, filterText, tx);
    BetweenTheExtremes(items, Ordinal(tx.date));
    BetweenTheExtremes(items, Ordinal(tx.date) - 7);
  }

  /** With the configured seven days the service finds everything that matching the whole ledger would find. */
  lemma WindowLosesNothing(ledger: seq<Transaction>, items: seq<Item>, filterText: string, tagDone: string)
    requires items != []
    ensures SameFindings(Fetched(ledger, items, filterText, FUTURE_DAYS),
                         FilterByDescription(ledger, filterText, false, false), items, tagDone)
  {
    WideWindowFindsEverything(FUTURE_DAYS, ledger, items, filterText, tagDone);
  }
}
