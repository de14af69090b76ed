/**
The filter chains that turn a transaction snapshot into statistics
(src/services/snapshot/metrics.py) and the monthly screening list
(src/services/firefly_tx_service.py), and the laws that tie them together.
*/
module Metrics {
  import opened Wrappers
  import opened Calendar
  import opened Text
  import opened Ledger
  import opened Filters

  datatype FetchMetrics = FetchMetrics(total: int, durationMs: int)

  /** One fetch of the whole ledger; `fetchedAt` is the clock reading when it finished. */
  datatype Snapshot = Snapshot(transactions: seq<Transaction>, metrics: FetchMetrics, fetchedAt: int)

  // ----- filters -----

  predicate DescriptionMatches(tx: Transaction, filter: string, exact: bool) {
    var description, wanted := Lower(tx.description), Lower(filter);
    if exact then description == wanted else Contains(description, wanted)
  }

  function KeepDescription(filter: string, exact: bool, exclude: bool): Transaction -> bool {
    (t: Transaction) => DescriptionMatches(t, filter, exact) != exclude
  }

  function FilterByDescription(txs: seq<Transaction>, filter: string, exact: bool, exclude: bool): seq<Transaction> {
    Filter(KeepDescription(filter, exact, exclude), txs)
  }

  function FilterOutCategorized(txs: seq<Transaction>): seq<Transaction> {
    Filter((t: Transaction) => t.category.None?, txs)
  }

  function FilterOutTag(txs: seq<Transaction>, tag: string): seq<Transaction> {
    Filter((t: Transaction) => tag !in t.tags, txs)
  }

  /** An Allegro purchase whose order details were not attached yet. The filter text is not lower-cased. */
  predicate AllegroPending(tx: Transaction, filterAllegro: string) {
    Contains(Lower(tx.description), filterAllegro) && ALLEGRO_DONE !in tx.tags
  }

  function FilterOutAllegroPending(txs: seq<Transaction>, filterAllegro: string): seq<Transaction> {
    Filter((t: Transaction) => !AllegroPending(t, filterAllegro), txs)
  }

  // ----- counting per month -----

  datatype MonthCount = MonthCount(month: Month, count: nat)

  /** A month histogram in ascending month order, as `groupby(...).size().sort_index()` returns it. */
  ghost predicate Ascending(g: seq<MonthCount>) {
    forall i, j | 0 <= i < j < |g| :: MonthBefore(g[i].month, g[j].month)
  }

  function Bump(g: seq<MonthCount>, m: Month): seq<MonthCount> {
    if g == [] then [MonthCount(m, 1)]
    else if g[0].month == m then [MonthCount(m, g[0].count + 1)] + g[1..]
    else if MonthBefore(m, g[0].month) then [MonthCount(m, 1)] + g
    else [g[0]] + Bump(g[1..], m)
  }

  function GroupByMonth(txs: seq<Transaction>): seq<MonthCount> {
    if txs == [] then [] else Bump(GroupByMonth(txs[1..]), MonthOf(txs[0].date))
  }

  /** Looking a month up in the histogram; a month without an entry counts 0. */
  function CountFor(g: seq<MonthCount>, m: Month): nat {
    if g == [] then 0
    else if g[0].month == m then g[0].count
    else CountFor(g[1..], m)
  }

  function TotalCount(g: seq<MonthCount>): nat {
    if g == [] then 0 else g[0].count + TotalCount(g[1..])
  }

  lemma {:induction false} BumpKeepsOrder(g: seq<MonthCount>, m: Month)
    requires Ascending(g)
    ensures Ascending(Bump(g, m))
    ensures forall e :: e in Bump(g, m) ==> e.month == m || exists f :: f in g && f.month == e.month
  {
    if g != [] && g[0].month != m && !MonthBefore(m, g[0].month) {
      BumpKeepsOrder(g[1..], m);
      var r := Bump(g[1..], m);
      forall j | 0 <= j < |r| ensures MonthBefore(g[0].month, r[j].month) {
        assert r[j] in r;
        if r[j].month != m {
          var f :| f in g[1..] && f.month == r[j].month;
        }
      }
    }
  }

  lemma {:induction false} BumpCounts(g: seq<MonthCount>, m: Month, k: Month)
    ensures CountFor(Bump(g, m), k) == CountFor(g, k) + (if k == m then 1 else 0) || !Ascending(g)
    ensures TotalCount(Bump(g, m)) == TotalCount(g) + 1
  {
    if g != [] && g[0].month != m && !MonthBefore(m, g[0].month) {
      BumpCounts(g[1..], m, k);
    } else if Ascending(g) && g != [] && MonthBefore(m, g[0].month) && k == m {
      AbsentMonth(g, m);
    }
  }

  lemma {:induction false} AbsentMonth(g: seq<MonthCount>, m: Month)
    requires forall i | 0 <= i < |g| :: g[i].month != m
    ensures CountFor(g, m) == 0
  {
    if g == [] {
    } else {
      AbsentMonth(g[1..], m);
    }
  }

  /** The histogram is in month order, loses no transaction, and counts each month exactly. */
  lemma {:induction false} GroupingIsExact(txs: seq<Transaction>, m: Month)
    ensures Ascending(GroupByMonth(txs))
    ensures TotalCount(GroupByMonth(txs)) == |txs|
    ensures CountFor(GroupByMonth(txs), m) == |Filter((t: Transaction) => MonthOf(t.date) == m, txs)|
  {
    if txs == [] {
    } else {
      GroupingIsExact(txs[1..], m);
      BumpKeepsOrder(GroupByMonth(txs[1..]), MonthOf(txs[0].date));
      BumpCounts(GroupByMonth(txs[1..]), MonthOf(txs[0].date), m);
    }
  }

  // ----- the three statistics -----

  /** Which statistics a manager keeps, with the description filters it was configured with. */
  datatype Kind = TxKind(filterBlik: string, filterAllegro: string)
                | AllegroKind(filterAllegro: string)
                | BlikKind(filterBlik: string)

  datatype Statistics =
    | TxStatistics(total: int, durationMs: int, singlePart: nat, uncategorized: nat, blikNotOk: int, actionReq: int,
                   allegroNotOk: int, categorizable: nat, categorizableByMonth: seq<MonthCount>, timeStamp: int)
    | AllegroStatistics(total: int, durationMs: int, allegro: nat, notProcessed: nat,
                        notProcessedByMonth: seq<MonthCount>, timeStamp: int)
    | BlikStatistics(total: int, durationMs: int, singlePart: nat, uncategorized: nat, exact: nat, partial: nat,
                     notProcessed: nat, notProcessedByMonth: seq<MonthCount>,
                     incompleteByMonth: seq<MonthCount>, timeStamp: int)

  /** `_build_metrics` of the three metrics services. */
  function Build(kind: Kind, snapshot: Snapshot): Statistics {
    match kind
    case TxKind(_, _) => BuildTx(kind, snapshot)
    case AllegroKind(_) => BuildAllegro(kind, snapshot)
    case BlikKind(_) => BuildBlik(kind, snapshot)
  }

  function BuildTx(kind: Kind, snapshot: Snapshot): Statistics
    requires kind.TxKind?
  {
    var uncategorized := FilterOutCategorized(snapshot.transactions);
    var blikOk := FilterByDescription(uncategorized, kind.filterBlik, true, true);
    var actionNotReq := FilterOutTag(blikOk, ACTION_REQ);
    var allegroOk := FilterOutAllegroPending(actionNotReq, kind.filterAllegro);
    TxStatistics(snapshot.metrics.total, snapshot.metrics.durationMs, |snapshot.transactions|, |uncategorized|,
                 |uncategorized| - |blikOk|, |blikOk| - |actionNotReq|, |actionNotReq| - |allegroOk|,
                 |allegroOk|, GroupByMonth(allegroOk), snapshot.fetchedAt)
  }

  function BuildAllegro(kind: Kind, snapshot: Snapshot): Statistics
    requires kind.AllegroKind?
  {
    var filtered := FilterByDescription(snapshot.transactions, kind.filterAllegro, false, false);
    var notProcessed := FilterOutTag(filtered, ALLEGRO_DONE);
    AllegroStatistics(snapshot.metrics.total, snapshot.metrics.durationMs, |filtered|, |notProcessed|,
                      GroupByMonth(notProcessed), snapshot.fetchedAt)
  }

  function BuildBlik(kind: Kind, snapshot: Snapshot): Statistics
    requires kind.BlikKind?
  {
    var uncategorized := FilterOutCategorized(snapshot.transactions);
    var notProcessed := FilterOutTag(FilterByDescription(uncategorized, kind.filterBlik, true, false), BLIK_DONE);
    var incomplete := FilterOutTag(FilterByDescription(uncategorized, kind.filterBlik, false, false), BLIK_DONE);
    BlikStatistics(snapshot.metrics.total, snapshot.metrics.durationMs, |snapshot.transactions|, |uncategorized|,
                   |notProcessed|, |incomplete|, |notProcessed|, GroupByMonth(notProcessed),
                   GroupByMonth(incomplete), snapshot.fetchedAt)
  }

  // ----- the screening list -----

  /** What Firefly returns for an inclusive date range. */
  function InWindow(start: int, end: int): Transaction -> bool {
    (t: Transaction) => start <= Ordinal(t.date) <= end
  }

  function InRange(txs: seq<Transaction>, start: int, end: int): seq<Transaction> {
    Filter(InWindow(start, end), txs)
  }

  /** `get_txs_for_screening` over the transactions Firefly returned. */
  function Screen(txs: seq<Transaction>, filterBlik: string, filterAllegro: string): seq<Transaction> {
    FilterOutAllegroPending(
      FilterOutTag(
        FilterByDescription(FilterOutCategorized(txs), filterBlik, true, true),
        ACTION_REQ),
      filterAllegro)
  }

  function ScreenMonth(ledger: seq<Transaction>, m: Month, filterBlik: string, filterAllegro: string): seq<Transaction>
    requires ValidMonth(m)
  {
    Screen(InRange(ledger, Ordinal(FirstDay(m)), Ordinal(LastDay(m))), filterBlik, filterAllegro)
  }

  /** Restricting to a month before screening or after screening gives the same list. */
  lemma ScreeningCommutesWithMonth(ledger: seq<Transaction>, m: Month, filterBlik: string, filterAllegro: string)
    requires ValidMonth(m)
    ensures ScreenMonth(ledger, m, filterBlik, filterAllegro)
            == Filter((t: Transaction) => MonthOf(t.date) == m, Screen(ledger, filterBlik, filterAllegro))
  {
    var inMonth := (t: Transaction) => MonthOf(t.date) == m;
    var start, end := Ordinal(FirstDay(m)), Ordinal(LastDay(m));
    forall t: Transaction ensures (start <= Ordinal(t.date) <= end) == inMonth(t) {
      MonthIsARange(m, t.date);
    }
    FiltersAgree(InWindow(start, end), inMonth, ledger);
    var p1 := (t: Transaction) => t.category.None?;
    var p2 := KeepDescription(filterBlik, true, true);
    var p3 := (t: Transaction) => ACTION_REQ !in t.tags;
    var p4 := (t: Transaction) => !AllegroPending(t, filterAllegro);
    FiltersCommute(p1, inMonth, ledger);
    FiltersCommute(p2, inMonth, Filter(p1, ledger));
    FiltersCommute(p3, inMonth, Filter(p2, Filter(p1, ledger)));
    FiltersCommute(p4, inMonth, Filter(p3, Filter(p2, Filter(p1, ledger))));
  }

  /** The screening list of a month has as many entries as the statistics promise for that month. */
  lemma ScreeningAgreesWithIndex(snapshot: Snapshot, m: Month, filterBlik: string, filterAllegro: string)
    requires ValidMonth(m)
    ensures |ScreenMonth(snapshot.transactions, m, filterBlik, filterAllegro)|
            == CountFor(Build(TxKind(filterBlik, filterAllegro), snapshot).categorizableByMonth, m)
  {
    ScreeningCommutesWithMonth(snapshot.transactions, m, filterBlik, filterAllegro);
    GroupingIsExact(Screen(snapshot.transactions, filterBlik, filterAllegro), m);
  }

  lemma DescriptionSplits(txs: seq<Transaction>, filter: string, exact: bool)
    ensures |FilterByDescription(txs, filter, exact, true)| + |FilterByDescription(txs, filter, exact, false)| == |txs|
  {
    var keep := KeepDescription(filter, exact, true);
    FilterDropsOrKeeps(keep, txs);
    FiltersAgree(Not(keep), KeepDescription(filter, exact, false), txs);
  }

  lemma OtherFiltersShorten(txs: seq<Transaction>, filterAllegro: string)
    ensures |FilterOutCategorized(txs)| <= |txs|
    ensures |FilterOutTag(txs, ACTION_REQ)| <= |txs|
    ensures |FilterOutAllegroPending(txs, filterAllegro)| <= |txs|
  {
    FilterDropsOrKeeps((t: Transaction) => t.category.None?, txs);
    FilterDropsOrKeeps((t: Transaction) => ACTION_REQ !in t.tags, txs);
    FilterDropsOrKeeps((t: Transaction) => !AllegroPending(t, filterAllegro), txs);
  }

  /** Nothing is lost between the counters: they add up to the uncategorized transactions, the months to the rest. */
  lemma TxCountersAddUp(snapshot: Snapshot, filterBlik: string, filterAllegro: string)
    ensures var s := BuildTx(TxKind(filterBlik, filterAllegro), snapshot);
            && s.blikNotOk >= 0 && s.actionReq >= 0 && s.allegroNotOk >= 0
            && s.blikNotOk + s.actionReq + s.allegroNotOk + s.categorizable == s.uncategorized <= s.singlePart
            && TotalCount(s.categorizableByMonth) == s.categorizable
            && Ascending(s.categorizableByMonth)
            && s.blikNotOk ==
               |FilterByDescription(FilterOutCategorized(snapshot.transactions), filterBlik, true, false)|
  {
    var uncategorized := FilterOutCategorized(snapshot.transactions);
    var blikOk := FilterByDescription(uncategorized, filterBlik, true, true);
    var actionNotReq := FilterOutTag(blikOk, ACTION_REQ);
    OtherFiltersShorten(snapshot.transactions, filterAllegro);
    DescriptionSplits(uncategorized, filterBlik, true);
    OtherFiltersShorten(blikOk, filterAllegro);
    OtherFiltersShorten(actionNotReq, filterAllegro);
    GroupingIsExact(FilterOutAllegroPending(actionNotReq, filterAllegro), Month(1, 1));
  }

  /** Every statistic is stamped with the moment its snapshot was fetched. */
  lemma BuildIsStamped(kind: Kind, snapshot: Snapshot)
    ensures Build(kind, snapshot).timeStamp == snapshot.fetchedAt
  {
  }

  // ----- what the counters count -----

  function CountOf(p: Transaction -> bool, txs: seq<Transaction>): nat {
    |Filter(p, txs)|
  }

  /** The description is the wanted text, or contains it, in any case. */
  predicate Names(t: Transaction, text: string, exact: bool) {
    if exact then Lower(t.description) == Lower(text) else Contains(Lower(t.description), Lower(text))
  }

  lemma FilterOutTwice(p: Transaction -> bool, q: Transaction -> bool, both: Transaction -> bool,
                       rest: Transaction -> bool, txs: seq<Transaction>)
    requires forall t :: both(t) <==> p(t) && q(t)
    requires forall t :: rest(t) <==> q(t) && !p(t)
    ensures Filter(p, Filter(q, txs)) == Filter(both, txs)
    ensures |Filter(q, txs)| - |Filter(p, Filter(q, txs))| == CountOf(rest, txs)
  {
    FiltersCompose(p, q, both, txs);
    FilterDropsOrKeeps(p, Filter(q, txs));
    FiltersCompose(Not(p), q, rest, txs);
  }

  /** Each Allegro counter counts the transactions that one condition describes. */
  lemma AllegroCountersCount(snapshot: Snapshot, filter: string, m: Month)
    ensures var s, txs := Build(AllegroKind(filter), snapshot), snapshot.transactions;
            && s.allegro == CountOf((t: Transaction) => Names(t, filter, false), txs)
            && s.notProcessed == CountOf((t: Transaction) => Names(t, filter, false) && ALLEGRO_DONE !in t.tags, txs)
            && CountFor(s.notProcessedByMonth, m) ==
               CountOf((t: Transaction) =>
                         Names(t, filter, false) && ALLEGRO_DONE !in t.tags && MonthOf(t.date) == m, txs)
  {
    var txs := snapshot.transactions;
    var named := (t: Transaction) => Names(t, filter, false);
    var open := (t: Transaction) => ALLEGRO_DONE !in t.tags;
    var both := (t: Transaction) => Names(t, filter, false) && ALLEGRO_DONE !in t.tags;
    var inMonth := (t: Transaction) => MonthOf(t.date) == m;
    FiltersAgree(KeepDescription(filter, false, false), named, txs);
    FiltersCompose(open, named, both, txs);
    GroupingIsExact(Filter(both, txs), m);
    FiltersCompose(inMonth, both, (t: Transaction) =>
      Names(t, filter, false) && ALLEGRO_DONE !in t.tags && MonthOf(t.date) == m, txs);
  }

  /** So does each Blik counter. */
  lemma BlikCountersCount(snapshot: Snapshot, filter: string, exact: bool, m: Month)
    ensures var s, txs := Build(BlikKind(filter), snapshot), snapshot.transactions;
            var open := (t: Transaction) => t.category.None? && Names(t, filter, exact) && BLIK_DONE !in t.tags;
            && s.singlePart == |txs|
            && s.uncategorized == CountOf((t: Transaction) => t.category.None?, txs)
            && (if exact then s.exact else s.partial) == CountOf(open, txs)
            && s.notProcessed == s.exact
            && CountFor(if exact then s.notProcessedByMonth else s.incompleteByMonth, m) ==
               CountOf((t: Transaction) => open(t) && MonthOf(t.date) == m, txs)
  {
    var txs := snapshot.transactions;
    var free := (t: Transaction) => t.category.None?;
    var named := (t: Transaction) => t.category.None? && Names(t, filter, exact);
    var open := (t: Transaction) => t.category.None? && Names(t, filter, exact) && BLIK_DONE !in t.tags;
    FiltersCompose(KeepDescription(filter, exact, false), free, named, txs);
    FiltersCompose((t: Transaction) => BLIK_DONE !in t.tags, named, open, txs);
    GroupingIsExact(Filter(open, txs), m);
    FiltersCompose((t: Transaction) => MonthOf(t.date) == m, open,
                   (t: Transaction) => open(t) && MonthOf(t.date) == m, txs);
  }

  /** The conditions that the transaction statistics test one after the other. */
  predicate Uncategorized(t: Transaction) {
    t.category.None?
  }

  predicate NoBlik(t: Transaction, filterBlik: string) {
    Uncategorized(t) && !Names(t, filterBlik, true)
  }

  predicate NoAction(t: Transaction, filterBlik: string) {
    NoBlik(t, filterBlik) && ACTION_REQ !in t.tags
  }

  predicate OpenAllegro(t: Transaction, filterBlik: string, filterAllegro: string) {
    NoAction(t, filterBlik) && Contains(Lower(t.description), filterAllegro) && ALLEGRO_DONE !in t.tags
  }

  /** The screening list keeps, in order, the transactions that one condition describes. */
  lemma ScreeningIsOneCondition(txs: seq<Transaction>, filterBlik: string, filterAllegro: string)
    ensures Screen(txs, filterBlik, filterAllegro) ==
            Filter((t: Transaction) => NoAction(t, filterBlik) && !OpenAllegro(t, filterBlik, filterAllegro), txs)
  {
    var free := (t: Transaction) => t.category.None?;
    var noBlik := (t: Transaction) => NoBlik(t, filterBlik);
    var noAction := (t: Transaction) => NoAction(t, filterBlik);
    FiltersCompose(KeepDescription(filterBlik, true, true), free, noBlik, txs);
    FiltersCompose((t: Transaction) => ACTION_REQ !in t.tags, noBlik, noAction, txs);
    FiltersCompose((t: Transaction) => !AllegroPending(t, filterAllegro), noAction,
                   (t: Transaction) => NoAction(t, filterBlik) && !OpenAllegro(t, filterBlik, filterAllegro), txs);
  }

  /** And each counter of the transaction statistics: a transaction counts for the first reason that holds it back. */
  lemma TxCountersCount(snapshot: Snapshot, filterBlik: string, filterAllegro: string)
    ensures var s, txs := Build(TxKind(filterBlik, filterAllegro), snapshot), snapshot.transactions;
            && s.singlePart == |txs|
            && s.uncategorized == CountOf((t: Transaction) => Uncategorized(t), txs)
            && s.blikNotOk == CountOf((t: Transaction) => Uncategorized(t) && Names(t, filterBlik, true), txs)
            && s.actionReq == CountOf((t: Transaction) => NoBlik(t, filterBlik) && ACTION_REQ in t.tags, txs)
            && s.allegroNotOk == CountOf((t: Transaction) => OpenAllegro(t, filterBlik, filterAllegro), txs)
            && s.categorizable ==
               CountOf((t: Transaction) => NoAction(t, filterBlik) && !OpenAllegro(t, filterBlik, filterAllegro), txs)
  {
    ScreeningIsOneCondition(snapshot.transactions, filterBlik, filterAllegro);
    var txs := snapshot.transactions;
    var free := (t: Transaction) => Uncategorized(t);
    var noBlik := (t: Transaction) => NoBlik(t, filterBlik);
    var noAction := (t: Transaction) => NoAction(t, filterBlik);
    FiltersAgree((t: Transaction) => t.category.None?, free, txs);
    FilterOutTwice(KeepDescription(filterBlik, true, true), free, noBlik,
                   (t: Transaction) => Uncategorized(t) && Names(t, filterBlik, true), txs);
    FilterOutTwice((t: Transaction) => ACTION_REQ !in t.tags, noBlik, noAction,
                   (t: Transaction) => NoBlik(t, filterBlik) && ACTION_REQ in t.tags, txs);
    FilterOutTwice((t: Transaction) => !AllegroPending(t, filterAllegro), noAction,
                   (t: Transaction) => NoAction(t, filterBlik) && !OpenAllegro(t, filterBlik, filterAllegro),
                   (t: Transaction) => OpenAllegro(t, filterBlik, filterAllegro), txs);
  }
}
